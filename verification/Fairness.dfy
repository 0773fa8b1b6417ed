/** When the calls of the consumers do not overlap, backlogged clients take turns; hence the airtime
    and throughput bounds. */
module Fairness {
  import opened ActiveIds
  import opened Airtime
  import opened Threads
  import opened ThreadSafety
  import opened Backlog
  import opened Delivery
  import opened Ledger

  // ----- taking turns

  predicate ConsumerStep(e: Event) {
    e.Remove? || e.Lock? || e.Peek? || e.Pop? || e.ConsumerAppend? || e.Unlock?
  }

  /** Any number of consumers, but none takes an id off the list while another has one in hand. */
  ghost predicate OneCallAtATime(cfg: Config, r: Run)
    requires Legal(cfg, r)
  {
    r.Then? ==> (r.e.Remove? ==> End(cfg, r.prev).consumers == map[]) && OneCallAtATime(cfg, r.prev)
  }

  /** Thread t is the only consumer that moves. */
  predicate OnlyConsumer(r: Run, t: nat) {
    r.Then? ==> (ConsumerStep(r.e) ==> r.e.t == t) && OnlyConsumer(r.prev, t)
  }

  /** A single consumer is the simplest case. */
  lemma {:induction false} OneConsumerNeverOverlaps(cfg: Config, r: Run, t: nat)
    requires Legal(cfg, r) && OnlyConsumer(r, t) && First(r).consumers == map[]
    ensures End(cfg, r).consumers.Keys <= {t} && OneCallAtATime(cfg, r)
  {
    match r
    case Start(_) =>
    case Then(prev, e) =>
      OneConsumerNeverOverlaps(cfg, prev, t);
      OneConsumerStep(cfg, End(cfg, prev), e, t);
  }

  /** The consumer inside a call; any when there is none. */
  ghost function Sole(s: State): (t: nat)
    ensures forall u :: s.consumers.Keys == {u} ==> t == u
  {
    if s.consumers.Keys == {} then 0 else Any(s.consumers.Keys)
  }

  /** The consumer inside the call that step e begins or is part of. */
  ghost function Mover(s: State, e: Event): nat { if e.Remove? then e.t else Sole(s) }

  lemma OneMover(cfg: Config, s: State, e: Event)
    requires Enabled(s, e) && s.consumers.Keys <= {Sole(s)} && (e.Remove? ==> s.consumers == map[])
    ensures ConsumerStep(e) ==> e.t == Mover(s, e)
    ensures s.consumers.Keys <= {Mover(s, e)} && Next(cfg, s, e).consumers.Keys <= {Mover(s, e)}
    ensures s.consumers != map[] ==> Sole(s) == Mover(s, e)
    ensures Next(cfg, s, e).consumers != map[] ==> Sole(Next(cfg, s, e)) == Mover(s, e)
    ensures Next(cfg, s, e).consumers.Keys <= {Sole(Next(cfg, s, e))}
  {
    OneConsumerStep(cfg, s, e, Mover(s, e));
    OneKey(s.consumers.Keys, Mover(s, e));
    OneKey(Next(cfg, s, e).consumers.Keys, Mover(s, e));
  }

  lemma OneKey(keys: set<nat>, t: nat)
    requires keys <= {t}
    ensures keys == {} || keys == {t}
  {
  }

  lemma OneConsumerStep(cfg: Config, s: State, e: Event, t: nat)
    requires Enabled(s, e) && s.consumers.Keys <= {t} && (ConsumerStep(e) ==> e.t == t)
    ensures Next(cfg, s, e).consumers.Keys <= {t}
  {
  }

  /** x is in the list, and in front of y if y is there too. */
  ghost predicate Ahead(list: seq<int>, x: int, y: int) {
    && x in list
    && forall a, b :: 0 <= a < |list| && 0 <= b < |list| && list[a] == x && list[b] == y ==> a < b
  }

  /** Consumer t has taken x off the list and not yet put it back. */
  predicate Carries(s: State, t: nat, x: int) {
    t in s.consumers && WillLook(s.consumers[t], x)
  }

  /** x circulates, and while it is carried y waits in front of it. */
  ghost predicate InTurn(s: State, t: nat, x: int, y: int) {
    && (x in s.list || Carries(s, t, x))
    && (Carries(s, t, x) ==> Ahead(s.list, y, x))
  }

  ghost predicate TakingTurns(s: State, t: nat, i: int, j: int) {
    && s.consumers.Keys <= {t}
    && InTurn(s, t, i, j) && InTurn(s, t, j, i)
  }

  /** Of the two, i is the next to be served. */
  ghost predicate NextUp(s: State, t: nat, i: int, j: int) {
    if t in s.consumers && s.consumers[t] == Holding(i) then true
    else if t in s.consumers && s.consumers[t] == Holding(j) then false
    else Ahead(s.list, i, j)
  }

  ghost function Phase(s: State, t: nat, i: int, j: int): int {
    if NextUp(s, t, i, j) then 0 else 1
  }

  lemma AheadAfterTail(list: seq<int>, x: int, y: int)
    requires Distinct(list) && list != [] && list[0] != x
    ensures Ahead(list, x, y) ==> Ahead(list[1..], x, y)
    ensures list[0] != y ==> (Ahead(list[1..], x, y) ==> Ahead(list, x, y))
    ensures list[0] == y ==> !Ahead(list, x, y)
    ensures list[0] == y && x in list ==> Ahead(list[1..], x, y)
  {
  }

  lemma AheadAfterAppend(list: seq<int>, id: int, x: int, y: int)
    requires Distinct(list) && x in list && x != y
    ensures Ahead(AppendId(list, id), x, y) <==> Ahead(list, x, y)
  {
    var longer := AppendId(list, id);
    assert forall k :: 0 <= k < |list| ==> longer[k] == list[k];
    if Ahead(longer, x, y) {
      forall a, b | 0 <= a < |list| && 0 <= b < |list| && list[a] == x && list[b] == y ensures a < b {
        assert longer[a] == x && longer[b] == y;
      }
    }
  }

  lemma OneIsAhead(list: seq<int>, x: int, y: int)
    requires Distinct(list) && x != y && (x in list || y in list)
    ensures Ahead(list, x, y) <==> !Ahead(list, y, x)
  {
  }

  /** A client put at the back is behind everybody already there. */
  lemma AppendedIsBehind(list: seq<int>, x: int, y: int)
    requires Distinct(list) && y in list && x !in list
    ensures Ahead(AppendId(list, x), y, x)
  {
  }

  ghost predicate Ready(s: State, e: Event, t: nat, i: int, j: int) {
    && Distinct(s.list) && Enabled(s, e) && s.route.Away? && !e.RouteLock?
    && (ConsumerStep(e) ==> e.t == t)
    && i != j && i in s.stats && j in s.stats
    && !SeesEmpty(s, e, i) && !SeesEmpty(s, e, j)
    && TakingTurns(s, t, i, j)
  }

  lemma InTurnRemove(cfg: Config, s: State, e: Event, t: nat, i: int, j: int)
    requires Ready(s, e, t, i, j) && e.Remove?
    ensures InTurn(Next(cfg, s, e), t, i, j)
  {
  }

  lemma InTurnAppend(cfg: Config, s: State, e: Event, t: nat, i: int, j: int)
    requires Ready(s, e, t, i, j) && (e.ProducerAppend? || e.ConsumerAppend?)
    ensures InTurn(Next(cfg, s, e), t, i, j)
  {
  }

  lemma InTurnStep(cfg: Config, s: State, e: Event, t: nat, i: int, j: int)
    requires Ready(s, e, t, i, j)
    ensures InTurn(Next(cfg, s, e), t, i, j)
  {
    if e.Remove? {
      InTurnRemove(cfg, s, e, t, i, j);
    } else if e.ProducerAppend? || e.ConsumerAppend? {
      InTurnAppend(cfg, s, e, t, i, j);
    } else {
      assert Carries(Next(cfg, s, e), t, i) <==> Carries(s, t, i);
    }
  }

  /** How the lead of i over j in services changes. */
  function LeadChange(s: State, e: Event, i: int, j: int): int {
    (if Serves(s, e, i) then 1 else 0) - (if Serves(s, e, j) then 1 else 0)
  }

  lemma PhaseLock(cfg: Config, s: State, e: Event, t: nat, i: int, j: int)
    requires Ready(s, e, t, i, j) && e.Lock?
    ensures LeadChange(s, e, i, j) == Phase(Next(cfg, s, e), t, i, j) - Phase(s, t, i, j)
  {
  }

  lemma PhaseAppend(cfg: Config, s: State, e: Event, t: nat, i: int, j: int)
    requires Ready(s, e, t, i, j) && (e.ConsumerAppend? || e.ProducerAppend?)
    ensures Phase(Next(cfg, s, e), t, i, j) == Phase(s, t, i, j)
  {
    AppendKeepsOrder(s, t, i, j, if e.ConsumerAppend? then s.consumers[t].id else s.producers[e.p]);
  }

  lemma PhaseRemove(cfg: Config, s: State, e: Event, t: nat, i: int, j: int)
    requires Ready(s, e, t, i, j) && e.Remove?
    ensures Phase(Next(cfg, s, e), t, i, j) == Phase(s, t, i, j)
  {
    if s.list[0] != i {
      AheadAfterTail(s.list, i, j);
    }
  }

  lemma PhaseStep(cfg: Config, s: State, e: Event, t: nat, i: int, j: int)
    requires Ready(s, e, t, i, j)
    ensures LeadChange(s, e, i, j) == Phase(Next(cfg, s, e), t, i, j) - Phase(s, t, i, j)
  {
    if e.Lock? {
      PhaseLock(cfg, s, e, t, i, j);
    } else if e.ConsumerAppend? || e.ProducerAppend? {
      PhaseAppend(cfg, s, e, t, i, j);
    } else if e.Remove? {
      PhaseRemove(cfg, s, e, t, i, j);
    }
  }

  lemma AppendKeepsOrder(s: State, t: nat, i: int, j: int, id: int)
    requires Distinct(s.list) && i != j && TakingTurns(s, t, i, j)
    ensures Ahead(AppendId(s.list, id), i, j) <==> Ahead(s.list, i, j)
  {
    if i in s.list {
      AheadAfterAppend(s.list, id, i, j);
    } else {
      AheadAfterAppend(s.list, id, j, i);
      OneIsAhead(s.list, i, j);
      if id == i {
        AppendedIsBehind(s.list, i, j);
      }
    }
  }

  lemma ListDistinctAlways(cfg: Config, r: Run)
    requires Legal(cfg, r) && Inv(cfg, First(r))
    ensures Distinct(End(cfg, r).list)
  {
    InvAlways(cfg, r);
  }

  /** Both clients are in the list and every consumer is between two Dequeue calls. */
  predicate BothListed(s: State, i: int, j: int) {
    && i != j && i in s.list && j in s.list
    && s.consumers == map[] && s.route.Away?
    && i in s.stats && j in s.stats
  }

  /** Nothing but the two clients' own backlog is assumed of the interval: any number of
      threads, any other clients coming and going. */
  ghost predicate BothBacklogged(cfg: Config, r: Run, i: int, j: int) {
    && Legal(cfg, r) && BothListed(First(r), i, j) && NoRouteUpdate(r)
    && NeverSeenEmpty(cfg, r, i) && NeverSeenEmpty(cfg, r, j)
  }

  /** And the consumers' calls do not overlap. */
  ghost predicate Backlogged(cfg: Config, r: Run, i: int, j: int) {
    BothBacklogged(cfg, r, i, j) && OneCallAtATime(cfg, r)
  }

  lemma {:induction false} TurnsInvariant(cfg: Config, r: Run, i: int, j: int)
    requires Inv(cfg, First(r)) && Backlogged(cfg, r, i, j)
    ensures TakingTurns(End(cfg, r), Sole(End(cfg, r)), i, j)
    ensures Services(cfg, r, i) - Services(cfg, r, j)
         == Phase(End(cfg, r), Sole(End(cfg, r)), i, j) - Phase(First(r), Sole(First(r)), i, j)
  {
    match r
    case Start(_) =>
    case Then(prev, e) =>
      TurnsInvariant(cfg, prev, i, j);
      ListDistinctAlways(cfg, prev);
      RatesFixed(cfg, prev, i);
      RatesFixed(cfg, prev, j);
      TurnStep(cfg, End(cfg, prev), e, i, j);
  }

  lemma SameTurns(s: State, t: nat, u: nat, i: int, j: int)
    requires s.consumers.Keys <= {t} && s.consumers.Keys <= {u} && (s.consumers != map[] ==> t == u)
    ensures TakingTurns(s, t, i, j) <==> TakingTurns(s, u, i, j)
    ensures Phase(s, t, i, j) == Phase(s, u, i, j)
  {
    if s.consumers == map[] {
      assert t !in s.consumers && u !in s.consumers;
    }
  }

  lemma TurnStep(cfg: Config, s: State, e: Event, i: int, j: int)
    requires Distinct(s.list) && Enabled(s, e) && s.route.Away? && !e.RouteLock?
    requires e.Remove? ==> s.consumers == map[]
    requires i != j && i in s.stats && j in s.stats && !SeesEmpty(s, e, i) && !SeesEmpty(s, e, j)
    requires TakingTurns(s, Sole(s), i, j)
    ensures var n := Next(cfg, s, e);
      && TakingTurns(n, Sole(n), i, j)
      && LeadChange(s, e, i, j) == Phase(n, Sole(n), i, j) - Phase(s, Sole(s), i, j)
  {
    var n, t := Next(cfg, s, e), Mover(s, e);
    OneMover(cfg, s, e);
    SameTurns(s, Sole(s), t, i, j);
    InTurnStep(cfg, s, e, t, i, j);
    InTurnStep(cfg, s, e, t, j, i);
    PhaseStep(cfg, s, e, t, i, j);
    SameTurns(n, t, Sole(n), i, j);
  }

  /** Two backlogged clients are taken up equally often, give or take one. */
  lemma ServicesDifferByAtMostOne(cfg: Config, past: Run, r: Run, i: int, j: int)
    requires Continues(cfg, past, r) && Backlogged(cfg, r, i, j)
    ensures -1 <= Services(cfg, r, i) - Services(cfg, r, j) <= 1
  {
    InvFromConstructor(cfg, past);
    TurnsInvariant(cfg, r, i, j);
  }

  // ----- airtime

  /** No packet of the client, queued at the start or accepted since, takes longer than m. */
  ghost predicate DurationsWithin(cfg: Config, r: Run, id: int, m: nat)
    requires Legal(cfg, r)
  {
    forall pkt :: pkt in QueueOf(First(r), id) + Accepted(cfg, r, id) ==>
      Duration(|pkt|, StatusOf(First(r), id).throughput) <= m
  }

  /** Between services a client carries less than one packet's worth of deficit. */
  lemma DeficitWithin(cfg: Config, past: Run, r: Run, id: int, m: nat)
    requires Continues(cfg, past, r) && DurationsWithin(cfg, r, id, m)
    requires First(r).route.Away? && NoRouteUpdate(r) && id in First(r).stats
    requires First(r).lock == Free && End(cfg, r).lock == Free
    ensures 0.0 <= First(r).stats[id].counter <= m as real
    ensures 0.0 <= StatusOf(End(cfg, r), id).counter <= m as real
  {
    DeficitBelowHead(cfg, past, id);
    RatesFixed(cfg, r, id);
    InvFromConstructor(cfg, past);
    InvAlways(cfg, r);
    QueueConserved(cfg, r, id);
    var all := QueueOf(First(r), id) + Accepted(cfg, r, id);
    if QueueOf(First(r), id) != [] {
      assert all[0] == QueueOf(First(r), id)[0];
    }
    if QueueOf(End(cfg, r), id) != [] {
      assert all[|Packets(Removed(cfg, r, id))|] == QueueOf(End(cfg, r), id)[0];
    }
  }

  /** What a client was sent, within one packet of its services times its quantum. */
  lemma AirtimeNearCredit(cfg: Config, past: Run, r: Run, id: int, m: nat)
    requires Continues(cfg, past, r) && DurationsWithin(cfg, r, id, m)
    requires First(r).route.Away? && NoRouteUpdate(r) && id in First(r).stats
    requires First(r).lock == Free && End(cfg, r).lock == Free
    requires NeverSeenEmpty(cfg, r, id)
    ensures -(m as real)
         <= AirtimeSent(cfg, r, id) as real - Times(Services(cfg, r, id), First(r).stats[id].quantum)
         <= m as real
  {
    InvFromConstructor(cfg, past);
    DeficitWithin(cfg, past, r, id, m);
    AirtimeIdentity(cfg, r, id);
    CreditIsServicesTimesQuantum(cfg, r, id);
  }

  lemma NearQuotient(sent: nat, k: nat, q: real, m: nat)
    requires q > 0.0
    requires -(m as real) <= sent as real - Times(k, q) <= m as real
    ensures k as real - m as real / q <= sent as real / q <= k as real + m as real / q
  {
  }

  lemma QuotientOrder(a: real, b: real, q: real)
    requires q > 0.0 && a * q <= b * q
    ensures a <= b
  {
  }

  /** Airtime fairness: in units of its own quantum, no backlogged client gets ahead of another
      by more than one service and one packet each. */
  lemma {:induction false} AirtimeFair(cfg: Config, past: Run, r: Run, i: int, j: int, mi: nat, mj: nat)
    requires Continues(cfg, past, r) && Backlogged(cfg, r, i, j)
    requires First(r).lock == Free && End(cfg, r).lock == Free
    requires DurationsWithin(cfg, r, i, mi) && DurationsWithin(cfg, r, j, mj)
    requires First(r).stats[i].quantum > 0.0 && First(r).stats[j].quantum > 0.0
    ensures var qi, qj := First(r).stats[i].quantum, First(r).stats[j].quantum;
      var bound := 1.0 + mi as real / qi + mj as real / qj;
      -bound <= AirtimeSent(cfg, r, i) as real / qi - AirtimeSent(cfg, r, j) as real / qj <= bound
  {
    ServicesDifferByAtMostOne(cfg, past, r, i, j);
    AirtimeNearCredit(cfg, past, r, i, mi);
    AirtimeNearCredit(cfg, past, r, j, mj);
    NearQuotient(AirtimeSent(cfg, r, i), Services(cfg, r, i), First(r).stats[i].quantum, mi);
    NearQuotient(AirtimeSent(cfg, r, j), Services(cfg, r, j), First(r).stats[j].quantum, mj);
  }
}
