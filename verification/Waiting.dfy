/** How many Dequeue calls a packet can wait, and how many packets one call can send. */
module Waiting {
  import opened ActiveIds
  import opened Airtime
  import opened Threads
  import opened ThreadSafety
  import opened Backlog
  import opened Delivery
  import opened Ledger
  import opened Fairness

  // ----- counting quanta

  function Ceil(x: real): int { -((-x).Floor) }

  /** How many quanta q are still missing to cover a shortfall. */
  function Need(shortfall: real, q: real): (k: nat)
    requires q > 0.0
    ensures k == 0 <==> shortfall <= 0.0
  {
    if shortfall <= 0.0 then 0 else
      PositiveQuotient(shortfall, q);
      Ceil(shortfall / q)
  }

  lemma PositiveQuotient(x: real, q: real)
    requires x > 0.0 && q > 0.0
    ensures x / q > 0.0
  {
  }

  /** Services needed: at least one. */
  function ServicesNeeded(shortfall: real, q: real): (k: nat)
    requires q > 0.0
    ensures k >= 1
  {
    if Need(shortfall, q) == 0 then 1 else Need(shortfall, q)
  }

  lemma SameQuotient(a: real, b: real, q: real)
    requires q > 0.0 && a * q == b * q
    ensures a == b
  {
  }

  lemma QuantumPaysOneRound(x: real, q: real)
    requires q > 0.0
    ensures Need(x - q, q) == ServicesNeeded(x, q) - 1
  {
    var y := x / q;
    assert y * q == x;
    SameQuotient((x - q) / q, y - 1.0, q);
    if x > q {
      assert y > 1.0;
      assert (-(y - 1.0)).Floor == (-y).Floor + 1;
    } else if x > 0.0 {
      assert 0.0 < y <= 1.0;
      assert (-y).Floor == -1;
    }
  }

  /** ServicesNeeded is the least number of quanta, at least one, that covers the shortfall. */
  lemma ServicesNeededIsLeast(x: real, q: real, k: nat)
    requires q > 0.0 && k >= 1
    ensures x <= Times(k, q) <==> k >= ServicesNeeded(x, q)
  {
    var y := x / q;
    assert y * q == x;
    if x > 0.0 {
      if x <= Times(k, q) {
        QuotientOrder(y, k as real, q);
      } else {
        MulOrderAny(k as real, y, q);
      }
    }
  }

  lemma MulOrderAny(a: real, b: real, q: real)
    requires q > 0.0 && a * q < b * q
    ensures a < b
  {
  }

  // ----- who stands ahead in the list

  /** How many of the ids belong to known clients. A call that takes an unknown one does not return
      with it. */
  function KnownAmong(ids: seq<int>, known: set<int>): (n: nat)
    ensures n <= |ids|
  {
    if ids == [] then 0 else (if ids[0] in known then 1 else 0) + KnownAmong(ids[1..], known)
  }

  /** Known clients in front of the first place of id. */
  function KnownBefore(list: seq<int>, id: int, known: set<int>): nat {
    if list == [] || list[0] == id then 0
    else (if list[0] in known then 1 else 0) + KnownBefore(list[1..], id, known)
  }

  lemma {:induction false} KnownBeforeAt(list: seq<int>, p: nat, known: set<int>)
    requires Distinct(list) && p < |list|
    ensures KnownBefore(list, list[p], known) == KnownAmong(list[..p], known)
  {
    if p > 0 {
      KnownBeforeAt(list[1..], p - 1, known);
      assert list[..p][1..] == list[1..][..p - 1];
    }
  }

  lemma {:induction false} KnownBeforeAppend(list: seq<int>, x: int, id: int, known: set<int>)
    requires id in list
    ensures KnownBefore(AppendId(list, x), id, known) == KnownBefore(list, id, known)
  {
    if list[0] != id && x !in list {
      assert (list + [x])[1..] == list[1..] + [x];
      KnownBeforeAppend(list[1..], x, id, known);
    }
  }

  /** At most all known clients but id itself. */
  lemma {:induction false} KnownBeforeFits(list: seq<int>, id: int, known: set<int>)
    requires Distinct(list) && id in known
    ensures KnownBefore(list, id, known) < |known|
    decreases |list|
  {
    if list != [] && list[0] != id {
      var rest := known - {list[0]};
      KnownBeforeFits(list[1..], id, rest);
      SameAmongOthers(list[1..], id, known, list[0]);
    } else {
      assert |known| == |known - {id}| + 1;
    }
  }

  lemma {:induction false} SameAmongOthers(list: seq<int>, id: int, known: set<int>, x: int)
    requires x !in list
    ensures KnownBefore(list, id, known - {x}) == KnownBefore(list, id, known)
  {
    if list != [] && list[0] != id {
      SameAmongOthers(list[1..], id, known, x);
    }
  }

  // ----- the waiting packet

  /** Client id, one of the clients known, has a head packet of duration d waiting, and no consumer
      but t is inside a call. */
  ghost predicate HeadWaits(s: State, t: nat, id: int, d: nat, q: real, known: set<int>) {
    && Distinct(s.list) && s.stats.Keys == known
    && s.consumers.Keys <= {t} && s.route.Away?
    && id in s.stats && s.stats[id].quantum == q
    && QueueOf(s, id) != [] && HeadCost(s, id) == d
    && (id in s.list || Carries(s, t, id))
  }

  /** The calls of so many rounds, each serving up to n clients. */
  function Turns(rounds: nat, n: nat): nat { rounds * n }

  lemma OneRoundMore(rounds: nat, n: nat)
    ensures Turns(rounds + 1, n) == Turns(rounds, n) + n
  {
  }

  /** Calls still to return before the packet is sent, counted for an id in the list. */
  ghost function Queueing(s: State, id: int, d: nat, q: real, known: set<int>): nat
    requires q > 0.0 && id in s.list && id in s.stats
  {
    KnownBefore(s.list, id, known) + 1 + Turns(ServicesNeeded(d as real - s.stats[id].counter, q) - 1, |known|)
  }

  /** The same, for any moment of the run. */
  ghost function CallsLeft(s: State, t: nat, id: int, d: nat, q: real, known: set<int>): (calls: nat)
    requires q > 0.0 && HeadWaits(s, t, id, d, q, known)
    ensures calls >= 1
  {
    var shortfall := d as real - s.stats[id].counter;
    if t !in s.consumers || s.consumers[t].Discarding? || s.consumers[t].id !in known then Queueing(s, id, d, q, known)
    else if !Carries(s, t, id) then 1 + Queueing(s, id, d, q, known)
    else if s.consumers[t].Holding? then 1 + Turns(ServicesNeeded(shortfall, q) - 1, |known|)
    else 1 + Turns(Need(shortfall, q), |known|)
  }

  predicate CallReturns(s: State, e: Event) {
    e.Unlock? && e.t in s.consumers && s.consumers[e.t].Returning?
  }

  /** Dequeue calls that return during the run. */
  ghost function CallsReturned(cfg: Config, r: Run): nat
    requires Legal(cfg, r)
  {
    match r
    case Start(_) => 0
    case Then(prev, e) => CallsReturned(cfg, prev) + (if CallReturns(End(cfg, prev), e) then 1 else 0)
  }

  ghost predicate Quiet(s: State, e: Event, t: nat, id: int) {
    && Enabled(s, e) && !e.RouteLock? && (ConsumerStep(e) ==> e.t == t)
    && !Sends(s, e, id)
  }

  /** The head of the client's queue stays what it is. */
  lemma HeadStays(cfg: Config, s: State, e: Event, id: int)
    requires Enabled(s, e) && s.route.Away? && !e.RouteLock? && !Sends(s, e, id)
    requires id in s.stats && QueueOf(s, id) != []
    ensures var s' := Next(cfg, s, e);
      && s'.route.Away? && id in s'.stats && s'.stats[id].quantum == s.stats[id].quantum
      && QueueOf(s', id) != [] && HeadCost(s', id) == HeadCost(s, id)
  {
  }

  /** The client goes on circulating. */
  lemma StillCirculates(cfg: Config, s: State, e: Event, t: nat, id: int)
    requires Enabled(s, e) && (ConsumerStep(e) ==> e.t == t) && QueueOf(s, id) != [] && id in s.stats
    requires s.consumers.Keys <= {t} && (id in s.list || Carries(s, t, id))
    ensures var s' := Next(cfg, s, e);
      s'.consumers.Keys <= {t} && (id in s'.list || Carries(s', t, id))
  {
    if e.Remove? && id in s.list && s.list[0] != id {
      assert id in s.list[1..];
    }
  }

  /** No step but a route update makes clients known or unknown. */
  lemma KnownStays(cfg: Config, s: State, e: Event)
    requires ConsumersOk(s) && Enabled(s, e) && s.route.Away? && !e.RouteLock?
    ensures Next(cfg, s, e).stats.Keys == s.stats.Keys
  {
  }

  lemma HeadStillWaits(cfg: Config, s: State, e: Event, t: nat, id: int, d: nat, q: real, known: set<int>)
    requires HeadWaits(s, t, id, d, q, known) && Quiet(s, e, t, id) && ConsumersOk(s)
    requires Distinct(Next(cfg, s, e).list)
    ensures HeadWaits(Next(cfg, s, e), t, id, d, q, known)
  {
    HeadStays(cfg, s, e, id);
    StillCirculates(cfg, s, e, t, id);
    KnownStays(cfg, s, e);
  }

  /** One more round for a client that goes to the back of the list. */
  lemma BackOfTheList(list: seq<int>, id: int, x: real, q: real, known: set<int>)
    requires Distinct(list) && id in known && q > 0.0 && x > 0.0
    ensures KnownBefore(list, id, known) + 1 + Turns(ServicesNeeded(x, q) - 1, |known|) <= Turns(Need(x, q), |known|)
  {
    KnownBeforeFits(list, id, known);
    OneRoundMore(Need(x, q) - 1, |known|);
  }

  /** A step that starts and ends with the same packet at the head of the client's queue. */
  ghost predicate WaitStep(cfg: Config, s: State, e: Event, t: nat, id: int, d: nat, q: real, known: set<int>) {
    && q > 0.0 && HeadWaits(s, t, id, d, q, known) && Quiet(s, e, t, id) && ConsumersOk(s)
    && HeadWaits(Next(cfg, s, e), t, id, d, q, known)
  }

  lemma CallsLeftRemove(cfg: Config, s: State, e: Event, t: nat, id: int, d: nat, q: real, known: set<int>)
    requires WaitStep(cfg, s, e, t, id, d, q, known) && e.Remove?
    ensures CallsLeft(Next(cfg, s, e), t, id, d, q, known) <= CallsLeft(s, t, id, d, q, known)
  {
  }

  lemma CallsLeftAppend(cfg: Config, s: State, e: Event, t: nat, id: int, d: nat, q: real, known: set<int>)
    requires WaitStep(cfg, s, e, t, id, d, q, known) && (e.ProducerAppend? || e.ConsumerAppend?)
    ensures CallsLeft(Next(cfg, s, e), t, id, d, q, known) <= CallsLeft(s, t, id, d, q, known)
  {
    if e.ProducerAppend? {
      if id in s.list {
        KnownBeforeAppend(s.list, s.producers[e.p], id, known);
      }
    } else if s.consumers[t].id == id {
      BackOfTheList(Next(cfg, s, e).list, id, d as real - s.stats[id].counter, q, known);
    } else {
      KnownBeforeAppend(s.list, s.consumers[t].id, id, known);
    }
  }

  lemma CallsLeftLock(cfg: Config, s: State, e: Event, t: nat, id: int, d: nat, q: real, known: set<int>)
    requires WaitStep(cfg, s, e, t, id, d, q, known) && e.Lock?
    ensures CallsLeft(Next(cfg, s, e), t, id, d, q, known) <= CallsLeft(s, t, id, d, q, known)
  {
    if s.consumers[t].id == id {
      QuantumPaysOneRound(d as real - s.stats[id].counter, q);
    }
  }

  lemma CallsLeftLoop(cfg: Config, s: State, e: Event, t: nat, id: int, d: nat, q: real, known: set<int>)
    requires WaitStep(cfg, s, e, t, id, d, q, known) && (e.Peek? || e.Pop?)
    ensures CallsLeft(Next(cfg, s, e), t, id, d, q, known) <= CallsLeft(s, t, id, d, q, known)
  {
  }

  lemma CallsLeftStep(cfg: Config, s: State, e: Event, t: nat, id: int, d: nat, q: real, known: set<int>)
    requires WaitStep(cfg, s, e, t, id, d, q, known)
    ensures CallsLeft(Next(cfg, s, e), t, id, d, q, known) + (if CallReturns(s, e) then 1 else 0)
         <= CallsLeft(s, t, id, d, q, known)
  {
    if e.Remove? {
      CallsLeftRemove(cfg, s, e, t, id, d, q, known);
    } else if e.ProducerAppend? || e.ConsumerAppend? {
      CallsLeftAppend(cfg, s, e, t, id, d, q, known);
    } else if e.Lock? {
      CallsLeftLock(cfg, s, e, t, id, d, q, known);
    } else if e.Peek? || e.Pop? {
      CallsLeftLoop(cfg, s, e, t, id, d, q, known);
    }
  }

  /** Which consumer is asked about does not matter while none is inside a call. */
  lemma SameWait(s: State, t: nat, u: nat, id: int, d: nat, q: real, known: set<int>)
    requires q > 0.0 && s.consumers.Keys <= {t} && s.consumers.Keys <= {u} && (s.consumers != map[] ==> t == u)
    requires HeadWaits(s, t, id, d, q, known)
    ensures HeadWaits(s, u, id, d, q, known) && CallsLeft(s, t, id, d, q, known) == CallsLeft(s, u, id, d, q, known)
  {
    if s.consumers == map[] {
      assert t !in s.consumers && u !in s.consumers;
    }
  }

  lemma RunDownStep(cfg: Config, s: State, e: Event, id: int, d: nat, q: real, known: set<int>)
    requires Enabled(s, e) && !e.RouteLock? && !Sends(s, e, id) && (e.Remove? ==> s.consumers == map[])
    requires ConsumersOk(s) && Distinct(Next(cfg, s, e).list)
    requires q > 0.0 && HeadWaits(s, Sole(s), id, d, q, known)
    ensures var n := Next(cfg, s, e);
      && HeadWaits(n, Sole(n), id, d, q, known)
      && CallsLeft(n, Sole(n), id, d, q, known) + (if CallReturns(s, e) then 1 else 0)
         <= CallsLeft(s, Sole(s), id, d, q, known)
  {
    var n, t := Next(cfg, s, e), Mover(s, e);
    OneMover(cfg, s, e);
    SameWait(s, Sole(s), t, id, d, q, known);
    HeadStillWaits(cfg, s, e, t, id, d, q, known);
    CallsLeftStep(cfg, s, e, t, id, d, q, known);
    SameWait(n, t, Sole(n), id, d, q, known);
  }

  /** While nothing has been sent to the client, each returning call uses up one of those left. */
  lemma {:induction false} CallsRunDown(cfg: Config, r: Run, id: int, d: nat, q: real, known: set<int>)
    requires Legal(cfg, r) && Inv(cfg, First(r)) && OneCallAtATime(cfg, r) && NoRouteUpdate(r)
    requires q > 0.0 && HeadWaits(First(r), Sole(First(r)), id, d, q, known)
    requires PacketsSent(cfg, r, id) == 0
    ensures HeadWaits(End(cfg, r), Sole(End(cfg, r)), id, d, q, known)
    ensures CallsLeft(End(cfg, r), Sole(End(cfg, r)), id, d, q, known) + CallsReturned(cfg, r)
         <= CallsLeft(First(r), Sole(First(r)), id, d, q, known)
  {
    match r
    case Start(_) =>
    case Then(prev, e) =>
      CallsRunDown(cfg, prev, id, d, q, known);
      ConsumersOkAlways(cfg, prev);
      ListDistinctAlways(cfg, r);
      RunDownStep(cfg, End(cfg, prev), e, id, d, q, known);
  }

  /** Between calls, somebody at position p of the list waits for a packet. */
  predicate WaitsAt(s: State, p: nat) {
    && s.consumers == map[] && s.route.Away?
    && p < |s.list| && s.list[p] in s.stats && s.stats[s.list[p]].quantum > 0.0
    && QueueOf(s, s.list[p]) != []
  }

  /** a + 1 + (k - 1) * n, for a known clients ahead, k = max(1, ceil((d - c) / q)) services of
      quantum q that pay for a head packet of duration d on top of the counter c, and n known
      clients. Ids of clients that an update has dropped do not count. */
  function CallsNeeded(s: State, p: nat): (calls: nat)
    requires WaitsAt(s, p)
    ensures calls >= 1
  {
    var id := s.list[p];
    var k := ServicesNeeded(HeadCost(s, id) as real - s.stats[id].counter, s.stats[id].quantum);
    KnownAmong(s.list[..p], s.stats.Keys) + 1 + Turns(k - 1, |s.stats|)
  }

  lemma WaitBegins(cfg: Config, s: State, t: nat, p: nat)
    requires Inv(cfg, s) && WaitsAt(s, p)
    ensures var id := s.list[p];
      var d, q := HeadCost(s, id), s.stats[id].quantum;
      HeadWaits(s, t, id, d, q, s.stats.Keys) && CallsLeft(s, t, id, d, q, s.stats.Keys) == CallsNeeded(s, p)
  {
    KnownBeforeAt(s.list, p, s.stats.Keys);
    assert |s.stats.Keys| == |s.stats|;
  }

  /** Bounded waiting: whatever the producers do and however many consumers take it in turns, the head
      packet of the client at position p has been sent by the time that many further calls have
      returned. */
  lemma HeadSentInTime(cfg: Config, past: Run, r: Run, p: nat)
    requires Continues(cfg, past, r) && OneCallAtATime(cfg, r) && NoRouteUpdate(r)
    requires WaitsAt(First(r), p) && CallsReturned(cfg, r) >= CallsNeeded(First(r), p)
    ensures PacketsSent(cfg, r, First(r).list[p]) >= 1
  {
    InvFromConstructor(cfg, past);
    var s := First(r);
    var id := s.list[p];
    WaitBegins(cfg, s, Sole(s), p);
    if PacketsSent(cfg, r, id) == 0 {
      CallsRunDown(cfg, r, id, HeadCost(s, id), s.stats[id].quantum, s.stats.Keys);
    }
  }

  // ----- one call

  /** Total duration of packets at one throughput. */
  function TotalDuration(pkts: seq<Packet>, t: Rate): nat {
    if pkts == [] then 0 else TotalDuration(pkts[..|pkts| - 1], t) + Duration(|pkts[|pkts| - 1]|, t)
  }

  predicate NoReturnOf(r: Run, t: nat) {
    r.Then? ==> r.e != Unlock(t) && NoReturnOf(r.prev, t)
  }

  /** From the moment a call has credited the quantum, what it sends is paid from that budget. */
  ghost predicate Paying(s: State, t: nat, id: int, rate: Rate, budget: real) {
    && t in s.consumers && s.lock == ByConsumer(t) && s.route.Away?
    && id in s.stats && s.stats[id].throughput == rate
    && (var pc := s.consumers[t];
        && pc.id == id && (InLoop(pc) || pc.Appending? || pc.Returning?)
        && (pc.Returning? || TotalDuration(pc.sent, rate) as real + s.stats[id].counter == budget)
        && TotalDuration(pc.sent, rate) as real <= budget)
  }

  lemma PayingPop(cfg: Config, s: State, t: nat, id: int, rate: Rate, budget: real)
    requires Inv(cfg, s) && Enabled(s, Pop(t)) && Paying(s, t, id, rate, budget)
    ensures Paying(Next(cfg, s, Pop(t)), t, id, rate, budget)
  {
    var sent, q := s.consumers[t].sent, QueueOf(s, id);
    assert (sent + [q[0]])[..|sent|] == sent;
  }

  lemma PayingOwn(cfg: Config, s: State, e: Event, t: nat, id: int, rate: Rate, budget: real)
    requires Enabled(s, e) && Paying(s, t, id, rate, budget) && (e == Peek(t) || e == ConsumerAppend(t))
    ensures Paying(Next(cfg, s, e), t, id, rate, budget)
  {
  }

  lemma PayingStep(cfg: Config, s: State, e: Event, t: nat, id: int, rate: Rate, budget: real)
    requires Inv(cfg, s) && Enabled(s, e) && Paying(s, t, id, rate, budget) && e != Unlock(t)
    ensures Paying(Next(cfg, s, e), t, id, rate, budget)
  {
    if e == Pop(t) {
      PayingPop(cfg, s, t, id, rate, budget);
    } else if e == Peek(t) || e == ConsumerAppend(t) {
      PayingOwn(cfg, s, e, t, id, rate, budget);
    } else {
      assert !e.Peek? && !e.Pop? && !e.ConsumerAppend? && !e.Unlock?;
    }
  }

  lemma {:induction false} PayingAlways(cfg: Config, r: Run, t: nat, id: int, rate: Rate, budget: real)
    requires Legal(cfg, r) && Inv(cfg, First(r)) && Paying(First(r), t, id, rate, budget) && NoReturnOf(r, t)
    ensures Paying(End(cfg, r), t, id, rate, budget)
  {
    match r
    case Start(_) =>
    case Then(prev, e) =>
      PayingAlways(cfg, prev, t, id, rate, budget);
      InvAlways(cfg, prev);
      PayingStep(cfg, End(cfg, prev), e, t, id, rate, budget);
  }

  lemma {:induction false} AtLeastOneEach(pkts: seq<Packet>, t: Rate)
    requires forall pkt :: pkt in pkts ==> LastsMicrosecond(pkt, t)
    ensures |pkts| <= TotalDuration(pkts, t)
  {
    if pkts != [] {
      var last := pkts[|pkts| - 1];
      assert last in pkts;
      LongEnoughExactly(|last|, t);
      AtLeastOneEach(pkts[..|pkts| - 1], t);
    }
  }

  /** The packet has at least as many bits as the link carries in a microsecond. */
  predicate LastsMicrosecond(pkt: Packet, t: Rate) { 8.0 * |pkt| as real >= t }

  /** Exactly then its duration is not cut to 0. */
  lemma LongEnoughExactly(len: nat, t: Rate)
    ensures Duration(len, t) >= 1 <==> 8.0 * len as real >= t
  {
    var d := Duration(len, t);
    if d >= 1 {
      MulOrder(1.0, d as real, t);
    }
  }

  // ----- what a call can send

  /** What is sent by a call on the way follows what it sent before. */
  ghost predicate SendsOn(cfg: Config, s: State, e: Event, t: nat, id: int)
    requires t in s.consumers && SentOk(s.consumers[t]) && Enabled(s, e)
  {
    var n := Next(cfg, s, e);
    && t in n.consumers && SentOk(n.consumers[t])
    && n.consumers[t].sent + QueueOf(n, id) == s.consumers[t].sent + QueueOf(s, id) + AcceptedBy(cfg, s, e, id)
  }

  predicate SentOk(pc: Pc) { !pc.Holding? && !pc.Discarding? }

  lemma SentPop(cfg: Config, s: State, t: nat, id: int)
    requires Enabled(s, Pop(t)) && s.consumers[t].id == id && QueueOf(s, id) != []
    ensures SendsOn(cfg, s, Pop(t), t, id)
  {
  }

  lemma SentStep(cfg: Config, s: State, e: Event, t: nat, id: int, rate: Rate, budget: real)
    requires Inv(cfg, s) && Enabled(s, e) && Paying(s, t, id, rate, budget) && e != Unlock(t)
    ensures SendsOn(cfg, s, e, t, id)
  {
    if e == Pop(t) {
      SentPop(cfg, s, t, id);
    } else {
      assert e.Peek? || e.Pop? || e.ConsumerAppend? || e.Unlock? ==> s.lock == ByConsumer(e.t);
      assert QueueOf(Next(cfg, s, e), id) == QueueOf(s, id) + AcceptedBy(cfg, s, e, id);
    }
  }

  /** A call sends what was queued and then what is accepted meanwhile, in that order. */
  lemma {:induction false} SentThenQueued(cfg: Config, r: Run, t: nat, id: int, rate: Rate, budget: real)
    requires Legal(cfg, r) && Inv(cfg, First(r)) && Paying(First(r), t, id, rate, budget) && NoReturnOf(r, t)
    requires First(r).consumers[t].sent == []
    ensures Paying(End(cfg, r), t, id, rate, budget)
    ensures End(cfg, r).consumers[t].sent + QueueOf(End(cfg, r), id)
         == QueueOf(First(r), id) + Accepted(cfg, r, id)
  {
    PayingAlways(cfg, r, t, id, rate, budget);
    match r
    case Start(_) =>
    case Then(prev, e) =>
      SentThenQueued(cfg, prev, t, id, rate, budget);
      InvAlways(cfg, prev);
      SentStep(cfg, End(cfg, prev), e, t, id, rate, budget);
  }

  /** A call that has just credited its client, and the interval r from there, before it returns. */
  ghost predicate CallGoesOn(cfg: Config, past: Run, r: Run, t: nat) {
    && Continues(cfg, past, r) && NoReturnOf(r, t)
    && t in First(r).consumers && First(r).consumers[t].Peeking? && First(r).consumers[t].sent == []
  }

  /** What the call has sent by the end of the interval. */
  ghost function SentBy(cfg: Config, r: Run, t: nat): seq<Packet>
    requires Legal(cfg, r)
  {
    if t in End(cfg, r).consumers then SentSoFar(End(cfg, r).consumers[t]) else []
  }

  /** The client's status at the start, its quantum credited. */
  function Credited(r: Run, t: nat): Status
    requires t in First(r).consumers
  {
    StatusOf(First(r), First(r).consumers[t].id)
  }

  /** What the call may come to send: the packets queued at the start and those accepted since. */
  ghost function Available(cfg: Config, r: Run, t: nat): seq<Packet>
    requires Legal(cfg, r) && t in First(r).consumers
  {
    var id := First(r).consumers[t].id;
    QueueOf(First(r), id) + Accepted(cfg, r, id)
  }

  /** However fast producers push, one call sends a prefix of what is available, of total duration at
      most counter + quantum; hence at most that many packets when each of those available has a
      microsecond's bits or more. */
  lemma CallSendsWithinBudget(cfg: Config, past: Run, r: Run, t: nat)
    requires CallGoesOn(cfg, past, r, t)
    ensures t in End(cfg, r).consumers && SentOk(End(cfg, r).consumers[t])
    ensures var st := Credited(r, t);
      && SentBy(cfg, r, t) <= Available(cfg, r, t)
      && TotalDuration(SentBy(cfg, r, t), st.throughput) as real <= st.counter
      && ((forall pkt :: pkt in Available(cfg, r, t) ==> LastsMicrosecond(pkt, st.throughput)) ==>
            |SentBy(cfg, r, t)| <= st.counter.Floor)
  {
    InvFromConstructor(cfg, past);
    var id := First(r).consumers[t].id;
    var st := First(r).stats[id];
    SentThenQueued(cfg, r, t, id, st.throughput, st.counter);
    var sent := SentBy(cfg, r, t);
    assert sent + QueueOf(End(cfg, r), id) == Available(cfg, r, t);
    if forall pkt :: pkt in Available(cfg, r, t) ==> LastsMicrosecond(pkt, st.throughput) {
      AtLeastOneEach(sent, st.throughput);
    }
  }

  // ----- packets that cost nothing

  /** A call at the loop head whose client has one such packet queued. */
  predicate FeedsOn(s: State, t: nat, p: nat, pkt: Packet) {
    && t in s.consumers && s.consumers[t].Peeking? && p !in s.producers
    && s.consumers[t].id in s.queues && s.consumers[t].id in s.stats
    && s.queues[s.consumers[t].id] == [pkt]
    && s.stats[s.consumers[t].id].counter >= 0.0
    && Duration(|pkt|, s.stats[s.consumers[t].id].throughput) == 0
  }

  lemma FeedOnce(cfg: Config, r: Run, t: nat, p: nat, pkt: Packet) returns (r': Run)
    requires Legal(cfg, r) && cfg.capacity > 0 && 0 < |pkt| <= MAX_LEN
    requires FeedsOn(End(cfg, r), t, p, pkt)
    ensures Legal(cfg, r') && First(r') == First(r) && FeedsOn(End(cfg, r'), t, p, pkt)
    ensures NoReturnOf(r, t) ==> NoReturnOf(r', t)
    ensures |End(cfg, r').consumers[t].sent| == |End(cfg, r).consumers[t].sent| + 1
    ensures var id := End(cfg, r).consumers[t].id;
      End(cfg, r').consumers[t].id == id && Accepted(cfg, r', id) == Accepted(cfg, r, id) + [pkt]
  {
    var id := End(cfg, r).consumers[t].id;
    var r1 := Do(cfg, r, Peek(t));
    var r2 := Do(cfg, r1, Pop(t));
    assert Accepted(cfg, r2, id) == Accepted(cfg, r, id);
    var r3 := Do(cfg, r2, Push(p, id, pkt));
    assert Accepted(cfg, r3, id) == Accepted(cfg, r2, id) + [pkt];
    assert NoReturnOf(r, t) ==> NoReturnOf(r2, t);
    r' := Do(cfg, r3, ProducerAppend(p));
    assert Accepted(cfg, r', id) == Accepted(cfg, r3, id);
  }

  lemma {:induction false} FeedOften(cfg: Config, r: Run, t: nat, p: nat, pkt: Packet, m: nat) returns (r': Run)
    requires Legal(cfg, r) && cfg.capacity > 0 && 0 < |pkt| <= MAX_LEN
    requires FeedsOn(End(cfg, r), t, p, pkt)
    ensures Legal(cfg, r') && First(r') == First(r) && FeedsOn(End(cfg, r'), t, p, pkt)
    ensures NoReturnOf(r, t) ==> NoReturnOf(r', t)
    ensures |End(cfg, r').consumers[t].sent| == |End(cfg, r).consumers[t].sent| + m
    ensures var id := End(cfg, r).consumers[t].id;
      forall x :: x in Accepted(cfg, r', id) ==> x == pkt || x in Accepted(cfg, r, id)
    decreases m
  {
    r' := r;
    if m > 0 {
      r' := FeedOnce(cfg, r, t, p, pkt);
      r' := FeedOften(cfg, r', t, p, pkt, m - 1);
    }
  }

  /** A fresh scheduler, one client, one short packet: the first call arrives at the loop head. */
  lemma FeedingBegins(cfg: Config, rate: Rate, pkt: Packet) returns (past: Run)
    requires cfg.capacity > 0 && 0 < |pkt| <= MAX_LEN && !LastsMicrosecond(pkt, rate)
    ensures FromConstructor(cfg, past) && FeedsOn(End(cfg, past), 0, 0, pkt)
    ensures End(cfg, past).consumers[0] == Peeking(1, [])
    ensures StatusOf(End(cfg, past), 1).throughput == rate && QueueOf(End(cfg, past), 1) == [pkt]
  {
    LongEnoughExactly(|pkt|, rate);
    past := Start(Initial(cfg, rate, [1]));
    assert First(past).queues.Keys == {1} && First(past).stats.Keys == {1};
    past := Do(cfg, past, Push(0, 1, pkt));
    past := Do(cfg, past, ProducerAppend(0));
    assert End(cfg, past).list == [1];
    past := Do(cfg, past, Remove(0));
    past := Do(cfg, past, Lock(0));
    InvFromConstructor(cfg, past);
  }

  /** The condition on the lengths is needed: with any packet that short for the link, a run from a
      constructor leads to a call that sends any number m of them. */
  lemma ZeroDurationsRunOn(cfg: Config, rate: Rate, pkt: Packet, m: nat) returns (past: Run, r: Run)
    requires cfg.capacity > 0 && 0 < |pkt| <= MAX_LEN && !LastsMicrosecond(pkt, rate)
    ensures CallGoesOn(cfg, past, r, 0) && Credited(r, 0).throughput == rate
    ensures |SentBy(cfg, r, 0)| == m
    ensures forall x :: x in Available(cfg, r, 0) ==> x == pkt
  {
    past := FeedingBegins(cfg, rate, pkt);
    r := FeedOften(cfg, Start(End(cfg, past)), 0, 0, pkt, m);
  }

  /** A call to a client at this throughput whose available packets have at least len bytes. */
  ghost predicate CallWithLengths(cfg: Config, past: Run, r: Run, t: nat, rate: Rate, len: nat) {
    && CallGoesOn(cfg, past, r, t) && Credited(r, t).throughput == rate
    && forall pkt :: pkt in Available(cfg, r, t) ==> |pkt| >= len
  }

  /** Every such call sends at most as many packets as counter + quantum has microseconds. */
  ghost predicate CountBounded(cfg: Config, rate: Rate, len: nat) {
    forall past, r, t :: CallWithLengths(cfg, past, r, t, rate, len) ==>
      |SentBy(cfg, r, t)| <= Credited(r, t).counter.Floor
  }

  /** The bound on the number of packets, exactly: it holds for packets of at least len bytes if and
      only if len bytes are a microsecond's worth or more. */
  lemma CountBoundedExactly(cfg: Config, rate: Rate, len: nat)
    requires cfg.capacity > 0 && 0 < len <= MAX_LEN
    ensures CountBounded(cfg, rate, len) <==> 8.0 * len as real >= rate
  {
    if 8.0 * len as real >= rate {
      forall past, r, t | CallWithLengths(cfg, past, r, t, rate, len)
        ensures |SentBy(cfg, r, t)| <= Credited(r, t).counter.Floor
      {
        CallSendsWithinBudget(cfg, past, r, t);
      }
    } else {
      var pkt := seq(len, _ => 0);
      var past := FeedingBegins(cfg, rate, pkt);
      var budget := StatusOf(End(cfg, past), 1).counter.Floor;
      var r := FeedOften(cfg, Start(End(cfg, past)), 0, 0, pkt, budget + 1);
      assert CallWithLengths(cfg, past, r, 0, rate, len);
    }
  }
}
