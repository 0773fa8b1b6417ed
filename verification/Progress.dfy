/** Which steps are possible in which states, exactly: no interleaving of the program is left out of the
    runs, and whoever holds the lock can always go on to release it. */
module Progress {
  import opened ActiveIds
  import opened Airtime
  import opened Threads
  import opened ThreadSafety
  import opened Ledger
  import opened Rounds
  import opened SoloRuns

  /** Every construction begins a run, in a state without work and without threads inside a call. */
  lemma AnyConstruction(cfg: Config, rate: Rate, ids: seq<int>)
    ensures var s := Initial(cfg, rate, ids);
      && FromConstructor(cfg, Start(s))
      && (forall id :: id in s.queues <==> id in ids) && (forall id :: id in s.queues ==> s.queues[id] == [])
      && (forall id :: id in s.stats <==> id in ids)
      && (forall id :: id in s.stats ==>
            && s.stats[id].throughput == rate && s.stats[id].counter == 0.0
            && s.stats[id].quantum == cfg.round as real / |ids| as real)
      && s.list == [] && s.lock == Free && s.producers == map[] && s.consumers == map[] && s.route == Away
  {
    assert First(Start(Initial(cfg, rate, ids))) == Initial(cfg, rate, ids);
  }

  /** The run r can go on with step e. */
  ghost predicate Possible(cfg: Config, r: Run, e: Event) {
    FromConstructor(cfg, Then(r, e))
  }

  // ----- producers and consumers

  /** A producer outside Enqueue can push any packet to any queue at any time, whoever holds the lock. */
  lemma PushExactly(cfg: Config, r: Run, p: nat, id: int, pkt: Packet)
    requires FromConstructor(cfg, r)
    ensures Possible(cfg, r, Push(p, id, pkt))
       <==> p !in End(cfg, r).producers && id in End(cfg, r).queues && 0 < |pkt| <= 65535
  {
  }

  lemma ProducerAppendExactly(cfg: Config, r: Run, p: nat)
    requires FromConstructor(cfg, r)
    ensures Possible(cfg, r, ProducerAppend(p)) <==> p in End(cfg, r).producers
  {
  }

  /** A consumer outside Dequeue can take an id whenever there is one, whoever holds the lock. */
  lemma RemoveExactly(cfg: Config, r: Run, t: nat)
    requires FromConstructor(cfg, r)
    ensures Possible(cfg, r, Remove(t)) <==> t !in End(cfg, r).consumers && End(cfg, r).list != []
  {
  }

  /** A consumer that holds an id can take the lock whenever it is free. */
  lemma LockExactly(cfg: Config, r: Run, t: nat)
    requires FromConstructor(cfg, r)
    ensures Possible(cfg, r, Lock(t)) <==>
      t in End(cfg, r).consumers && End(cfg, r).consumers[t].Holding? && End(cfg, r).lock == Free
  {
  }

  /** With the lock taken it can always make its next step, which is determined. */
  lemma ConsumerGoesOn(cfg: Config, r: Run, t: nat)
    requires FromConstructor(cfg, r) && t in End(cfg, r).consumers
    ensures var pc := End(cfg, r).consumers[t];
      && (Possible(cfg, r, Peek(t)) <==> pc.Peeking?)
      && (Possible(cfg, r, Pop(t)) <==> pc.Popping?)
      && (Possible(cfg, r, ConsumerAppend(t)) <==> pc.Appending?)
      && (Possible(cfg, r, Unlock(t)) <==> pc.Returning? || pc.Discarding?)
  {
  }

  // ----- route updates

  /** An update, for whatever clients, can begin whenever the lock is free: also while consumers hold ids
      and producers are about to append. */
  lemma RouteLockExactly(cfg: Config, r: Run, rates: map<int, Rate>)
    requires FromConstructor(cfg, r)
    ensures Possible(cfg, r, RouteLock(rates)) <==> End(cfg, r).lock == Free
  {
    InvFromConstructor(cfg, r);
  }

  predicate UpdateUnderWay(r: Run) {
    r.Then? && (r.e.RouteLock? || (!r.e.RouteUnlock? && UpdateUnderWay(r.prev)))
  }

  /** The clients of the last update, with their rates. */
  function UpdateRates(r: Run): map<int, Rate> {
    match r
    case Start(_) => map[]
    case Then(prev, e) => if e.RouteLock? then e.rates else UpdateRates(prev)
  }

  /** Who had a queue when the last update began. */
  ghost function QueuedAtLock(cfg: Config, r: Run): set<int>
    requires Legal(cfg, r)
  {
    match r
    case Start(_) => {}
    case Then(prev, e) => if e.RouteLock? then End(cfg, prev).queues.Keys else QueuedAtLock(cfg, prev)
  }

  /** The queues cleared since the last update began. */
  function Cleared(r: Run): seq<int> {
    match r
    case Start(_) => []
    case Then(prev, RouteLock(_)) => []
    case Then(prev, RouteClear(id)) => Cleared(prev) + [id]
    case Then(prev, _) => Cleared(prev)
  }

  /** Whose queues the update has to clear: those it does not mention. */
  ghost function Unmentioned(cfg: Config, r: Run): set<int>
    requires Legal(cfg, r)
  {
    QueuedAtLock(cfg, r) - UpdateRates(r).Keys
  }

  ghost predicate ClearsSoFar(cfg: Config, r: Run)
    requires Legal(cfg, r)
  {
    var route := End(cfg, r).route;
    && (route.Clearing? <==> UpdateUnderWay(r))
    && (route.Clearing? ==>
          && route.rates == UpdateRates(r) && Distinct(Cleared(r))
          && IdSet(Cleared(r)) <= Unmentioned(cfg, r)
          && route.todo == Unmentioned(cfg, r) - IdSet(Cleared(r)))
  }

  lemma {:induction false} ClearsInOrder(cfg: Config, r: Run)
    requires FromConstructor(cfg, r)
    ensures ClearsSoFar(cfg, r)
  {
    match r
    case Start(_) =>
    case Then(prev, e) =>
      assert FromConstructor(cfg, prev);
      ClearsInOrder(cfg, prev);
      if e.RouteClear? {
        ClearedOneMore(cfg, prev, e.id);
      } else if e.RouteLock? {
        NothingCleared(cfg, prev, e.rates);
      } else {
        OthersClearNothing(cfg, prev, e);
      }
  }

  lemma NothingCleared(cfg: Config, r: Run, rates: map<int, Rate>)
    requires Legal(cfg, r) && Enabled(End(cfg, r), RouteLock(rates))
    ensures ClearsSoFar(cfg, Then(r, RouteLock(rates)))
  {
    var n := Then(r, RouteLock(rates));
    assert End(cfg, n).route.todo == QueuedAtLock(cfg, n) - rates.Keys;
    assert IdSet([]) == {};
  }

  lemma OthersClearNothing(cfg: Config, r: Run, e: Event)
    requires Legal(cfg, r) && Enabled(End(cfg, r), e) && ClearsSoFar(cfg, r) && !e.RouteClear? && !e.RouteLock?
    ensures ClearsSoFar(cfg, Then(r, e))
  {
    var n := Then(r, e);
    assert Cleared(n) == Cleared(r) && UpdateRates(n) == UpdateRates(r) && QueuedAtLock(cfg, n) == QueuedAtLock(cfg, r);
    assert !e.RouteUnlock? ==> End(cfg, n).route == End(cfg, r).route;
  }

  lemma ClearedOneMore(cfg: Config, r: Run, id: int)
    requires Legal(cfg, r) && Enabled(End(cfg, r), RouteClear(id)) && ClearsSoFar(cfg, r)
    ensures ClearsSoFar(cfg, Then(r, RouteClear(id)))
  {
    var n := Then(r, RouteClear(id));
    assert Cleared(n) == Cleared(r) + [id];
    assert IdSet(Cleared(n)) == IdSet(Cleared(r)) + {id};
    assert id !in Cleared(r);
    assert Unmentioned(cfg, n) == Unmentioned(cfg, r);
  }

  /** An update clears the queue of each client that had one and is not mentioned, once, in any order. */
  lemma RouteClearExactly(cfg: Config, r: Run, id: int)
    requires FromConstructor(cfg, r)
    ensures Possible(cfg, r, RouteClear(id))
       <==> UpdateUnderWay(r) && id in QueuedAtLock(cfg, r) && id !in UpdateRates(r) && id !in Cleared(r)
  {
    ClearsInOrder(cfg, r);
  }

  /** It ends when, and only when, it has cleared exactly those; then its rates are in force. */
  lemma RouteUnlockExactly(cfg: Config, r: Run, mode: FairnessMode)
    requires FromConstructor(cfg, r)
    ensures Possible(cfg, r, RouteUnlock(mode)) <==>
      UpdateUnderWay(r) && IdSet(Cleared(r)) == QueuedAtLock(cfg, r) - UpdateRates(r).Keys
    ensures Possible(cfg, r, RouteUnlock(mode)) ==>
      && Distinct(Cleared(r))
      && DividedBy(cfg, End(cfg, Then(r, RouteUnlock(mode))), mode)
      && Rates(End(cfg, Then(r, RouteUnlock(mode)))) == UpdateRates(r)
      && forall id :: id in UpdateRates(r) ==> StatusOf(End(cfg, Then(r, RouteUnlock(mode))), id).counter == 0.0
  {
    ClearsInOrder(cfg, r);
    InvFromConstructor(cfg, r);
    if UpdateUnderWay(r) {
      NothingLeft(Unmentioned(cfg, r), IdSet(Cleared(r)));
    }
    if Possible(cfg, r, RouteUnlock(mode)) {
      UpdateDivides(cfg, End(cfg, r), mode);
    }
  }

  lemma NothingLeft(all: set<int>, done: set<int>)
    requires done <= all
    ensures all - done == {} <==> done == all
  {
    if all - done == {} {
      forall x | x in all ensures x in done {
        assert x !in all - done;
      }
    }
  }

  // ----- nobody gets stuck

  /** In every reachable state the holder of the lock, left alone, can release it. */
  lemma LockIsReleasable(cfg: Config, r: Run) returns (r': Run)
    requires FromConstructor(cfg, r)
    ensures FromConstructor(cfg, r') && First(r') == First(r) && End(cfg, r').lock == Free
  {
    InvFromConstructor(cfg, r);
    var s := End(cfg, r);
    if s.lock.ByRoute? {
      r' := SoloClears(cfg, r);
      r' := Do(cfg, r', RouteUnlock(EqualTime));
    } else if s.lock.ByConsumer? {
      r' := ConsumerReleases(cfg, r, s.lock.t);
    } else {
      r' := r;
    }
    assert First(r') == First(r);
  }

  lemma ConsumerReleases(cfg: Config, r: Run, t: nat) returns (r': Run)
    requires Legal(cfg, r) && Inv(cfg, End(cfg, r)) && End(cfg, r).lock == ByConsumer(t)
    ensures Legal(cfg, r') && First(r') == First(r) && End(cfg, r').lock == Free
  {
    var s := End(cfg, r);
    r' := r;
    if s.consumers[t].Popping? {
      r' := Do(cfg, r', Pop(t));
    }
    if InLoop(s.consumers[t]) {
      var r1 := r';
      r' := SoloServe(cfg, r1, t);
      SoloKeepsFirst(r1, r', t);
    } else if s.consumers[t].Appending? {
      r' := Do(cfg, r', ConsumerAppend(t));
    }
    r' := Do(cfg, r', Unlock(t));
  }

  lemma {:induction false} SoloKeepsFirst(r: Run, r': Run, t: nat)
    requires SoloConsumer(r, r', t)
    ensures First(r') == First(r)
  {
    if r' != r {
      SoloKeepsFirst(r, r'.prev, t);
    }
  }

  // ----- an update while a consumer holds an id

  /** A whole update that knows only client 2 and clears the queue of client 1. */
  function AfterUpdate(held: Run, rate: Rate): Run {
    Then(Then(Then(held, RouteLock(map[2 := rate])), RouteClear(1)), RouteUnlock(EqualTime))
  }

  /** Consumer 0 holds the known client 1 for which pkt is queued; an update drops the client; then the
      consumer takes the lock and throws the id away. */
  ghost predicate DroppedInHand(cfg: Config, held: Run, rate: Rate, pkt: Packet) {
    var updated := AfterUpdate(held, rate);
    var r := Then(updated, Lock(0));
    && FromConstructor(cfg, held) && FromConstructor(cfg, updated) && FromConstructor(cfg, r)
    && End(cfg, held).consumers == End(cfg, updated).consumers == map[0 := Holding(1)]
    && 1 in End(cfg, held).stats && QueueOf(End(cfg, held), 1) == [pkt]
    && End(cfg, r).consumers == map[0 := Discarding(1)]
  }

  /** It does happen that an update falls between a consumer's Remove and its Lock. */
  lemma UpdateBetweenRemoveAndLock(cfg: Config, rate: Rate, pkt: Packet) returns (held: Run)
    requires cfg.capacity > 0 && 0 < |pkt| <= MAX_LEN
    ensures DroppedInHand(cfg, held, rate, pkt)
  {
    held := HeldClient(cfg, rate, pkt);
    var updated := UpdateWhileHeld(cfg, held, rate);
    var r := Do(cfg, updated, Lock(0));
  }

  lemma UpdateWhileHeld(cfg: Config, held: Run, rate: Rate) returns (updated: Run)
    requires FromConstructor(cfg, held) && End(cfg, held).lock == Free && End(cfg, held).queues.Keys == {1}
    requires End(cfg, held).route == Away && End(cfg, held).consumers == map[0 := Holding(1)]
    ensures updated == AfterUpdate(held, rate) && FromConstructor(cfg, updated)
    ensures End(cfg, updated).consumers == map[0 := Holding(1)]
    ensures End(cfg, updated).lock == Free && 1 !in End(cfg, updated).stats
  {
    UpdateBegins(cfg, End(cfg, held), rate);
    updated := Do(cfg, held, RouteLock(map[2 := rate]));
    updated := Do(cfg, updated, RouteClear(1));
    UpdateInstalls(cfg, End(cfg, updated), map[2 := rate]);
    updated := Do(cfg, updated, RouteUnlock(EqualTime));
  }

  lemma UpdateBegins(cfg: Config, s: State, rate: Rate)
    requires s.lock == Free && s.route == Away && s.queues.Keys == {1}
    ensures var n := Next(cfg, s, RouteLock(map[2 := rate]));
      && Enabled(n, RouteClear(1)) && n.consumers == s.consumers
      && Next(cfg, n, RouteClear(1)).consumers == s.consumers
      && Next(cfg, n, RouteClear(1)).route == Clearing(map[2 := rate], {})
  {
    assert Next(cfg, s, RouteLock(map[2 := rate])).route == Clearing(map[2 := rate], {1});
  }

  lemma UpdateInstalls(cfg: Config, s: State, rates: map<int, Rate>)
    requires s.route == Clearing(rates, {})
    ensures Enabled(s, RouteUnlock(EqualTime))
    ensures var n := Next(cfg, s, RouteUnlock(EqualTime));
      n.consumers == s.consumers && n.lock == Free && n.stats.Keys == rates.Keys
  {
  }

  lemma HeldClient(cfg: Config, rate: Rate, pkt: Packet) returns (held: Run)
    requires cfg.capacity > 0 && 0 < |pkt| <= MAX_LEN
    ensures FromConstructor(cfg, held) && End(cfg, held).consumers == map[0 := Holding(1)]
    ensures End(cfg, held).lock == Free && End(cfg, held).queues == map[1 := [pkt]]
    ensures 1 in End(cfg, held).stats && End(cfg, held).route == Away
  {
    var s := Initial(cfg, rate, [1]);
    assert s.queues == map[1 := []] && 1 in s.stats;
    held := Start(s);
    held := Do(cfg, held, Push(0, 1, pkt));
    assert [] + [pkt] == [pkt];
    assert End(cfg, held).queues == map[1 := [pkt]];
    held := Do(cfg, held, ProducerAppend(0));
    assert End(cfg, held).list == [1];
    held := Do(cfg, held, Remove(0));
    assert End(cfg, held).consumers == map[0 := Holding(1)];
  }
}
