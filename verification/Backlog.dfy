/** When a backlogged client can be forgotten, and when it cannot. */
module Backlog {
  import opened Airtime
  import opened Threads
  import opened ThreadSafety

  /** A consumer holds the id and has not yet seen the queue empty. */
  predicate WillLook(pc: Pc, id: int) {
    pc.id == id && !pc.Returning? && !pc.Discarding?
  }

  /** Somebody is still bound to look at the client's queue. */
  ghost predicate Tracked(s: State, id: int) {
    || id in s.list
    || (exists p :: p in s.producers && s.producers[p] == id)
    || (exists t :: t in s.consumers && WillLook(s.consumers[t], id))
  }

  ghost predicate Forgotten(s: State, id: int) {
    QueueOf(s, id) != [] && !Tracked(s, id)
  }

  /** Consumer t is about to throw the id away because the client is unknown,
      and nobody else would come back to its queue. */
  ghost predicate DropsLastReference(s: State, e: Event, id: int) {
    && e.Lock? && e.t in s.consumers && s.consumers[e.t] == Holding(id) && id !in s.stats
    && QueueOf(s, id) != []
    && id !in s.list
    && (forall p :: p in s.producers ==> s.producers[p] != id)
    && (forall t :: t in s.consumers && t != e.t ==> !WillLook(s.consumers[t], id))
  }

  /** The one way a client gets forgotten, exactly. */
  lemma ForgottenExactlyWhenDropped(cfg: Config, s: State, e: Event, id: int)
    requires Inv(cfg, s) && Enabled(s, e) && !Forgotten(s, id)
    ensures Forgotten(Next(cfg, s, e), id) <==> DropsLastReference(s, e, id)
  {
    var n := Next(cfg, s, e);
    if DropsLastReference(s, e, id) {
      assert n.consumers == s.consumers[e.t := Discarding(id)];
    } else if QueueOf(n, id) != [] {
      TrackedStays(cfg, s, e, id);
    }
  }

  /** Every other step leaves somebody bound to look at a non-empty queue. */
  lemma TrackedStays(cfg: Config, s: State, e: Event, id: int)
    requires Inv(cfg, s) && Enabled(s, e) && !Forgotten(s, id)
    requires !DropsLastReference(s, e, id)
    requires QueueOf(Next(cfg, s, e), id) != []
    ensures Tracked(Next(cfg, s, e), id)
  {
    var n := Next(cfg, s, e);
    if e.Push? && QueueOf(s, id) == [] {
      assert e.p in n.producers && n.producers[e.p] == id;
    } else if id in s.list {
      if e.Remove? && s.list[0] == id {
        assert e.t in n.consumers && WillLook(n.consumers[e.t], id);
      } else {
        assert id in n.list;
      }
    } else if p :| p in s.producers && s.producers[p] == id {
      if e == ProducerAppend(p) {
        assert id in n.list;
      } else {
        assert p in n.producers && n.producers[p] == id;
      }
    } else {
      var t := AnotherLook(s, e, id);
      LookPassedOn(cfg, s, e, id, t);
    }
  }

  /** The consumer goes on until it has seen the queue empty or put the id back. */
  lemma LookPassedOn(cfg: Config, s: State, e: Event, id: int, t: nat)
    requires Enabled(s, e) && QueueOf(s, id) != []
    requires t in s.consumers && WillLook(s.consumers[t], id)
    requires e == Lock(t) && s.consumers[t].Holding? ==> id in s.stats
    ensures Tracked(Next(cfg, s, e), id)
  {
    var n := Next(cfg, s, e);
    if e == ConsumerAppend(t) {
      assert id in n.list;
    } else {
      assert t in n.consumers && WillLook(n.consumers[t], id);
    }
  }

  /** A consumer bound to look at the queue, and not the one that is about to give up. */
  lemma AnotherLook(s: State, e: Event, id: int) returns (t: nat)
    requires !DropsLastReference(s, e, id) && QueueOf(s, id) != []
    requires Tracked(s, id) && id !in s.list
    requires forall p :: p in s.producers ==> s.producers[p] != id
    ensures t in s.consumers && WillLook(s.consumers[t], id)
    ensures e == Lock(t) && s.consumers[t].Holding? ==> id in s.stats
  {
    t :| t in s.consumers && WillLook(s.consumers[t], id);
    if e == Lock(t) && s.consumers[t].Holding? && id !in s.stats {
      t :| t in s.consumers && t != e.t && WillLook(s.consumers[t], id);
    }
  }

  /** The client's queue is cleared, or a push to it succeeds and so leads to an Append. */
  predicate Recalls(cfg: Config, s: State, e: Event, id: int) {
    e == RouteClear(id) || (e.Push? && e.id == id && |QueueOf(s, id)| != cfg.capacity)
  }

  /** And the ways out, exactly. */
  lemma RecalledExactly(cfg: Config, s: State, e: Event, id: int)
    requires Inv(cfg, s) && Enabled(s, e) && Forgotten(s, id)
    ensures !Forgotten(Next(cfg, s, e), id) <==> Recalls(cfg, s, e, id)
  {
    var n := Next(cfg, s, e);
    if e.Push? && e.id == id && |QueueOf(s, id)| != cfg.capacity {
      assert e.p in n.producers && n.producers[e.p] == id;
    } else if e != RouteClear(id) {
      assert e.Pop? ==> s.consumers[e.t].id != id by {
        assert e.Pop? ==> !WillLook(s.consumers[e.t], id);
      }
      NobodyComes(cfg, s, e, id);
    }
  }

  // ----- whole runs

  /** Some step of the run dropped the last reference to the client while packets were queued for it,
      and since then neither was its queue cleared nor did a push to it succeed. */
  ghost predicate DroppedForGood(cfg: Config, r: Run, id: int)
    requires Legal(cfg, r)
  {
    && r.Then?
    && (var s := End(cfg, r.prev);
        || DropsLastReference(s, r.e, id)
        || (DroppedForGood(cfg, r.prev, id) && !Recalls(cfg, s, r.e, id)))
  }

  /** In every run since construction, any threads, any updates: exactly when a client is forgotten. */
  lemma {:induction false} ForgottenExactly(cfg: Config, r: Run, id: int)
    requires FromConstructor(cfg, r)
    ensures Forgotten(End(cfg, r), id) <==> DroppedForGood(cfg, r, id)
  {
    match r
    case Start(s) =>
    case Then(prev, e) =>
      assert FromConstructor(cfg, prev);
      ForgottenExactly(cfg, prev, id);
      InvFromConstructor(cfg, prev);
      ForgottenStep(cfg, End(cfg, prev), e, id);
  }

  lemma ForgottenStep(cfg: Config, s: State, e: Event, id: int)
    requires Inv(cfg, s) && Enabled(s, e)
    ensures Forgotten(Next(cfg, s, e), id)
       <==> DropsLastReference(s, e, id) || (Forgotten(s, id) && !Recalls(cfg, s, e, id))
  {
    if Forgotten(s, id) {
      assert DropsLastReference(s, e, id) ==> WillLook(s.consumers[e.t], id);
      RecalledExactly(cfg, s, e, id);
    } else {
      ForgottenExactlyWhenDropped(cfg, s, e, id);
    }
  }

  /** The client is known to the scheduler in every state of the run. */
  ghost predicate KnownThroughout(cfg: Config, r: Run, id: int)
    requires Legal(cfg, r)
  {
    id in End(cfg, r).stats && (r.Then? ==> KnownThroughout(cfg, r.prev, id))
  }

  /** No interleaving of any number of threads forgets a client that stays known. */
  lemma {:induction false} NoBacklogForgotten(cfg: Config, r: Run, id: int)
    requires FromConstructor(cfg, r) && KnownThroughout(cfg, r, id)
    ensures !Forgotten(End(cfg, r), id)
  {
    match r
    case Start(s) =>
    case Then(prev, e) =>
      assert FromConstructor(cfg, prev);
      NoBacklogForgotten(cfg, prev, id);
      InvFromConstructor(cfg, prev);
      ForgottenExactlyWhenDropped(cfg, End(cfg, prev), e, id);
  }

  /** So a full queue that turns packets away is still due to be served. */
  lemma FullQueueStillTracked(cfg: Config, r: Run, id: int)
    requires FromConstructor(cfg, r) && KnownThroughout(cfg, r, id)
    requires cfg.capacity > 0 && |QueueOf(End(cfg, r), id)| == cfg.capacity
    ensures Tracked(End(cfg, r), id)
  {
    NoBacklogForgotten(cfg, r, id);
  }

  /** A forgotten client whose queue is full stays that way: pushes bounce off the full queue
      without an Append, and only a route update that clears the queue changes anything. */
  lemma {:induction false} ForgottenAndFullIsStuck(cfg: Config, r: Run, id: int)
    requires Legal(cfg, r)
    requires Forgotten(First(r), id) && |QueueOf(First(r), id)| == cfg.capacity
    requires NeverClears(r, id)
    ensures Forgotten(End(cfg, r), id)
    ensures QueueOf(End(cfg, r), id) == QueueOf(First(r), id)
  {
    match r
    case Start(_) =>
    case Then(prev, e) =>
      ForgottenAndFullIsStuck(cfg, prev, id);
      StuckStep(cfg, End(cfg, prev), e, id);
  }

  predicate NeverClears(r: Run, id: int) {
    r.Then? ==> r.e != RouteClear(id) && NeverClears(r.prev, id)
  }

  lemma StuckStep(cfg: Config, s: State, e: Event, id: int)
    requires Enabled(s, e) && e != RouteClear(id)
    requires Forgotten(s, id) && |QueueOf(s, id)| == cfg.capacity
    ensures Forgotten(Next(cfg, s, e), id)
    ensures QueueOf(Next(cfg, s, e), id) == QueueOf(s, id)
  {
    assert e.Pop? ==> s.consumers[e.t].id != id by {
      assert e.Pop? ==> !WillLook(s.consumers[e.t], id);
    }
    NobodyComes(cfg, s, e, id);
  }

  /** Nobody picks up an id that nobody holds, unless a push succeeds. */
  lemma NobodyComes(cfg: Config, s: State, e: Event, id: int)
    requires Enabled(s, e) && !Tracked(s, id)
    requires e.Push? && e.id == id ==> |QueueOf(s, id)| == cfg.capacity
    ensures !Tracked(Next(cfg, s, e), id)
  {
  }

  /** It does happen: client 1 is dropped by a route update, gets one more packet, loses its
      list entry to a consumer that does not know it, and comes back with a full queue. */
  lemma ReadmittedClientCanBeForgotten(cfg: Config, pkt: Packet) returns (r: Run)
    requires cfg == Config(1, 100) && 0 < |pkt| <= MAX_LEN
    ensures FromConstructor(cfg, r)
    ensures var s := End(cfg, r);
      1 in s.stats && |QueueOf(s, 1)| == cfg.capacity && s.lock == Free && Forgotten(s, 1)
  {
    r := DropAndDiscard(cfg, pkt);
    r := Do(cfg, r, RouteLock(map[1 := 1.0]));
    assert End(cfg, r).route.todo == {2};
    r := Do(cfg, r, RouteClear(2));
    assert End(cfg, r).route.todo == {};
    r := Do(cfg, r, RouteUnlock(EqualTime));
    assert FromConstructor(cfg, r);
    assert Forgotten(End(cfg, r), 1);
  }

  /** The first two thirds of that run. */
  lemma DropAndDiscard(cfg: Config, pkt: Packet) returns (r: Run)
    requires cfg == Config(1, 100) && 0 < |pkt| <= MAX_LEN
    ensures Legal(cfg, r) && First(r) == Initial(cfg, 1.0, [1])
    ensures var s := End(cfg, r);
      && s.queues.Keys == {1, 2} && s.queues[1] == [pkt] && s.list == []
      && s.producers == map[] && s.consumers == map[] && s.lock == Free && s.route == Away
  {
    r := DropClient(cfg);
    r := Do(cfg, r, Push(0, 1, pkt));
    assert End(cfg, r).queues.Keys == {1, 2};
    r := Do(cfg, r, ProducerAppend(0));
    assert End(cfg, r).list == [1] && End(cfg, r).producers == map[];
    r := Do(cfg, r, Remove(0));
    assert End(cfg, r).list == [];
    r := Do(cfg, r, Lock(0));
    r := Do(cfg, r, Unlock(0));
    assert End(cfg, r).consumers == map[];
  }

  lemma {:induction false} DropClient(cfg: Config) returns (r: Run)
    requires cfg == Config(1, 100)
    ensures Legal(cfg, r) && First(r) == Initial(cfg, 1.0, [1])
    ensures var s := End(cfg, r);
      && s.queues.Keys == {1, 2} && s.queues[1] == [] && s.list == [] && 1 !in s.stats
      && s.producers == map[] && s.consumers == map[] && s.lock == Free && s.route == Away
  {
    r := Start(Initial(cfg, 1.0, [1]));
    assert End(cfg, r).queues.Keys == {1};
    r := Do(cfg, r, RouteLock(map[2 := 1.0]));
    var s := End(cfg, r);
    assert s.queues.Keys == {1, 2} && s.route.todo == {1} && s.route.rates.Keys == {2};
    r := Do(cfg, r, RouteClear(1));
    s := End(cfg, r);
    assert s.queues.Keys == {1, 2} && s.queues[1] == [] && s.route.todo == {} && s.route.rates.Keys == {2};
    r := Do(cfg, r, RouteUnlock(EqualTime));
  }
}
