/** A call that no other thread interrupts does exactly what the sequential functions say,
    so the classes and the thread model describe the same program. */
module SoloRuns {
  import opened ActiveIds
  import opened Airtime
  import opened Threads
  import opened ThreadSafety
  import opened Backlog
  import opened Fairness
  import Spec = SchedulerSpec

  function View(s: State): Spec.Sched {
    Spec.Sched(s.queues, s.list, s.stats)
  }

  /** r' continues r with steps of consumer t only. */
  predicate SoloConsumer(r: Run, r': Run, t: nat) {
    r' == r || (r'.Then? && ConsumerStep(r'.e) && r'.e.t == t && SoloConsumer(r, r'.prev, t))
  }

  lemma {:induction false} SoloChain(a: Run, b: Run, c: Run, t: nat)
    requires SoloConsumer(a, b, t) && SoloConsumer(b, c, t)
    ensures SoloConsumer(a, c, t)
  {
    if c != b {
      SoloChain(a, b, c.prev, t);
    }
  }

  predicate AtLoopHead(s: State, t: nat) {
    && t in s.consumers && s.consumers[t].Peeking?
    && s.consumers[t].id in s.stats && s.consumers[t].id in s.queues
  }

  /** s' is s with the client of consumer t served as the sequential loop serves it. */
  predicate ServedFrom(s: State, s': State, t: nat)
    requires AtLoopHead(s, t)
  {
    var Peeking(id, sent) := s.consumers[t];
    var service := Spec.Serve(s.queues[id], s.stats[id].counter, s.stats[id].throughput);
    s' == s.(queues := s.queues[id := service.rest],
             list := if service.rest == [] then s.list else AppendId(s.list, id),
             stats := s.stats[id := s.stats[id].(counter := service.counter)],
             consumers := s.consumers[t := Returning(id, sent + service.sent)])
  }

  lemma ExitEmpty(cfg: Config, s: State, t: nat)
    requires AtLoopHead(s, t) && QueueOf(s, s.consumers[t].id) == []
    ensures ServedFrom(s, Next(cfg, s, Peek(t)), t)
  {
    assert s.queues == s.queues[s.consumers[t].id := []];
    assert s.consumers[t].sent + [] == s.consumers[t].sent;
  }

  lemma ExitDear(cfg: Config, s: State, t: nat)
    requires AtLoopHead(s, t) && HeadTooDear(s, s.consumers[t].id)
    ensures var s1 := Next(cfg, s, Peek(t));
      Enabled(s1, ConsumerAppend(t)) && ServedFrom(s, Next(cfg, s1, ConsumerAppend(t)), t)
  {
    var id := s.consumers[t].id;
    assert s.queues == s.queues[id := s.queues[id]];
    assert s.stats == s.stats[id := s.stats[id].(counter := s.stats[id].counter)];
    assert s.consumers[t].sent + [] == s.consumers[t].sent;
  }

  /** Peek and Pop of an affordable packet. */
  function SentOne(s: State, t: nat): State
    requires AtLoopHead(s, t) && QueueOf(s, s.consumers[t].id) != []
  {
    var Peeking(id, sent) := s.consumers[t];
    s.(queues := s.queues[id := s.queues[id][1..]],
       stats := s.stats[id := s.stats[id].(counter := s.stats[id].counter - HeadCost(s, id) as real)],
       consumers := s.consumers[t := Peeking(id, sent + [s.queues[id][0]])])
  }

  lemma SendsOne(cfg: Config, s: State, t: nat)
    requires AtLoopHead(s, t) && QueueOf(s, s.consumers[t].id) != [] && !HeadTooDear(s, s.consumers[t].id)
    ensures var s1 := Next(cfg, s, Peek(t));
      Enabled(s1, Pop(t)) && Next(cfg, s1, Pop(t)) == SentOne(s, t)
  {
  }

  lemma ServedAfterOne(s: State, s': State, t: nat)
    requires AtLoopHead(s, t) && QueueOf(s, s.consumers[t].id) != [] && !HeadTooDear(s, s.consumers[t].id)
    requires ServedFrom(SentOne(s, t), s', t)
    ensures ServedFrom(s, s', t)
  {
    var Peeking(id, sent) := s.consumers[t];
    var q, st := s.queues[id], s.stats[id];
    var rest := Spec.Serve(q[1..], st.counter - HeadCost(s, id) as real, st.throughput);
    assert sent + ([q[0]] + rest.sent) == (sent + [q[0]]) + rest.sent;
  }

  /** The service loop and its exit, from the loop head on. */
  lemma {:induction false} SoloServe(cfg: Config, r: Run, t: nat) returns (r': Run)
    requires Legal(cfg, r) && AtLoopHead(End(cfg, r), t)
    ensures Legal(cfg, r') && SoloConsumer(r, r', t)
    ensures ServedFrom(End(cfg, r), End(cfg, r'), t)
    decreases |QueueOf(End(cfg, r), End(cfg, r).consumers[t].id)|
  {
    var s := End(cfg, r);
    var id := s.consumers[t].id;
    var r1 := Do(cfg, r, Peek(t));
    if QueueOf(s, id) == [] {
      ExitEmpty(cfg, s, t);
      r' := r1;
    } else if HeadTooDear(s, id) {
      ExitDear(cfg, s, t);
      r' := Do(cfg, r1, ConsumerAppend(t));
      SoloChain(r, r1, r', t);
    } else {
      SendsOne(cfg, s, t);
      var r2 := Do(cfg, r1, Pop(t));
      SoloChain(r, r1, r2, t);
      r' := SoloServe(cfg, r2, t);
      SoloChain(r, r2, r', t);
      ServedAfterOne(s, End(cfg, r'), t);
    }
  }

  /** What a lone Dequeue of consumer t leaves behind when it found a client to serve. */
  predicate DequeuedTo(s: State, s': State, o: Spec.Outcome) {
    s' == s.(queues := o.after.queues, list := o.after.list, stats := o.after.stats)
  }

  /** The last step of the run returns these packets of this client. */
  ghost predicate ReturnsAtEnd(cfg: Config, r: Run, t: nat, id: int, sent: seq<Packet>)
    requires Legal(cfg, r)
  {
    && r.Then? && r.e == Unlock(t)
    && t in End(cfg, r.prev).consumers && End(cfg, r.prev).consumers[t] == Returning(id, sent)
  }

  /** Remove and Lock, for a known client. */
  function TakenUp(s: State, t: nat): State
    requires s.list != [] && s.list[0] in s.stats
  {
    var id, st := s.list[0], s.stats[s.list[0]];
    s.(list := s.list[1..], lock := ByConsumer(t),
       stats := s.stats[id := st.(counter := st.counter + st.quantum)],
       consumers := s.consumers[t := Peeking(id, [])])
  }

  lemma TakesUp(cfg: Config, s: State, t: nat)
    requires s.lock == Free && t !in s.consumers && s.list != [] && s.list[0] in s.stats
    ensures var s1 := Next(cfg, s, Remove(t));
      Enabled(s1, Lock(t)) && Next(cfg, s1, Lock(t)) == TakenUp(s, t)
  {
  }

  /** Serving the client just taken up and letting the lock go. */
  lemma LoneService(cfg: Config, s: State, s3: State, t: nat)
    requires Spec.Closed(View(s)) && s.lock == Free && t !in s.consumers
    requires s.list != [] && s.list[0] in s.stats
    requires ServedFrom(TakenUp(s, t), s3, t)
    ensures Enabled(s3, Unlock(t))
    ensures var o := Spec.Dequeue(View(s));
      && o.Served? && s3.consumers[t] == Returning(o.id, o.sent)
      && DequeuedTo(s, Next(cfg, s3, Unlock(t)), o)
  {
    var id, st := s.list[0], s.stats[s.list[0]];
    var service := Spec.Serve(s.queues[id], st.counter + st.quantum, st.throughput);
    assert [] + service.sent == service.sent;
    assert s3.consumers - {t} == s.consumers;
    assert s3.stats == s.stats[id := st.(counter := service.counter)];
  }

  /** The sequential functions apply to every reachable state. */
  lemma ReachableIsClosed(cfg: Config, r: Run)
    requires FromConstructor(cfg, r)
    ensures Spec.Closed(View(End(cfg, r)))
  {
    InvFromConstructor(cfg, r);
  }

  lemma SoloKnown(cfg: Config, r: Run, t: nat) returns (r': Run)
    requires Legal(cfg, r) && Spec.Closed(View(End(cfg, r)))
    requires var s := End(cfg, r); s.lock == Free && t !in s.consumers && s.list != [] && s.list[0] in s.stats
    ensures Legal(cfg, r') && SoloConsumer(r, r', t)
    ensures var o := Spec.Dequeue(View(End(cfg, r)));
      && o.Served? && DequeuedTo(End(cfg, r), End(cfg, r'), o)
      && ReturnsAtEnd(cfg, r', t, o.id, o.sent)
  {
    var s := End(cfg, r);
    TakesUp(cfg, s, t);
    var r1 := Do(cfg, r, Remove(t));
    var r2 := Do(cfg, r1, Lock(t));
    SoloChain(r, r1, r2, t);
    var r3 := SoloServe(cfg, r2, t);
    SoloChain(r, r2, r3, t);
    LoneService(cfg, s, End(cfg, r3), t);
    r' := Do(cfg, r3, Unlock(t));
    SoloChain(r, r3, r', t);
  }

  lemma SoloUnknown(cfg: Config, r: Run, t: nat) returns (r': Run)
    requires Legal(cfg, r)
    requires var s := End(cfg, r); s.lock == Free && t !in s.consumers && s.list != [] && s.list[0] !in s.stats
    ensures Legal(cfg, r') && SoloConsumer(r, r', t)
    ensures End(cfg, r') == End(cfg, r).(list := End(cfg, r).list[1..])
  {
    var s := End(cfg, r);
    var r1 := Do(cfg, r, Remove(t));
    var r2 := Do(cfg, r1, Lock(t));
    SoloChain(r, r1, r2, t);
    r' := Do(cfg, r2, Unlock(t));
    SoloChain(r, r2, r', t);
    assert s.consumers[t := Holding(s.list[0])][t := Discarding(s.list[0])] - {t} == s.consumers;
  }

  /** A consumer that nobody interrupts computes the sequential Dequeue: it returns the packets
      of a served client, or it has drained the list of unknown ids and is about to wait. */
  lemma {:induction false} SoloDequeue(cfg: Config, r: Run, t: nat) returns (r': Run)
    requires Legal(cfg, r) && Spec.Closed(View(End(cfg, r)))
    requires var s := End(cfg, r); s.lock == Free && t !in s.consumers
    ensures Legal(cfg, r') && SoloConsumer(r, r', t)
    ensures var o := Spec.Dequeue(View(End(cfg, r)));
      && DequeuedTo(End(cfg, r), End(cfg, r'), o)
      && (o.Served? ==> ReturnsAtEnd(cfg, r', t, o.id, o.sent))
    decreases |End(cfg, r).list|
  {
    var s := End(cfg, r);
    if s.list == [] {
      r' := r;
    } else if s.list[0] in s.stats {
      r' := SoloKnown(cfg, r, t);
    } else {
      var r1 := SoloUnknown(cfg, r, t);
      r' := SoloDequeue(cfg, r1, t);
      SoloChain(r, r1, r', t);
    }
  }

  // ----- the other two calls

  /** A producer that nobody interrupts computes the sequential Enqueue. */
  lemma SoloEnqueue(cfg: Config, s: State, p: nat, id: int, pkt: Packet)
    requires Enabled(s, Push(p, id, pkt))
    ensures var s1 := Next(cfg, s, Push(p, id, pkt));
      var s2 := if Enabled(s1, ProducerAppend(p)) then Next(cfg, s1, ProducerAppend(p)) else s1;
      View(s2) == Spec.Enqueue(View(s), cfg.capacity, pkt, id) && s2.producers == s.producers
  {
  }

  /** The route thread clears the remaining queues in whatever order. */
  lemma {:induction false} SoloClears(cfg: Config, r: Run) returns (r': Run)
    requires Legal(cfg, r) && End(cfg, r).route.Clearing? && End(cfg, r).route.todo <= End(cfg, r).queues.Keys
    ensures Legal(cfg, r') && First(r') == First(r)
    ensures var s, s' := End(cfg, r), End(cfg, r');
      && s'.route == Clearing(s.route.rates, {})
      && s' == s.(queues := s'.queues, route := s'.route)
      && s'.queues.Keys == s.queues.Keys
      && forall id :: id in s'.queues ==> s'.queues[id] == if id in s.route.todo then [] else s.queues[id]
    decreases End(cfg, r).route.todo
  {
    var s := End(cfg, r);
    if s.route.todo == {} {
      r' := r;
    } else {
      var id := Any(s.route.todo);
      var r1 := Do(cfg, r, RouteClear(id));
      r' := SoloClears(cfg, r1);
    }
  }

  lemma UpdateView(cfg: Config, s: State, rates: map<int, Rate>, s2: State, mode: FairnessMode)
    requires Enabled(s, RouteLock(rates))
    requires var s1 := Next(cfg, s, RouteLock(rates));
      && s2 == s1.(queues := s2.queues, route := Clearing(rates, {}))
      && s2.queues.Keys == s1.queues.Keys
      && forall id :: id in s2.queues ==> s2.queues[id] == if id in s1.route.todo then [] else s1.queues[id]
    ensures var n := Next(cfg, s2, RouteUnlock(mode));
      && View(n) == Spec.ComputeQuantum(View(s), rates, mode, cfg.round)
      && n.lock == Free && n.route.Away? && n.consumers == s.consumers && n.producers == s.producers
  {
    assert s2.queues.Keys == s.queues.Keys + rates.Keys;
    Spec.QueuesForByEntry(s.queues, s2.queues, rates);
  }

  /** ComputeQuantum that nobody interrupts computes its sequential form. */
  lemma SoloComputeQuantum(cfg: Config, r: Run, rates: map<int, Rate>, mode: FairnessMode) returns (r': Run)
    requires Legal(cfg, r) && Enabled(End(cfg, r), RouteLock(rates))
    ensures Legal(cfg, r') && First(r') == First(r)
    ensures View(End(cfg, r')) == Spec.ComputeQuantum(View(End(cfg, r)), rates, mode, cfg.round)
    ensures var s, s' := End(cfg, r), End(cfg, r');
      s'.lock == Free && s'.route.Away? && s'.consumers == s.consumers && s'.producers == s.producers
  {
    var r1 := Do(cfg, r, RouteLock(rates));
    var r2 := SoloClears(cfg, r1);
    r' := Do(cfg, r2, RouteUnlock(mode));
    UpdateView(cfg, End(cfg, r), rates, End(cfg, r2), mode);
  }

  /** Both start from what the constructor builds. */
  lemma InitialAgrees(cfg: Config, rate: Rate, ids: seq<int>)
    ensures View(Initial(cfg, rate, ids)) == Spec.Initial(rate, ids, cfg.round)
  {
    Spec.InitialByEntry(View(Initial(cfg, rate, ids)), rate, ids, cfg.round);
  }
}
