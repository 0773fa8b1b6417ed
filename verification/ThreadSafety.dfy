/** What every step of every thread keeps. */
module ThreadSafety {
  import opened ActiveIds
  import opened Airtime
  import opened Threads

  /** The head packet is too dear for what the client has left. */
  predicate HeadTooDear(s: State, id: int) {
    && QueueOf(s, id) != []
    && StatusOf(s, id).counter < HeadCost(s, id) as real
  }

  function HeadCost(s: State, id: int): nat {
    if QueueOf(s, id) == [] then 0 else Duration(|QueueOf(s, id)[0]|, StatusOf(s, id).throughput)
  }

  /** The deficit a client carries while nobody serves it. */
  predicate Settled(s: State, id: int) {
    StatusOf(s, id).counter == 0.0 || HeadTooDear(s, id)
  }

  predicate InLoop(pc: Pc) { pc.Peeking? || pc.Popping? }

  /** A consumer is in the service loop for this client. */
  predicate BeingServed(s: State, id: int) {
    && s.lock.ByConsumer? && s.lock.t in s.consumers
    && InLoop(s.consumers[s.lock.t]) && s.consumers[s.lock.t].id == id
  }

  ghost predicate ListOk(s: State) {
    && Distinct(s.list)
    && (forall id :: id in s.list ==> id in s.queues)
    && (forall p :: p in s.producers ==> s.producers[p] in s.queues)
  }

  ghost predicate QueuesOk(cfg: Config, s: State) {
    && (forall id :: id in s.queues ==> |s.queues[id]| <= cfg.capacity)
    && (forall id, k :: id in s.queues && 0 <= k < |s.queues[id]| ==> s.queues[id][k] != [])
  }

  ghost predicate LockOk(s: State) {
    && (forall t :: t in s.consumers ==> (!s.consumers[t].Holding? <==> s.lock == ByConsumer(t)))
    && (s.lock.ByConsumer? ==> s.lock.t in s.consumers)
    && (s.route.Clearing? <==> s.lock == ByRoute)
  }

  ghost predicate ConsumersOk(s: State) {
    forall t :: t in s.consumers ==>
      var pc := s.consumers[t];
      && pc.id in s.queues
      && (!pc.Holding? && !pc.Discarding? ==> pc.id in s.stats)
      && (pc.Popping? ==> QueueOf(s, pc.id) != [] && |QueueOf(s, pc.id)[0]| == pc.len
                          && HeadCost(s, pc.id) as real <= StatusOf(s, pc.id).counter)
      && (pc.Appending? ==> HeadTooDear(s, pc.id))
  }

  ghost predicate StatsOk(s: State) {
    && (forall id :: id in s.stats ==>
          && id in s.queues
          && s.stats[id].counter >= 0.0
          && s.stats[id].quantum >= 0.0
          && (BeingServed(s, id) || Settled(s, id)))
    && (s.route.Clearing? ==>
          && s.route.rates.Keys == s.stats.Keys
          && s.route.todo !! s.stats.Keys
          && s.route.todo <= s.queues.Keys)
  }

  ghost predicate Inv(cfg: Config, s: State) {
    ListOk(s) && QueuesOk(cfg, s) && LockOk(s) && ConsumersOk(s) && StatsOk(s)
  }

  // ----- one step

  lemma ListStep(cfg: Config, s: State, e: Event)
    requires Inv(cfg, s) && Enabled(s, e)
    ensures ListOk(Next(cfg, s, e))
  {
  }

  lemma QueuesStep(cfg: Config, s: State, e: Event)
    requires Inv(cfg, s) && Enabled(s, e)
    ensures QueuesOk(cfg, Next(cfg, s, e))
  {
  }

  lemma LockStep(cfg: Config, s: State, e: Event)
    requires Inv(cfg, s) && Enabled(s, e)
    ensures LockOk(Next(cfg, s, e))
  {
  }

  /** Steps of the service loop, which alone touch counters. */
  predicate LoopStep(e: Event) { e.Lock? || e.Peek? || e.Pop? }

  lemma ConsumersLoopStep(cfg: Config, s: State, e: Event)
    requires Inv(cfg, s) && Enabled(s, e) && LoopStep(e)
    ensures ConsumersOk(Next(cfg, s, e))
  {
  }

  lemma ConsumersOtherStep(cfg: Config, s: State, e: Event)
    requires Inv(cfg, s) && Enabled(s, e) && !LoopStep(e)
    ensures ConsumersOk(Next(cfg, s, e))
  {
  }

  lemma StatsLoopStep(cfg: Config, s: State, e: Event)
    requires Inv(cfg, s) && Enabled(s, e) && LoopStep(e)
    ensures StatsOk(Next(cfg, s, e))
  {
  }

  lemma StatsOtherStep(cfg: Config, s: State, e: Event)
    requires Inv(cfg, s) && Enabled(s, e) && !LoopStep(e)
    ensures StatsOk(Next(cfg, s, e))
  {
  }

  lemma InvStep(cfg: Config, s: State, e: Event)
    requires Inv(cfg, s) && Enabled(s, e)
    ensures Inv(cfg, Next(cfg, s, e))
  {
    ListStep(cfg, s, e);
    QueuesStep(cfg, s, e);
    LockStep(cfg, s, e);
    if LoopStep(e) {
      ConsumersLoopStep(cfg, s, e);
      StatsLoopStep(cfg, s, e);
    } else {
      ConsumersOtherStep(cfg, s, e);
      StatsOtherStep(cfg, s, e);
    }
  }

  // ----- whole runs

  lemma {:induction false} InvAlways(cfg: Config, r: Run)
    requires Legal(cfg, r) && Inv(cfg, First(r))
    ensures Inv(cfg, End(cfg, r))
  {
    match r
    case Start(_) =>
    case Then(prev, e) =>
      InvAlways(cfg, prev);
      InvStep(cfg, End(cfg, prev), e);
  }

  lemma InvFromConstructor(cfg: Config, r: Run)
    requires FromConstructor(cfg, r)
    ensures Inv(cfg, First(r)) && Inv(cfg, End(cfg, r))
  {
    InvAlways(cfg, r);
  }

  /** The assertion in PktQueue::Dequeue holds whenever a consumer reaches it, in any interleaving,
      and the packet it takes is the one that was peeked and is paid for. */
  lemma PopFindsThePeekedPacket(cfg: Config, r: Run, t: nat)
    requires FromConstructor(cfg, r)
    requires Enabled(End(cfg, r), Pop(t))
    ensures var s := End(cfg, r); var pc := s.consumers[t];
      && QueueOf(s, pc.id) != []
      && |QueueOf(s, pc.id)[0]| == pc.len > 0
      && Duration(pc.len, StatusOf(s, pc.id).throughput) as real <= StatusOf(s, pc.id).counter
  {
    InvFromConstructor(cfg, r);
  }

  /** The deficit every client carries while the scheduler's lock is free. */
  lemma DeficitBelowHead(cfg: Config, r: Run, id: int)
    requires FromConstructor(cfg, r)
    requires End(cfg, r).lock == Free && id in End(cfg, r).stats
    ensures var s := End(cfg, r);
      && s.stats[id].counter >= 0.0
      && (s.stats[id].counter != 0.0 ==>
            QueueOf(s, id) != [] &&
            s.stats[id].counter < Duration(|QueueOf(s, id)[0]|, s.stats[id].throughput) as real)
  {
    InvFromConstructor(cfg, r);
  }

  /** Queues never exceed their capacity and the list never repeats a client. */
  lemma BoundsAlways(cfg: Config, r: Run)
    requires FromConstructor(cfg, r)
    ensures var s := End(cfg, r);
      && Distinct(s.list)
      && forall id :: id in s.queues ==> |s.queues[id]| <= cfg.capacity
  {
    InvFromConstructor(cfg, r);
  }
}
