/**
 The scheduler as its threads see it. Every critical section of a queue mutex or of the
 active-list mutex is one step, and so are taking and releasing the scheduler's own lock.
 Any number of producers (Enqueue) and consumers (Dequeue) run beside the route thread
 (ComputeQuantum); a step sequence is an arbitrary interleaving of theirs.
 */
module Threads {
  import opened ActiveIds
  import opened Airtime

  /** Where a consumer thread stands inside Dequeue; a thread not in the map is outside it. */
  datatype Pc =
    | Holding(id: int)                                  // id removed from the list, lock not taken
    | Peeking(id: int, sent: seq<Packet>)               // at the loop head
    | Popping(id: int, sent: seq<Packet>, len: nat)     // the peeked packet is affordable
    | Appending(id: int, sent: seq<Packet>)             // left the loop with a packet still queued
    | Returning(id: int, sent: seq<Packet>)             // only the unlock is left
    | Discarding(id: int)                               // unknown client: unlock and try again

  datatype Holder = Free | ByConsumer(t: nat) | ByRoute

  datatype RoutePc = Away | Clearing(rates: map<int, Rate>, todo: set<int>)

  datatype Config = Config(capacity: nat, round: nat)

  datatype State = State(
    queues: map<int, seq<Packet>>,
    list: seq<int>,
    stats: map<int, Status>,
    lock: Holder,
    producers: map<nat, int>,   // threads between a successful push and its Append
    consumers: map<nat, Pc>,
    route: RoutePc)

  datatype Event =
    | Push(p: nat, id: int, pkt: Packet)
    | ProducerAppend(p: nat)
    | Remove(t: nat)
    | Lock(t: nat)
    | Peek(t: nat)
    | Pop(t: nat)
    | ConsumerAppend(t: nat)
    | Unlock(t: nat)
    | RouteLock(rates: map<int, Rate>)
    | RouteClear(id: int)
    | RouteUnlock(mode: FairnessMode)

  // ----- the shared pieces of state

  /** The queue of a client; empty when there is none. */
  function QueueOf(s: State, id: int): seq<Packet> {
    if id in s.queues then s.queues[id] else []
  }

  function StatusOf(s: State, id: int): Status {
    if id in s.stats then s.stats[id] else Status(1.0, 0.0, 0.0)
  }

  function WithCounter(s: State, id: int, counter: real): State {
    s.(stats := s.stats[id := StatusOf(s, id).(counter := counter)])
  }

  // ----- steps

  predicate Enabled(s: State, e: Event) {
    match e
    case Push(p, id, pkt) => p !in s.producers && id in s.queues && 0 < |pkt| <= MAX_LEN
    case ProducerAppend(p) => p in s.producers
    case Remove(t) => t !in s.consumers && s.list != []
    case Lock(t) => t in s.consumers && s.consumers[t].Holding? && s.lock == Free
    case Peek(t) => t in s.consumers && s.consumers[t].Peeking?
    case Pop(t) => t in s.consumers && s.consumers[t].Popping?
    case ConsumerAppend(t) => t in s.consumers && s.consumers[t].Appending?
    case Unlock(t) => t in s.consumers && (s.consumers[t].Returning? || s.consumers[t].Discarding?)
    case RouteLock(rates) => s.route.Away? && s.lock == Free
    case RouteClear(id) => s.route.Clearing? && id in s.route.todo
    case RouteUnlock(mode) => s.route.Clearing? && s.route.todo == {}
  }

  ghost function Next(cfg: Config, s: State, e: Event): State
    requires Enabled(s, e)
  {
    match e
    case Push(p, id, pkt) =>
      if |s.queues[id]| == cfg.capacity then s else
        s.(queues := s.queues[id := s.queues[id] + [pkt]], producers := s.producers[p := id])
    case ProducerAppend(p) =>
      s.(list := AppendId(s.list, s.producers[p]), producers := s.producers - {p})
    case Remove(t) =>
      s.(list := s.list[1..], consumers := s.consumers[t := Holding(s.list[0])])
    case Lock(t) =>
      var id := s.consumers[t].id;
      if id in s.stats then
        WithCounter(s, id, s.stats[id].counter + s.stats[id].quantum)
        .(lock := ByConsumer(t), consumers := s.consumers[t := Peeking(id, [])])
      else
        s.(lock := ByConsumer(t), consumers := s.consumers[t := Discarding(id)])
    case Peek(t) =>
      var Peeking(id, sent) := s.consumers[t];
      var q := QueueOf(s, id);
      if q == [] then
        WithCounter(s, id, 0.0).(consumers := s.consumers[t := Returning(id, sent)])
      else if StatusOf(s, id).counter < Duration(|q[0]|, StatusOf(s, id).throughput) as real then
        s.(consumers := s.consumers[t := Appending(id, sent)])
      else
        s.(consumers := s.consumers[t := Popping(id, sent, |q[0]|)])
    case Pop(t) =>
      var Popping(id, sent, len) := s.consumers[t];
      var q := QueueOf(s, id);
      if q == [] then s else  // the assertion of PktQueue::Dequeue fails here
        var cost := Duration(len, StatusOf(s, id).throughput) as real;
        WithCounter(s, id, StatusOf(s, id).counter - cost)
        .(queues := s.queues[id := q[1..]], consumers := s.consumers[t := Peeking(id, sent + [q[0]])])
    case ConsumerAppend(t) =>
      var Appending(id, sent) := s.consumers[t];
      s.(list := AppendId(s.list, id), consumers := s.consumers[t := Returning(id, sent)])
    case Unlock(t) =>
      s.(lock := Free, consumers := s.consumers - {t})
    case RouteLock(rates) =>
      var queues := s.queues + (map id | id in rates && id !in s.queues :: []);
      s.(lock := ByRoute, queues := queues,
         stats := map id | id in rates :: Status(rates[id], 0.0, 0.0),
         route := Clearing(rates, queues.Keys - rates.Keys))
    case RouteClear(id) =>
      s.(queues := s.queues[id := []], route := s.route.(todo := s.route.todo - {id}))
    case RouteUnlock(mode) =>
      var q := Quanta(mode, s.route.rates, cfg.round);
      s.(lock := Free, route := Away,
         stats := map id | id in s.route.rates :: Status(s.route.rates[id], q[id], 0.0))
  }

  /** The state a constructor leaves behind. */
  function Initial(cfg: Config, rate: Rate, ids: seq<int>): State {
    State(map id | id in ids :: [], [],
          map id | id in ids :: Status(rate, EqualShare(cfg.round, |ids|), 0.0),
          Free, map[], map[], Away)
  }

  // ----- runs

  datatype Run = Start(s0: State) | Then(prev: Run, e: Event)

  ghost predicate Legal(cfg: Config, r: Run)
    decreases r, 0
  {
    match r
    case Start(_) => true
    case Then(prev, e) => Legal(cfg, prev) && Enabled(End(cfg, prev), e)
  }

  ghost function End(cfg: Config, r: Run): State
    requires Legal(cfg, r)
    decreases r, 1
  {
    match r
    case Start(s) => s
    case Then(prev, e) => Next(cfg, End(cfg, prev), e)
  }

  function First(r: Run): State {
    match r
    case Start(s) => s
    case Then(prev, _) => First(prev)
  }

  /** Every run that begins where a constructor ends. */
  ghost predicate FromConstructor(cfg: Config, r: Run) {
    && Legal(cfg, r)
    && exists rate: Rate, ids :: First(r) == Initial(cfg, rate, ids)
  }

  /** One step more. */
  lemma Do(cfg: Config, r: Run, e: Event) returns (n: Run)
    requires Legal(cfg, r) && Enabled(End(cfg, r), e)
    ensures n == Then(r, e) && Legal(cfg, n) && First(n) == First(r)
    ensures End(cfg, n) == Next(cfg, End(cfg, r), e)
  {
    n := Then(r, e);
  }
}
