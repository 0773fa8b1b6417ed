/** Bookkeeping over an interval of a run in which quanta do not change:
    what a client was credited, what it spent and what it still carries. */
module Ledger {
  import opened Airtime
  import opened Threads
  import opened ThreadSafety

  /** The interval r goes on from where some run since construction ended. */
  ghost predicate Continues(cfg: Config, past: Run, r: Run) {
    FromConstructor(cfg, past) && Legal(cfg, r) && First(r) == End(cfg, past)
  }

  predicate NoRouteUpdate(r: Run) {
    r.Then? ==> !r.e.RouteLock? && NoRouteUpdate(r.prev)
  }

  /** A consumer finds the client's queue empty and takes its deficit away. */
  predicate SeesEmpty(s: State, e: Event, id: int) {
    e.Peek? && e.t in s.consumers && s.consumers[e.t].id == id && QueueOf(s, id) == []
  }

  ghost predicate NeverSeenEmpty(cfg: Config, r: Run, id: int)
    requires Legal(cfg, r)
  {
    r.Then? ==> !SeesEmpty(End(cfg, r.prev), r.e, id) && NeverSeenEmpty(cfg, r.prev, id)
  }

  // ----- per step

  predicate Serves(s: State, e: Event, id: int) {
    e.Lock? && e.t in s.consumers && s.consumers[e.t] == Holding(id) && id in s.stats
  }

  predicate Sends(s: State, e: Event, id: int) {
    e.Pop? && e.t in s.consumers && s.consumers[e.t].id == id && QueueOf(s, id) != []
  }

  // ----- per interval

  /** How often a Dequeue call took the client up. */
  ghost function Services(cfg: Config, r: Run, id: int): nat
    requires Legal(cfg, r)
  {
    match r
    case Start(_) => 0
    case Then(prev, e) => Services(cfg, prev, id) + (if Serves(End(cfg, prev), e, id) then 1 else 0)
  }

  ghost function Credit(cfg: Config, r: Run, id: int): real
    requires Legal(cfg, r)
  {
    match r
    case Start(_) => 0.0
    case Then(prev, e) =>
      var s := End(cfg, prev);
      Credit(cfg, prev, id) + (if Serves(s, e, id) then StatusOf(s, id).quantum else 0.0)
  }

  /** Total duration of the packets sent to the client. */
  ghost function AirtimeSent(cfg: Config, r: Run, id: int): nat
    requires Legal(cfg, r)
  {
    match r
    case Start(_) => 0
    case Then(prev, e) =>
      var s := End(cfg, prev);
      AirtimeSent(cfg, prev, id) + (if Sends(s, e, id) then HeadCost(s, id) else 0)
  }

  ghost function PacketsSent(cfg: Config, r: Run, id: int): nat
    requires Legal(cfg, r)
  {
    match r
    case Start(_) => 0
    case Then(prev, e) => PacketsSent(cfg, prev, id) + (if Sends(End(cfg, prev), e, id) then 1 else 0)
  }

  ghost function BitsSent(cfg: Config, r: Run, id: int): nat
    requires Legal(cfg, r)
  {
    match r
    case Start(_) => 0
    case Then(prev, e) =>
      var s := End(cfg, prev);
      BitsSent(cfg, prev, id) + (if Sends(s, e, id) then 8 * |QueueOf(s, id)[0]| else 0)
  }

  // ----- the ledger

  lemma RatesStep(cfg: Config, s: State, e: Event, id: int)
    requires Enabled(s, e) && s.route.Away? && !e.RouteLock? && id in s.stats
    ensures var n := Next(cfg, s, e);
      && n.route.Away? && id in n.stats
      && n.stats[id].quantum == s.stats[id].quantum
      && n.stats[id].throughput == s.stats[id].throughput
  {
  }

  lemma CounterStep(cfg: Config, s: State, e: Event, id: int)
    requires ConsumersOk(s) && Enabled(s, e) && s.route.Away? && !e.RouteLock? && id in s.stats
    requires !SeesEmpty(s, e, id)
    ensures StatusOf(Next(cfg, s, e), id).counter
         == s.stats[id].counter
            + (if Serves(s, e, id) then s.stats[id].quantum else 0.0)
            - (if Sends(s, e, id) then HeadCost(s, id) as real else 0.0)
  {
  }

  lemma ConsumersOkAlways(cfg: Config, r: Run)
    requires Legal(cfg, r) && Inv(cfg, First(r))
    ensures ConsumersOk(End(cfg, r))
  {
    InvAlways(cfg, r);
  }

  lemma {:induction false} RatesFixed(cfg: Config, r: Run, id: int)
    requires Legal(cfg, r) && First(r).route.Away? && NoRouteUpdate(r) && id in First(r).stats
    ensures var s := End(cfg, r);
      && s.route.Away? && id in s.stats
      && s.stats[id].quantum == First(r).stats[id].quantum
      && s.stats[id].throughput == First(r).stats[id].throughput
  {
    match r
    case Start(_) =>
    case Then(prev, e) =>
      RatesFixed(cfg, prev, id);
      RatesStep(cfg, End(cfg, prev), e, id);
  }

  /** Airtime sent is what was credited plus the change of the deficit: nothing else moves it. */
  lemma {:induction false} AirtimeIdentity(cfg: Config, r: Run, id: int)
    requires Legal(cfg, r) && Inv(cfg, First(r)) && First(r).route.Away? && NoRouteUpdate(r)
    requires id in First(r).stats && NeverSeenEmpty(cfg, r, id)
    ensures AirtimeSent(cfg, r, id) as real
         == Credit(cfg, r, id) + First(r).stats[id].counter - StatusOf(End(cfg, r), id).counter
  {
    match r
    case Start(_) =>
    case Then(prev, e) =>
      AirtimeIdentity(cfg, prev, id);
      ConsumersOkAlways(cfg, prev);
      RatesFixed(cfg, prev, id);
      CounterStep(cfg, End(cfg, prev), e, id);
  }

  /** Every service credits the same quantum. */
  lemma {:induction false} CreditIsServicesTimesQuantum(cfg: Config, r: Run, id: int)
    requires Legal(cfg, r) && First(r).route.Away? && NoRouteUpdate(r) && id in First(r).stats
    ensures Credit(cfg, r, id) == Times(Services(cfg, r, id), First(r).stats[id].quantum)
  {
    TimesAdd(0, 0, First(r).stats[id].quantum);
    match r
    case Start(_) =>
    case Then(prev, e) =>
      CreditIsServicesTimesQuantum(cfg, prev, id);
      RatesFixed(cfg, prev, id);
      TimesAdd(Services(cfg, prev, id), 1, First(r).stats[id].quantum);
  }

  /** n times x. */
  function Times(n: nat, x: real): real { n as real * x }

  lemma TimesAdd(m: nat, n: nat, x: real)
    ensures Times(m + n, x) == Times(m, x) + Times(n, x)
    ensures Times(0, x) == 0.0 && Times(1, x) == x
  {
  }

  /** Cutting each duration to whole microseconds hides less than one microsecond a packet. */
  lemma {:induction false} BitsAgainstAirtime(cfg: Config, r: Run, id: int)
    requires Legal(cfg, r) && First(r).route.Away? && NoRouteUpdate(r) && id in First(r).stats
    ensures var t := First(r).stats[id].throughput;
      && Times(AirtimeSent(cfg, r, id), t) <= BitsSent(cfg, r, id) as real
      && BitsSent(cfg, r, id) as real <= Times(AirtimeSent(cfg, r, id), t) + Times(PacketsSent(cfg, r, id), t)
  {
    var t := First(r).stats[id].throughput;
    TimesAdd(0, 0, t);
    match r
    case Start(_) =>
    case Then(prev, e) =>
      BitsAgainstAirtime(cfg, prev, id);
      RatesFixed(cfg, prev, id);
      var s := End(cfg, prev);
      if Sends(s, e, id) {
        TimesAdd(AirtimeSent(cfg, prev, id), HeadCost(s, id), t);
        TimesAdd(PacketsSent(cfg, prev, id), 1, t);
        DurationBounds(|QueueOf(s, id)[0]|, t);
      }
  }

  lemma DurationBounds(len: nat, t: Rate)
    ensures Times(Duration(len, t), t) <= (8 * len) as real < Times(Duration(len, t), t) + t
  {
  }
}
