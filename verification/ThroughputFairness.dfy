/** In the equal-throughput mode, backlogged clients get the same number of bits. */
module ThroughputFairness {
  import opened Airtime
  import opened Threads
  import opened ThreadSafety
  import opened Delivery
  import opened Ledger
  import opened Rounds
  import opened Fairness

  /** No packet of the client, queued at the start or accepted since, is longer than lmax bytes. */
  ghost predicate LengthsWithin(cfg: Config, r: Run, id: int, lmax: nat)
    requires Legal(cfg, r)
  {
    forall pkt :: pkt in QueueOf(First(r), id) + Accepted(cfg, r, id) ==> |pkt| <= lmax
  }

  lemma TimesOrder(m: nat, n: nat, x: real)
    requires m <= n && x >= 0.0
    ensures Times(m, x) <= Times(n, x)
  {
  }

  lemma DurationMonotone(short: nat, long: nat, t: Rate)
    requires short <= long
    ensures Duration(short, t) <= Duration(long, t)
  {
    var a, b := Duration(short, t), Duration(long, t);
    DurationBounds(short, t);
    DurationBounds(long, t);
    if b < a {
      TimesAdd(b, 1, t);
      TimesOrder(b + 1, a, t);
    }
  }

  lemma LengthsBoundDurations(cfg: Config, r: Run, id: int, lmax: nat)
    requires Legal(cfg, r) && LengthsWithin(cfg, r, id, lmax)
    ensures DurationsWithin(cfg, r, id, Duration(lmax, StatusOf(First(r), id).throughput))
  {
    var t := StatusOf(First(r), id).throughput;
    forall pkt | pkt in QueueOf(First(r), id) + Accepted(cfg, r, id)
      ensures Duration(|pkt|, t) <= Duration(lmax, t)
    {
      DurationMonotone(|pkt|, lmax, t);
    }
  }

  /** The bits that one service is worth. */
  function ServiceWorth(st: Status): real { Worth(st.quantum, st.throughput) }

  lemma ScaleNear(sent: nat, k: nat, m: nat, st: Status)
    requires -(m as real) <= sent as real - Times(k, st.quantum) <= m as real
    ensures Times(sent, st.throughput) <= Times(k, ServiceWorth(st)) + Times(m, st.throughput)
    ensures Times(k, ServiceWorth(st)) <= Times(sent, st.throughput) + Times(m, st.throughput)
  {
  }

  /** The bits of one client against its services. */
  lemma BitsNearServices(cfg: Config, past: Run, r: Run, id: int, lmax: nat)
    requires Continues(cfg, past, r) && LengthsWithin(cfg, r, id, lmax)
    requires First(r).route.Away? && NoRouteUpdate(r) && id in First(r).stats
    requires First(r).lock == Free && End(cfg, r).lock == Free
    requires NeverSeenEmpty(cfg, r, id)
    ensures var st := First(r).stats[id];
      var share := Times(Services(cfg, r, id), ServiceWorth(st));
      && share - (8 * lmax) as real <= BitsSent(cfg, r, id) as real
      && BitsSent(cfg, r, id) as real <= share + (8 * lmax) as real + Times(PacketsSent(cfg, r, id), st.throughput)
  {
    var st := First(r).stats[id];
    LengthsBoundDurations(cfg, r, id, lmax);
    AirtimeNearCredit(cfg, past, r, id, Duration(lmax, st.throughput));
    BitsAgainstAirtime(cfg, r, id);
    WithinOnePacket(AirtimeSent(cfg, r, id), Services(cfg, r, id), st, lmax,
                    BitsSent(cfg, r, id), PacketsSent(cfg, r, id));
  }

  lemma WithinOnePacket(airtime: nat, k: nat, st: Status, lmax: nat, bits: nat, packets: nat)
    requires var m := Duration(lmax, st.throughput);
      -(m as real) <= airtime as real - Times(k, st.quantum) <= m as real
    requires Times(airtime, st.throughput) <= bits as real
      <= Times(airtime, st.throughput) + Times(packets, st.throughput)
    ensures Times(k, ServiceWorth(st)) - (8 * lmax) as real <= bits as real
      <= Times(k, ServiceWorth(st)) + (8 * lmax) as real + Times(packets, st.throughput)
  {
    ScaleNear(airtime, k, Duration(lmax, st.throughput), st);
    DurationBounds(lmax, st.throughput);
  }

  /** Throughput fairness: the exact price of cutting durations is one microsecond's worth of
      bits for each packet sent. */
  lemma ThroughputFair(cfg: Config, past: Run, r: Run, i: int, j: int, lmax: nat)
    requires Continues(cfg, past, r) && Backlogged(cfg, r, i, j)
    requires First(r).lock == Free && End(cfg, r).lock == Free
    requires DividedBy(cfg, First(r), EqualThroughput)
    requires LengthsWithin(cfg, r, i, lmax) && LengthsWithin(cfg, r, j, lmax)
    ensures var si, sj := First(r).stats[i], First(r).stats[j];
      && ServiceWorth(si) == ServiceWorth(sj)
      && BitsSent(cfg, r, i) as real - BitsSent(cfg, r, j) as real
         <= ServiceWorth(si) + (16 * lmax) as real + Times(PacketsSent(cfg, r, i), si.throughput)
  {
    InvFromConstructor(cfg, past);
    EqualWorth(cfg, First(r), i, j);
    ServicesDifferByAtMostOne(cfg, past, r, i, j);
    BitsNearServices(cfg, past, r, i, lmax);
    BitsNearServices(cfg, past, r, j, lmax);
    OneServiceApart(Services(cfg, r, i), Services(cfg, r, j), ServiceWorth(First(r).stats[i]));
  }

  lemma OneServiceApart(ki: nat, kj: nat, worth: real)
    requires ki <= kj + 1 && worth >= 0.0
    ensures Times(ki, worth) <= Times(kj, worth) + worth
  {
    TimesOrder(ki, kj + 1, worth);
    TimesAdd(kj, 1, worth);
  }

  lemma EqualWorth(cfg: Config, s: State, i: int, j: int)
    requires Inv(cfg, s) && DividedBy(cfg, s, EqualThroughput) && i in s.stats && j in s.stats
    ensures ServiceWorth(s.stats[i]) == ServiceWorth(s.stats[j]) >= 0.0
  {
    DivisionLaw(cfg, s, EqualThroughput, i, j);
  }
}
