/** The division of the round that ComputeQuantum installs, and how long it lasts. */
module Rounds {
  import opened ActiveIds
  import opened Airtime
  import opened Threads
  import opened ThreadSafety
  import opened Ledger

  function Rates(s: State): map<int, Rate> {
    map id | id in s.stats :: s.stats[id].throughput
  }

  function QuantaIn(s: State): map<int, real> {
    map id | id in s.stats :: s.stats[id].quantum
  }

  /** The quanta in force are those of the mode for the throughputs in force. */
  ghost predicate DividedBy(cfg: Config, s: State, mode: FairnessMode) {
    QuantaIn(s) == Quanta(mode, Rates(s), cfg.round)
  }

  /** A route update leaves such a division behind, with every deficit at zero. */
  lemma UpdateDivides(cfg: Config, s: State, mode: FairnessMode)
    requires Inv(cfg, s) && Enabled(s, RouteUnlock(mode))
    ensures var n := Next(cfg, s, RouteUnlock(mode));
      && DividedBy(cfg, n, mode) && Rates(n) == s.route.rates && n.lock == Free
      && forall id :: id in n.stats ==> n.stats[id].counter == 0.0
  {
    assert Rates(Next(cfg, s, RouteUnlock(mode))) == s.route.rates;
  }

  lemma ConstructorDivides(cfg: Config, rate: Rate, ids: seq<int>)
    requires Distinct(ids)
    ensures DividedBy(cfg, Initial(cfg, rate, ids), EqualTime)
  {
    var s := Initial(cfg, rate, ids);
    CountDistinct(ids);
    forall id | id in s.stats ensures QuantaIn(s)[id] == Quanta(EqualTime, Rates(s), cfg.round)[id] {
      EqualTimeLaw(Rates(s), cfg.round, id);
      assert Rates(s).Keys == IdSet(ids);
    }
  }

  /** It stays in force until the next update begins. */
  lemma {:induction false} DivisionLasts(cfg: Config, r: Run, mode: FairnessMode)
    requires Legal(cfg, r) && Inv(cfg, First(r)) && First(r).route.Away? && NoRouteUpdate(r)
    requires DividedBy(cfg, First(r), mode)
    ensures DividedBy(cfg, End(cfg, r), mode)
    ensures Rates(End(cfg, r)) == Rates(First(r)) && QuantaIn(End(cfg, r)) == QuantaIn(First(r))
    ensures End(cfg, r).route.Away?
  {
    match r
    case Start(_) =>
    case Then(prev, e) =>
      DivisionLasts(cfg, prev, mode);
      ConsumersOkAlways(cfg, prev);
      StepKeepsDivision(cfg, End(cfg, prev), e);
  }

  lemma StepKeepsDivision(cfg: Config, s: State, e: Event)
    requires ConsumersOk(s) && Enabled(s, e) && s.route.Away? && !e.RouteLock?
    ensures Rates(Next(cfg, s, e)) == Rates(s) && QuantaIn(Next(cfg, s, e)) == QuantaIn(s)
    ensures Next(cfg, s, e).route.Away?
  {
  }

  /** The mode of the last update that was completed; the constructor divides by equal time. */
  function ModeInForce(r: Run): FairnessMode {
    match r
    case Start(_) => EqualTime
    case Then(prev, e) => if e.RouteUnlock? then e.mode else ModeInForce(prev)
  }

  /** Some update was completed. */
  predicate Updated(r: Run) { r.Then? && (r.e.RouteUnlock? || Updated(r.prev)) }

  /** In every run, any number of updates included: whenever no update is under way, the quanta are
      those of the last mode for the throughputs in force, except that until the first update a
      constructor that was given a client twice has divided by too many. */
  lemma {:induction false} DivisionAlways(cfg: Config, r: Run, rate: Rate, ids: seq<int>)
    requires Legal(cfg, r) && First(r) == Initial(cfg, rate, ids) && End(cfg, r).route.Away?
    ensures Updated(r) || Distinct(ids) ==> DividedBy(cfg, End(cfg, r), ModeInForce(r))
    ensures !Updated(r) && !Distinct(ids) && cfg.round > 0 ==> !DividedBy(cfg, End(cfg, r), ModeInForce(r))
    ensures !Updated(r) && !Distinct(ids) && cfg.round > 0 ==> Sum(QuantaIn(End(cfg, r))) < cfg.round as real
  {
    if Updated(r) {
      DividedOnceUpdated(cfg, r);
    } else {
      NotYetUpdated(cfg, r);
      if Distinct(ids) {
        ConstructorDivides(cfg, rate, ids);
      } else if cfg.round > 0 {
        RepeatedIdsFallShort(cfg, rate, ids);
      }
    }
  }

  /** From the first completed update on, whatever the constructor was given. */
  lemma {:induction false} DividedOnceUpdated(cfg: Config, r: Run)
    requires FromConstructor(cfg, r) && Updated(r) && End(cfg, r).route.Away?
    ensures DividedBy(cfg, End(cfg, r), ModeInForce(r))
  {
    var prev, e := r.prev, r.e;
    assert FromConstructor(cfg, prev);
    InvFromConstructor(cfg, prev);
    if !e.RouteUnlock? {
      DividedOnceUpdated(cfg, prev);
    }
    DivisionStep(cfg, End(cfg, prev), e, ModeInForce(prev));
  }

  /** Until then everything is as the constructor left it. */
  lemma {:induction false} NotYetUpdated(cfg: Config, r: Run)
    requires FromConstructor(cfg, r) && !Updated(r) && End(cfg, r).route.Away?
    ensures Rates(End(cfg, r)) == Rates(First(r)) && QuantaIn(End(cfg, r)) == QuantaIn(First(r))
    ensures ModeInForce(r) == EqualTime
  {
    match r
    case Start(_) =>
    case Then(prev, e) =>
      assert FromConstructor(cfg, prev);
      InvFromConstructor(cfg, prev);
      NotYetUpdated(cfg, prev);
      StepKeepsDivision(cfg, End(cfg, prev), e);
  }

  /** Up to the first update every client has the rate and the share that the constructor gave it. */
  lemma AsConstructed(cfg: Config, r: Run, rate: Rate, ids: seq<int>)
    requires Legal(cfg, r) && First(r) == Initial(cfg, rate, ids) && NoRouteUpdate(r)
    ensures var s := End(cfg, r);
      && (forall id :: id in s.stats <==> id in ids)
      && forall id :: id in s.stats ==>
           s.stats[id].throughput == rate && s.stats[id].quantum == cfg.round as real / |ids| as real
  {
    StillAway(cfg, r);
    NotYetUpdated(cfg, r);
    var s, s0 := End(cfg, r), First(r);
    assert s.stats.Keys == Rates(s).Keys == Rates(s0).Keys;
    assert forall id :: id in s0.stats <==> id in ids;
    forall id | id in s.stats
      ensures s.stats[id].throughput == rate && s.stats[id].quantum == cfg.round as real / |ids| as real
    {
      assert Rates(s)[id] == Rates(s0)[id] && QuantaIn(s)[id] == QuantaIn(s0)[id];
    }
  }

  lemma {:induction false} StillAway(cfg: Config, r: Run)
    requires Legal(cfg, r) && First(r).route.Away? && NoRouteUpdate(r)
    ensures End(cfg, r).route.Away? && !Updated(r)
  {
    match r
    case Start(_) =>
    case Then(prev, e) =>
      StillAway(cfg, prev);
      StaysAway(cfg, End(cfg, prev), e);
  }

  lemma StaysAway(cfg: Config, s: State, e: Event)
    requires Enabled(s, e) && s.route.Away? && !e.RouteLock?
    ensures Next(cfg, s, e).route.Away? && !e.RouteUnlock?
  {
  }

  /** A constructor given a client twice shares the round among more clients than it has. */
  lemma RepeatedIdsFallShort(cfg: Config, rate: Rate, ids: seq<int>)
    requires !Distinct(ids) && cfg.round > 0
    ensures Sum(QuantaIn(Initial(cfg, rate, ids))) < cfg.round as real
    ensures !DividedBy(cfg, Initial(cfg, rate, ids), EqualTime)
  {
    var s := Initial(cfg, rate, ids);
    var rates := Rates(s);
    CountRepeated(ids);
    assert rates.Keys == IdSet(ids) && QuantaIn(s).Keys == IdSet(ids);
    forall id | id in s.stats ensures QuantaIn(s)[id] < Quanta(EqualTime, rates, cfg.round)[id] {
      EqualTimeLaw(rates, cfg.round, id);
      SmallerShare(cfg.round, |rates|, |ids|);
    }
    SumLess(QuantaIn(s), Quanta(EqualTime, rates, cfg.round));
    QuantaDivideRound(EqualTime, rates, cfg.round);
  }

  lemma SmallerShare(round: nat, few: nat, many: nat)
    requires round > 0 && 0 < few < many
    ensures EqualShare(round, many) < EqualShare(round, few)
  {
  }

  lemma DivisionStep(cfg: Config, s: State, e: Event, mode: FairnessMode)
    requires Inv(cfg, s) && Enabled(s, e) && (s.route.Away? ==> DividedBy(cfg, s, mode))
    ensures Next(cfg, s, e).route.Away? ==> DividedBy(cfg, Next(cfg, s, e), if e.RouteUnlock? then e.mode else mode)
  {
    if e.RouteUnlock? {
      UpdateDivides(cfg, s, e.mode);
    } else if s.route.Away? && !e.RouteLock? {
      StepKeepsDivision(cfg, s, e);
    }
  }

  /** While a division is in force its quanta add up to the round and are positive. */
  lemma DivisionIsWhole(cfg: Config, s: State, mode: FairnessMode)
    requires DividedBy(cfg, s, mode) && s.stats.Keys != {}
    ensures Sum(QuantaIn(s)) == cfg.round as real
    ensures cfg.round > 0 ==> forall id :: id in s.stats ==> s.stats[id].quantum > 0.0
  {
    QuantaDivideRound(mode, Rates(s), cfg.round);
    if cfg.round > 0 {
      QuantaPositive(mode, Rates(s), cfg.round);
      forall id | id in s.stats ensures s.stats[id].quantum > 0.0 {
        assert s.stats[id].quantum == QuantaIn(s)[id];
      }
    }
  }

  /** And every two of them obey the law of the mode. */
  lemma DivisionLaw(cfg: Config, s: State, mode: FairnessMode, i: int, j: int)
    requires DividedBy(cfg, s, mode) && i in s.stats && j in s.stats
    ensures match mode
      case EqualTime => s.stats[i].quantum == s.stats[j].quantum
      case ProportionalThroughput =>
        Worth(s.stats[i].quantum, s.stats[j].throughput) == Worth(s.stats[j].quantum, s.stats[i].throughput)
      case EqualThroughput =>
        Worth(s.stats[i].quantum, s.stats[i].throughput) == Worth(s.stats[j].quantum, s.stats[j].throughput)
  {
    var rates, q := Rates(s), QuantaIn(s);
    assert q[i] == s.stats[i].quantum && q[j] == s.stats[j].quantum;
    assert rates[i] == s.stats[i].throughput && rates[j] == s.stats[j].throughput;
    match mode
    case EqualTime =>
      EqualTimeLaw(rates, cfg.round, i);
      EqualTimeLaw(rates, cfg.round, j);
    case ProportionalThroughput =>
      ProportionalLaw(rates, cfg.round, i, j);
    case EqualThroughput =>
      EqualThroughputLaw(rates, cfg.round, i, j);
  }
}
