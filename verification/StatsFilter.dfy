/** Reports of base stations: the highest sequence number wins. */
module StatsFilter {
  import opened Wrap

  datatype Option<T> = None | Some(value: T)

  datatype Report = Report(bs: int, client: int, seqNum: uint32, throughput: real)

  /** What happens to the controller: a report arrives, or the route thread clears the table. */
  datatype Event = Received(report: Report) | TableCleared

  /** A two-level table. */
  type Table<T> = map<int, map<int, T>>

  function Lookup<T>(m: Table<T>, a: int, b: int): Option<T> {
    if a in m && b in m[a] then Some(m[a][b]) else None
  }

  function Store<T>(m: Table<T>, a: int, b: int, v: T): (m': Table<T>)
    ensures forall x, y :: Lookup(m', x, y) == if x == a && y == b then Some(v) else Lookup(m, x, y)
  {
    m[a := (if a in m then m[a] else map[])[b := v]]
  }

  /** A missing entry reads as 0. */
  function SeqOf(current: Table<uint32>, bs: int, client: int): uint32 {
    match Lookup(current, bs, client)
    case None => 0
    case Some(n) => n
  }

  datatype Config = Config(bsIds: set<int>, clientIds: set<int>)

  datatype State = State(current: Table<uint32>, stats: Table<real>)

  predicate Known(cfg: Config, r: Report) { r.bs in cfg.bsIds && r.client in cfg.clientIds }

  function Next(cfg: Config, s: State, e: Event): State {
    match e
    case TableCleared => s.(stats := map[])
    case Received(r) =>
      if Known(cfg, r) && SeqOf(s.current, r.bs, r.client) < r.seqNum then
        State(Store(s.current, r.bs, r.client, r.seqNum), Store(s.stats, r.client, r.bs, r.throughput))
      else s
  }

  function Init(cfg: Config): State {
    State(map bs | bs in cfg.bsIds :: map client | client in cfg.clientIds :: 0, map[])
  }

  function Run(cfg: Config, es: seq<Event>): State {
    if es == [] then Init(cfg) else Next(cfg, Run(cfg, es[..|es| - 1]), es[|es| - 1])
  }

  // ----- what the state means

  predicate About(cfg: Config, e: Event, bs: int, client: int) {
    e.Received? && Known(cfg, e.report) && e.report.bs == bs && e.report.client == client
  }

  /** The highest sequence number among the known reports of a pair; 0 when there is none. */
  function MaxSeq(cfg: Config, es: seq<Event>, bs: int, client: int): uint32 {
    if es == [] then 0 else
      var before := MaxSeq(cfg, es[..|es| - 1], bs, client);
      var e := es[|es| - 1];
      if About(cfg, e, bs, client) && e.report.seqNum > before then e.report.seqNum else before
  }

  lemma {:induction false} MaxSeqIsMaximum(cfg: Config, es: seq<Event>, bs: int, client: int)
    ensures forall e :: e in es && About(cfg, e, bs, client) ==> e.report.seqNum <= MaxSeq(cfg, es, bs, client)
    ensures MaxSeq(cfg, es, bs, client) > 0 ==>
      exists e :: e in es && About(cfg, e, bs, client) && e.report.seqNum == MaxSeq(cfg, es, bs, client)
  {
    if es != [] {
      var front, last := es[..|es| - 1], es[|es| - 1];
      MaxSeqIsMaximum(cfg, front, bs, client);
      assert es == front + [last];
      if MaxSeq(cfg, es, bs, client) == MaxSeq(cfg, front, bs, client) > 0 {
        var e :| e in front && About(cfg, e, bs, client) && e.report.seqNum == MaxSeq(cfg, front, bs, client);
        assert e in es;
      } else if MaxSeq(cfg, es, bs, client) > 0 {
        assert last in es;
      }
    }
  }

  /** The recorded sequence number of a pair is the highest known one received. */
  lemma {:induction false} CurrentIsMaximum(cfg: Config, es: seq<Event>, bs: int, client: int)
    ensures SeqOf(Run(cfg, es).current, bs, client) == MaxSeq(cfg, es, bs, client)
  {
    if es != [] {
      var front := es[..|es| - 1];
      CurrentIsMaximum(cfg, front, bs, client);
      var e := es[|es| - 1];
      if e.Received? && Known(cfg, e.report) {
        CurrentIsMaximum(cfg, front, e.report.bs, e.report.client);
      }
    }
  }

  /** Event i is a report that raised the maximum of the pair. */
  predicate Raises(cfg: Config, es: seq<Event>, i: nat, bs: int, client: int) {
    i < |es| && About(cfg, es[i], bs, client) && es[i].report.seqNum > MaxSeq(cfg, es[..i], bs, client)
  }

  /** Event i raised the maximum last, and the table was not cleared since. */
  ghost predicate Stands(cfg: Config, es: seq<Event>, i: nat, bs: int, client: int) {
    && Raises(cfg, es, i, bs, client)
    && forall j :: i < j < |es| ==> !Raises(cfg, es, j, bs, client) && es[j] != TableCleared
  }

  /** Appending an event keeps what the earlier ones did. */
  lemma RaisesInFront(cfg: Config, es: seq<Event>, i: nat, bs: int, client: int)
    requires i < |es| - 1
    ensures Raises(cfg, es, i, bs, client) <==> Raises(cfg, es[..|es| - 1], i, bs, client)
  {
    assert es[..|es| - 1][..i] == es[..i];
  }

  lemma {:induction false} EntryStep(cfg: Config, es: seq<Event>, bs: int, client: int)
    requires es != []
    ensures var last := |es| - 1;
      Lookup(Run(cfg, es).stats, client, bs)
      == if es[last] == TableCleared then None
         else if Raises(cfg, es, last, bs, client) then Some(es[last].report.throughput)
         else Lookup(Run(cfg, es[..last]).stats, client, bs)
  {
    var front, e := es[..|es| - 1], es[|es| - 1];
    if e.Received? && Known(cfg, e.report) {
      CurrentIsMaximum(cfg, front, e.report.bs, e.report.client);
    }
  }

  /** The table has an entry for a pair exactly when a report that raised the pair's maximum arrived
      since the last clear, and the entry is the throughput of the last such report, the one with
      the highest sequence number. */
  lemma {:induction false} EntryExactly(cfg: Config, es: seq<Event>, bs: int, client: int)
    ensures Lookup(Run(cfg, es).stats, client, bs).Some? <==> exists i: nat :: Stands(cfg, es, i, bs, client)
    ensures forall i: nat :: Stands(cfg, es, i, bs, client) ==>
      && Lookup(Run(cfg, es).stats, client, bs) == Some(es[i].report.throughput)
      && es[i].report.seqNum == MaxSeq(cfg, es, bs, client)
  {
    if es != [] {
      var last := |es| - 1;
      var front := es[..last];
      EntryExactly(cfg, front, bs, client);
      EntryStep(cfg, es, bs, client);
      forall i: nat | i < last ensures Stands(cfg, es, i, bs, client)
        <==> Stands(cfg, front, i, bs, client) && !Raises(cfg, es, last, bs, client) && es[last] != TableCleared
      {
        StandsInFront(cfg, es, i, bs, client);
      }
      if Raises(cfg, es, last, bs, client) {
        assert Stands(cfg, es, last, bs, client);
      }
      if i: nat :| Stands(cfg, front, i, bs, client) && !Raises(cfg, es, last, bs, client) && es[last] != TableCleared {
        assert Stands(cfg, es, i, bs, client);
      }
    }
  }

  lemma StandsInFront(cfg: Config, es: seq<Event>, i: nat, bs: int, client: int)
    requires i < |es| - 1
    ensures Stands(cfg, es, i, bs, client)
      <==> Stands(cfg, es[..|es| - 1], i, bs, client)
           && !Raises(cfg, es, |es| - 1, bs, client) && es[|es| - 1] != TableCleared
  {
    var last := |es| - 1;
    RaisesInFront(cfg, es, i, bs, client);
    forall j: nat | i < j < last ensures Raises(cfg, es, j, bs, client) <==> Raises(cfg, es[..last], j, bs, client) {
      RaisesInFront(cfg, es, j, bs, client);
    }
  }

  // ----- which reports count

  /** Nothing is ever kept for a base station or a client that is not configured. */
  lemma {:induction false} UnconfiguredNeverKept(cfg: Config, es: seq<Event>, bs: int, client: int)
    requires bs !in cfg.bsIds || client !in cfg.clientIds
    ensures Lookup(Run(cfg, es).stats, client, bs) == None
    ensures Lookup(Run(cfg, es).current, bs, client) == None
  {
    if es != [] {
      UnconfiguredNeverKept(cfg, es[..|es| - 1], bs, client);
    }
  }

  /** A report of a configured pair whose number is above all earlier ones of the pair is kept. */
  lemma NewestReportKept(cfg: Config, es: seq<Event>, r: Report)
    requires r.bs in cfg.bsIds && r.client in cfg.clientIds && r.seqNum > 0
    requires forall e :: e in es && e.Received? && e.report.bs == r.bs && e.report.client == r.client ==>
      e.report.seqNum < r.seqNum
    ensures var s := Run(cfg, es + [Received(r)]);
      && Lookup(s.stats, r.client, r.bs) == Some(r.throughput)
      && Lookup(s.current, r.bs, r.client) == Some(r.seqNum)
      && forall bs, client :: bs != r.bs || client != r.client ==>
           Lookup(s.stats, client, bs) == Lookup(Run(cfg, es).stats, client, bs)
  {
    assert (es + [Received(r)])[..|es|] == es;
    CurrentIsMaximum(cfg, es, r.bs, r.client);
    MaxSeqIsMaximum(cfg, es, r.bs, r.client);
  }

  /** A report of the same pair with at least that number. */
  predicate Outdoes(e: Event, r: Report) {
    e.Received? && e.report.bs == r.bs && e.report.client == r.client && e.report.seqNum >= r.seqNum
  }

  /** One that is not above them, or of number 0, changes nothing. */
  lemma LateReportIgnored(cfg: Config, es: seq<Event>, r: Report)
    requires r.seqNum == 0 || exists e :: e in es && Outdoes(e, r)
    ensures Run(cfg, es + [Received(r)]) == Run(cfg, es)
  {
    assert (es + [Received(r)])[..|es|] == es;
    if r.bs in cfg.bsIds && r.client in cfg.clientIds {
      CurrentIsMaximum(cfg, es, r.bs, r.client);
      MaxSeqIsMaximum(cfg, es, r.bs, r.client);
    }
  }

  // ----- order of arrival

  predicate NeverCleared(es: seq<Event>) { TableCleared !in es }

  lemma {:induction false} SomeReportStands(cfg: Config, es: seq<Event>, bs: int, client: int)
    requires NeverCleared(es) && MaxSeq(cfg, es, bs, client) > 0
    ensures exists i: nat :: Stands(cfg, es, i, bs, client)
  {
    var last := |es| - 1;
    if Raises(cfg, es, last, bs, client) {
      assert Stands(cfg, es, last, bs, client);
    } else {
      SomeReportStands(cfg, es[..last], bs, client);
      var i: nat :| Stands(cfg, es[..last], i, bs, client);
      StandsInFront(cfg, es, i, bs, client);
      assert es[last] in es;
      assert Stands(cfg, es, i, bs, client);
    }
  }

  /** No two reports of a pair share a sequence number and differ in throughput. */
  ghost predicate Unambiguous(cfg: Config, es: seq<Event>, bs: int, client: int) {
    forall d, e | d in es && e in es && About(cfg, d, bs, client) && About(cfg, e, bs, client) ::
      d.report.seqNum == e.report.seqNum ==> d.report.throughput == e.report.throughput
  }

  lemma SameMaximum(cfg: Config, es: seq<Event>, fs: seq<Event>, bs: int, client: int)
    requires forall e :: e in es ==> e in fs
    ensures MaxSeq(cfg, es, bs, client) <= MaxSeq(cfg, fs, bs, client)
  {
    MaxSeqIsMaximum(cfg, es, bs, client);
    MaxSeqIsMaximum(cfg, fs, bs, client);
  }

  /** Without clears the order of arrival does not matter: any reordering of the same reports
      leaves the same entry for every pair. */
  lemma OrderDoesNotMatter(cfg: Config, es: seq<Event>, fs: seq<Event>, bs: int, client: int)
    requires multiset(es) == multiset(fs) && NeverCleared(es) && Unambiguous(cfg, es, bs, client)
    ensures Lookup(Run(cfg, es).stats, client, bs) == Lookup(Run(cfg, fs).stats, client, bs)
    ensures SeqOf(Run(cfg, es).current, bs, client) == SeqOf(Run(cfg, fs).current, bs, client)
  {
    forall e ensures e in es <==> e in fs {
      assert e in multiset(es) <==> e in multiset(fs);
    }
    SameMaximum(cfg, es, fs, bs, client);
    SameMaximum(cfg, fs, es, bs, client);
    CurrentIsMaximum(cfg, es, bs, client);
    CurrentIsMaximum(cfg, fs, bs, client);
    EntryExactly(cfg, es, bs, client);
    EntryExactly(cfg, fs, bs, client);
    if MaxSeq(cfg, es, bs, client) > 0 {
      SomeReportStands(cfg, es, bs, client);
      SomeReportStands(cfg, fs, bs, client);
      var i: nat :| Stands(cfg, es, i, bs, client);
      var j: nat :| Stands(cfg, fs, j, bs, client);
      assert es[i] in es && fs[j] in es;
    }
  }

  // ----- the classes

  class BSStatsTable {
    var stats: Table<real>

    constructor ()
      ensures stats == map[]
    {
      stats := map[];
    }

    method Update(client: int, bs: int, throughput: real)
      modifies this
      ensures Lookup(stats, client, bs) == Some(throughput)
      ensures forall x, y :: x != client || y != bs ==> Lookup(stats, x, y) == Lookup(old(stats), x, y)
      ensures stats == Store(old(stats), client, bs, throughput)
    {
      stats := Store(stats, client, bs, throughput);
    }

    method Clear()
      modifies this
      ensures stats == map[]
    {
      stats := map[];
    }
  }

  class StatsReceiver {
    const cfg: Config
    var currentSeq: Table<uint32>
    const table: BSStatsTable

    function Contents(): State
      reads this, table
    {
      State(currentSeq, table.stats)
    }

    constructor (cfg: Config)
      ensures this.cfg == cfg && fresh(table) && Contents() == Init(cfg)
    {
      this.cfg := cfg;
      currentSeq := map bs | bs in cfg.bsIds :: map client | client in cfg.clientIds :: 0;
      table := new BSStatsTable();
    }

    /** One report: kept only if both ids are known and its number is the highest so far. */
    method Receive(r: Report)
      modifies this, table
      ensures Contents() == Next(cfg, old(Contents()), Received(r))
    {
      if r.bs in cfg.bsIds && r.client in cfg.clientIds && SeqOf(currentSeq, r.bs, r.client) < r.seqNum {
        currentSeq := Store(currentSeq, r.bs, r.client, r.seqNum);
        table.Update(r.client, r.bs, r.throughput);
      }
    }

    /** The receiving loop, over the reports that arrive between two clears of the table. */
    method RecvFromBS(reports: seq<Report>, ghost past: seq<Event>)
      requires Contents() == Run(cfg, past)
      modifies this, table
      ensures Contents() == Run(cfg, past + seq(|reports|, i requires 0 <= i < |reports| => Received(reports[i])))
    {
      ghost var events := seq(|reports|, i requires 0 <= i < |reports| => Received(reports[i]));
      assert past + events[..0] == past;
      for i := 0 to |reports|
        invariant Contents() == Run(cfg, past + events[..i])
      {
        ghost var longer := past + events[..i + 1];
        assert longer[..|longer| - 1] == past + events[..i] && longer[|longer| - 1] == Received(reports[i]);
        Receive(reports[i]);
      }
      assert events[..|reports|] == events;
    }
  }
}
