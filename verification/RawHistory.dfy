/** Where every raw packet's record goes, over any sequence of calls. */
module RawHistory {
  import opened Wrap
  import opened RawBuffer
  import opened AckPipeline

  datatype Call =
    | PushStatus(e: Entry)
    | PopStatus(endSeq: uint32, numPkts: uint16, nacks: seq<uint32>)
    | ClearStatus

  /** A record leaves by being reported to a caller or by being erased before an ack's window. */
  datatype Removal = Reported(e: Entry) | Erased(e: Entry)

  datatype Step = Step(buf: Buffer, removed: seq<Removal>)

  function Tag(b: Buffer, erased: nat): (rs: seq<Removal>)
    requires erased <= |b|
    ensures |rs| == |b|
    ensures forall i :: 0 <= i < |b| ==> rs[i] == if i < erased then Erased(b[i]) else Reported(b[i])
  {
    seq(|b|, i requires 0 <= i < |b| => if i < erased then Erased(b[i]) else Reported(b[i]))
  }

  /** How many records an ack erases without reporting them: those before its window. */
  function StaleFront(b: Buffer, c: Call): nat
    requires c.PopStatus?
  {
    if StoreAck(b, c.endSeq, c.numPkts, c.nacks).outcome == Stored
    then BeforeWindow(b, c) else 0
  }

  function BeforeWindow(b: Buffer, c: Call): (n: nat)
    requires c.PopStatus? && StoreAck(b, c.endSeq, c.numPkts, c.nacks).outcome == Stored
    ensures n < |b| && n == GetInd(b, BeginSeq(c.endSeq, c.numPkts))
  {
    GetInd(b, BeginSeq(c.endSeq, c.numPkts))
  }

  /** The call runs into the failing assertion. */
  predicate Fails(b: Buffer, c: Call) {
    c.PopStatus? && StoreAck(b, c.endSeq, c.numPkts, c.nacks).outcome == AssertFailed
  }

  /** One call on the buffer: what it leaves there and what it takes out, in order. A call that
      fails its assertion ends the program there, with nothing handed out. */
  function Do(b: Buffer, c: Call): Step {
    match c
    case PushStatus(e) => if |b| >= MAX_BUF then Step([e], Tag(AllBad(b), 0)) else Step(b + [e], [])
    case ClearStatus => Step([], Tag(AllBad(b), 0))
    case PopStatus(endSeq, numPkts, nacks) =>
      var m := StoreAck(b, endSeq, numPkts, nacks);
      var stale := StaleFront(b, c);
      if m.outcome == AssertFailed then Step(m.buf, []) else
      Step(m.buf[Decided(m.buf)..], Tag(b[..stale], stale) + Tag(m.buf[..Decided(m.buf)], 0))
  }

  datatype Run = Empty | Then(prev: Run, c: Call)

  function Held(r: Run): Buffer {
    match r
    case Empty => []
    case Then(prev, c) => Do(Held(prev), c).buf
  }

  /** The last call failed its assertion. */
  predicate Failed(r: Run) { r.Then? && Fails(Held(r.prev), r.c) }

  /** No call comes after a failed assertion. */
  predicate Legal(r: Run) { r.Then? ==> Legal(r.prev) && !Failed(r.prev) }

  function Pushed(r: Run): Buffer {
    match r
    case Empty => []
    case Then(prev, c) => Pushed(prev) + PushedBy(c)
  }

  function PushedBy(c: Call): Buffer { if c.PushStatus? then [c.e] else [] }

  function Removed(r: Run): seq<Removal> {
    match r
    case Empty => []
    case Then(prev, c) => Removed(prev) + Do(Held(prev), c).removed
  }

  /** Records without their fates. */
  function Plain(b: Buffer): (p: Buffer)
    ensures |p| == |b| && forall i :: 0 <= i < |b| ==> p[i] == b[i].(fate := Unknown)
  {
    seq(|b|, i requires 0 <= i < |b| => b[i].(fate := Unknown))
  }

  function PlainRemoved(rs: seq<Removal>): (p: Buffer)
    ensures |p| == |rs| && forall i :: 0 <= i < |rs| ==> p[i] == rs[i].e.(fate := Unknown)
  {
    seq(|rs|, i requires 0 <= i < |rs| => rs[i].e.(fate := Unknown))
  }

  lemma {:induction false} MarkBadPlain(b: Buffer, nacks: seq<uint32>)
    ensures Plain(MarkBad(b, nacks).buf) == Plain(b)
    decreases |nacks|
  {
    if nacks != [] && GetInd(b, nacks[0]) >= 0 && b[GetInd(b, nacks[0])].fate == Unknown {
      var marked := Mark(b, GetInd(b, nacks[0]), Bad);
      MarkBadPlain(marked, nacks[1..]);
      assert Plain(marked) == Plain(b);
    }
  }

  lemma MarkGoodPlain(b: Buffer, lo: nat, hi: int)
    requires lo <= |b|
    ensures Plain(b) == Plain(b[..lo]) + Plain(MarkGood(b, lo, hi)[lo..])
  {
  }

  lemma PlainFront(a: Buffer, b: Buffer, n: nat)
    requires Plain(a) == Plain(b) && n <= |b|
    ensures Plain(a[..n]) == Plain(b[..n])
  {
    assert Plain(a[..n]) == Plain(a)[..n];
    assert Plain(b[..n]) == Plain(b)[..n];
  }

  /** An ack takes off the front of the buffer and changes nothing but fates. */
  lemma {:induction false} StorePlain(b: Buffer, c: Call)
    requires c.PopStatus?
    ensures Plain(b) == Plain(b[..StaleFront(b, c)]) + Plain(StoreAck(b, c.endSeq, c.numPkts, c.nacks).buf)
  {
    var marked := MarkBad(b, c.nacks);
    MarkBadPlain(b, c.nacks);
    var stale := StaleFront(b, c);
    if StoreAck(b, c.endSeq, c.numPkts, c.nacks).outcome == Stored {
      MarkGoodPlain(marked.buf, stale, GetInd(marked.buf, c.endSeq));
      PlainFront(marked.buf, b, stale);
    }
  }

  lemma PlainJoins(a: Buffer, b: Buffer)
    ensures Plain(a + b) == Plain(a) + Plain(b)
  {
  }

  lemma PlainRemovedJoins(a: seq<Removal>, b: seq<Removal>)
    ensures PlainRemoved(a + b) == PlainRemoved(a) + PlainRemoved(b)
  {
  }

  lemma TagPlain(b: Buffer, erased: nat)
    requires erased <= |b|
    ensures PlainRemoved(Tag(b, erased)) == Plain(b)
  {
  }

  lemma ReportConserves(stale: Buffer, m: Buffer, n: nat)
    requires n <= |m|
    ensures PlainRemoved(Tag(stale, |stale|) + Tag(m[..n], 0)) + Plain(m[n..]) == Plain(stale) + Plain(m)
  {
  }

  lemma AckConserves(b: Buffer, c: Call)
    requires c.PopStatus?
    ensures var s := Do(b, c); Plain(b) == PlainRemoved(s.removed) + Plain(s.buf)
  {
    StorePlain(b, c);
    var m := StoreAck(b, c.endSeq, c.numPkts, c.nacks).buf;
    if !Fails(b, c) {
      ReportConserves(b[..StaleFront(b, c)], m, Decided(m));
    }
  }

  /** One call: what it takes out and what it leaves is what was there and what it pushed. */
  lemma StepConserves(b: Buffer, c: Call)
    ensures var s := Do(b, c); Plain(b) + Plain(PushedBy(c)) == PlainRemoved(s.removed) + Plain(s.buf)
  {
    TagPlain(AllBad(b), 0);
    assert Plain(AllBad(b)) == Plain(b);
    PlainJoins(b, PushedBy(c));
    if c.PopStatus? {
      AckConserves(b, c);
    }
  }

  /** Over any sequence of calls the records pushed are, in order, the records taken out followed
      by those still held, and never more than the limit are held. */
  lemma {:induction false} HistoryConserved(r: Run)
    ensures Plain(Pushed(r)) == PlainRemoved(Removed(r)) + Plain(Held(r))
    ensures |Held(r)| <= 4000
  {
    match r
    case Empty =>
    case Then(prev, c) =>
      HistoryConserved(prev);
      var b, s := Held(prev), Do(Held(prev), c);
      StepConserves(b, c);
      SizeStep(b, c);
      PlainJoins(Pushed(prev), PushedBy(c));
      PlainRemovedJoins(Removed(prev), s.removed);
      Regroup(PlainRemoved(Removed(prev)), Plain(b), Plain(PushedBy(c)), PlainRemoved(s.removed), Plain(s.buf));
  }

  lemma Regroup(out: Buffer, held: Buffer, pushed: Buffer, gone: Buffer, left: Buffer)
    requires held + pushed == gone + left
    ensures (out + held) + pushed == (out + gone) + left
  {
    assert (out + held) + pushed == out + (held + pushed);
    assert out + (gone + left) == (out + gone) + left;
  }

  lemma SizeStep(b: Buffer, c: Call)
    requires |b| <= MAX_BUF
    ensures |Do(b, c).buf| <= MAX_BUF
  {
  }

  // ----- what goes unreported

  /** Sequence number m comes before n, reading the wrapped distance as a signed number. */
  predicate Before(m: uint32, n: uint32) { 0 < Sub32(n, m) < TWO32 / 2 }

  /** The call is an ack that gets stored, and record e lies before its first sequence number. */
  predicate Outdates(b: Buffer, c: Call, e: Entry) {
    && c.PopStatus? && StoreAck(b, c.endSeq, c.numPkts, c.nacks).outcome == Stored
    && Before(e.seqNum, BeginSeq(c.endSeq, c.numPkts))
  }

  lemma BeforeIsInFront(b: Buffer, j: nat, k: nat)
    requires Consecutive(b) && |b| <= MAX_BUF && j < |b| && k < |b|
    ensures Before(b[j].seqNum, b[k].seqNum) <==> j < k
  {
    if j <= k {
      DistanceInside(b, j, k);
    } else {
      DistanceInside(b, k, j);
      assert Sub32(b[k].seqNum, b[j].seqNum) == TWO32 - (j - k);
    }
  }

  /** A record is taken out without being reported exactly when a stored ack begins after it in
      sequence order, across the wrap too; every reported record has a fate. */
  lemma ErasedOnlyBeforeWindow(b: Buffer, c: Call, e: Entry)
    requires Consecutive(b) && |b| <= MAX_BUF
    ensures Erased(e) in Do(b, c).removed <==> e in b && Outdates(b, c, e)
    ensures Reported(e) in Do(b, c).removed ==> e.fate != Unknown
  {
    var removed := Do(b, c).removed;
    if c.PopStatus? && StoreAck(b, c.endSeq, c.numPkts, c.nacks).outcome == Stored {
      var begin := BeginSeq(c.endSeq, c.numPkts);
      var lo := BeforeWindow(b, c);
      GetIndExact(b, begin, lo);
      forall j | 0 <= j < |b| ensures Before(b[j].seqNum, begin) <==> j < lo {
        BeforeIsInFront(b, j, lo);
      }
      forall j | 0 <= j < lo ensures removed[j] == Erased(b[j]) {}
      assert forall j :: lo <= j < |removed| ==> removed[j].Reported?;
      if e in b && Before(e.seqNum, begin) {
        var j :| 0 <= j < |b| && b[j] == e;
        assert removed[j] == Erased(e);
      }
    }
  }

  lemma StepsFrom(p: Buffer, gone: nat, i: nat)
    requires Consecutive(p) && gone + i < |p|
    ensures p[gone + i].seqNum == Add32(p[gone].seqNum, i)
  {
    AddAssociates(p[0].seqNum, gone, i);
    assert p[gone].seqNum == Add32(p[0].seqNum, gone);
  }

  lemma PlainTail(p: Buffer, out: Buffer, h: Buffer, i: nat)
    requires Plain(p) == out + Plain(h) && i < |h|
    ensures |p| == |out| + |h| && h[i].seqNum == p[|out| + i].seqNum
  {
    assert |Plain(p)| == |out| + |h|;
    assert Plain(p)[|out| + i] == Plain(h)[i];
  }

  /** The newest part of consecutive records is consecutive. */
  lemma NewestConsecutive(p: Buffer, out: Buffer, h: Buffer)
    requires Consecutive(p) && Plain(p) == out + Plain(h)
    ensures Consecutive(h)
  {
    forall i | 0 <= i < |h| ensures h[i].seqNum == Add32(h[0].seqNum, i) {
      PlainTail(p, out, h, 0);
      PlainTail(p, out, h, i);
      StepsFrom(p, |out|, i);
    }
  }

  lemma HeldConsecutive(r: Run)
    requires Consecutive(Pushed(r))
    ensures Consecutive(Held(r))
  {
    HistoryConserved(r);
    NewestConsecutive(Pushed(r), PlainRemoved(Removed(r)), Held(r));
  }

  /** Some ack of the run outdated the record while it was held. */
  predicate OutdatedIn(r: Run, e: Entry) {
    r.Then? && (OutdatedIn(r.prev, e) || (e in Held(r.prev) && Outdates(Held(r.prev), r.c, e)))
  }

  /** Over any calls, when consecutive numbers are pushed: exactly the outdated records go unreported,
      and nothing is reported without a fate. */
  lemma {:induction false} UnreportedExactly(r: Run, e: Entry)
    requires Consecutive(Pushed(r))
    ensures Erased(e) in Removed(r) <==> OutdatedIn(r, e)
    ensures Reported(e) in Removed(r) ==> e.fate != Unknown
  {
    match r
    case Empty =>
    case Then(prev, c) =>
      PrefixConsecutive(Pushed(prev), PushedBy(c));
      UnreportedExactly(prev, e);
      HeldConsecutive(prev);
      HistoryConserved(prev);
      ErasedOnlyBeforeWindow(Held(prev), c, e);
  }

  lemma PrefixConsecutive(b: Buffer, more: Buffer)
    requires Consecutive(b + more)
    ensures Consecutive(b)
  {
    assert forall i :: 0 <= i < |b| ==> b[i] == (b + more)[i];
  }

  // ----- the assertion, over runs

  /** After any run, the next ack fails its assertion if and only if a nack before its first stray one
      is repeated or names a packet whose fate is known. */
  lemma FailsExactly(r: Run, endSeq: uint32, numPkts: uint16, nacks: seq<uint32>)
    ensures Failed(Then(r, PopStatus(endSeq, numPkts, nacks))) <==> !NacksFresh(Held(r), nacks)
  {
    AssertionHoldsExactly(Held(r), nacks);
  }

  function Record(seqNum: uint32): Entry { Entry(seqNum, 0, 0, Unknown) }

  /** It does happen, without a repeated nack: the stray nack 50 ends the first ack early and leaves
      packet 11 marked behind packet 10, whose fate stays open; the next ack names 11 again. */
  lemma StrayNackLeavesMark() returns (r: Run, c: Call)
    ensures Legal(r) && !Failed(r) && Consecutive(Pushed(r))
    ensures Pushed(r) == [Record(10), Record(11)] && Removed(r) == []
    ensures c == PopStatus(11, 2, [11]) && Failed(Then(r, c))
  {
    var pushed := Then(Then(Empty, PushStatus(Record(10))), PushStatus(Record(11)));
    var b := Held(pushed);
    assert b == [Record(10), Record(11)];
    var nacks: seq<uint32> := [11, 50];
    var marked := [Record(10), Record(11).(fate := Bad)];
    assert MarkBad(b, nacks) == Marked(marked, UnknownNack) by {
      assert GetInd(b, 11) == 1 && Mark(b, 1, Bad) == marked;
      assert GetInd(marked, 50) == -1 && nacks[1..] == [50];
    }
    r := Then(pushed, PopStatus(11, 2, nacks));
    assert Decided(marked) == 0;
    assert Held(r) == marked;
    c := PopStatus(11, 2, [11]);
    assert GetInd(marked, 11) == 1;
  }

  /** The sender pushes consecutive numbers and every ack is well formed for what is held. */
  ghost predicate WellFormedRun(r: Run) {
    match r
    case Empty => true
    case Then(prev, c) =>
      WellFormedRun(prev) && WellFormedCall(Held(prev), c)
  }

  ghost predicate WellFormedCall(b: Buffer, c: Call) {
    match c
    case PushStatus(e) => e.fate == Unknown && (b != [] ==> e.seqNum == Add32(b[|b| - 1].seqNum, 1))
    case PopStatus(end, n, nacks) => exists lo, hi :: WellFormed(b, lo, hi, end, n, nacks)
    case ClearStatus => true
  }

  /** So every ack of such a run finds a consecutive buffer without fates, as AckReportsWindow
      asks, and its assertion holds. */
  lemma {:induction false} WellFormedRunKeepsBuffer(r: Run)
    requires WellFormedRun(r)
    ensures Consecutive(Held(r)) && AllUnknown(Held(r))
    ensures Legal(r) && !Failed(r)
    ensures r.Then? && r.c.PopStatus? ==> StoreAck(Held(r.prev), r.c.endSeq, r.c.numPkts, r.c.nacks).outcome == Stored
  {
    match r
    case Empty =>
    case Then(prev, c) =>
      WellFormedRunKeepsBuffer(prev);
      WellFormedStep(Held(prev), c);
  }

  lemma WellFormedStep(b: Buffer, c: Call)
    requires Consecutive(b) && AllUnknown(b) && WellFormedCall(b, c)
    ensures Consecutive(Do(b, c).buf) && AllUnknown(Do(b, c).buf)
    ensures c.PopStatus? ==> StoreAck(b, c.endSeq, c.numPkts, c.nacks).outcome == Stored
  {
    if c.PushStatus? && b != [] {
      AddAssociates(b[0].seqNum, |b| - 1, 1);
    } else if c.PopStatus? {
      var lo, hi :| WellFormed(b, lo, hi, c.endSeq, c.numPkts, c.nacks);
      AckReportsWindow(b, lo, hi, c.endSeq, c.numPkts, c.nacks);
    }
  }

  // ----- the class

  function Reports(rs: seq<Removal>): seq<Entry> {
    if rs == [] then [] else
      Reports(rs[..|rs| - 1]) + (if rs[|rs| - 1].Reported? then [rs[|rs| - 1].e] else [])
  }

  lemma {:induction false} ReportsSplit(a: seq<Removal>, b: seq<Removal>)
    ensures Reports(a + b) == Reports(a) + Reports(b)
  {
    if b == [] {
      assert a + b == a;
    } else {
      assert (a + b)[..|a + b| - 1] == a + b[..|b| - 1];
      ReportsSplit(a, b[..|b| - 1]);
    }
  }

  lemma {:induction false} TaggedReports(b: Buffer, erased: nat)
    requires erased == 0 || erased == |b|
    ensures Reports(Tag(b, erased)) == if erased == 0 then b else []
  {
    if b != [] {
      var m := |b| - 1;
      assert Tag(b, erased)[..m] == Tag(b[..m], if erased == 0 then 0 else m);
      TaggedReports(b[..m], if erased == 0 then 0 else m);
    }
  }

  lemma CallReports(b: Buffer, c: Call)
    ensures Reports(Do(b, c).removed) == match c
      case PushStatus(_) => if |b| >= MAX_BUF then AllBad(b) else []
      case ClearStatus => AllBad(b)
      case PopStatus(endSeq, numPkts, nacks) =>
        var m := StoreAck(b, endSeq, numPkts, nacks);
        if m.outcome == AssertFailed then [] else m.buf[..Decided(m.buf)]
  {
    TaggedReports(AllBad(b), 0);
    if c.PopStatus? && !Fails(b, c) {
      var m := StoreAck(b, c.endSeq, c.numPkts, c.nacks);
      var stale := b[..StaleFront(b, c)];
      ReportsSplit(Tag(stale, |stale|), Tag(m.buf[..Decided(m.buf)], 0));
      TaggedReports(stale, |stale|);
      TaggedReports(m.buf[..Decided(m.buf)], 0);
    }
  }

  /** One call on the real buffer: its new contents and what the caller gets are those of Do. */
  method Perform(raw: TxRawBuf, c: Call) returns (failed: bool, vec: seq<Entry>)
    modifies raw
    ensures failed <==> Fails(old(raw.infoDeq), c)
    ensures !failed ==> raw.infoDeq == Do(old(raw.infoDeq), c).buf
    ensures vec == Reports(Do(old(raw.infoDeq), c).removed)
  {
    CallReports(raw.infoDeq, c);
    failed := false;
    match c {
      case PushStatus(e) =>
        vec := raw.PushPktStatus([], e);
      case ClearStatus =>
        vec := raw.ClearPktStatus();
      case PopStatus(endSeq, numPkts, nacks) =>
        var outcome;
        outcome, vec := raw.PopPktStatus(endSeq, numPkts, nacks);
        failed := outcome == AssertFailed;
    }
  }

  function Extended(r: Run, calls: seq<Call>): Run {
    if calls == [] then r else Then(Extended(r, calls[..|calls| - 1]), calls[|calls| - 1])
  }

  /** The run r is what the calls made of past, and reports is what their callers got meanwhile. */
  predicate Continues(past: Run, r: Run, reports: seq<Entry>) {
    Legal(r) && Reports(Removed(r)) == Reports(Removed(past)) + reports
  }

  lemma ReportsGoOn(out: seq<Removal>, gone: seq<Removal>, before: seq<Entry>, reports: seq<Entry>)
    requires Reports(out) == before + reports
    ensures Reports(out + gone) == before + (reports + Reports(gone))
  {
    ReportsSplit(out, gone);
    assert (before + reports) + Reports(gone) == before + (reports + Reports(gone));
  }

  lemma ContinuesByOne(past: Run, r: Run, c: Call, reports: seq<Entry>)
    requires Continues(past, r, reports) && !Failed(r)
    ensures Continues(past, Then(r, c), reports + Reports(Do(Held(r), c).removed))
  {
    ReportsGoOn(Removed(r), Do(Held(r), c).removed, Reports(Removed(past)), reports);
  }

  lemma ExtendedByOne(past: Run, calls: seq<Call>, done: nat)
    requires done < |calls|
    ensures Extended(past, calls[..done + 1]) == Then(Extended(past, calls[..done]), calls[done])
  {
    assert calls[..done + 1][..done] == calls[..done];
  }

  /** A batch of calls continues the history up to the first failed assertion, and what its callers
      get are the reports of that history. */
  method PerformAll(raw: TxRawBuf, calls: seq<Call>, ghost past: Run)
      returns (failed: bool, done: nat, reports: seq<Entry>)
    requires Legal(past) && !Failed(past) && raw.infoDeq == Held(past)
    modifies raw
    ensures done <= |calls| && (done < |calls| ==> failed)
    ensures var r := Extended(past, calls[..done]);
      Continues(past, r, reports) && (failed <==> Failed(r)) && (!failed ==> raw.infoDeq == Held(r))
  {
    failed, done, reports := false, 0, [];
    while done < |calls| && !failed
      invariant 0 <= done <= |calls|
      invariant var r := Extended(past, calls[..done]);
        Continues(past, r, reports) && (failed <==> Failed(r)) && (!failed ==> raw.infoDeq == Held(r))
      decreases |calls| - done, !failed
    {
      ExtendedByOne(past, calls, done);
      ContinuesByOne(past, Extended(past, calls[..done]), calls[done], reports);
      var vec;
      failed, vec := Perform(raw, calls[done]);
      reports := reports + vec;
      done := done + 1;
    }
  }
}
