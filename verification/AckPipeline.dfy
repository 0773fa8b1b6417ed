/** From lost packets at the receiver to fates at the sender. */
module AckPipeline {
  import opened Wrap
  import opened AckCodec
  import opened RawBuffer

  predicate NoDuplicates(s: seq<uint32>) {
    forall i, j :: 0 <= i < j < |s| ==> s[i] != s[j]
  }

  /** The nacks name entries from lo to hi of the buffer, each at most once. */
  predicate NacksWithin(b: Buffer, lo: nat, hi: nat, nacks: seq<uint32>) {
    && NoDuplicates(nacks)
    && forall n :: n in nacks ==> exists k :: lo <= k <= hi < |b| && b[k].seqNum == n
  }

  /** An ack for entries lo to hi of a consecutive buffer, none of which has a fate yet. */
  predicate WellFormed(b: Buffer, lo: nat, hi: nat, endSeq: uint32, numPkts: uint16, nacks: seq<uint32>) {
    && Consecutive(b) && |b| <= MAX_BUF && lo <= hi < |b|
    && endSeq == b[hi].seqNum && numPkts == hi - lo + 1
    && (forall i :: lo <= i <= hi ==> b[i].fate == Unknown)
    && NacksWithin(b, lo, hi, nacks)
  }

  // ----- any ack on any buffer

  /** How many nacks come before the first that is not in the buffer. */
  function Found(b: Buffer, nacks: seq<uint32>): (n: nat)
    ensures n <= |nacks|
    ensures forall i :: 0 <= i < n ==> GetInd(b, nacks[i]) >= 0
    ensures n < |nacks| ==> GetInd(b, nacks[n]) < 0
  {
    if nacks == [] || GetInd(b, nacks[0]) < 0 then 0 else 1 + Found(b, nacks[1..])
  }

  /** The nacks that get marked as far as the assertion allows. */
  function Marking(b: Buffer, nacks: seq<uint32>): seq<uint32> { nacks[..Found(b, nacks)] }

  /** None of the nacked packets that are in the buffer has a fate yet. */
  predicate NackedUnknown(b: Buffer, nacks: seq<uint32>) {
    forall n :: n in nacks && GetInd(b, n) >= 0 ==> b[GetInd(b, n)].fate == Unknown
  }

  /** What the assertion asks of an ack: up to the first nack that is not in the buffer, none is
      repeated and none names a packet whose fate is known. */
  predicate NacksFresh(b: Buffer, nacks: seq<uint32>) {
    NoDuplicates(Marking(b, nacks)) && NackedUnknown(b, Marking(b, nacks))
  }

  /** How marking ends, exactly, for every buffer and every list of nacks. The assertion on a nacked
      packet's fate fails if and only if the nacks before the first stray one break NacksFresh. */
  lemma {:induction false} AssertionHoldsExactly(b: Buffer, nacks: seq<uint32>)
    ensures MarkBad(b, nacks).outcome ==
      if !NacksFresh(b, nacks) then AssertFailed
      else if Found(b, nacks) < |nacks| then UnknownNack
      else Stored
    decreases |nacks|
  {
    if nacks != [] && GetInd(b, nacks[0]) >= 0 {
      if b[GetInd(b, nacks[0])].fate == Unknown {
        MarkingStep(b, nacks);
        AssertionHoldsExactly(Mark(b, GetInd(b, nacks[0]), Bad), nacks[1..]);
      } else {
        assert nacks[0] == Marking(b, nacks)[0];
      }
    }
  }

  lemma FoundStep(b: Buffer, b': Buffer, nacks: seq<uint32>)
    requires nacks != [] && GetInd(b, nacks[0]) >= 0
    requires |b| == |b'| && b[0].seqNum == b'[0].seqNum
    ensures Found(b, nacks) == 1 + Found(b', nacks[1..])
    ensures Marking(b, nacks) == [nacks[0]] + Marking(b', nacks[1..])
  {
    SameFound(b, b', nacks[1..]);
    assert nacks == [nacks[0]] + nacks[1..];
  }

  lemma MarkingStep(b: Buffer, nacks: seq<uint32>)
    requires nacks != [] && GetInd(b, nacks[0]) >= 0 && b[GetInd(b, nacks[0])].fate == Unknown
    ensures var b' := Mark(b, GetInd(b, nacks[0]), Bad);
      && Found(b, nacks) == 1 + Found(b', nacks[1..])
      && Marking(b, nacks) == [nacks[0]] + Marking(b', nacks[1..])
      && (NacksFresh(b, nacks) <==> NacksFresh(b', nacks[1..]))
  {
    var b' := Mark(b, GetInd(b, nacks[0]), Bad);
    FoundStep(b, b', nacks);
    AssertionStep(b, nacks[0], Marking(b', nacks[1..]));
  }

  /** What marking leaves behind when the assertion holds, also when it ends early: the packets
      nacked before the first stray nack are bad, all others as they were. */
  lemma {:induction false} MarkedExactly(b: Buffer, nacks: seq<uint32>)
    requires Consecutive(b) && |b| <= MAX_BUF && NacksFresh(b, nacks)
    ensures var m := MarkBad(b, nacks).buf;
      forall i :: 0 <= i < |b| ==>
        m[i] == if b[i].seqNum in Marking(b, nacks) then b[i].(fate := Bad) else b[i]
    decreases |nacks|
  {
    if nacks != [] && GetInd(b, nacks[0]) >= 0 {
      assert nacks[0] == Marking(b, nacks)[0];
      var b' := Mark(b, GetInd(b, nacks[0]), Bad);
      MarkingStep(b, nacks);
      MarkedExactly(b', nacks[1..]);
      OnlyThatOne(b, nacks[0]);
    }
  }

  lemma OnlyThatOne(b: Buffer, n: uint32)
    requires Consecutive(b) && |b| <= MAX_BUF
    ensures forall i :: 0 <= i < |b| ==> (b[i].seqNum == n <==> i == GetInd(b, n))
  {
    forall i | 0 <= i < |b| ensures b[i].seqNum == n <==> i == GetInd(b, n) {
      GetIndExact(b, n, i);
    }
  }

  lemma {:induction false} AllFound(b: Buffer, nacks: seq<uint32>)
    requires forall n :: n in nacks ==> GetInd(b, n) >= 0
    ensures Found(b, nacks) == |nacks|
  {
    if nacks != [] {
      AllFound(b, nacks[1..]);
    }
  }

  /** So nacks inside the buffer, none repeated and none of a known fate, mark what they name. */
  lemma MarkBadExactly(b: Buffer, lo: nat, hi: nat, nacks: seq<uint32>)
    requires Consecutive(b) && |b| <= MAX_BUF && NacksWithin(b, lo, hi, nacks)
    requires forall i :: 0 <= i < |b| && b[i].seqNum in nacks ==> b[i].fate == Unknown
    ensures var m := MarkBad(b, nacks);
      && m.outcome == Stored
      && forall i :: 0 <= i < |b| ==> m.buf[i] == if b[i].seqNum in nacks then b[i].(fate := Bad) else b[i]
  {
    forall n | n in nacks ensures GetInd(b, n) >= 0 && b[GetInd(b, n)].fate == Unknown {
      var k :| lo <= k <= hi < |b| && b[k].seqNum == n;
      GetIndExact(b, n, k);
    }
    AllFound(b, nacks);
    assert Marking(b, nacks) == nacks;
    AssertionHoldsExactly(b, nacks);
    MarkedExactly(b, nacks);
  }

  lemma {:induction false} SameFound(b: Buffer, c: Buffer, nacks: seq<uint32>)
    requires |b| == |c| && (b != [] ==> b[0].seqNum == c[0].seqNum)
    ensures Found(b, nacks) == Found(c, nacks)
  {
    if nacks != [] {
      SameFound(b, c, nacks[1..]);
    }
  }

  /** Different numbers have different indices, in any buffer. */
  lemma IndexInjective(b: Buffer, m: uint32, n: uint32)
    requires GetInd(b, m) == GetInd(b, n) >= 0
    ensures m == n
  {
    SubThenAdd(b[0].seqNum, m);
    SubThenAdd(b[0].seqNum, n);
  }

  lemma AssertionStep(b: Buffer, n: uint32, rest: seq<uint32>)
    requires GetInd(b, n) >= 0 && b[GetInd(b, n)].fate == Unknown
    ensures NoDuplicates([n] + rest) && NackedUnknown(b, [n] + rest)
       <==> NoDuplicates(rest) && NackedUnknown(Mark(b, GetInd(b, n), Bad), rest)
  {
    var all := [n] + rest;
    var b' := Mark(b, GetInd(b, n), Bad);
    forall m ensures GetInd(b', m) == GetInd(b, m) {}
    forall m | m != n && GetInd(b, m) >= 0 ensures b'[GetInd(b, m)] == b[GetInd(b, m)] {
      if GetInd(b, m) == GetInd(b, n) {
        IndexInjective(b, m, n);
      }
    }
    if n in rest {
      assert !NackedUnknown(b', rest);
      var i :| 0 <= i < |rest| && rest[i] == n;
      assert all[0] == all[i + 1];
    } else {
      HeadNotRepeated(n, rest);
      assert NackedUnknown(b, all) <==> NackedUnknown(b', rest) by {
        assert forall m :: m in all <==> m == n || m in rest;
      }
    }
  }

  lemma HeadNotRepeated(n: uint32, rest: seq<uint32>)
    requires n !in rest
    ensures NoDuplicates([n] + rest) <==> NoDuplicates(rest)
  {
    var all := [n] + rest;
    if NoDuplicates(all) {
      forall i, j | 0 <= i < j < |rest| ensures rest[i] != rest[j] {
        assert all[i + 1] != all[j + 1];
      }
    }
  }

  predicate Has(b: Buffer, seqNum: uint32) {
    exists k :: 0 <= k < |b| && b[k].seqNum == seqNum
  }

  lemma HasExactly(b: Buffer, seqNum: uint32)
    requires Consecutive(b) && |b| <= MAX_BUF
    ensures Has(b, seqNum) <==> GetInd(b, seqNum) >= 0
  {
    GetIndExact(b, seqNum, 0);
    if GetInd(b, seqNum) >= 0 {
      GetIndExact(b, seqNum, GetInd(b, seqNum));
    }
  }

  /** The first number of an ack's window. */
  function FirstSeq(endSeq: uint32, numPkts: uint16): uint32 { (endSeq - numPkts + 1) % 0x1_0000_0000 }

  lemma BeginSeqIsFirst(endSeq: uint32, numPkts: uint16)
    ensures BeginSeq(endSeq, numPkts) == FirstSeq(endSeq, numPkts)
  {
  }

  lemma {:induction false} StrayNackExactly(b: Buffer, nacks: seq<uint32>)
    requires Consecutive(b) && |b| <= MAX_BUF
    ensures Found(b, nacks) == |nacks| <==> forall n :: n in nacks ==> Has(b, n)
  {
    forall n | n in nacks ensures Has(b, n) <==> GetInd(b, n) >= 0 {
      HasExactly(b, n);
    }
    if Found(b, nacks) < |nacks| {
      assert nacks[Found(b, nacks)] in nacks;
    }
  }

  /** When an ack ends how: the assertion first, then a stray nack, then a window of which the first
      or the last number is not in the buffer. */
  lemma {:induction false} OutcomeExactly(b: Buffer, endSeq: uint32, numPkts: uint16, nacks: seq<uint32>)
    requires Consecutive(b) && |b| <= 4000
    ensures StoreAck(b, endSeq, numPkts, nacks).outcome ==
      if !NacksFresh(b, nacks) then AssertFailed
      else if exists n :: n in nacks && !Has(b, n) then UnknownNack
      else if Has(b, FirstSeq(endSeq, numPkts)) && Has(b, endSeq) then Stored
      else BadWindow
  {
    AssertionHoldsExactly(b, nacks);
    StrayNackExactly(b, nacks);
    BeginSeqIsFirst(endSeq, numPkts);
    HasExactly(b, FirstSeq(endSeq, numPkts));
    HasExactly(b, endSeq);
  }

  /** An ack that is not stored leaves the nacks before its first stray one marked and nothing else
      changed, whatever its window. */
  lemma {:induction false} NotStoredExactly(b: Buffer, endSeq: uint32, numPkts: uint16, nacks: seq<uint32>)
    requires Consecutive(b) && |b| <= 4000 && NacksFresh(b, nacks)
    requires StoreAck(b, endSeq, numPkts, nacks).outcome != Stored
    ensures var m := StoreAck(b, endSeq, numPkts, nacks).buf;
      && |m| == |b|
      && forall i :: 0 <= i < |b| ==>
           m[i] == if b[i].seqNum in Marking(b, nacks) then b[i].(fate := Bad) else b[i]
  {
    MarkedExactly(b, nacks);
  }

  /** An entry after a stored ack: nacked ones are bad; others become good if they are in the window and
      had no fate, and otherwise keep what they have. */
  function AfterAck(e: Entry, inWindow: bool, nacks: seq<uint32>): Entry {
    e.(fate := if e.seqNum in nacks then Bad else if inWindow && e.fate == Unknown then Good else e.fate)
  }

  /** A stored ack, window lo to hi, on any consecutive buffer: earlier acks may have decided entries
      inside the window or after it, and the nacks may lie anywhere. */
  lemma {:induction false} StoredAnyway(
      b: Buffer, lo: nat, hi: nat, endSeq: uint32, numPkts: uint16, nacks: seq<uint32>)
    requires Consecutive(b) && |b| <= 4000 && StoreAck(b, endSeq, numPkts, nacks).outcome == Stored
    requires lo < |b| && hi < |b| && b[lo].seqNum == FirstSeq(endSeq, numPkts) && b[hi].seqNum == endSeq
    ensures var m := StoreAck(b, endSeq, numPkts, nacks).buf;
      && |m| == |b| - lo
      && forall i :: 0 <= i < |m| ==> m[i] == AfterAck(b[lo + i], lo + i <= hi, nacks)
  {
    var marked := MarkBad(b, nacks);
    AssertionHoldsExactly(b, nacks);
    MarkedExactly(b, nacks);
    assert Marking(b, nacks) == nacks;
    BeginSeqIsFirst(endSeq, numPkts);
    GetIndExact(b, b[lo].seqNum, lo);
    GetIndExact(b, endSeq, hi);
    GoodAnyway(b, marked.buf, lo, hi, nacks);
  }

  lemma GoodAnyway(b: Buffer, m: Buffer, lo: nat, hi: nat, nacks: seq<uint32>)
    requires lo < |b| && |m| == |b|
    requires forall i :: 0 <= i < |b| ==> m[i] == if b[i].seqNum in nacks then b[i].(fate := Bad) else b[i]
    ensures var rest := MarkGood(m, lo, hi)[lo..];
      forall i :: 0 <= i < |rest| ==> rest[i] == AfterAck(b[lo + i], lo + i <= hi, nacks)
  {
  }

  lemma {:induction false} WindowFound(b: Buffer, lo: nat, hi: nat)
    requires Consecutive(b) && |b| <= MAX_BUF && lo <= hi < |b|
    ensures GetInd(b, b[hi].seqNum) == hi
    ensures GetInd(b, BeginSeq(b[hi].seqNum, hi - lo + 1)) == lo
  {
    GetIndExact(b, b[hi].seqNum, hi);
    var start := b[0].seqNum;
    assert BeginSeq(Add32(start, hi), hi - lo + 1) == Add32(start, lo) by { Backwards(start, lo, hi); }
    GetIndExact(b, b[lo].seqNum, lo);
  }

  lemma Backwards(start: uint32, lo: nat, hi: nat)
    requires lo <= hi < MAX_BUF
    ensures BeginSeq(Add32(start, hi), hi - lo + 1) == Add32(start, lo)
  {
    var end := Add32(start, hi);
    if start + hi < TWO32 {
      assert end == start + hi;
    } else {
      assert end == start + hi - TWO32;
    }
    if end >= hi - lo + 1 {
      assert Sub32(end, hi - lo + 1) == end - (hi - lo + 1);
    } else {
      assert Sub32(end, hi - lo + 1) == end - (hi - lo + 1) + TWO32;
    }
  }

  function FateOf(e: Entry, nacks: seq<uint32>): Entry {
    e.(fate := if e.seqNum in nacks then Bad else Good)
  }

  /** The window with its fates: bad exactly where nacked. */
  function Fates(window: Buffer, nacks: seq<uint32>): (f: Buffer)
    ensures |f| == |window| && forall i :: 0 <= i < |f| ==> f[i] == FateOf(window[i], nacks)
  {
    seq(|window|, i requires 0 <= i < |window| => FateOf(window[i], nacks))
  }

  /** The buffer after the ack: the stale front is gone, the window has its fates, the rest is
      untouched. */
  lemma {:induction false} StoredExactly(
      b: Buffer, lo: nat, hi: nat, endSeq: uint32, numPkts: uint16, nacks: seq<uint32>)
    requires WellFormed(b, lo, hi, endSeq, numPkts, nacks)
    ensures StoreAck(b, endSeq, numPkts, nacks) == Marked(Fates(b[lo..hi + 1], nacks) + b[hi + 1..], Stored)
  {
    NackedAreInside(b, lo, hi, nacks);
    MarkBadExactly(b, lo, hi, nacks);
    WindowFound(b, lo, hi);
    GoodRest(b, MarkBad(b, nacks).buf, lo, hi, nacks);
  }

  lemma GoodRest(b: Buffer, m: Buffer, lo: nat, hi: nat, nacks: seq<uint32>)
    requires lo <= hi < |b| && |m| == |b|
    requires forall i :: 0 <= i < |b| ==> m[i] == if b[i].seqNum in nacks then b[i].(fate := Bad) else b[i]
    requires forall i :: 0 <= i < |b| && b[i].seqNum in nacks ==> lo <= i <= hi
    requires forall i :: lo <= i <= hi ==> b[i].fate == Unknown
    ensures MarkGood(m, lo, hi)[lo..] == Fates(b[lo..hi + 1], nacks) + b[hi + 1..]
  {
    var good, expected := MarkGood(m, lo, hi), Fates(b[lo..hi + 1], nacks) + b[hi + 1..];
    forall i | 0 <= i < |expected| ensures good[lo..][i] == expected[i] {
      assert good[lo..][i] == good[lo + i];
    }
  }

  lemma NackedAreInside(b: Buffer, lo: nat, hi: nat, nacks: seq<uint32>)
    requires Consecutive(b) && |b| <= MAX_BUF && NacksWithin(b, lo, hi, nacks)
    ensures forall i :: 0 <= i < |b| && b[i].seqNum in nacks ==> lo <= i <= hi
  {
  }

  lemma {:induction false} DecidedThrough(front: Buffer, rest: Buffer)
    requires forall i :: 0 <= i < |front| ==> front[i].fate != Unknown
    ensures Decided(front + rest) == |front| + Decided(rest)
  {
    if front == [] {
      assert front + rest == rest;
    } else {
      assert (front + rest)[1..] == front[1..] + rest;
      DecidedThrough(front[1..], rest);
    }
  }

  /** A decided front before a fateless rest is what gets reported. */
  lemma DecidedSplits(m: Marked, front: Buffer, b: Buffer, k: nat)
    requires Consecutive(b) && AllUnknown(b) && k <= |b| <= MAX_BUF
    requires forall i :: 0 <= i < |front| ==> front[i].fate != Unknown
    requires m == Marked(front + b[k..], Stored)
    ensures m.outcome == Stored
    ensures m.buf[..Decided(m.buf)] == front && m.buf[Decided(m.buf)..] == b[k..]
    ensures Consecutive(b[k..]) && AllUnknown(b[k..])
  {
    DecidedThrough(front, b[k..]);
    assert Decided(b[k..]) == 0;
    SuffixConsecutive(b, k);
  }

  /** One well-formed ack on a buffer without fates reports exactly its window, in order, bad where
      nacked and good elsewhere, and leaves the consecutive, fateless rest after it. */
  lemma {:induction false} AckReportsWindow(
      b: Buffer, lo: nat, hi: nat, endSeq: uint32, numPkts: uint16, nacks: seq<uint32>)
    requires WellFormed(b, lo, hi, endSeq, numPkts, nacks) && AllUnknown(b)
    ensures var m := StoreAck(b, endSeq, numPkts, nacks);
      && m.outcome == Stored
      && m.buf[..Decided(m.buf)] == Fates(b[lo..hi + 1], nacks)
      && m.buf[Decided(m.buf)..] == b[hi + 1..]
    ensures Consecutive(b[hi + 1..]) && AllUnknown(b[hi + 1..])
  {
    StoredExactly(b, lo, hi, endSeq, numPkts, nacks);
    DecidedSplits(StoreAck(b, endSeq, numPkts, nacks), Fates(b[lo..hi + 1], nacks), b, hi + 1);
  }

  lemma SuffixConsecutive(b: Buffer, k: nat)
    requires Consecutive(b) && k <= |b| <= MAX_BUF
    ensures Consecutive(b[k..])
  {
    forall i | 0 <= i < |b[k..]| ensures b[k..][i].seqNum == Add32(b[k..][0].seqNum, i) {
      AddAssociates(b[0].seqNum, k, i);
    }
  }

  lemma AddAssociates(a: uint32, d: nat, e: nat)
    ensures Add32(Add32(a, d), e) == Add32(a, d + e)
  {
  }

  // ----- the whole way round

  /** The sequence numbers of the lost packets, given by their places in the buffer. */
  function SeqsAt(b: Buffer, places: seq<nat>): (s: seq<uint32>)
    requires forall i :: 0 <= i < |places| ==> places[i] < |b|
    ensures |s| == |places| && forall i :: 0 <= i < |s| ==> s[i] == b[places[i]].seqNum
  {
    seq(|places|, i requires 0 <= i < |places| => b[places[i]].seqNum)
  }

  lemma DistanceInside(b: Buffer, j: nat, k: nat)
    requires Consecutive(b) && |b| <= MAX_BUF && j <= k < |b|
    ensures Sub32(b[k].seqNum, b[j].seqNum) == k - j
  {
    AddAssociates(b[0].seqNum, j, k - j);
    AddThenSub(b[j].seqNum, k - j);
  }

  /** Places of the window lo..hi, in window order, at most as many as an ack holds. */
  predicate LostInWindow(b: Buffer, lo: nat, hi: nat, lost: seq<nat>) {
    && lo <= hi < |b| && |lost| <= 720
    && (forall i :: 0 <= i < |lost| ==> lo <= lost[i] <= hi)
    && (forall i, j :: 0 <= i < j < |lost| ==> lost[i] < lost[j])
  }

  /** 16-bit offsets lose nothing: the window is far shorter than 2^16. */
  lemma LostSurvive(b: Buffer, lo: nat, hi: nat, lost: seq<nat>)
    requires Consecutive(b) && |b| <= MAX_BUF && LostInWindow(b, lo, hi, lost)
    ensures Decode(Encode(SeqsAt(b, lost))) == SeqsAt(b, lost)
  {
    var seqs := SeqsAt(b, lost);
    forall i | 0 <= i < |seqs| ensures Sub32(seqs[i], seqs[0]) < TWO16 {
      DistanceInside(b, lost[0], lost[i]);
    }
    RoundTripExactly(seqs);
  }

  lemma LostAreWithin(b: Buffer, lo: nat, hi: nat, lost: seq<nat>)
    requires Consecutive(b) && |b| <= MAX_BUF && LostInWindow(b, lo, hi, lost)
    ensures NacksWithin(b, lo, hi, SeqsAt(b, lost))
  {
    var seqs := SeqsAt(b, lost);
    forall i, j | 0 <= i < j < |seqs| ensures seqs[i] != seqs[j] {
      SamePlace(b, lost[i], lost[j]);
    }
    forall n | n in seqs ensures exists k :: lo <= k <= hi < |b| && b[k].seqNum == n {
      var i :| 0 <= i < |seqs| && seqs[i] == n;
      assert b[lost[i]].seqNum == n;
    }
  }

  /** The sender reports exactly the lost packets of the window as bad, the rest of it as good, and
      keeps what comes after it. */
  predicate ReportsLost(m: Marked, b: Buffer, lo: nat, hi: nat, lost: seq<nat>)
    requires lo <= hi < |b|
  {
    var report := m.buf[..Decided(m.buf)];
    && m.outcome == Stored
    && |report| == hi - lo + 1
    && (forall i :: 0 <= i < |report| ==> report[i] == b[lo + i].(fate := if lo + i in lost then Bad else Good))
    && m.buf[Decided(m.buf)..] == b[hi + 1..]
  }

  /** End to end. The receiver pushes the lost packets of the window lo..hi in window order; the
      sender decodes the ack and applies it. It reports exactly the lost packets as bad and the
      rest of the window as good, wherever the window lies modulo 2^32. */
  lemma {:induction false} AckEndToEnd(b: Buffer, lo: nat, hi: nat, lost: seq<nat>)
    requires Consecutive(b) && AllUnknown(b) && |b| <= 4000 && LostInWindow(b, lo, hi, lost)
    ensures var nacks := Decode(Encode(SeqsAt(b, lost)));
      ReportsLost(StoreAck(b, b[hi].seqNum, hi - lo + 1, nacks), b, lo, hi, lost)
  {
    LostSurvive(b, lo, hi, lost);
    LostReported(b, lo, hi, lost, b[hi].seqNum, hi - lo + 1);
  }

  lemma {:induction false} LostReported(
      b: Buffer, lo: nat, hi: nat, lost: seq<nat>, endSeq: uint32, numPkts: uint16)
    requires Consecutive(b) && AllUnknown(b) && |b| <= MAX_BUF && LostInWindow(b, lo, hi, lost)
    requires endSeq == b[hi].seqNum && numPkts == hi - lo + 1
    ensures ReportsLost(StoreAck(b, endSeq, numPkts, SeqsAt(b, lost)), b, lo, hi, lost)
  {
    LostAreWithin(b, lo, hi, lost);
    AckReportsWindow(b, lo, hi, endSeq, numPkts, SeqsAt(b, lost));
    ReportByPlace(StoreAck(b, endSeq, numPkts, SeqsAt(b, lost)), b, lo, hi, lost);
  }

  lemma ReportByPlace(m: Marked, b: Buffer, lo: nat, hi: nat, lost: seq<nat>)
    requires Consecutive(b) && |b| <= MAX_BUF && LostInWindow(b, lo, hi, lost) && m.outcome == Stored
    requires m.buf[..Decided(m.buf)] == Fates(b[lo..hi + 1], SeqsAt(b, lost))
    requires m.buf[Decided(m.buf)..] == b[hi + 1..]
    ensures ReportsLost(m, b, lo, hi, lost)
  {
    FatesByPlace(b, lo, hi, lost, m.buf[..Decided(m.buf)]);
  }

  lemma FatesByPlace(b: Buffer, lo: nat, hi: nat, lost: seq<nat>, report: Buffer)
    requires Consecutive(b) && |b| <= MAX_BUF && LostInWindow(b, lo, hi, lost)
    requires report == Fates(b[lo..hi + 1], SeqsAt(b, lost))
    ensures |report| == hi - lo + 1
    ensures forall i :: 0 <= i < |report| ==>
      report[i] == b[lo + i].(fate := if lo + i in lost then Bad else Good)
  {
    forall i | 0 <= i < |report|
      ensures report[i] == b[lo + i].(fate := if lo + i in lost then Bad else Good)
    {
      LostByNumber(b, lost, lo + i);
    }
  }

  lemma SamePlace(b: Buffer, i: nat, j: nat)
    requires Consecutive(b) && |b| <= MAX_BUF && i < |b| && j < |b|
    ensures b[i].seqNum == b[j].seqNum <==> i == j
  {
  }

  lemma LostByNumber(b: Buffer, lost: seq<nat>, i: nat)
    requires Consecutive(b) && |b| <= MAX_BUF && i < |b|
    requires forall k :: 0 <= k < |lost| ==> lost[k] < |b|
    ensures b[i].seqNum in SeqsAt(b, lost) <==> i in lost
  {
    var seqs := SeqsAt(b, lost);
    if b[i].seqNum in seqs {
      var k :| 0 <= k < |seqs| && seqs[k] == b[i].seqNum;
      SamePlace(b, i, lost[k]);
    }
    if i in lost {
      var k :| 0 <= k < |lost| && lost[k] == i;
      assert seqs[k] == b[i].seqNum;
    }
  }
}
