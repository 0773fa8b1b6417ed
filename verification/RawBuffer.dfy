/** The sender's record of raw packets whose fate is not known yet. */
module RawBuffer {
  import opened Wrap

  const MAX_BUF := 4000

  datatype Fate = Bad | Unknown | Good

  datatype Entry = Entry(seqNum: uint32, rate: uint16, len: uint16, fate: Fate)

  type Buffer = seq<Entry>

  /** Sequence numbers go up by one, modulo 2^32. */
  predicate Consecutive(b: Buffer) {
    forall i :: 0 <= i < |b| ==> b[i].seqNum == Add32(b[0].seqNum, i)
  }

  predicate AllUnknown(b: Buffer) {
    forall i :: 0 <= i < |b| ==> b[i].fate == Unknown
  }

  /** Index of a sequence number, negative when there is none: the wrapped difference is read as
      a signed number, and a negative one compares above every size. */
  function GetInd(b: Buffer, seqNum: uint32): int {
    if b == [] then -1 else
      var ind := ToInt32(Sub32(seqNum, b[0].seqNum));
      if ind < 0 || ind >= |b| then -1 else ind
  }

  /** In a consecutive buffer it finds exactly the entry with that number, also across the wrap. */
  lemma GetIndExact(b: Buffer, seqNum: uint32, i: nat)
    requires Consecutive(b) && |b| <= TWO32 / 2
    ensures GetInd(b, seqNum) == i <==> i < |b| && b[i].seqNum == seqNum
    ensures GetInd(b, seqNum) < 0 <==> forall k :: 0 <= k < |b| ==> b[k].seqNum != seqNum
  {
    if b != [] {
      var start, d := b[0].seqNum, Sub32(seqNum, b[0].seqNum);
      SubThenAdd(start, seqNum);
      forall k | 0 <= k < |b| ensures b[k].seqNum == seqNum <==> k == d {
        if b[k].seqNum == seqNum {
          AddInjective(start, k, d);
        }
      }
      if d < |b| {
        assert b[d].seqNum == seqNum;
      }
    }
  }

  // ----- marking

  datatype Outcome = Stored | UnknownNack | BadWindow | AssertFailed

  datatype Marked = Marked(buf: Buffer, outcome: Outcome)

  /** Mark the negative acknowledgements one after the other; stop at the first that is not in the
      buffer (what was marked stays marked) and fail on one whose fate is known already. */
  function MarkBad(b: Buffer, nacks: seq<uint32>): (m: Marked)
    ensures |m.buf| == |b|
    decreases |nacks|
  {
    if nacks == [] then Marked(b, Stored)
    else if GetInd(b, nacks[0]) < 0 then Marked(b, UnknownNack)
    else if b[GetInd(b, nacks[0])].fate != Unknown then Marked(b, AssertFailed)
    else MarkBad(Mark(b, GetInd(b, nacks[0]), Bad), nacks[1..])
  }

  function Mark(b: Buffer, i: int, fate: Fate): Buffer
    requires 0 <= i < |b|
  {
    b[i := b[i].(fate := fate)]
  }

  /** Unknown entries from lo to hi become good. */
  function MarkGood(b: Buffer, lo: int, hi: int): (m: Buffer)
    ensures |m| == |b|
    ensures forall i :: 0 <= i < |b| ==>
      m[i] == if lo <= i <= hi && b[i].fate == Unknown then b[i].(fate := Good) else b[i]
  {
    seq(|b|, i requires 0 <= i < |b| =>
      if lo <= i <= hi && b[i].fate == Unknown then b[i].(fate := Good) else b[i])
  }

  function BeginSeq(endSeq: uint32, numPkts: uint16): uint32 { Add32(Sub32(endSeq, numPkts), 1) }

  /** One ack: the nacks first, then the rest of its window as good, then the stale front goes. */
  function StoreAck(b: Buffer, endSeq: uint32, numPkts: uint16, nacks: seq<uint32>): Marked {
    var m := MarkBad(b, nacks);
    if m.outcome != Stored then m else
      var lo, hi := GetInd(b, BeginSeq(endSeq, numPkts)), GetInd(b, endSeq);
      if lo < 0 || hi < 0 then Marked(m.buf, BadWindow)
      else Marked(MarkGood(m.buf, lo, hi)[lo..], Stored)
  }

  /** How many entries at the front have a known fate. */
  function Decided(b: Buffer): (n: nat)
    ensures n <= |b|
    ensures forall i :: 0 <= i < n ==> b[i].fate != Unknown
    ensures n < |b| ==> b[n].fate == Unknown
  {
    if b == [] || b[0].fate == Unknown then 0 else 1 + Decided(b[1..])
  }

  function AllBad(b: Buffer): (m: Buffer)
    ensures |m| == |b| && forall i :: 0 <= i < |b| ==> m[i] == b[i].(fate := Bad)
  {
    seq(|b|, i requires 0 <= i < |b| => b[i].(fate := Bad))
  }

  // ----- the class

  class TxRawBuf {
    var infoDeq: Buffer
    const maxBufSize := MAX_BUF

    constructor ()
      ensures infoDeq == []
    {
      infoDeq := [];
    }

    /** statusVec is the caller's vector: it is replaced only when the buffer was full. */
    method PushPktStatus(statusVec: seq<Entry>, e: Entry) returns (vec: seq<Entry>)
      modifies this
      ensures old(|infoDeq|) < 4000 ==> vec == statusVec && infoDeq == old(infoDeq) + [e]
      ensures old(|infoDeq|) >= 4000 ==> vec == AllBad(old(infoDeq)) && infoDeq == [e]
    {
      vec := statusVec;
      if |infoDeq| >= maxBufSize {
        vec := ClearPktStatus();
      }
      infoDeq := infoDeq + [e];
    }

    method ClearPktStatus() returns (vec: seq<Entry>)
      modifies this
      ensures vec == AllBad(old(infoDeq)) && infoDeq == []
    {
      vec := [];
      for i := 0 to |infoDeq|
        invariant |infoDeq| == old(|infoDeq|) && vec == AllBad(old(infoDeq))[..i]
        invariant infoDeq[i..] == old(infoDeq)[i..]
      {
        infoDeq := Mark(infoDeq, i, Bad);
        vec := vec + [infoDeq[i]];
      }
      infoDeq := [];
    }

    /** AssertFailed stands for the assertion that a nacked packet's fate was unknown. */
    method PushPkts(endSeq: uint32, numPkts: uint16, nacks: seq<uint32>) returns (outcome: Outcome)
      modifies this
      ensures Marked(infoDeq, outcome) == StoreAck(old(infoDeq), endSeq, numPkts, nacks)
    {
      ghost var all := MarkBad(infoDeq, nacks);
      for i := 0 to |nacks|
        invariant |infoDeq| == old(|infoDeq|) && (infoDeq != [] ==> infoDeq[0].seqNum == old(infoDeq)[0].seqNum)
        invariant MarkBad(infoDeq, nacks[i..]) == all
      {
        var ind := GetInd(infoDeq, nacks[i]);
        if ind < 0 {
          return UnknownNack;
        }
        if infoDeq[ind].fate != Unknown {
          return AssertFailed;
        }
        assert nacks[i..][1..] == nacks[i + 1..];
        infoDeq := Mark(infoDeq, ind, Bad);
      }
      ghost var marked := infoDeq;
      var beginInd := GetInd(infoDeq, BeginSeq(endSeq, numPkts));
      var endInd := GetInd(infoDeq, endSeq);
      if beginInd < 0 || endInd < 0 {
        return BadWindow;
      }
      var i := beginInd;
      while i <= endInd
        invariant beginInd <= i && |infoDeq| == |marked|
        invariant i <= endInd + 1 || i == beginInd
        invariant forall k :: 0 <= k < |marked| ==>
          infoDeq[k] == if beginInd <= k < i && marked[k].fate == Unknown then marked[k].(fate := Good) else marked[k]
        decreases endInd - i
      {
        if infoDeq[i].fate == Unknown {
          infoDeq := Mark(infoDeq, i, Good);
        }
        i := i + 1;
      }
      assert infoDeq == MarkGood(marked, beginInd, endInd);
      if beginInd > 0 {
        infoDeq := infoDeq[beginInd..];
      }
      outcome := Stored;
    }

    method PopDecided() returns (vec: seq<Entry>)
      modifies this
      ensures vec == old(infoDeq)[..Decided(old(infoDeq))] && infoDeq == old(infoDeq)[Decided(old(infoDeq))..]
    {
      vec := [];
      var it := 0;
      while it < |infoDeq|
        invariant 0 <= it <= |infoDeq| && vec == infoDeq[..it]
        invariant it + Decided(infoDeq[it..]) == Decided(infoDeq)
      {
        if infoDeq[it].fate == Unknown {
          break;
        }
        assert infoDeq[it..][1..] == infoDeq[it + 1..];
        vec := vec + [infoDeq[it]];
        it := it + 1;
      }
      infoDeq := infoDeq[it..];
    }

    method PopPktStatus(endSeq: uint32, numPkts: uint16, nacks: seq<uint32>)
        returns (outcome: Outcome, vec: seq<Entry>)
      modifies this
      ensures var m := StoreAck(old(infoDeq), endSeq, numPkts, nacks);
        && outcome == m.outcome
        && (outcome == AssertFailed ==> vec == [])
        && (outcome != AssertFailed ==>
              vec == m.buf[..Decided(m.buf)] && infoDeq == m.buf[Decided(m.buf)..])
    {
      outcome := PushPkts(endSeq, numPkts, nacks);
      vec := [];
      if outcome != AssertFailed {
        vec := PopDecided();
      }
    }
  }
}
