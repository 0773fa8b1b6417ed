/** The negative acknowledgements of an ack packet: 16-bit offsets from the first one. */
module AckCodec {
  import opened Wrap

  const ACK_WINDOW := 720

  datatype Nacks = Nacks(start: uint32, rel: seq<uint16>)

  const NO_NACKS := Nacks(0, [])

  function Offset(seqNum: uint32, start: uint32): uint16 { Sub32(seqNum, start) % TWO16 }

  function Push(n: Nacks, seqNum: uint32): Nacks {
    if n.rel == [] then Nacks(seqNum, [0]) else Nacks(n.start, n.rel + [Offset(seqNum, n.start)])
  }

  function Encode(seqs: seq<uint32>): Nacks {
    if seqs == [] then NO_NACKS else Push(Encode(seqs[..|seqs| - 1]), seqs[|seqs| - 1])
  }

  function Decode(n: Nacks): (seqs: seq<uint32>)
    ensures |seqs| == |n.rel|
    ensures forall i :: 0 <= i < |seqs| ==> seqs[i] == Add32(n.rel[i], n.start)
  {
    seq(|n.rel|, i requires 0 <= i < |n.rel| => Add32(n.rel[i], n.start))
  }

  lemma {:induction false} EncodeOffsets(seqs: seq<uint32>)
    requires seqs != []
    ensures var n := Encode(seqs);
      && n.start == seqs[0] && |n.rel| == |seqs|
      && forall i :: 0 <= i < |seqs| ==> n.rel[i] == Offset(seqs[i], seqs[0])
  {
    if |seqs| > 1 {
      EncodeOffsets(seqs[..|seqs| - 1]);
    }
  }

  /** One sequence number survives exactly when it is less than 2^16 after the first. */
  lemma OffsetSurvives(seqNum: uint32, start: uint32)
    ensures Add32(Offset(seqNum, start), start) == seqNum <==> Sub32(seqNum, start) < TWO16
  {
  }

  /** Decoding gives back what was pushed if and only if every number lies less than 2^16 after
      the first one pushed, counting modulo 2^32. */
  lemma {:induction false} RoundTripExactly(seqs: seq<uint32>)
    ensures Decode(Encode(seqs)) == seqs
       <==> forall i :: 0 <= i < |seqs| ==> Sub32(seqs[i], seqs[0]) < 0x1_0000
  {
    if seqs == [] {
      return;
    }
    EncodeOffsets(seqs);
    var decoded := Decode(Encode(seqs));
    forall i | 0 <= i < |seqs|
      ensures decoded[i] == seqs[i] <==> Sub32(seqs[i], seqs[0]) < TWO16
    {
      OffsetSurvives(seqs[i], seqs[0]);
    }
  }

  /** AckPkt with its header; types and ids that are only carried along are left out. */
  class AckPkt {
    var ackSeq: uint32
    var numNacks: uint16
    var startNackSeq: uint32
    var endSeq: uint32
    var numPkts: uint16
    const relSeqArr: array<uint16>

    ghost predicate Valid()
      reads this
    {
      relSeqArr.Length == ACK_WINDOW && numNacks <= ACK_WINDOW && (numNacks == 0 ==> startNackSeq == 0)
    }

    ghost function Contents(): Nacks
      requires Valid()
      reads this, relSeqArr
    {
      Nacks(startNackSeq, relSeqArr[..numNacks])
    }

    constructor ()
      ensures Valid() && fresh(relSeqArr) && Contents() == NO_NACKS && ackSeq == 0 && endSeq == 0 && numPkts == 0
    {
      ackSeq, numNacks, startNackSeq, endSeq, numPkts := 0, 0, 0, 0, 0;
      relSeqArr := new uint16[ACK_WINDOW](_ => 0);
    }

    method Init()
      requires Valid()
      modifies this
      ensures Valid() && Contents() == NO_NACKS && ackSeq == Add32(old(ackSeq), 1) && endSeq == 0 && numPkts == 0
    {
      ackSeq := Add32(ackSeq, 1);
      numNacks, startNackSeq, endSeq, numPkts := 0, 0, 0, 0;
    }

    /** Asserts that there is room. */
    method PushNack(seqNum: uint32)
      requires Valid() && numNacks < 720
      modifies this`numNacks, this`startNackSeq, relSeqArr
      ensures Valid() && numNacks == old(numNacks) + 1
      ensures Contents() == Push(old(Contents()), seqNum)
    {
      if numNacks == 0 {
        startNackSeq := seqNum;
        relSeqArr[0] := 0;
      } else {
        relSeqArr[numNacks] := Offset(seqNum, startNackSeq);
      }
      numNacks := numNacks + 1;
      assert numNacks > 1 ==> relSeqArr[..numNacks - 1] == old(relSeqArr[..numNacks]);
    }

    /** Fills the front of the caller's array. */
    method ParseNack(seqArr: array<uint32>) returns (nacks: uint16, end: uint32, pkts: uint16)
      requires Valid() && numNacks <= seqArr.Length
      modifies seqArr
      ensures Valid() && Contents() == old(Contents())
      ensures nacks == numNacks && end == endSeq && pkts == numPkts
      ensures seqArr[..numNacks] == Decode(Contents()) && seqArr[numNacks..] == old(seqArr[numNacks..])
    {
      nacks, end, pkts := numNacks, endSeq, numPkts;
      for i := 0 to numNacks
        invariant Valid() && Contents() == old(Contents())
        invariant forall k :: 0 <= k < i ==> seqArr[k] == Add32(relSeqArr[k], startNackSeq)
        invariant forall k :: i <= k < seqArr.Length ==> seqArr[k] == old(seqArr[k])
      {
        seqArr[i] := Add32(relSeqArr[i], startNackSeq);
      }
    }
  }
}
