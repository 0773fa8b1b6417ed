/** The sender's packet ring, as one thread at a time uses it, through any number of wraps. */
module TxData {
  import opened Bytes
  import opened Wrap
  import opened Ring

  const PKT_SIZE := 1472

  datatype SlotStatus = Empty | OccupiedNew | OccupiedRetrans | OccupiedOutbound

  /** Bookkeeping of a slot together with the bytes written to its buffer so far, of which the packet
      is the first len. */
  datatype Slot = Slot(seqNum: uint32, status: SlotStatus, len: nat, numRetrans: uint8, buf: seq<uint8>)

  /** The buffer after a packet has been copied to its front. */
  function Copied(buf: seq<uint8>, pkt: seq<uint8>): (b: seq<uint8>)
    ensures pkt <= b && |b| == if |pkt| < |buf| then |buf| else |pkt|
    ensures forall k :: |pkt| <= k < |buf| ==> b[k] == buf[k]
  {
    pkt + (if |pkt| < |buf| then buf[|pkt|..] else [])
  }

  datatype Dequeued =
    | Timeout
    | AssertFailed
    | Current(index: nat, slot: Slot)

  /** The slot of the packet enqueued as the p-th, counting from 0. */
  function SlotOfPosition(p: nat): nat { SlotOf(p % TWO32) }

  /** A slot with the p-th packet enqueued, not yet sent. */
  predicate Holds(slot: Slot, p: nat, pkt: seq<uint8>) {
    && slot.seqNum == (p + 1) % TWO32
    && slot.status == OccupiedNew && slot.len == |pkt| <= PKT_SIZE && pkt <= slot.buf
  }

  /** Packets enqueued within a ring's length of each other bear different numbers. */
  lemma NumbersDiffer(p: nat, q: nat)
    requires p < q <= p + BUF_SIZE
    ensures (p + 1) % TWO32 != (q + 1) % TWO32
  {
    AddModulo(p + 1, q - p);
    AddThenSub((p + 1) % TWO32, q - p);
    AddThenSub((p + 1) % TWO32, 0);
  }

  /** The assertions on a packet about to be sent. */
  predicate Sendable(slot: Slot) {
    && 0 < slot.len <= PKT_SIZE && slot.seqNum > 0
    && (slot.status == OccupiedRetrans ==> slot.numRetrans > 0)
  }

  class TxDataBuf {
    var headPt: uint32
    var tailPt: uint32
    var currPt: uint32
    var numRetrans: uint8
    const slots: array<Slot>
    ghost var log: seq<seq<uint8>>   // every packet ever enqueued, in order
    ghost var heads: nat             // how often the head was taken
    ghost var currs: nat             // how often the current pointer was moved

    /** The p-th packet is still in the ring and not yet taken by the current pointer. */
    ghost predicate Waiting(p: nat)
      reads this
    {
      heads <= p < |log| && currs <= p
    }

    /** The counters stand for the numbers of calls, and every waiting packet sits in its slot, new
        and numbered. */
    ghost predicate Valid()
      reads this, slots
    {
      && slots.Length == BUF_SIZE
      && Stands(Counters(headPt, tailPt, currPt), heads, |log|, currs)
      && forall p: nat :: Waiting(p) ==> Holds(slots[SlotOfPosition(p)], p, log[p])
    }

    constructor ()
      ensures Valid() && fresh(slots) && log == [] && currs == 0 && heads == 0
      ensures forall i :: 0 <= i < BUF_SIZE ==> slots[i].status == SlotStatus.Empty
    {
      headPt, tailPt, currPt, numRetrans := 0, 0, 0, 0;
      slots := new Slot[BUF_SIZE](_ => Slot(0, SlotStatus.Empty, 0, 0, []));
      log, heads, currs := [], 0, 0;
    }

    predicate Full()
      reads this
    {
      IsFull(Counters(headPt, tailPt, currPt))
    }

    /** The ring is full when 5000 packets are between head and tail, also across the wrap. */
    lemma FullExactly()
      requires Valid()
      ensures Full() <==> |log| - heads == 5000
    {
      AddModulo(heads, BUF_SIZE);
      if |log| < heads + BUF_SIZE {
        NotWrappedOnto(heads, BUF_SIZE, |log|);
      }
    }

    /** Copies the packet into the slot and only then fails its assertion if the slot was not
        released: what waited there has lost its bytes to the copy but not its bookkeeping. A lone
        caller must not call it on a full ring, where it would wait. */
    method EnqueuePkt(pkt: seq<uint8>) returns (ok: bool)
      requires Valid() && !Full() && |pkt| <= 1472
      modifies this`tailPt, this`log, slots
      ensures ok <==> old(slots[SlotOf(tailPt)].status) == SlotStatus.Empty
      ensures tailPt == Add32(old(tailPt), 1)
      ensures ok ==> Valid() && log == old(log) + [pkt]
      ensures var i := Seq2Ind(tailPt);
        && i == SlotOf(old(tailPt))
        && var was := old(slots[SlotOf(tailPt)]);
        && slots[i] == (if ok then Slot(tailPt, OccupiedNew, |pkt|, numRetrans, Copied(was.buf, pkt))
                        else was.(buf := Copied(was.buf, pkt)))
        && forall k :: 0 <= k < BUF_SIZE && k != i ==> slots[k] == old(slots[k])
    {
      var seqNum := Add32(tailPt, 1);
      SeqMatchesSlot(tailPt);
      StandsStep(Counters(headPt, tailPt, currPt), heads, |log|, currs, Tail);
      var index := SlotOf(tailPt);
      tailPt := Add32(tailPt, 1);
      var buf := Copied(slots[index].buf, pkt);
      slots[index] := slots[index].(buf := buf);
      ok := slots[index].status == SlotStatus.Empty;
      if ok {
        slots[index] := Slot(seqNum, OccupiedNew, |pkt|, numRetrans, buf);
        log := log + [pkt];
      }
    }

    /** Moves the head on; the slot is the caller's to release. */
    method AcquireHeadLock() returns (index: nat)
      requires Valid() && headPt != tailPt
      modifies this`headPt, this`heads
      ensures Valid() && index == SlotOf(old(headPt)) && headPt == Add32(old(headPt), 1) && heads == old(heads) + 1
    {
      StandsStep(Counters(headPt, tailPt, currPt), heads, |log|, currs, Head);
      index := SlotOf(headPt);
      headPt := Add32(headPt, 1);
      heads := heads + 1;
    }

    /** Two waiting packets never share a slot: the number there tells them apart. */
    lemma WaitingSlotsDiffer(p: nat, q: nat)
      requires Valid() && Waiting(p) && Waiting(q) && p != q
      ensures SlotOfPosition(p) != SlotOfPosition(q)
    {
      NumbersDiffer(if p < q then p else q, if p < q then q else p);
    }

    /** The slot under the current pointer, unless nothing comes before the timeout: what the caller
        gets, what becomes of the slot, and that nothing else changes. While the head has not
        overtaken, that is the next packet in the order of enqueueing; after an overtaking it is
        whatever waits in that slot. The packet whose number wraps to 0 fails an assertion. */
    method DequeuePkt() returns (r: Dequeued)
      requires Valid()
      modifies this`currPt, this`currs, slots
      ensures r == Timeout <==> old(currPt) == tailPt
      ensures currPt == if r == Timeout then old(currPt) else Add32(old(currPt), 1)
      ensures currs == if r == Timeout then old(currs) else old(currs) + 1
      ensures old(currPt) != tailPt ==> var i := SlotOf(old(currPt)); var was := old(slots[i]);
        if was.status != OccupiedNew && was.status != OccupiedRetrans then r == Current(i, was) && slots[i] == was
        else if !Sendable(was) then r == AssertFailed && slots[i] == was
        else
          && r.Current? && r.index == i && slots[i] == r.slot.(status := OccupiedOutbound)
          && r.slot.numRetrans == was.numRetrans - (if was.status == OccupiedRetrans then 1 else 0)
          && r.slot == was.(numRetrans := r.slot.numRetrans)
      ensures forall k :: 0 <= k < BUF_SIZE && k != SlotOf(old(currPt)) ==> slots[k] == old(slots[k])
      ensures forall p: nat :: old(Waiting(p)) && old(currPt) != tailPt && SlotOfPosition(p) == SlotOf(old(currPt)) ==>
        if log[p] == [] || (p + 1) % TWO32 == 0 then r == AssertFailed
        else r.Current? && r.slot.len == |log[p]| && log[p] <= r.slot.buf && r.slot.seqNum == (p + 1) % TWO32
      ensures old(currPt) != tailPt && heads <= old(currs) ==> old(Waiting(currs))
      ensures heads <= old(currs) ==> Valid()
      ensures (forall p: nat :: Waiting(p) ==> SlotOfPosition(p) != SlotOf(old(currPt))) ==> Valid()
    {
      if tailPt == currPt {
        return Timeout;
      }
      StandsStep(Counters(headPt, tailPt, currPt), heads, |log|, currs, Curr);
      forall p: nat | heads <= currs < p < |log| ensures SlotOfPosition(p) != SlotOfPosition(currs) {
        WaitingSlotsDiffer(currs, p);
      }
      var index := SlotOf(currPt);
      currPt := Add32(currPt, 1);
      currs := currs + 1;
      var slot := slots[index];
      if slot.status == OccupiedNew || slot.status == OccupiedRetrans {
        if !(0 < slot.len <= PKT_SIZE && slot.seqNum > 0) {
          return AssertFailed;
        }
        var retrans := slot.numRetrans;
        if slot.status == OccupiedRetrans {
          if retrans == 0 {
            return AssertFailed;
          }
          retrans := retrans - 1;
        }
        slots[index] := slot.(status := OccupiedOutbound, numRetrans := retrans);
        slot := slot.(numRetrans := retrans);
      }
      r := Current(index, slot);
    }
  }
  // ----- the assertions do fail

  /** An empty packet goes in and fails an assertion on its way out. */
  method EmptyPacketFails() returns (ok: bool, r: Dequeued)
    ensures ok && r == AssertFailed
  {
    var b := new TxDataBuf();
    ok := b.EnqueuePkt([]);
    r := b.DequeuePkt();
  }

  /** Nothing in the ring, every slot released, after n packets. */
  ghost predicate Rested(b: TxDataBuf, n: nat)
    reads b, b.slots
  {
    && b.Valid() && b.heads == b.currs == |b.log| == n
    && forall i :: 0 <= i < BUF_SIZE ==> b.slots[i].status == SlotStatus.Empty
  }

  /** One packet in, out and away, by a caller that releases its slot. */
  method PassOne(b: TxDataBuf, pkt: seq<uint8>, ghost n: nat)
    requires Rested(b, n) && n < TWO32 - 1 && 0 < |pkt| <= PKT_SIZE
    modifies b, b.slots
    ensures Rested(b, n + 1)
  {
    var ok := b.EnqueuePkt(pkt);
    var r := b.DequeuePkt();
    var i := b.AcquireHeadLock();
    b.slots[i] := b.slots[i].(status := SlotStatus.Empty);
  }

  /** A ring that has passed on all packets numbered 1 to 2^32 - 1. */
  method RestedAtTheWrap(pkt: seq<uint8>) returns (b: TxDataBuf)
    requires 0 < |pkt| <= PKT_SIZE
    ensures fresh(b) && fresh(b.slots) && Rested(b, TWO32 - 1)
  {
    b := new TxDataBuf();
    for n := 0 to TWO32 - 1
      invariant fresh(b) && fresh(b.slots) && Rested(b, n)
    {
      PassOne(b, pkt, n);
    }
  }

  /** The next packet is numbered 0, and fails an assertion on its way out. */
  method WrappedNumberFails(pkt: seq<uint8>) returns (ok: bool, r: Dequeued)
    requires 0 < |pkt| <= PKT_SIZE
    ensures ok && r == AssertFailed
  {
    var b := RestedAtTheWrap(pkt);
    ok := b.EnqueuePkt(pkt);
    r := b.DequeuePkt();
  }

  /** From there, n packets in and none out: the first in slot 2295, the others in 0, 1, 2 and so on. */
  ghost predicate FillingAtTheWrap(b: TxDataBuf, n: nat, pkt: seq<uint8>)
    reads b, b.slots
  {
    && b.Valid() && b.heads == b.currs == TWO32 - 1 && |b.log| == TWO32 - 1 + n
    && (n > 0 ==> b.log[TWO32 - 1] == pkt)
    && forall i :: 0 <= i < BUF_SIZE && (n == 0 || n - 1 <= i) && (n > 0 ==> i != WRAP_GAP - 1) ==>
         b.slots[i].status == SlotStatus.Empty
  }

  lemma SlotsFromTheWrap(n: nat)
    requires n <= WRAP_GAP
    ensures SlotOfPosition(TWO32 - 1 + n) == if n == 0 then WRAP_GAP - 1 else n - 1
  {
    if n > 0 {
      assert (TWO32 - 1 + n) % TWO32 == n - 1;
    }
  }

  /** Left undelivered from there on, 2296 packets go in; the next finds the slot of the first one
      occupied, though the ring is far from full, and its bytes replace those that wait there. */
  method WrapOverwritesWaiting(pkt: seq<uint8>, next: seq<uint8>) returns (full: bool, ok: bool, slot: Slot)
    requires 0 < |pkt| <= PKT_SIZE && |next| <= PKT_SIZE
    ensures !full && !ok
    ensures slot.seqNum == 0 && slot.status == OccupiedNew && slot.len == |pkt| && next <= slot.buf
  {
    var b := RestedAtTheWrap(pkt);
    for n := 0 to WRAP_GAP
      invariant fresh(b) && fresh(b.slots) && FillingAtTheWrap(b, n, pkt)
    {
      SlotsFromTheWrap(n);
      ok := b.EnqueuePkt(pkt);
    }
    SlotsFromTheWrap(0);
    SlotsFromTheWrap(WRAP_GAP);
    assert b.Waiting(TWO32 - 1);
    full := b.Full();
    ok := b.EnqueuePkt(next);
    slot := b.slots[SlotOf(TWO32 - 1)];
  }
}
