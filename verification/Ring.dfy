/** The free-running counters of the packet ring. */
module Ring {
  import opened Wrap

  const BUF_SIZE := 5000

  /** What 2^32 leaves when divided by the ring size: the slots jump by this much at the wrap. */
  const WRAP_GAP := TWO32 % BUF_SIZE

  function SlotOf(counter: uint32): nat { counter % BUF_SIZE }

  function Seq2Ind(seqNum: uint32): nat { Sub32(seqNum, 1) % BUF_SIZE }

  datatype Counters = Counters(head: uint32, tail: uint32, curr: uint32)

  predicate IsFull(c: Counters) { Add32(c.head, BUF_SIZE) == c.tail }

  datatype Acquire = Head | Tail | Curr

  predicate Enabled(c: Counters, a: Acquire) {
    match a
    case Head => c.tail != c.head
    case Tail => !IsFull(c)
    case Curr => c.tail != c.curr
  }

  function Next(c: Counters, a: Acquire): Counters {
    match a
    case Head => c.(head := Add32(c.head, 1))
    case Tail => c.(tail := Add32(c.tail, 1))
    case Curr => c.(curr := Add32(c.curr, 1))
  }

  /** The slot handed to the caller. */
  function Index(c: Counters, a: Acquire): nat {
    SlotOf(match a case Head => c.head case Tail => c.tail case Curr => c.curr)
  }

  // ----- runs

  datatype Run = Empty | Then(prev: Run, a: Acquire)

  function End(r: Run): Counters {
    match r
    case Empty => Counters(0, 0, 0)
    case Then(prev, a) => Next(End(prev), a)
  }

  predicate Legal(r: Run) {
    r.Then? ==> Legal(r.prev) && Enabled(End(r.prev), r.a)
  }

  /** The slots handed out by one kind of call, in order. */
  function Handed(r: Run, a: Acquire): seq<nat> {
    match r
    case Empty => []
    case Then(prev, b) => if a == b then Handed(prev, a) + [Index(End(prev), a)] else Handed(prev, a)
  }

  function Count(r: Run, a: Acquire): nat { |Handed(r, a)| }

  lemma AddModulo(n: nat, k: nat)
    ensures Add32(n % TWO32, k) == (n + k) % TWO32
  {
    var q := n / TWO32;
    assert n == q * TWO32 + n % TWO32;
    assert (n + k) % TWO32 == (q * TWO32 + (n % TWO32 + k)) % TWO32;
  }

  /** Counters that stand for these numbers of calls. */
  predicate Stands(c: Counters, heads: nat, tails: nat, currs: nat) {
    && c == Counters(heads % TWO32, tails % TWO32, currs % TWO32)
    && heads <= tails <= heads + BUF_SIZE
    && currs <= tails
  }

  lemma StandsStep(c: Counters, heads: nat, tails: nat, currs: nat, a: Acquire)
    requires Stands(c, heads, tails, currs) && Enabled(c, a)
    ensures Stands(Next(c, a), heads + (if a == Head then 1 else 0), tails + (if a == Tail then 1 else 0),
                   currs + (if a == Curr then 1 else 0))
  {
    match a
    case Head => AddModulo(heads, 1);
    case Tail => AddModulo(tails, 1); AddModulo(heads, BUF_SIZE);
    case Curr => AddModulo(currs, 1);
  }

  /** Every run, however often the counters wrap: the counters are the numbers of calls modulo
      2^32, removals never overtake insertions nor fall more than the ring size behind, and the
      current pointer never passes the tail. */
  lemma {:induction false} CountersAlways(r: Run)
    requires Legal(r)
    ensures Stands(End(r), Count(r, Head), Count(r, Tail), Count(r, Curr))
  {
    match r
    case Empty =>
    case Then(prev, a) =>
      CountersAlways(prev);
      StandsStep(End(prev), Count(prev, Head), Count(prev, Tail), Count(prev, Curr), a);
  }

  /** Nothing else bounds the counters: any numbers of calls within those limits are those of some
      run. */
  lemma {:induction false} Reach(heads: nat, tails: nat, currs: nat) returns (r: Run)
    requires heads <= tails <= heads + BUF_SIZE && currs <= tails
    ensures Legal(r) && Count(r, Head) == heads && Count(r, Tail) == tails && Count(r, Curr) == currs
    decreases heads + tails + currs
  {
    if tails == 0 {
      r := Empty;
    } else if currs == tails {
      r := Reach(heads, tails, currs - 1);
      r := Acquired(r, Curr);
    } else if heads == tails {
      r := Reach(heads - 1, tails, currs);
      r := Acquired(r, Head);
    } else {
      r := Reach(heads, tails - 1, currs);
      r := Acquired(r, Tail);
    }
  }

  /** There is room for one more call. */
  predicate Room(heads: nat, tails: nat, currs: nat, a: Acquire) {
    match a
    case Head => heads < tails
    case Tail => tails < heads + BUF_SIZE
    case Curr => currs < tails < currs + TWO32
  }

  lemma NotWrappedOnto(n: nat, k: nat, m: nat)
    requires n <= m < n + TWO32 && n + k != m && k < TWO32
    ensures Add32(n % TWO32, k) != m % TWO32
  {
    AddModulo(n, m - n);
    if Add32(n % TWO32, k) == Add32(n % TWO32, m - n) {
      AddInjective(n % TWO32, k, m - n);
    }
  }

  lemma RoomEnables(c: Counters, heads: nat, tails: nat, currs: nat, a: Acquire)
    requires Stands(c, heads, tails, currs) && Room(heads, tails, currs, a)
    ensures Enabled(c, a)
  {
    match a
    case Head => NotWrappedOnto(heads, 0, tails);
    case Tail => NotWrappedOnto(heads, BUF_SIZE, tails);
    case Curr => NotWrappedOnto(currs, 0, tails);
  }

  lemma Acquired(r: Run, a: Acquire) returns (n: Run)
    requires Legal(r) && Room(Count(r, Head), Count(r, Tail), Count(r, Curr), a)
    ensures Legal(n) && n == Then(r, a)
    ensures forall b :: Count(n, b) == Count(r, b) + (if b == a then 1 else 0)
  {
    CountersAlways(r);
    RoomEnables(End(r), Count(r, Head), Count(r, Tail), Count(r, Curr), a);
    n := Then(r, a);
  }

  lemma LastHanded(r: Run, a: Acquire)
    requires Legal(r)
    ensures Index(End(r), a) == SlotOf(Count(r, a) % TWO32)
  {
    CountersAlways(r);
  }

  lemma {:induction false} HandedSlots(r: Run, a: Acquire, k: nat)
    requires Legal(r) && k < Count(r, a)
    ensures Handed(r, a)[k] == SlotOf(k % TWO32)
  {
    if k < Count(r.prev, a) {
      HandedSlots(r.prev, a, k);
    } else {
      LastHanded(r.prev, a);
    }
  }

  /** First in, first out: the slots handed to removals are the slots handed to insertions. */
  lemma HeadsFollowTails(r: Run)
    requires Legal(r)
    ensures Handed(r, Head) <= Handed(r, Tail)
  {
    CountersAlways(r);
    forall k | 0 <= k < Count(r, Head) ensures Handed(r, Head)[k] == Handed(r, Tail)[k] {
      HandedSlots(r, Head, k);
      HandedSlots(r, Tail, k);
    }
  }

  // ----- who shares a slot

  /** The n positions from counter value h on lie in n different slots. */
  ghost predicate SlotsDistinct(h: uint32, n: nat) {
    forall i, j :: 0 <= i < j < n ==> SlotOf(Add32(h, i)) != SlotOf(Add32(h, j))
  }

  /** The live positions never share a slot, except after a wrap: 2^32 is not a multiple of the
      ring size, so a window across the wrap is sound only while it holds at most 2296 packets. */
  lemma SlotsDistinctExactly(h: uint32, n: nat)
    requires n <= BUF_SIZE
    ensures SlotsDistinct(h, n) <==> h + n <= TWO32 || n <= WRAP_GAP
  {
    if h + n <= TWO32 || n <= WRAP_GAP {
      forall i, j | 0 <= i < j < n ensures SlotOf(Add32(h, i)) != SlotOf(Add32(h, j)) {
        OwnSlots(h, n, i, j);
      }
    } else {
      var before := TWO32 - h;
      SharedSlot(h, if before <= WRAP_GAP then 0 else before - WRAP_GAP);
    }
  }

  /** Positions inserted and not yet removed. */
  function Live(r: Run): int { Count(r, Tail) - Count(r, Head) }

  /** In every run, exactly: live packets have slots of their own unless they straddle the counter's
      wrap and number more than 2296. */
  lemma LiveSlotsExactly(r: Run)
    requires Legal(r)
    ensures 0 <= Live(r) <= BUF_SIZE && Live(r) == Sub32(End(r).tail, End(r).head)
    ensures SlotsDistinct(End(r).head, Live(r)) <==> End(r).head + Live(r) <= TWO32 || Live(r) <= WRAP_GAP
  {
    CountersAlways(r);
    AddModulo(Count(r, Head), Live(r));
    AddThenSub(End(r).head, Live(r));
    SlotsDistinctExactly(End(r).head, Live(r));
  }

  /** It does happen: one removal short of the wrap, a run holds 2297 packets, two in one slot. */
  lemma WrapSharesSlots() returns (r: Run)
    ensures Legal(r) && Live(r) == 2297 && !SlotsDistinct(End(r).head, Live(r))
  {
    r := Reach(TWO32 - 1, TWO32 + 2296, 0);
    AtTheWrap(r);
    SharedAtTheWrap();
  }

  lemma SharedAtTheWrap()
    ensures !SlotsDistinct(TWO32 - 1, 2297)
  {
    assert WRAP_GAP == 2296;
    SlotsDistinctExactly(TWO32 - 1, 2297);
  }

  lemma AtTheWrap(r: Run)
    requires Legal(r) && Count(r, Head) == TWO32 - 1
    ensures End(r).head == TWO32 - 1
  {
    CountersAlways(r);
    StandsAtTheWrap(End(r), Count(r, Head), Count(r, Tail), Count(r, Curr));
  }

  lemma StandsAtTheWrap(c: Counters, heads: nat, tails: nat, currs: nat)
    requires Stands(c, heads, tails, currs) && heads < TWO32
    ensures c.head == heads && WRAP_GAP == 2296
  {
  }

  lemma OwnSlots(h: uint32, n: nat, i: nat, j: nat)
    requires i < j < n <= BUF_SIZE && (h + n <= TWO32 || n <= WRAP_GAP)
    ensures SlotOf(Add32(h, i)) != SlotOf(Add32(h, j))
  {
    if h + j < TWO32 || h + i >= TWO32 {
    } else {
      assert Add32(h, i) == h + i && Add32(h, j) == h + j - TWO32;
    }
  }

  /** Positions WRAP_GAP apart, on either side of the wrap. */
  lemma SharedSlot(h: uint32, i: nat)
    requires h + i < TWO32 <= h + i + WRAP_GAP
    ensures SlotOf(Add32(h, i)) == SlotOf(Add32(h, i + WRAP_GAP))
  {
    assert Add32(h, i) == h + i && Add32(h, i + WRAP_GAP) == h + i + WRAP_GAP - TWO32;
  }

  /** A counter's slot is what is left of it after whole rounds of the ring. */
  lemma SlotExactly(c: uint32)
    ensures 0 <= SlotOf(c) < 5000 && exists q: nat :: c == q * 5000 + SlotOf(c)
  {
    var q := c / 5000;
    assert c == q * 5000 + SlotOf(c);
  }

  /** Every number but 0 belongs to the slot of the position before it; 0 wraps to the last position. */
  lemma SeqSlotExactly(seqNum: uint32)
    ensures 0 <= Seq2Ind(seqNum) < 5000
    ensures seqNum > 0 ==> exists q: nat :: seqNum == q * 5000 + Seq2Ind(seqNum) + 1
    ensures seqNum == 0 ==> Seq2Ind(seqNum) == 2295
  {
    if seqNum > 0 {
      assert Seq2Ind(seqNum) == SlotOf(seqNum - 1);
      SlotExactly(seqNum - 1);
      var q: nat :| seqNum - 1 == q * 5000 + SlotOf(seqNum - 1);
      assert seqNum == q * 5000 + Seq2Ind(seqNum) + 1;
    }
  }

  /** The packet numbered tail + 1 goes where its number says. */
  lemma SeqMatchesSlot(tail: uint32)
    ensures Seq2Ind(Add32(tail, 1)) == SlotOf(tail)
  {
  }
}
