/** Seconds and nanoseconds. */
module Timer {

  const BILLION := 1_000_000_000

  /** C's integer division and remainder, which cut toward zero. */
  function Quot(a: int, n: int): int
    requires n != 0
  {
    if (a >= 0) == (n > 0) then Abs(a) / Abs(n) else -(Abs(a) / Abs(n))
  }

  function Rem(a: int, n: int): int
    requires n != 0
  {
    a - Quot(a, n) * n
  }

  function Abs(a: int): nat { if a >= 0 then a else -a }

  function Nanos(sec: int, nsec: int): int { sec * BILLION + nsec }

  predicate Normal(nsec: int) { 0 <= nsec < BILLION }

  // ----- how far the division is off

  /** The whole nanoseconds that (sec % n) * (BILLION / n) and nsec / n leave behind. */
  function Lost(sec: nat, nsec: nat, n: nat): nat
    requires n >= 1
  {
    ((sec % n) * (BILLION % n) + nsec % n) / n
  }

  /** The nanoseconds computed, for the seconds r that are left over. */
  function Whole(r: nat, nsec: nat, n: nat): nat
    requires n >= 1
  {
    nsec / n + r * (BILLION / n)
  }

  lemma DivExact(q: int, x: int, n: nat)
    requires n >= 1
    ensures (q * n + x) / n == q + x / n
  {
    var d, m := x / n, x % n;
    assert q * n + x == (q + d) * n + m by { assert x == d * n + m; Dist(q, d, n); }
    DivUnique((q + d) * n + m, q + d, m, n);
  }

  lemma Dist(a: int, b: int, n: int)
    ensures (a + b) * n == a * n + b * n
  {
  }

  lemma DivUnique(x: int, q: int, m: int, n: nat)
    requires n >= 1 && x == q * n + m && 0 <= m < n
    ensures x / n == q
  {
    var q', m' := x / n, x % n;
    assert x == q' * n + m';
    if q' > q {
      MulOrder(q + 1, q', n);
    } else if q' < q {
      MulOrder(q' + 1, q, n);
    }
  }

  /** (q n + r) B + (d n + m) with B = b n + z, sorted into a multiple of n and a rest. */
  lemma Sorted(q: int, r: int, b: int, z: int, d: int, m: int, n: int)
    ensures (q * n + r) * (b * n + z) + (d * n + m) == (q * (b * n + z) + r * b + d) * n + (r * z + m)
  {
    var x := b * n + z;
    assert (q * n + r) * x == q * n * x + r * x by { Dist(q * n, r, x); }
    assert r * x == r * b * n + r * z by { Parts(r, b, n, z); }
    assert q * n * x == q * x * n by { Swap(q, n, x); }
    Dist(q * x + r * b, d, n);
    Dist(q * x, r * b, n);
  }

  lemma Swap(a: int, b: int, c: int)
    ensures a * b * c == a * c * b
  {
  }

  lemma Parts(r: int, b: int, n: int, z: int)
    ensures r * (b * n + z) == r * b * n + r * z
  {
  }

  /** The quotient computed is the true one less what is lost. */
  lemma DivisionError(sec: nat, nsec: nat, n: nat)
    requires n >= 1
    ensures Nanos(sec / n, Whole(sec % n, nsec, n)) == Nanos(sec, nsec) / n - Lost(sec, nsec, n)
  {
    var q, r := sec / n, sec % n;
    var b, z := BILLION / n, BILLION % n;
    var d, m := nsec / n, nsec % n;
    DivMod(sec, n);
    DivMod(nsec, n);
    DivMod(BILLION, n);
    Sorted(q, r, b, z, d, m, n);
    DivExact(q * (b * n + z) + r * b + d, r * z + m, n);
  }

  lemma DivMod(x: nat, n: nat)
    requires n >= 1
    ensures x == x / n * n + x % n
  {
  }

  /** At most n - 1 nanoseconds are lost. */
  lemma LostBound(sec: nat, nsec: nat, n: nat)
    requires n >= 1
    ensures Lost(sec, nsec, n) <= n - 1
  {
    var r, z, m := sec % n, BILLION % n, nsec % n;
    assert r * z <= (n - 1) * z by { MulOrder(r, n - 1, z); }
    assert (n - 1) * z <= (n - 1) * (n - 1) by { MulOrder(z, n - 1, n - 1); }
    assert r * z + m <= (n - 1) * n;
    DivBelow(r * z + m, n - 1, n);
  }

  lemma MulOrder(a: int, b: int, c: nat)
    requires a <= b
    ensures a * c <= b * c && c * a <= c * b
  {
  }

  lemma DivBelow(x: nat, k: nat, n: nat)
    requires n >= 1 && x <= k * n
    ensures x / n <= k
  {
  }

  /** One division is exact exactly when the remainders together do not fill another n. */
  lemma ExactExactly(sec: nat, nsec: nat, n: nat)
    requires n >= 1
    ensures Lost(sec, nsec, n) == 0 <==> (sec % n) * (BILLION % n) + nsec % n < n
  {
  }

  /** Division by n is exact for every timer if and only if n divides a second. */
  lemma ExactForAllExactly(n: nat)
    requires n >= 1
    ensures (forall sec: nat, nsec: nat :: Normal(nsec) ==> Lost(sec, nsec, n) == 0) <==> 1_000_000_000 % n == 0
  {
    forall sec: nat, nsec: nat ensures BILLION % n == 0 ==> Lost(sec, nsec, n) == 0 {
      ExactExactly(sec, nsec, n);
    }
    if BILLION % n != 0 {
      var sec, nsec := n - 1, if n <= BILLION then n - 1 else BILLION - 1;
      DivUnique(sec, 0, sec, n);
      DivUnique(nsec, 0, nsec, n);
      DivMod(sec, n);
      DivMod(nsec, n);
      if n > BILLION {
        DivUnique(BILLION, 0, BILLION, n);
        DivMod(BILLION, n);
      }
      MulOrder(1, BILLION % n, n - 1);
      ExactExactly(sec, nsec, n);
      assert Normal(nsec) && Lost(sec, nsec, n) != 0;
    }
  }

  /** The result of a division is normalised. */
  lemma DivisionNormal(sec: nat, nsec: nat, n: nat)
    requires n >= 1 && Normal(nsec)
    ensures Normal(Whole(sec % n, nsec, n))
  {
    SmallDivisionNormal(sec % n, nsec, n);
  }

  lemma SmallDivision(r: nat, nsec: nat, n: nat)
    requires r < n
    ensures Whole(r, nsec, n) <= Nanos(r, nsec) / n
  {
    DivUnique(r, 0, r, n);
    DivMod(r, n);
    DivisionError(r, nsec, n);
  }

  lemma SmallDivisionNormal(r: nat, nsec: nat, n: nat)
    requires r < n && Normal(nsec)
    ensures Normal(Whole(r, nsec, n))
  {
    SmallDivision(r, nsec, n);
    BelowRound(r, nsec, n);
  }

  lemma BelowRound(r: nat, nsec: nat, n: nat)
    requires r < n && Normal(nsec)
    ensures Nanos(r, nsec) / n < BILLION
  {
    DivStrict(Nanos(r, nsec), BILLION, n);
  }

  lemma DivStrict(x: nat, k: nat, n: nat)
    requires n >= 1 && x < k * n
    ensures x / n < k
  {
    if x / n >= k {
      DivMod(x, n);
      MulOrder(k, x / n, n);
    }
  }

  /** Division cuts toward zero and the remainder has the sign of the dividend. */
  lemma QuotRemExactly(a: int, n: int)
    requires n != 0
    ensures Quot(a, n) * n + Rem(a, n) == a && Abs(Rem(a, n)) < Abs(n)
    ensures (Rem(a, n) > 0 ==> a > 0) && (Rem(a, n) < 0 ==> a < 0)
  {
    var q := Abs(a) / Abs(n);
    DivMod(Abs(a), Abs(n));
    Negated(q, Abs(n));
  }

  lemma Negated(q: int, n: int)
    ensures (-q) * n == -(q * n) && q * (-n) == -(q * n) && (-q) * (-n) == q * n
  {
  }

  lemma QuotRemOfNat(a: nat, n: nat)
    requires n >= 1
    ensures Quot(a, n) == a / n && Rem(a, n) == a % n
  {
  }

  class MonotonicTimer {
    var sec: int
    var nsec: int

    constructor (s: int, ns: int)
      ensures sec == s && nsec == ns
    {
      sec, nsec := s, ns;
    }

    function Value(): int
      reads this
    {
      Nanos(sec, nsec)
    }

    predicate Equal(t: MonotonicTimer)
      reads this, t
    {
      sec == t.sec && nsec == t.nsec
    }

    predicate Less(t: MonotonicTimer)
      reads this, t
    {
      sec < t.sec || (sec == t.sec && nsec < t.nsec)
    }

    predicate AtMost(t: MonotonicTimer)
      reads this, t
    {
      sec < t.sec || (sec == t.sec && nsec <= t.nsec)
    }

    /** t may be this timer. */
    method AddAssign(t: MonotonicTimer)
      requires Normal(nsec) && Normal(t.nsec)
      modifies this
      ensures Normal(nsec) && Value() == old(Value()) + old(t.Value())
    {
      sec := sec + t.sec;
      nsec := nsec + t.nsec;
      if nsec >= BILLION {
        sec := sec + 1;
        nsec := nsec - BILLION;
      }
    }

    /** The difference is exact whichever is larger; only then may the seconds be negative. */
    method SubAssign(t: MonotonicTimer)
      requires Normal(nsec) && Normal(t.nsec)
      modifies this
      ensures Normal(nsec) && Value() == old(Value()) - old(t.Value())
      ensures sec < 0 <==> old(Less(t))
    {
      sec := sec - t.sec;
      nsec := nsec - t.nsec;
      if nsec < 0 {
        sec := sec - 1;
        nsec := nsec + BILLION;
      }
    }

    /** For a non-negative normalised timer and n of at least 1 the result is normalised and at most
        n - 1 nanoseconds below the true quotient. */
    method DivAssign(n: int)
      requires n != 0
      modifies this
      ensures sec == Quot(old(sec), n) && nsec == Quot(old(nsec), n) + Rem(old(sec), n) * Quot(BILLION, n)
      ensures n >= 1 && old(sec) >= 0 && Normal(old(nsec)) ==>
        && sec >= 0 && Normal(nsec)
        && Value() == old(Value()) / n - Lost(old(sec), old(nsec), n)
        && old(Value()) / n - (n - 1) <= Value() <= old(Value()) / n
    {
      nsec := Quot(nsec, n) + Rem(sec, n) * Quot(BILLION, n);
      sec := Quot(sec, n);
      if n >= 1 && old(sec) >= 0 && Normal(old(nsec)) {
        QuotRemOfNat(old(sec), n);
        QuotRemOfNat(old(nsec), n);
        QuotRemOfNat(BILLION, n);
        DivisionError(old(sec), old(nsec), n);
        LostBound(old(sec), old(nsec), n);
        DivisionNormal(old(sec), old(nsec), n);
      }
    }
  }

  /** On normalised timers the comparisons are those of the nanosecond values. */
  lemma OrderIsOfValues(a: MonotonicTimer, b: MonotonicTimer)
    requires Normal(a.nsec) && Normal(b.nsec)
    ensures a.Less(b) <==> a.Value() < b.Value()
    ensures a.AtMost(b) <==> a.Value() <= b.Value()
    ensures a.Equal(b) <==> a.Value() == b.Value()
  {
  }
}
