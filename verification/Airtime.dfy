/** Packets, airtime and the division of a round into quanta. */
module Airtime {
  import opened Bytes

  /** The bytes of one packet; its length travels as a 16-bit number. */
  type Packet = seq<uint8>

  const MAX_LEN := 0xFFFF

  /** A link throughput: bits per microsecond, always positive. */
  type Rate = r: real | r > 0.0 witness 1.0

  datatype Status = Status(throughput: Rate, quantum: real, counter: real)

  datatype FairnessMode = EqualTime | EqualThroughput | ProportionalThroughput

  /** Microseconds needed to send len bytes, cut to a whole number. */
  function Duration(len: nat, throughput: Rate): (d: nat)
    ensures d as real * throughput <= 8.0 * len as real < (d as real + 1.0) * throughput
  {
    CutQuotient(len as real * 8.0, throughput);
    (len as real * 8.0 / throughput).Floor
  }

  lemma CutQuotient(x: real, t: Rate)
    requires x >= 0.0
    ensures 0.0 <= x / t
    ensures (x / t).Floor as real * t <= x < ((x / t).Floor as real + 1.0) * t
  {
    Quotient(x, t);
    FloorProduct(x, x / t, t);
  }

  lemma Quotient(x: real, t: Rate)
    ensures (x / t) * t == x
  {
  }

  lemma FloorProduct(x: real, y: real, t: Rate)
    requires x == y * t
    ensures y.Floor as real * t <= x < (y.Floor as real + 1.0) * t
  {
    MulOrder(y.Floor as real, y, t);
    MulOrderStrict(y, y.Floor as real + 1.0, t);
  }

  lemma MulOrder(a: real, b: real, t: Rate)
    requires a <= b
    ensures a * t <= b * t
  {
  }

  lemma MulOrderStrict(a: real, b: real, t: Rate)
    requires a < b
    ensures a * t < b * t
  {
  }

  /** Some element of a non-empty set. */
  ghost function Any<T>(s: set<T>): (x: T)
    requires s != {}
    ensures x in s
  {
    var x :| x in s;
    x
  }

  // ----- sums over maps, independent of the order of iteration

  ghost function Sum(m: map<int, real>): real
  {
    if m.Keys == {} then 0.0 else
      var k := Any(m.Keys);
      m[k] + Sum(m - {k})
  }

  /** Any key may be taken out first. */
  lemma {:induction false} SumTake(m: map<int, real>, k: int)
    requires k in m
    ensures Sum(m) == m[k] + Sum(m - {k})
    decreases |m|
  {
    var first := Any(m.Keys);
    if first != k {
      SumTake(m - {first}, k);
      SumTake(m - {k}, first);
      assert m - {first} - {k} == m - {k} - {first};
    }
  }

  function Plus(a: real, b: real): real { a + b }

  ghost predicate Linear(g: real -> real) {
    && g(0.0) == 0.0
    && forall a, b :: g(Plus(a, b)) == g(a) + g(b)
  }

  lemma WithoutKey(m: map<int, real>, k: int)
    requires k in m
    ensures (m - {k}).Keys == m.Keys - {k}
    ensures |m - {k}| == |m| - 1
  {
  }

  /** A linear map of every entry is the same linear map of the sum. */
  lemma {:induction false} SumLinear(m: map<int, real>, image: map<int, real>, g: real -> real)
    requires image.Keys == m.Keys
    requires forall k :: k in m ==> image[k] == g(m[k])
    requires Linear(g)
    ensures Sum(image) == g(Sum(m))
    decreases |m|
  {
    if m.Keys == {} {
      assert Sum(m) == 0.0 && Sum(image) == 0.0;
    } else {
      var k := Any(m.Keys);
      WithoutKey(m, k);
      WithoutKey(image, k);
      SumTake(m, k);
      SumTake(image, k);
      SumLinear(m - {k}, image - {k}, g);
      assert g(Plus(m[k], Sum(m - {k}))) == g(m[k]) + g(Sum(m - {k}));
    }
  }

  lemma {:induction false} SumOfOnes(m: map<int, real>)
    requires forall k :: k in m ==> m[k] == 1.0
    ensures Sum(m) == |m| as real
    decreases |m|
  {
    if m.Keys != {} {
      var k := Any(m.Keys);
      SumTake(m, k);
      WithoutKey(m, k);
      SumOfOnes(m - {k});
    }
  }

  lemma {:induction false} SumPositive(m: map<int, real>)
    requires forall k :: k in m ==> m[k] > 0.0
    ensures Sum(m) >= 0.0
    ensures m.Keys != {} ==> Sum(m) > 0.0
    decreases |m|
  {
    if m.Keys != {} {
      var k := Any(m.Keys);
      SumTake(m, k);
      SumPositive(m - {k});
    }
  }

  lemma {:induction false} SumLess(m: map<int, real>, n: map<int, real>)
    requires m.Keys == n.Keys && forall k :: k in m ==> m[k] < n[k]
    ensures Sum(m) <= Sum(n)
    ensures m.Keys != {} ==> Sum(m) < Sum(n)
    decreases |m|
  {
    if m.Keys != {} {
      var k := Any(m.Keys);
      SumTake(m, k);
      SumTake(n, k);
      SumLess(m - {k}, n - {k});
    }
  }

  // ----- quanta

  function Reciprocal(rate: Rate): (r: real)
    ensures r > 0.0
  {
    1.0 / rate
  }

  /** An equal share of the round for each of a number of clients. */
  function EqualShare(round: nat, clients: nat): real {
    if clients == 0 then 0.0 else round as real / clients as real
  }

  /** What each client's quantum is proportional to. */
  function Weights(mode: FairnessMode, rates: map<int, Rate>): (w: map<int, real>)
    ensures w.Keys == rates.Keys
    ensures forall id :: id in w ==> w[id] > 0.0
  {
    match mode
    case EqualTime => map id | id in rates :: 1.0
    case ProportionalThroughput => map id | id in rates :: rates[id]
    case EqualThroughput => map id | id in rates :: Reciprocal(rates[id])
  }

  /** The part of the round that a weight takes out of the total weight. */
  function Share(weight: real, total: real, round: real): (r: real)
    requires total > 0.0
    ensures weight >= 0.0 && round >= 0.0 ==> r >= 0.0
    ensures weight > 0.0 && round > 0.0 ==> r > 0.0
  {
    weight / total * round
  }

  ghost function Quanta(mode: FairnessMode, rates: map<int, Rate>, round: nat): (q: map<int, real>)
    ensures q.Keys == rates.Keys
    ensures forall id :: id in q ==> q[id] >= 0.0
  {
    var w := Weights(mode, rates);
    SumPositive(w);
    map id | id in rates :: Share(w[id], Sum(w), round as real)
  }

  lemma ShareAdds(a: real, b: real, total: real, round: real)
    requires total > 0.0
    ensures Share(a + b, total, round) == Share(a, total, round) + Share(b, total, round)
  {
  }

  lemma ShareOfAll(total: real, round: real)
    requires total > 0.0
    ensures Share(total, total, round) == round
  {
  }

  /** In every mode the quanta are a true division of the round. */
  lemma QuantaDivideRound(mode: FairnessMode, rates: map<int, Rate>, round: nat)
    requires rates.Keys != {}
    ensures Sum(Quanta(mode, rates, round)) == round as real
  {
    var w := Weights(mode, rates);
    SumPositive(w);
    var total := Sum(w);
    var g := x => Share(x, total, round as real);
    forall a, b ensures g(Plus(a, b)) == g(a) + g(b) {
      ShareAdds(a, b, total, round as real);
    }
    assert g(0.0) + g(0.0) == g(Plus(0.0, 0.0));
    SumLinear(w, Quanta(mode, rates, round), g);
    ShareOfAll(total, round as real);
  }

  /** No client is starved of airtime by the division itself. */
  lemma QuantaPositive(mode: FairnessMode, rates: map<int, Rate>, round: nat)
    requires round > 0
    ensures forall id :: id in rates ==> Quanta(mode, rates, round)[id] > 0.0
  {
  }

  /** The law each mode is named after, for every pair of clients. */
  lemma EqualTimeLaw(rates: map<int, Rate>, round: nat, i: int)
    requires i in rates
    ensures Quanta(EqualTime, rates, round)[i] == EqualShare(round, |rates|)
  {
    var w := Weights(EqualTime, rates);
    SumOfOnes(w);
    assert |w.Keys| == |rates.Keys|;
  }

  /** The bits that an airtime is worth at a throughput. */
  function Worth(airtime: real, rate: real): real { airtime * rate }

  lemma ProportionalLaw(rates: map<int, Rate>, round: nat, i: int, j: int)
    requires i in rates && j in rates
    ensures var q := Quanta(ProportionalThroughput, rates, round);
      Worth(q[i], rates[j]) == Worth(q[j], rates[i])
  {
    var w := Weights(ProportionalThroughput, rates);
    SumPositive(w);
    SharesProportional(rates[i], rates[j], Sum(w), round as real);
  }

  lemma EqualThroughputLaw(rates: map<int, Rate>, round: nat, i: int, j: int)
    requires i in rates && j in rates
    ensures var q := Quanta(EqualThroughput, rates, round);
      Worth(q[i], rates[i]) == Worth(q[j], rates[j])
  {
    var w := Weights(EqualThroughput, rates);
    SumPositive(w);
    InverseShare(rates[i], Sum(w), round as real);
    InverseShare(rates[j], Sum(w), round as real);
  }

  lemma SharesProportional(a: real, b: real, total: real, round: real)
    requires total > 0.0
    ensures Worth(Share(a, total, round), b) == Worth(Share(b, total, round), a)
  {
  }

  lemma InverseShare(a: Rate, total: real, round: real)
    requires total > 0.0
    ensures Worth(Share(Reciprocal(a), total, round), a) == round / total
  {
  }
}
