/**
 * The Halton low-discrepancy sequence used to jitter the raymarch start.
 *
 * The value at index `n` in base `b` is the radical inverse of `n`: the
 * base-`b` digits of `n`, least significant first, written behind the
 * point. Values are modelled as exact rationals (`real`); the source
 * accumulates them in single-precision floats.
 */
module LowDiscrepancy {

  /** A C# `int`. */
  newtype int32 = x: int | -0x8000_0000 <= x < 0x8000_0000

  const INT32_MIN: int32 := -0x8000_0000
  const INT32_MAX: int32 := 0x7fff_ffff

  /** The sequence base a new sequence starts with. */
  const DEFAULT_BASE: int32 := 3

  /** `x++` on a C# `int` in an unchecked context: the largest value wraps to the smallest. */
  function Increment(x: int32): (r: int32)
    ensures r as int == (x as int + 1 + 0x8000_0000) % 0x1_0000_0000 - 0x8000_0000
    ensures x != INT32_MAX ==> r as int == x as int + 1
  {
    if x == INT32_MAX then INT32_MIN else x + 1
  }

  // ---------------------------------------------------------------------------
  // Specification
  // ---------------------------------------------------------------------------

  /** Radical inverse of `n` in base `b`: the lowest digit, then the rest one place further right. */
  function RadicalInverse(n: nat, b: int): real
    requires b >= 2
  {
    if n == 0 then 0.0
    else ((n % b) as real + RadicalInverse(n / b, b)) / (b as real)
  }

  /** The Halton value at a C# index: indices that are not positive give 0. */
  function HaltonValue(index: int, b: int): real
    requires b >= 2
  {
    if index <= 0 then 0.0 else RadicalInverse(index, b)
  }

  /** The base-`b` digits of `n`, least significant first, without leading zeros. */
  function Digits(n: nat, b: int): seq<int>
    requires b >= 2
  {
    if n == 0 then [] else [n % b] + Digits(n / b, b)
  }

  /** The number whose base-`b` digits, least significant first, are `ds`. */
  function FromDigits(ds: seq<int>, b: int): int {
    if ds == [] then 0 else ds[0] + b * FromDigits(ds[1..], b)
  }

  /** `x` to the power `k`, for the bases `x >= 1` used here. */
  function Power(x: real, k: nat): (r: real)
    requires x >= 1.0
    ensures r >= 1.0
  {
    if k == 0 then 1.0 else x * Power(x, k - 1)
  }

  /** The sum over positions `k` of `ds[k] * b^-(k+1)`. */
  function DigitSum(ds: seq<int>, b: int): real
    requires b >= 2
  {
    if ds == [] then 0.0
    else DigitSum(ds[..|ds| - 1], b) + (ds[|ds| - 1] as real) / Power(b as real, |ds|)
  }

  // ---------------------------------------------------------------------------
  // Properties
  // ---------------------------------------------------------------------------

  /** Dropping the lowest digit makes a positive number smaller. */
  lemma QuotientSmaller(n: nat, b: int)
    requires n > 0 && b >= 2
    ensures 0 <= n / b < n
    ensures n == n % b + b * (n / b) && 0 <= n % b < b
  {
    assert n == (n / b) * b + n % b;
  }

  /** `Digits` are the digits of `n`: each lies in `[0, b)`, the last is not 0, and they spell `n`. */
  lemma {:induction false} DigitsSpellIndex(n: nat, b: int)
    requires b >= 2
    ensures forall k :: 0 <= k < |Digits(n, b)| ==> 0 <= Digits(n, b)[k] < b
    ensures |Digits(n, b)| > 0 ==> Digits(n, b)[|Digits(n, b)| - 1] != 0
    ensures FromDigits(Digits(n, b), b) == n
  {
    if n > 0 {
      QuotientSmaller(n, b);
      DigitsSpellIndex(n / b, b);
      var ds := Digits(n, b);
      var rest := Digits(n / b, b);
      assert ds == [n % b] + rest;
      assert ds[1..] == rest;
      assert FromDigits(ds, b) == n % b + b * FromDigits(rest, b);
      assert |rest| > 0 ==> ds[|ds| - 1] == rest[|rest| - 1];
      assert |rest| == 0 ==> n / b == 0;
    }
  }

  /** Putting one more digit in front shifts the others one place right. */
  lemma {:induction false} DigitSumCons(d: int, ds: seq<int>, b: int)
    requires b >= 2
    ensures DigitSum([d] + ds, b) == ((d as real) + DigitSum(ds, b)) / (b as real)
  {
    var br := b as real;
    if ds == [] {
      assert [d] + ds == [d];
      assert ([d] + ds)[..0] == [];
    } else {
      var m := |ds|;
      var init := ds[..m - 1];
      var last := ds[m - 1] as real;
      var whole := [d] + ds;
      assert whole[..m] == [d] + init;
      assert whole[m] == ds[m - 1];
      assert ds[..m - 1] == init;
      var p := Power(br, m);
      assert Power(br, m + 1) == br * p;
      assert DigitSum(whole, b) == DigitSum([d] + init, b) + last / (br * p);
      assert DigitSum(ds, b) == DigitSum(init, b) + last / p;
      DigitSumCons(d, init, b);
      assert DigitSum([d] + init, b) == ((d as real) + DigitSum(init, b)) / br;
      ShiftOnePlace(last, br, p);
      AddQuotients((d as real) + DigitSum(init, b), last / p, br);
    }
  }

  /** A digit `k + 1` places right is the same digit `k` places right, shifted once more. */
  lemma ShiftOnePlace(x: real, b: real, p: real)
    requires b > 0.0 && p > 0.0
    ensures x / (b * p) == (x / p) / b
  {
  }

  lemma AddQuotients(x: real, y: real, b: real)
    requires b > 0.0
    ensures x / b + y / b == (x + y) / b
  {
  }

  /** The recursive radical inverse is the digit sum `sum d_k * b^-(k+1)` over the digits of `n`. */
  lemma {:induction false} RadicalInverseIsDigitSum(n: nat, b: int)
    requires b >= 2
    ensures RadicalInverse(n, b) == DigitSum(Digits(n, b), b)
  {
    if n > 0 {
      var q, r := n / b, n % b;
      QuotientSmaller(n, b);
      assert Digits(n, b) == [r] + Digits(q, b);
      assert RadicalInverse(n, b) == ((r as real) + RadicalInverse(q, b)) / (b as real);
      RadicalInverseIsDigitSum(q, b);
      DigitSumCons(r, Digits(q, b), b);
    }
  }

  /** One step of the digit recursion, for the C#-indexed value. */
  lemma HaltonValueStep(n: int, b: int)
    requires n > 0 && b >= 2
    ensures 0 <= n / b < n
    ensures HaltonValue(n, b) == ((n % b) as real + HaltonValue(n / b, b)) / (b as real)
  {
    QuotientSmaller(n, b);
    var q := n / b;
    assert RadicalInverse(n, b) == ((n % b) as real + RadicalInverse(q, b)) / (b as real);
    if q == 0 {
      assert RadicalInverse(q, b) == 0.0;
    }
  }

  /** An index below the base has a single digit, and its value is `index / base`. */
  lemma HaltonValueOfOneDigit(n: int, b: int)
    requires b >= 2 && 0 < n < b
    ensures HaltonValue(n, b) == (n as real) / (b as real)
  {
    assert n / b == 0 && n % b == n;
    assert RadicalInverse(n, b) == ((n % b) as real + RadicalInverse(n / b, b)) / (b as real);
  }

  /** Every Halton value lies in `[0, 1)`. */
  lemma HaltonValueInUnitInterval(n: int, b: int)
    requires b >= 2
    ensures 0.0 <= HaltonValue(n, b) < 1.0
  {
    if n > 0 {
      RadicalInverseInUnitInterval(n, b);
    }
  }

  lemma BelowOne(x: real, y: real)
    requires 0.0 <= x < y
    ensures 0.0 <= x / y < 1.0
  {
  }

  /** One turn of the digit loop keeps `result + fraction * b * (radical inverse of the rest)` fixed. */
  lemma LoopStep(result: real, fraction: real, b: real, digit: real, rest: real)
    requires b > 0.0
    ensures result + digit * fraction + (fraction / b) * b * rest == result + fraction * b * ((digit + rest) / b)
  {
    assert (fraction / b) * b == fraction;
    assert b * ((digit + rest) / b) == digit + rest;
  }

  /** Every radical inverse lies in `[0, 1)`. */
  lemma {:induction false} RadicalInverseInUnitInterval(n: nat, b: int)
    requires b >= 2
    ensures 0.0 <= RadicalInverse(n, b) < 1.0
  {
    if n > 0 {
      var q, r := n / b, n % b;
      assert 0 <= r <= b - 1;
      QuotientSmaller(n, b);
      RadicalInverseInUnitInterval(q, b);
      var rest := RadicalInverse(q, b);
      assert RadicalInverse(n, b) == ((r as real) + rest) / (b as real);
      BelowOne((r as real) + rest, b as real);
    }
  }

  // ---------------------------------------------------------------------------
  // The operations
  // ---------------------------------------------------------------------------

  /** The Halton value at `index`, computed digit by digit as the source's loop does. */
  method GetHaltonValue(index: int32, sequenceBase: int32) returns (result: real)
    requires sequenceBase >= 2
    ensures result == HaltonValue(index as int, sequenceBase as int)
    ensures index <= 0 ==> result == 0.0
    ensures 0.0 <= result < 1.0
    ensures 0 < index < sequenceBase ==> result == (index as real) / (sequenceBase as real)
  {
    var b := sequenceBase as real;
    result := 0.0;
    var fraction := 1.0 / b;
    var i := index;
    ghost var whole := HaltonValue(index as int, sequenceBase as int);
    while i > 0
      invariant if index > 0 then 0 <= i else i == index
      invariant result + fraction * b * HaltonValue(i as int, sequenceBase as int) == whole
    {
      var digit := (i % sequenceBase) as real;
      ghost var rest := HaltonValue((i / sequenceBase) as int, sequenceBase as int);
      HaltonValueStep(i as int, sequenceBase as int);
      LoopStep(result, fraction, b, digit, rest);
      result := result + digit * fraction;
      i := i / sequenceBase;
      fraction := fraction / b;
    }
    HaltonValueInUnitInterval(index as int, sequenceBase as int);
    if 0 < index < sequenceBase {
      HaltonValueOfOneDigit(index as int, sequenceBase as int);
    }
  }

  /** A cursor over the Halton sequence. */
  class LowDiscrepancySequence {
    var sequenceIndex: int32
    var sequenceBase: int32

    constructor ()
      ensures sequenceIndex == 0 && sequenceBase == DEFAULT_BASE
    {
      sequenceIndex := 0;
      sequenceBase := DEFAULT_BASE;
    }

    /** The value at the cursor; the cursor then moves one index on (wrapping like a C# `int`). */
    method GetNextValue() returns (result: real)
      requires sequenceBase >= 2
      modifies this
      ensures sequenceBase == old(sequenceBase)
      ensures sequenceIndex == Increment(old(sequenceIndex))
      ensures result == HaltonValue(old(sequenceIndex) as int, sequenceBase as int)
    {
      result := GetHaltonValue(sequenceIndex, sequenceBase);
      sequenceIndex := Increment(sequenceIndex);
    }
  }

  /** A fresh sequence yields the base-3 radical inverses of 0, 1, 2, 3, ... in turn. */
  method FirstDefaultValues() returns (v0: real, v1: real, v2: real, v3: real)
    ensures v0 == 0.0 && v1 == 1.0 / 3.0 && v2 == 2.0 / 3.0 && v3 == 1.0 / 9.0
  {
    var sequence := new LowDiscrepancySequence();
    v0 := sequence.GetNextValue();
    v1 := sequence.GetNextValue();
    v2 := sequence.GetNextValue();
    v3 := sequence.GetNextValue();
    assert RadicalInverse(1, 3) == 1.0 / 3.0;
    assert RadicalInverse(3, 3) == (0.0 + RadicalInverse(1, 3)) / 3.0;
  }
}
