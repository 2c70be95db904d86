/**
 * The abstract numeric vector of src/Vectors/FeatureVector.java: a vector of
 * fixed length whose coordinates are read with get and written with set, and
 * the default arithmetic the abstract class builds on top of those two.
 * Here get/set are reads and writes of `values`, the vector's coordinate
 * view; `double` is modelled as `real`.
 */
module FeatureVectors {
  import opened Outcomes
  import Sums

  /** The range of Java's 32-bit `int`. */
  const IntMin: int := -0x8000_0000
  const IntMax: int := 0x7fff_ffff

  predicate InIntRange(x: real)
  {
    IntMin as real <= x <= IntMax as real
  }

  /**
   * Java's `(int)` cast of a double: truncation toward zero, clamped to
   * Integer.MIN_VALUE and Integer.MAX_VALUE.
   */
  function TruncateToInt(x: real): (r: int)
    ensures IntMin <= r <= IntMax
    ensures x >= IntMax as real ==> r == IntMax
    ensures x <= IntMin as real ==> r == IntMin
    ensures InIntRange(x) && 0.0 <= x ==> r as real <= x < r as real + 1.0
    ensures InIntRange(x) && x < 0.0 ==> r as real - 1.0 < x <= r as real
  {
    if x >= IntMax as real then IntMax
    else if x <= IntMin as real then IntMin
    else if x >= 0.0 then x.Floor
    else -((-x).Floor)
  }

  /** What `int sum = 0; for (double val : this) sum += val;` computes. */
  function TruncatedSum(s: seq<real>): (r: int)
    ensures IntMin <= r <= IntMax
  {
    if |s| == 0 then 0 else TruncateToInt(TruncatedSum(s[..|s| - 1]) as real + s[|s| - 1])
  }

  predicate Integral(x: real)
  {
    x == x.Floor as real
  }

  /** Indices of the non-zero coordinates, in ascending order. */
  function NonZeroIndicesOf(s: seq<real>): (r: seq<int>)
    ensures forall j :: 0 <= j < |r| ==> 0 <= r[j] < |s|
  {
    if |s| == 0 then []
    else if s[|s| - 1] != 0.0 then NonZeroIndicesOf(s[..|s| - 1]) + [|s| - 1]
    else NonZeroIndicesOf(s[..|s| - 1])
  }

  /** The non-zero coordinates, in index order. */
  function NonZeroValuesOf(s: seq<real>): (r: seq<real>)
  {
    if |s| == 0 then []
    else if s[|s| - 1] != 0.0 then NonZeroValuesOf(s[..|s| - 1]) + [s[|s| - 1]]
    else NonZeroValuesOf(s[..|s| - 1])
  }

  predicate StrictlyIncreasing(s: seq<int>)
  {
    forall i, j :: 0 <= i < j < |s| ==> s[i] < s[j]
  }

  /** Element-wise combinations; `b` may be longer than `a` (only |a| entries are read). */
  function Plus(a: seq<real>, b: seq<real>): (r: seq<real>)
    requires |a| <= |b|
  {
    seq(|a|, i requires 0 <= i < |a| => a[i] + b[i])
  }

  function Minus(a: seq<real>, b: seq<real>): (r: seq<real>)
    requires |a| <= |b|
  {
    seq(|a|, i requires 0 <= i < |a| => a[i] - b[i])
  }

  function Times(a: seq<real>, b: seq<real>): (r: seq<real>)
    requires |a| <= |b|
  {
    seq(|a|, i requires 0 <= i < |a| => a[i] * b[i])
  }

  function Quotient(a: seq<real>, b: seq<real>): (r: seq<real>)
    requires |a| <= |b|
    requires forall i :: 0 <= i < |a| ==> b[i] != 0.0
  {
    seq(|a|, i requires 0 <= i < |a| => a[i] / b[i])
  }

  function Power(a: seq<real>, b: seq<real>, pow: (real, real) -> real): (r: seq<real>)
    requires |a| <= |b|
  {
    seq(|a|, i requires 0 <= i < |a| => pow(a[i], b[i]))
  }

  /** A sequence of `n` copies of a scalar, the operand of the scalar forms. */
  function Fill(n: nat, scalar: real): (r: seq<real>)
    ensures |r| == n && forall i :: 0 <= i < n ==> r[i] == scalar
  {
    seq(n, i => scalar)
  }

  lemma {:induction false} TruncatedSumIsIntegral(s: seq<real>)
    ensures Integral(TruncatedSum(s) as real)
  {
  }

  lemma TruncateIntegral(x: real)
    requires Integral(x) && InIntRange(x)
    ensures TruncateToInt(x) as real == x
  {
    if x < 0.0 {
      assert (-x).Floor == -(x.Floor);
    }
  }

  /**
   * On integral coordinates whose running sums stay within `int` range the
   * truncating accumulator loses nothing.
   */
  lemma {:induction false} TruncatedSumOfIntegers(s: seq<real>)
    requires forall i :: 0 <= i < |s| ==> Integral(s[i])
    requires forall k :: 0 < k <= |s| ==> InIntRange(Sums.SeqSum(s[..k]))
    ensures TruncatedSum(s) as real == Sums.SeqSum(s)
  {
    if |s| > 0 {
      var init := s[..|s| - 1];
      forall k | 0 < k <= |init|
        ensures InIntRange(Sums.SeqSum(init[..k]))
      {
        assert init[..k] == s[..k];
      }
      TruncatedSumOfIntegers(init);
      var n := TruncatedSum(init) + s[|s| - 1].Floor;
      assert TruncatedSum(init) as real + s[|s| - 1] == n as real;
      assert s[..|s|] == s;
      TruncateIntegral(n as real);
    }
  }

  /** Past Integer.MAX_VALUE the accumulator saturates instead of growing. */
  lemma TruncatedSumSaturates()
    ensures TruncatedSum([IntMax as real, 1.0]) == IntMax
    ensures Sums.SeqSum([IntMax as real, 1.0]) == IntMax as real + 1.0
  {
    var s := [IntMax as real, 1.0];
    assert s[..1] == [IntMax as real];
    assert s[..1][..0] == [];
    assert TruncatedSum(s[..1]) == IntMax;
    assert Sums.SeqSum(s[..1]) == IntMax as real;
  }

  /** ... and on fractional ones it does: 0.5 + 0.5 accumulates to 0, not 1. */
  lemma TruncatedSumLosesFractions()
    ensures TruncatedSum([0.5, 0.5]) == 0 && Sums.SeqSum([0.5, 0.5]) == 1.0
  {
    assert [0.5, 0.5][..1] == [0.5];
    assert [0.5][..0] == [];
  }

  lemma {:induction false} NonZeroIndicesExact(s: seq<real>)
    ensures forall i :: i in NonZeroIndicesOf(s) <==> 0 <= i < |s| && s[i] != 0.0
    ensures StrictlyIncreasing(NonZeroIndicesOf(s))
  {
    if |s| > 0 {
      NonZeroIndicesExact(s[..|s| - 1]);
    }
  }

  lemma {:induction false} NonZeroValuesMatchIndices(s: seq<real>)
    ensures |NonZeroValuesOf(s)| == |NonZeroIndicesOf(s)|
    ensures forall j :: 0 <= j < |NonZeroValuesOf(s)| ==> NonZeroValuesOf(s)[j] == s[NonZeroIndicesOf(s)[j]]
  {
    if |s| > 0 {
      NonZeroValuesMatchIndices(s[..|s| - 1]);
    }
  }

  /** Subtracting what was added restores the vector. */
  lemma PlusThenMinus(a: seq<real>, b: seq<real>)
    requires |a| <= |b|
    ensures Minus(Plus(a, b), b) == a
  {
  }

  lemma CancelScalar(product: real, x: real, scalar: real)
    requires scalar != 0.0 && product == x * scalar
    ensures product / scalar == x
  {
    var y := product / scalar;
    assert y * scalar == x * scalar;
    assert (y - x) * scalar == 0.0;
  }

  /** Dividing by a non-zero scalar undoes multiplying by it. */
  lemma TimesThenQuotient(a: seq<real>, scalar: real)
    requires scalar != 0.0
    ensures Quotient(Times(a, Fill(|a|, scalar)), Fill(|a|, scalar)) == a
  {
    var q := Quotient(Times(a, Fill(|a|, scalar)), Fill(|a|, scalar));
    forall i | 0 <= i < |a|
      ensures q[i] == a[i]
    {
      var t := Times(a, Fill(|a|, scalar));
      assert t[i] == a[i] * scalar;
      assert q[i] == t[i] / scalar;
      CancelScalar(t[i], a[i], scalar);
    }
  }

  class FeatureVector {
    /** The coordinates as `get(i)` reads them; the length never changes. */
    const values: array<real>

    constructor (values: array<real>)
      ensures this.values == values
    {
      this.values := values;
    }

    function Size(): (r: nat)
    {
      values.Length
    }

    function Get(i: int): (r: real)
      reads values
      requires 0 <= i < Size()
    {
      values[i]
    }

    method Set(i: int, v: real)
      requires 0 <= i < Size()
      modifies values
      ensures values[..] == old(values[..])[i := v]
    {
      values[i] := v;
    }

    /** Throws unless both vectors have the same length. */
    function CheckVectorSize(other: FeatureVector): (r: Outcome)
      ensures r == Pass <==> other.Size() == Size()
      ensures r != Pass ==> r == Fail(VectorLengthMismatch)
    {
      if other.Size() != Size() then Fail(VectorLengthMismatch) else Pass
    }

    method Dot(other: FeatureVector) returns (r: Result<real>)
      ensures other.Size() != Size() ==> r == Err(VectorLengthMismatch)
      ensures other.Size() == Size() ==> r == Ok(Sums.Dot(values[..], other.values[..]))
    {
      var check := CheckVectorSize(other);
      if check.Fail? {
        return Err(check.error);
      }
      var dotProduct := 0.0;
      var i := 0;
      while i < Size()
        invariant 0 <= i <= Size()
        invariant dotProduct == Sums.Dot(values[..i], other.values[..i])
      {
        assert values[..i + 1][..i] == values[..i];
        assert other.values[..i + 1][..i] == other.values[..i];
        dotProduct := dotProduct + Get(i) * other.Get(i);
        i := i + 1;
      }
      assert values[..i] == values[..] && other.values[..i] == other.values[..];
      return Ok(dotProduct);
    }

    method AdditionInPlace(other: FeatureVector) returns (r: Outcome)
      modifies values
      ensures r == CheckVectorSize(other)
      ensures r.Pass? ==> values[..] == Plus(old(values[..]), old(other.values[..]))
      ensures r.Fail? ==> values[..] == old(values[..])
    {
      r := CheckVectorSize(other);
      if r.Fail? {
        return;
      }
      var i := 0;
      while i < Size()
        invariant 0 <= i <= Size()
        invariant forall k :: 0 <= k < i ==> values[k] == old(values[k]) + old(other.values[k])
        invariant forall k :: i <= k < Size() ==> values[k] == old(values[k])
        invariant forall k :: i <= k < Size() ==> other.values[k] == old(other.values[k])
      {
        Set(i, Get(i) + other.Get(i));
        i := i + 1;
      }
    }

    method AdditionInPlaceScalar(scalar: real)
      modifies values
      ensures values[..] == Plus(old(values[..]), Fill(Size(), scalar))
    {
      var i := 0;
      while i < Size()
        invariant 0 <= i <= Size()
        invariant forall k :: 0 <= k < i ==> values[k] == old(values[k]) + scalar
        invariant forall k :: i <= k < Size() ==> values[k] == old(values[k])
      {
        Set(i, Get(i) + scalar);
        i := i + 1;
      }
    }

    method AdditionInPlaceInt(scalar: int)
      modifies values
      ensures values[..] == Plus(old(values[..]), Fill(Size(), scalar as real))
    {
      AdditionInPlaceScalar(scalar as real);
    }

    method SubtractInPlace(other: FeatureVector) returns (r: Outcome)
      modifies values
      ensures r == CheckVectorSize(other)
      ensures r.Pass? ==> values[..] == Minus(old(values[..]), old(other.values[..]))
      ensures r.Fail? ==> values[..] == old(values[..])
    {
      r := CheckVectorSize(other);
      if r.Fail? {
        return;
      }
      var i := 0;
      while i < Size()
        invariant 0 <= i <= Size()
        invariant forall k :: 0 <= k < i ==> values[k] == old(values[k]) - old(other.values[k])
        invariant forall k :: i <= k < Size() ==> values[k] == old(values[k])
        invariant forall k :: i <= k < Size() ==> other.values[k] == old(other.values[k])
      {
        Set(i, Get(i) - other.Get(i));
        i := i + 1;
      }
    }

    /**
     * The int overload calls the non-mutating `subtract` and drops its
     * result, so the receiver keeps every coordinate.
     */
    method SubtractInPlaceInt(scalar: int)
      ensures values[..] == old(values[..])
    {
    }

    /** The double overload adds the negated scalar. */
    method SubtractInPlaceScalar(scalar: real)
      modifies values
      ensures values[..] == Minus(old(values[..]), Fill(Size(), scalar))
    {
      AdditionInPlaceScalar(-scalar);
    }

    method MultiplyInPlace(other: FeatureVector) returns (r: Outcome)
      modifies values
      ensures r == CheckVectorSize(other)
      ensures r.Pass? ==> values[..] == Times(old(values[..]), old(other.values[..]))
      ensures r.Fail? ==> values[..] == old(values[..])
    {
      r := CheckVectorSize(other);
      if r.Fail? {
        return;
      }
      var i := 0;
      while i < Size()
        invariant 0 <= i <= Size()
        invariant forall k :: 0 <= k < i ==> values[k] == old(values[k]) * old(other.values[k])
        invariant forall k :: i <= k < Size() ==> values[k] == old(values[k])
        invariant forall k :: i <= k < Size() ==> other.values[k] == old(other.values[k])
      {
        Set(i, Get(i) * other.Get(i));
        i := i + 1;
      }
      ghost var expected := Times(old(values[..]), old(other.values[..]));
      assert forall k :: 0 <= k < Size() ==> values[k] == expected[k];
    }

    method MultiplyInPlaceScalar(scalar: real)
      modifies values
      ensures values[..] == Times(old(values[..]), Fill(Size(), scalar))
    {
      var i := 0;
      while i < Size()
        invariant 0 <= i <= Size()
        invariant forall k :: 0 <= k < i ==> values[k] == old(values[k]) * scalar
        invariant forall k :: i <= k < Size() ==> values[k] == old(values[k])
      {
        Set(i, Get(i) * scalar);
        i := i + 1;
      }
      ghost var expected := Times(old(values[..]), Fill(Size(), scalar));
      assert forall k :: 0 <= k < Size() ==> values[k] == expected[k];
    }

    method DivideInPlace(other: FeatureVector) returns (r: Outcome)
      requires forall k :: 0 <= k < other.Size() ==> other.values[k] != 0.0
      modifies values
      ensures r == CheckVectorSize(other)
      ensures r.Pass? ==> values[..] == Quotient(old(values[..]), old(other.values[..]))
      ensures r.Fail? ==> values[..] == old(values[..])
    {
      r := CheckVectorSize(other);
      if r.Fail? {
        return;
      }
      var i := 0;
      while i < Size()
        invariant 0 <= i <= Size()
        invariant forall k :: 0 <= k < i ==> values[k] == old(values[k]) / old(other.values[k])
        invariant forall k :: i <= k < Size() ==> values[k] == old(values[k])
        invariant forall k :: i <= k < Size() ==> other.values[k] == old(other.values[k])
      {
        Set(i, Get(i) / other.Get(i));
        i := i + 1;
      }
    }

    method DivideInPlaceScalar(scalar: real)
      requires scalar != 0.0
      modifies values
      ensures values[..] == Quotient(old(values[..]), Fill(Size(), scalar))
    {
      var i := 0;
      while i < Size()
        invariant 0 <= i <= Size()
        invariant forall k :: 0 <= k < i ==> values[k] == old(values[k]) / scalar
        invariant forall k :: i <= k < Size() ==> values[k] == old(values[k])
      {
        Set(i, Get(i) / scalar);
        i := i + 1;
      }
    }

    method DivideInPlaceInt(scalar: int)
      requires scalar != 0
      modifies values
      ensures values[..] == Quotient(old(values[..]), Fill(Size(), scalar as real))
    {
      DivideInPlaceScalar(scalar as real);
    }

    /** No length check: `other` must be at least as long, as its get is read at every index. */
    method PowInPlace(other: FeatureVector, pow: (real, real) -> real)
      requires Size() <= other.Size()
      modifies values
      ensures values[..] == Power(old(values[..]), old(other.values[..]), pow)
    {
      var i := 0;
      while i < Size()
        invariant 0 <= i <= Size()
        invariant forall k :: 0 <= k < i ==> values[k] == pow(old(values[k]), old(other.values[k]))
        invariant forall k :: i <= k < Size() ==> values[k] == old(values[k])
        invariant forall k :: i <= k < Size() ==> other.values[k] == old(other.values[k])
      {
        Set(i, pow(Get(i), other.Get(i)));
        i := i + 1;
      }
    }

    method PowInPlaceScalar(scalar: real, pow: (real, real) -> real)
      modifies values
      ensures values[..] == Power(old(values[..]), Fill(Size(), scalar), pow)
    {
      var i := 0;
      while i < Size()
        invariant 0 <= i <= Size()
        invariant forall k :: 0 <= k < i ==> values[k] == pow(old(values[k]), scalar)
        invariant forall k :: i <= k < Size() ==> values[k] == old(values[k])
      {
        Set(i, pow(Get(i), scalar));
        i := i + 1;
      }
    }

    method PowInPlaceInt(scalar: int, pow: (real, real) -> real)
      modifies values
      ensures values[..] == Power(old(values[..]), Fill(Size(), scalar as real), pow)
    {
      PowInPlaceScalar(scalar as real, pow);
    }

    /** Accumulates into an `int`, truncating after every step. */
    method Sum() returns (r: real)
      ensures r == TruncatedSum(values[..]) as real
      ensures Integral(r) && InIntRange(r)
    {
      var sum: int := 0;
      var i := 0;
      while i < Size()
        invariant 0 <= i <= Size()
        invariant sum == TruncatedSum(values[..i])
      {
        assert values[..i + 1][..i] == values[..i];
        sum := TruncateToInt(sum as real + Get(i));
        i := i + 1;
      }
      assert values[..i] == values[..];
      r := sum as real;
    }

    /** Starts from 0.0, so every product stays 0. */
    method Product() returns (r: real)
      ensures r == 0.0
    {
      var product := 0.0;
      var i := 0;
      while i < Size()
        invariant 0 <= i <= Size()
        invariant product == 0.0
      {
        product := product * Get(i);
        i := i + 1;
      }
      r := product;
    }

    method Zero()
      modifies values
      ensures values[..] == Fill(Size(), 0.0)
    {
      var i := 0;
      while i < Size()
        invariant 0 <= i <= Size()
        invariant forall k :: 0 <= k < i ==> values[k] == 0.0
      {
        Set(i, 0.0);
        i := i + 1;
      }
    }

    method Clear()
      modifies values
      ensures values[..] == Fill(Size(), 0.0)
    {
      Zero();
    }

    method NonZeroValues() returns (r: seq<real>)
      ensures r == NonZeroValuesOf(values[..])
      ensures forall j :: 0 <= j < |r| ==> r[j] != 0.0
    {
      r := [];
      var i := 0;
      while i < Size()
        invariant 0 <= i <= Size()
        invariant r == NonZeroValuesOf(values[..i])
      {
        assert values[..i + 1][..i] == values[..i];
        if Get(i) != 0.0 {
          r := r + [Get(i)];
        }
        i := i + 1;
      }
      assert values[..i] == values[..];
      NonZeroValuesMatchIndices(values[..]);
      NonZeroIndicesExact(values[..]);
    }

    /** The ascending indices of the non-zero coordinates (the final sort changes nothing). */
    method NonZeroIndices() returns (r: seq<int>)
      ensures forall i :: i in r <==> 0 <= i < Size() && values[i] != 0.0
      ensures StrictlyIncreasing(r)
    {
      r := [];
      var i := 0;
      while i < Size()
        invariant 0 <= i <= Size()
        invariant r == NonZeroIndicesOf(values[..i])
      {
        assert values[..i + 1][..i] == values[..i];
        if Get(i) != 0.0 {
          r := r + [i];
        }
        i := i + 1;
      }
      assert values[..i] == values[..];
      NonZeroIndicesExact(values[..]);
    }
  }
}
