/**
 * A matrix as an array of equal-length feature vectors (the rows), with
 * broadcast operations that apply an in-place vector operation to every row.
 */
module FeatureMatrices {
  import opened Outcomes
  import opened FeatureVectors

  /** Every row has the length of the first one. */
  predicate Uniform(rows: seq<FeatureVector>)
  {
    forall i :: 0 <= i < |rows| ==> rows[i].Size() == rows[0].Size()
  }

  /**
   * The outcome of `ensureLength`: reading the first row of an empty array
   * fails, and a row whose length differs from the first row's is rejected.
   */
  function EnsureLengthOutcome(rows: seq<FeatureVector>): (r: Outcome)
    ensures r == Pass <==> |rows| > 0 && Uniform(rows)
    ensures |rows| == 0 ==> r == Fail(ArrayIndexOutOfBounds)
    ensures |rows| > 0 && !Uniform(rows) ==> r == Fail(ShapeMismatch)
  {
    if |rows| == 0 then Fail(ArrayIndexOutOfBounds)
    else if Uniform(rows) then Pass
    else Fail(ShapeMismatch)
  }

  /** The checking loop of `ensureLength`, proved against its outcome. */
  method EnsureLength(rows: array<FeatureVector>) returns (r: Outcome)
    ensures r == EnsureLengthOutcome(rows[..])
  {
    if rows.Length == 0 {
      return Fail(ArrayIndexOutOfBounds);
    }
    var firstLength := rows[0].Size();
    var i := 0;
    while i < rows.Length
      invariant 0 <= i <= rows.Length
      invariant forall k :: 0 <= k < i ==> rows[k].Size() == firstLength
    {
      if rows[i].Size() != firstLength {
        return Fail(ShapeMismatch);
      }
      i := i + 1;
    }
    return Pass;
  }

  class FeatureMatrix {
    const matrix: array<FeatureVector>
    /** shape[0]: the length of every row. */
    const nFeatures: nat
    /** shape[1]: the number of rows. */
    const nRows: nat

    /** Non-empty, one entry per row, every row of length `nFeatures`. */
    ghost predicate Valid()
      reads this, matrix
    {
      matrix.Length == nRows && 0 < nRows &&
      forall i :: 0 <= i < nRows ==> matrix[i].Size() == nFeatures
    }

    /** No two rows share their storage, so updating one row leaves the others alone. */
    ghost predicate DistinctRows()
      reads this, matrix
    {
      forall i, j :: 0 <= i < j < matrix.Length ==> matrix[i].values != matrix[j].values
    }

    /** `other` is not stored in any row. */
    ghost predicate Apart(other: FeatureVector)
      reads this, matrix
    {
      forall i :: 0 <= i < matrix.Length ==> matrix[i].values != other.values
    }

    /** The storage of every row: what a broadcast operation may change. */
    ghost function Storage(): (r: set<array<real>>)
      reads this, matrix
    {
      set i | 0 <= i < matrix.Length :: matrix[i].values
    }

    /** The contents of row `i`. */
    ghost function Row(i: int): (r: seq<real>)
      reads this, matrix, Storage()
      requires 0 <= i < matrix.Length
    {
      matrix[i].values[..]
    }

    constructor (rows: array<FeatureVector>)
      requires EnsureLengthOutcome(rows[..]) == Pass
      ensures matrix == rows && nRows == rows.Length && nFeatures == rows[0].Size()
      ensures Valid()
    {
      matrix := rows;
      nFeatures := rows[0].Size();
      nRows := rows.Length;
    }

    /** The constructor over a collection: copies the rows into a new array. */
    static method FromCollection(vectors: seq<FeatureVector>) returns (r: Result<FeatureMatrix>)
      ensures r.Err? <==> EnsureLengthOutcome(vectors).Fail?
      ensures r.Err? ==> r.error == EnsureLengthOutcome(vectors).error
      ensures r.Ok? ==> fresh(r.value.matrix) && r.value.matrix[..] == vectors && r.value.Valid()
      ensures r.Ok? ==> r.value.nRows == |vectors| && r.value.nFeatures == vectors[0].Size()
    {
      var rows := new FeatureVector[|vectors|](i requires 0 <= i < |vectors| => vectors[i]);
      assert rows[..] == vectors;
      var check := EnsureLength(rows);
      if check.Fail? {
        return Err(check.error);
      }
      var m := new FeatureMatrix(rows);
      return Ok(m);
    }

    /** The constructor over an array: keeps the caller's array, so the rows stay shared. */
    static method FromArray(vectors: array<FeatureVector>) returns (r: Result<FeatureMatrix>)
      ensures r.Err? <==> EnsureLengthOutcome(vectors[..]).Fail?
      ensures r.Err? ==> r.error == EnsureLengthOutcome(vectors[..]).error
      ensures r.Ok? ==> r.value.matrix == vectors && r.value.Valid()
      ensures r.Ok? ==> r.value.nRows == vectors.Length && r.value.nFeatures == vectors[0].Size()
    {
      var check := EnsureLength(vectors);
      if check.Fail? {
        return Err(check.error);
      }
      var m := new FeatureMatrix(vectors);
      return Ok(m);
    }

    /**
     * The random initializer with the random rows supplied by the caller:
     * only the check on `length` and the construction are modelled.
     */
    static method RandomInitialize(nFeatures: int, length: int, draws: seq<FeatureVector>)
      returns (r: Result<FeatureMatrix>)
      requires length >= 0 ==> |draws| == length
      requires forall i :: 0 <= i < |draws| ==> draws[i].Size() == nFeatures
      ensures length < 0 ==> r == Err(NegativeLength)
      ensures length == 0 ==> r == Err(ArrayIndexOutOfBounds)
      ensures length > 0 ==> r.Ok? && r.value.nRows == length && r.value.nFeatures == nFeatures
      ensures r.Ok? ==> r.value.Valid() && r.value.matrix[..] == draws
    {
      if length < 0 {
        return Err(NegativeLength);
      }
      var rows := new FeatureVector[length](i requires 0 <= i < length => draws[i]);
      assert rows[..] == draws;
      r := FromArray(rows);
    }

    /** The number of rows. */
    function Size(): (r: nat)
      reads this, matrix
      requires Valid()
      ensures r == matrix.Length
    {
      nRows
    }

    /** [length of every row, number of rows]. */
    function GetShape(): (r: (nat, nat))
      reads this, matrix
      requires Valid()
      ensures forall i :: 0 <= i < matrix.Length ==> matrix[i].Size() == r.0
      ensures r.1 == matrix.Length
    {
      (nFeatures, nRows)
    }

    /**
     * Row `i`. The explicit check lets `i == size()` through, which then
     * fails on the array access.
     */
    function Get(i: int): (r: Result<FeatureVector>)
      reads this, matrix
      requires Valid()
      ensures r.Ok? <==> 0 <= i < matrix.Length
      ensures r.Ok? ==> r.value == matrix[i]
      ensures (i < 0 || i > matrix.Length) ==> r == Err(IndexOutOfBounds)
      ensures i == matrix.Length ==> r == Err(ArrayIndexOutOfBounds)
    {
      if i < 0 || i > nRows then Err(IndexOutOfBounds)
      else if i == nRows then Err(ArrayIndexOutOfBounds)
      else Ok(matrix[i])
    }

    method AdditionScalar(scalar: real)
      requires Valid() && DistinctRows()
      modifies Storage()
      ensures forall i :: 0 <= i < nRows ==>
                Row(i) == Plus(old(Row(i)), Fill(nFeatures, scalar))
    {
      var j := 0;
      while j < nRows
        invariant 0 <= j <= nRows
        invariant forall i :: 0 <= i < j ==>
                    Row(i) == Plus(old(Row(i)), Fill(nFeatures, scalar))
        invariant forall i :: j <= i < nRows ==> Row(i) == old(Row(i))
      {
        matrix[j].AdditionInPlaceScalar(scalar);
        j := j + 1;
      }
    }

    method SubtractScalar(scalar: real)
      requires Valid() && DistinctRows()
      modifies Storage()
      ensures forall i :: 0 <= i < nRows ==>
                Row(i) == Minus(old(Row(i)), Fill(nFeatures, scalar))
    {
      var j := 0;
      while j < nRows
        invariant 0 <= j <= nRows
        invariant forall i :: 0 <= i < j ==>
                    Row(i) == Minus(old(Row(i)), Fill(nFeatures, scalar))
        invariant forall i :: j <= i < nRows ==> Row(i) == old(Row(i))
      {
        matrix[j].SubtractInPlaceScalar(scalar);
        j := j + 1;
      }
    }

    method AdditionVector(other: FeatureVector) returns (r: Outcome)
      requires Valid() && DistinctRows() && Apart(other)
      modifies Storage()
      ensures r == other.CheckVectorSize(matrix[0])
      ensures forall i :: 0 <= i < nRows ==>
                Row(i) == if r.Pass? then Plus(old(Row(i)), old(other.values[..])) else old(Row(i))
    {
      var j := 0;
      while j < nRows
        invariant 0 <= j <= nRows
        invariant other.Size() != nFeatures ==> j == 0
        invariant forall i :: 0 <= i < j ==> Row(i) == Plus(old(Row(i)), old(other.values[..]))
        invariant forall i :: j <= i < nRows ==> Row(i) == old(Row(i))
        invariant other.values[..] == old(other.values[..])
      {
        var outcome := matrix[j].AdditionInPlace(other);
        if outcome.Fail? {
          return outcome;
        }
        j := j + 1;
      }
      return Pass;
    }

    method SubtractVector(other: FeatureVector) returns (r: Outcome)
      requires Valid() && DistinctRows() && Apart(other)
      modifies Storage()
      ensures r == other.CheckVectorSize(matrix[0])
      ensures forall i :: 0 <= i < nRows ==>
                Row(i) == if r.Pass? then Minus(old(Row(i)), old(other.values[..])) else old(Row(i))
    {
      var j := 0;
      while j < nRows
        invariant 0 <= j <= nRows
        invariant other.Size() != nFeatures ==> j == 0
        invariant forall i :: 0 <= i < j ==> Row(i) == Minus(old(Row(i)), old(other.values[..]))
        invariant forall i :: j <= i < nRows ==> Row(i) == old(Row(i))
        invariant other.values[..] == old(other.values[..])
      {
        var outcome := matrix[j].SubtractInPlace(other);
        if outcome.Fail? {
          return outcome;
        }
        j := j + 1;
      }
      return Pass;
    }

    method MultiplyScalar(scalar: real)
      requires Valid() && DistinctRows()
      modifies Storage()
      ensures forall i :: 0 <= i < nRows ==>
                Row(i) == Times(old(Row(i)), Fill(nFeatures, scalar))
    {
      var j := 0;
      while j < nRows
        invariant 0 <= j <= nRows
        invariant forall i :: 0 <= i < j ==>
                    Row(i) == Times(old(Row(i)), Fill(nFeatures, scalar))
        invariant forall i :: j <= i < nRows ==> Row(i) == old(Row(i))
      {
        matrix[j].MultiplyInPlaceScalar(scalar);
        j := j + 1;
      }
    }

    method MultiplyVector(other: FeatureVector) returns (r: Outcome)
      requires Valid() && DistinctRows() && Apart(other)
      modifies Storage()
      ensures r == other.CheckVectorSize(matrix[0])
      ensures forall i :: 0 <= i < nRows ==>
                Row(i) == if r.Pass? then Times(old(Row(i)), old(other.values[..])) else old(Row(i))
    {
      var j := 0;
      while j < nRows
        invariant 0 <= j <= nRows
        invariant other.Size() != nFeatures ==> j == 0
        invariant forall i :: 0 <= i < j ==> Row(i) == Times(old(Row(i)), old(other.values[..]))
        invariant forall i :: j <= i < nRows ==> Row(i) == old(Row(i))
        invariant other.values[..] == old(other.values[..])
      {
        var outcome := matrix[j].MultiplyInPlace(other);
        if outcome.Fail? {
          return outcome;
        }
        j := j + 1;
      }
      return Pass;
    }

    method DivideScalar(scalar: real)
      requires Valid() && DistinctRows()
      requires scalar != 0.0
      modifies Storage()
      ensures forall i :: 0 <= i < nRows ==>
                Row(i) == Quotient(old(Row(i)), Fill(nFeatures, scalar))
    {
      var j := 0;
      while j < nRows
        invariant 0 <= j <= nRows
        invariant forall i :: 0 <= i < j ==>
                    Row(i) == Quotient(old(Row(i)), Fill(nFeatures, scalar))
        invariant forall i :: j <= i < nRows ==> Row(i) == old(Row(i))
      {
        matrix[j].DivideInPlaceScalar(scalar);
        j := j + 1;
      }
    }

    method DivideVector(other: FeatureVector) returns (r: Outcome)
      requires Valid() && DistinctRows() && Apart(other)
      requires forall k :: 0 <= k < other.Size() ==> other.values[k] != 0.0
      modifies Storage()
      ensures r == other.CheckVectorSize(matrix[0])
      ensures forall i :: 0 <= i < nRows ==>
                Row(i) == if r.Pass? then Quotient(old(Row(i)), old(other.values[..])) else old(Row(i))
    {
      var j := 0;
      while j < nRows
        invariant 0 <= j <= nRows
        invariant other.Size() != nFeatures ==> j == 0
        invariant forall i :: 0 <= i < j ==> Row(i) == Quotient(old(Row(i)), old(other.values[..]))
        invariant forall i :: j <= i < nRows ==> Row(i) == old(Row(i))
        invariant other.values[..] == old(other.values[..])
      {
        var outcome := matrix[j].DivideInPlace(other);
        if outcome.Fail? {
          return outcome;
        }
        j := j + 1;
      }
      return Pass;
    }

    method PowScalar(scalar: real, pow: (real, real) -> real)
      requires Valid() && DistinctRows()
      modifies Storage()
      ensures forall i :: 0 <= i < nRows ==>
                Row(i) == Power(old(Row(i)), Fill(nFeatures, scalar), pow)
    {
      var j := 0;
      while j < nRows
        invariant 0 <= j <= nRows
        invariant forall i :: 0 <= i < j ==>
                    Row(i) == Power(old(Row(i)), Fill(nFeatures, scalar), pow)
        invariant forall i :: j <= i < nRows ==> Row(i) == old(Row(i))
      {
        matrix[j].PowInPlaceScalar(scalar, pow);
        j := j + 1;
      }
    }

    /** No length check: every row reads `other` at each of its indices. */
    method PowVector(other: FeatureVector, pow: (real, real) -> real)
      requires Valid() && DistinctRows() && Apart(other) && nFeatures <= other.Size()
      modifies Storage()
      ensures forall i :: 0 <= i < nRows ==>
                Row(i) == Power(old(Row(i)), old(other.values[..]), pow)
    {
      var j := 0;
      while j < nRows
        invariant 0 <= j <= nRows
        invariant forall i :: 0 <= i < j ==> Row(i) == Power(old(Row(i)), old(other.values[..]), pow)
        invariant forall i :: j <= i < nRows ==> Row(i) == old(Row(i))
        invariant other.values[..] == old(other.values[..])
      {
        matrix[j].PowInPlace(other, pow);
        j := j + 1;
      }
    }
  }
}
