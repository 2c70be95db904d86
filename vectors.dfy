/**
 * The concrete vectors of src/Vectors: CompressedFeatureVector (an index to
 * value map plus a length), SparseFeatureVector (a dense array whose get/set
 * are still stubs) and WeightVector (a dense array plus a bias). The first
 * two refer to each other (sparsify / compressed), so they share a module.
 */
module Vectors {
  import opened Outcomes
  import Sums
  import FeatureVectors

  /** Every stored value multiplied by a scalar; the key set is kept. */
  function Scaled(m: map<int, real>, scalar: real): (r: map<int, real>)
    ensures r.Keys == m.Keys
  {
    map k | k in m :: m[k] * scalar
  }

  /** Every stored value divided by a scalar; the key set is kept. */
  function Divided(m: map<int, real>, scalar: real): (r: map<int, real>)
    requires scalar != 0.0
    ensures r.Keys == m.Keys
  {
    map k | k in m :: m[k] / scalar
  }

  /** The value `get` reads from a map: 0 for an index with no entry. */
  function Lookup(m: map<int, real>, k: int): (r: real)
  {
    if k in m then m[k] else 0.0
  }

  /** m[k] * o.get(k) for each stored index k of `m`. */
  function Products(m: map<int, real>, o: map<int, real>): (r: map<int, real>)
    ensures r.Keys == m.Keys
  {
    map k | k in m :: m[k] * Lookup(o, k)
  }

  /** Compressing a dense vector and reading it back gives the vector again. */
  lemma CompressRoundTrip(s: seq<real>)
    ensures Sums.Densify(Sums.NonZeroEntries(s), |s|) == s
    ensures forall k :: k in Sums.NonZeroEntries(s) ==> Sums.NonZeroEntries(s)[k] != 0.0
  {
    var d := Sums.Densify(Sums.NonZeroEntries(s), |s|);
    forall i | 0 <= i < |s|
      ensures d[i] == s[i]
    {
    }
  }

  /** Dividing by the scalar just multiplied by restores every stored value. */
  lemma DividedScaled(m: map<int, real>, scalar: real)
    requires scalar != 0.0
    ensures Divided(Scaled(m, scalar), scalar) == m
  {
    forall k | k in m
      ensures Divided(Scaled(m, scalar), scalar)[k] == m[k]
    {
      var x := m[k] * scalar;
      assert Scaled(m, scalar)[k] == x;
      FeatureVectors.CancelScalar(x, m[k], scalar);
    }
  }

  /**
   * Summing value * other.get(index) over the stored entries gives the dense
   * inner product, provided the stored keys are coordinates.
   */
  lemma StoredDotIsDenseDot(m: map<int, real>, o: map<int, real>, n: nat)
    requires forall k :: k in m ==> 0 <= k < n
    ensures Sums.MapSum(Products(m, o)) == Sums.Dot(Sums.Densify(m, n), Sums.Densify(o, n))
  {
    var products := Products(m, o);
    var ov := Sums.Densify(o, n);
    var p2 := map k | k in m :: m[k] * ov[k];
    forall k | k in m
      ensures products[k] == p2[k]
    {
      assert ov[k] == Lookup(o, k);
    }
    assert products == p2;
    Sums.SparseDotIsDenseDot(m, ov, n);
  }

  class CompressedFeatureVector {
    var indexMap: map<int, real>
    var length: nat

    /** Stored keys are coordinates of the vector. */
    ghost predicate InRange()
      reads this
    {
      forall k :: k in indexMap ==> 0 <= k < length
    }

    /** The coordinates as `get` reads them, index 0 to size()-1. */
    function Values(): (r: seq<real>)
      reads this
    {
      Sums.Densify(indexMap, length)
    }

    constructor OfLength(length: nat)
      ensures this.length == length && indexMap == map[]
      ensures Values() == FeatureVectors.Fill(length, 0.0)
    {
      this.length := length;
      this.indexMap := map[];
    }

    /** Stores the given map as it is: nothing drops zeros or checks the keys. */
    constructor WithMap(length: nat, indexMap: map<int, real>)
      ensures this.length == length && this.indexMap == indexMap
    {
      this.length := length;
      this.indexMap := indexMap;
    }

    constructor FromArray(vector: array<real>)
      ensures length == vector.Length
      ensures indexMap == Sums.NonZeroEntries(vector[..])
      ensures Values() == vector[..]
    {
      var index: map<int, real> := map[];
      var i := 0;
      while i < vector.Length
        invariant 0 <= i <= vector.Length
        invariant forall k :: k in index <==> 0 <= k < i && vector[k] != 0.0
        invariant forall k :: k in index ==> index[k] == vector[k]
      {
        var value := vector[i];
        if value != 0.0 {
          index := index[i := vector[i]];
        }
        i := i + 1;
      }
      length := vector.Length;
      indexMap := index;
      new;
      assert indexMap == Sums.NonZeroEntries(vector[..]);
      CompressRoundTrip(vector[..]);
    }

    constructor FromList(vector: seq<real>)
      ensures length == |vector|
      ensures indexMap == Sums.NonZeroEntries(vector)
      ensures Values() == vector
    {
      var index: map<int, real> := map[];
      var i := 0;
      while i < |vector|
        invariant 0 <= i <= |vector|
        invariant forall k :: k in index <==> 0 <= k < i && vector[k] != 0.0
        invariant forall k :: k in index ==> index[k] == vector[k]
      {
        var value := vector[i];
        if value != 0.0 {
          index := index[i := vector[i]];
        }
        i := i + 1;
      }
      length := |vector|;
      indexMap := index;
      new;
      assert indexMap == Sums.NonZeroEntries(vector);
      CompressRoundTrip(vector);
    }

    function Size(): (r: nat)
      reads this
      ensures r == |Values()|
    {
      length
    }

    /** The stored value, or 0.0 for an index with no entry. */
    function Get(index: int): (r: real)
      reads this
      ensures r != 0.0 ==> index in indexMap
      ensures 0 <= index < length ==> r == Values()[index]
    {
      if index in indexMap then indexMap[index] else 0.0
    }

    /**
     * Overwrites a stored entry. For an index with no entry the code adds
     * `val` to the missing (null) entry, which throws.
     */
    method Set(index: int, val: real) returns (r: Outcome)
      modifies this
      ensures r == (if index in old(indexMap) then Pass else Fail(MissingEntry))
      ensures r.Pass? ==> indexMap == old(indexMap)[index := val]
      ensures r.Fail? ==> indexMap == old(indexMap)
      ensures length == old(length)
    {
      if index in indexMap {
        indexMap := indexMap[index := val];
        r := Pass;
      } else {
        r := Fail(MissingEntry);
      }
    }

    /** value * other.get(index) for each stored index. */
    function StoredProducts(other: CompressedFeatureVector): (p: map<int, real>)
      reads this, other
      ensures p.Keys == indexMap.Keys
      ensures forall k :: k in p ==> p[k] == indexMap[k] * other.Get(k)
    {
      Products(indexMap, other.indexMap)
    }

    /** On vectors of equal length, the sparse dot product is the dense one. */
    lemma StoredProductsSumToDot(other: CompressedFeatureVector)
      requires InRange() && other.length == length
      ensures Sums.MapSum(StoredProducts(other)) == Sums.Dot(Values(), other.Values())
    {
      StoredDotIsDenseDot(indexMap, other.indexMap, length);
    }

    /** Sums value * other.get(index) over this vector's stored entries only; no length check. */
    method Dot(other: CompressedFeatureVector) returns (r: real)
      ensures r == Sums.MapSum(StoredProducts(other))
    {
      var entries, otherEntries := indexMap, other.indexMap;
      ghost var products := Products(entries, otherEntries);
      var dotProduct := 0.0;
      var remaining := entries.Keys;
      Sums.MapSumBounds(products);
      while remaining != {}
        invariant remaining <= entries.Keys
        invariant dotProduct + Sums.MapSum(Sums.Restrict(products, remaining)) == Sums.MapSum(products)
        decreases remaining
      {
        var key :| key in remaining;
        var term := entries[key] * Lookup(otherEntries, key);
        Sums.MapSumAccumulate(products, remaining, key, dotProduct, term);
        dotProduct := dotProduct + term;
        remaining := remaining - {key};
      }
      r := dotProduct;
    }

    /** Stores every index 0..size()-1, zeros included. */
    method Addition(other: CompressedFeatureVector) returns (r: CompressedFeatureVector)
      ensures fresh(r) && r.length == length
      ensures forall i :: i in r.indexMap <==> 0 <= i < length
      ensures forall i :: 0 <= i < length ==> r.Get(i) == Get(i) + other.Get(i)
    {
      var retMap: map<int, real> := map[];
      var i := 0;
      while i < length
        invariant 0 <= i <= length
        invariant forall k :: k in retMap <==> 0 <= k < i
        invariant forall k :: 0 <= k < i ==> retMap[k] == Get(k) + other.Get(k)
      {
        retMap := retMap[i := Get(i) + other.Get(i)];
        i := i + 1;
      }
      r := new CompressedFeatureVector.WithMap(length, retMap);
    }

    /** Keeps this vector's key set; each stored value is multiplied by other.get(index). */
    method Multiply(other: CompressedFeatureVector) returns (r: CompressedFeatureVector)
      ensures fresh(r) && r.length == length
      ensures r.indexMap.Keys == indexMap.Keys
      ensures forall i :: r.Get(i) == Get(i) * other.Get(i)
    {
      var updated: map<int, real> := map[];
      var remaining := indexMap.Keys;
      while remaining != {}
        invariant remaining <= indexMap.Keys
        invariant updated.Keys == indexMap.Keys - remaining
        invariant forall k :: k in updated ==> updated[k] == indexMap[k] * other.Get(k)
        decreases remaining
      {
        var key := Sums.Choose(remaining);
        updated := updated[key := indexMap[key] * other.Get(key)];
        remaining := remaining - {key};
      }
      r := new CompressedFeatureVector.WithMap(length, updated);
    }

    /**
     * dot with a dense operand: its stub get reads 0 at every stored index,
     * so every term and the sum are 0.
     */
    method DotSparse(other: SparseFeatureVector) returns (r: real)
      ensures r == 0.0
    {
      var entries := indexMap;
      var dotProduct := 0.0;
      var remaining := entries.Keys;
      while remaining != {}
        invariant remaining <= entries.Keys
        invariant dotProduct == 0.0
        decreases remaining
      {
        var key := Sums.Choose(remaining);
        dotProduct := dotProduct + entries[key] * other.Get(key);
        remaining := remaining - {key};
      }
      r := dotProduct;
    }

    /** addition with a dense operand: every index is stored, holding this vector's coordinate. */
    method AdditionSparse(other: SparseFeatureVector) returns (r: CompressedFeatureVector)
      ensures fresh(r) && r.length == length
      ensures forall i :: i in r.indexMap <==> 0 <= i < length
      ensures forall i :: 0 <= i < length ==> r.Get(i) == Get(i) + other.Get(i)
      ensures r.Values() == Values()
    {
      var retMap: map<int, real> := map[];
      var i := 0;
      while i < length
        invariant 0 <= i <= length
        invariant forall k :: k in retMap <==> 0 <= k < i
        invariant forall k :: 0 <= k < i ==> retMap[k] == Get(k) + other.Get(k)
      {
        retMap := retMap[i := Get(i) + other.Get(i)];
        i := i + 1;
      }
      r := new CompressedFeatureVector.WithMap(length, retMap);
    }

    /** multiply by a dense operand: the key set is kept and every stored value becomes 0. */
    method MultiplySparse(other: SparseFeatureVector) returns (r: CompressedFeatureVector)
      ensures fresh(r) && r.length == length
      ensures r.indexMap.Keys == indexMap.Keys
      ensures forall k :: k in r.indexMap ==> r.indexMap[k] == indexMap[k] * other.Get(k)
      ensures forall i :: r.Get(i) == 0.0
    {
      var updated: map<int, real> := map[];
      var remaining := indexMap.Keys;
      while remaining != {}
        invariant remaining <= indexMap.Keys
        invariant updated.Keys == indexMap.Keys - remaining
        invariant forall k :: k in updated ==> updated[k] == indexMap[k] * other.Get(k)
        decreases remaining
      {
        var key := Sums.Choose(remaining);
        updated := updated[key := indexMap[key] * other.Get(key)];
        remaining := remaining - {key};
      }
      r := new CompressedFeatureVector.WithMap(length, updated);
    }

    method MultiplyScalar(scalar: real) returns (r: CompressedFeatureVector)
      ensures fresh(r) && r.length == length
      ensures r.indexMap == Scaled(indexMap, scalar)
      ensures forall i :: r.Get(i) == Get(i) * scalar
    {
      var updated: map<int, real> := map[];
      var remaining := indexMap.Keys;
      while remaining != {}
        invariant remaining <= indexMap.Keys
        invariant updated.Keys == indexMap.Keys - remaining
        invariant forall k :: k in updated ==> updated[k] == indexMap[k] * scalar
        decreases remaining
      {
        var key := Sums.Choose(remaining);
        updated := updated[key := indexMap[key] * scalar];
        remaining := remaining - {key};
      }
      assert forall k :: k in updated ==> updated[k] == Scaled(indexMap, scalar)[k];
      assert updated == Scaled(indexMap, scalar);
      r := new CompressedFeatureVector.WithMap(length, updated);
    }

    method DivideScalar(scalar: real) returns (r: Result<CompressedFeatureVector>)
      ensures scalar == 0.0 <==> r == Err(DivisionByZero)
      ensures r.Ok? ==> fresh(r.value) && r.value.length == length
      ensures r.Ok? ==> r.value.indexMap == Divided(indexMap, scalar)
    {
      if scalar == 0.0 {
        return Err(DivisionByZero);
      }
      var updated: map<int, real> := map[];
      var remaining := indexMap.Keys;
      while remaining != {}
        invariant remaining <= indexMap.Keys
        invariant updated.Keys == indexMap.Keys - remaining
        invariant forall k :: k in updated ==> updated[k] == indexMap[k] / scalar
        decreases remaining
      {
        var key := Sums.Choose(remaining);
        updated := updated[key := indexMap[key] / scalar];
        remaining := remaining - {key};
      }
      assert forall k :: k in updated ==> updated[k] == Divided(indexMap, scalar)[k];
      assert updated == Divided(indexMap, scalar);
      var v := new CompressedFeatureVector.WithMap(length, updated);
      r := Ok(v);
    }

    /** The sum of the stored values; with keys in range, the sum of all coordinates. */
    method Sum() returns (r: real)
      ensures r == Sums.MapSum(indexMap)
      ensures InRange() ==> r == Sums.SeqSum(Values())
    {
      var sum := 0.0;
      var remaining := indexMap.Keys;
      Sums.MapSumBounds(indexMap);
      while remaining != {}
        invariant remaining <= indexMap.Keys
        invariant sum + Sums.MapSum(Sums.Restrict(indexMap, remaining)) == Sums.MapSum(indexMap)
        decreases remaining
      {
        var key := Sums.Choose(remaining);
        Sums.MapSumStep(indexMap, remaining, key);
        sum := sum + indexMap[key];
        remaining := remaining - {key};
      }
      Sums.MapSumBounds(indexMap);
      r := sum;
      if InRange() {
        Sums.MapSumIsDenseSum(indexMap, length);
      }
    }

    /** Starts from 0.0, so the product of the stored values is always 0. */
    method Product() returns (r: real)
      ensures r == 0.0
    {
      var prod := 0.0;
      var remaining := indexMap.Keys;
      while remaining != {}
        invariant remaining <= indexMap.Keys
        invariant prod == 0.0
        decreases remaining
      {
        var key := Sums.Choose(remaining);
        prod := prod * indexMap[key];
        remaining := remaining - {key};
      }
      r := prod;
    }

    /**
     * The dense array of the coordinates, filled through the vector's
     * iterator: position i yields get(i) when i is stored and 0.0 otherwise.
     */
    method GetVector() returns (vector: array<real>)
      ensures fresh(vector)
      ensures vector[..] == Values()
    {
      vector := new real[length];
      var currentIndex := 0;
      while currentIndex < length
        invariant 0 <= currentIndex <= length
        invariant forall k :: 0 <= k < currentIndex ==> vector[k] == Values()[k]
      {
        var next := if currentIndex in indexMap.Keys then Get(currentIndex) else 0.0;
        vector[currentIndex] := next;
        currentIndex := currentIndex + 1;
      }
    }

    /** changeState/sparsify: a dense vector over a fresh copy of the coordinates. */
    method Sparsify() returns (r: SparseFeatureVector)
      ensures fresh(r) && fresh(r.vector)
      ensures r.vector[..] == Values()
    {
      var vector := GetVector();
      r := new SparseFeatureVector.FromArray(vector);
    }

    /** Takes over the other vector's entries and length (a copy of the map, see README). */
    method Update(other: CompressedFeatureVector)
      modifies this
      ensures indexMap == other.indexMap && length == other.length
      ensures Values() == other.Values()
    {
      indexMap := other.indexMap;
      length := other.length;
    }

    /** The stored indices, each once, in the map's iteration order. */
    method NonZeroIndices() returns (retArray: array<int>)
      ensures fresh(retArray)
      ensures retArray.Length == |indexMap|
      ensures forall k :: k in indexMap <==> k in retArray[..]
      ensures forall i, j :: 0 <= i < j < retArray.Length ==> retArray[i] != retArray[j]
    {
      retArray := new int[|indexMap|];
      var currentIndex := 0;
      var remaining := indexMap.Keys;
      while remaining != {}
        invariant remaining <= indexMap.Keys
        invariant currentIndex + |remaining| == |indexMap|
        invariant forall k :: k in indexMap.Keys - remaining <==> k in retArray[..currentIndex]
        invariant forall i, j :: 0 <= i < j < currentIndex ==> retArray[i] != retArray[j]
        decreases remaining
      {
        var key := Sums.Choose(remaining);
        retArray[currentIndex] := key;
        assert retArray[..currentIndex + 1] == retArray[..currentIndex] + [key];
        currentIndex := currentIndex + 1;
        remaining := remaining - {key};
      }
      assert retArray[..currentIndex] == retArray[..];
    }

    /** Drops every entry; the length is kept. */
    method Zero()
      modifies this
      ensures indexMap == map[] && length == old(length)
      ensures Values() == FeatureVectors.Fill(length, 0.0)
    {
      indexMap := map[];
    }

    /** This class overrides clear() with an empty body: nothing changes. */
    method Clear()
      ensures indexMap == old(indexMap) && length == old(length)
    {
    }
  }

  class SparseFeatureVector {
    var vector: array<real>

    constructor OfLength(length: nat)
      ensures fresh(vector)
      ensures vector[..] == FeatureVectors.Fill(length, 0.0)
    {
      vector := new real[length](i => 0.0);
    }

    constructor FromList(values: seq<real>)
      ensures fresh(vector)
      ensures vector[..] == values
    {
      var a := new real[|values|];
      var i := 0;
      while i < |values|
        invariant 0 <= i <= |values|
        invariant forall k :: 0 <= k < i ==> a[k] == values[k]
      {
        a[i] := values[i];
        i := i + 1;
      }
      vector := a;
    }

    /** Keeps the caller's array: later writes through either are shared. */
    constructor FromArray(values: array<real>)
      ensures vector == values
    {
      vector := values;
    }

    function GetLength(): (r: nat)
      reads this
      ensures r == vector.Length
    {
      vector.Length
    }

    /** A stub: every coordinate reads as 0. */
    function Get(index: int): (r: real)
      ensures r == 0.0
    {
      0.0
    }

    /** A stub: setting a coordinate changes nothing. */
    method Set(index: int, val: real)
      ensures vector == old(vector) && vector[..] == old(vector[..])
    {
    }

    /** The coordinates get(i) + other.get(i); both stubs read 0, so all zeros. */
    method AddSparse(other: SparseFeatureVector) returns (r: SparseFeatureVector)
      ensures fresh(r) && fresh(r.vector)
      ensures r.vector.Length == GetLength()
      ensures forall i :: 0 <= i < r.vector.Length ==> r.vector[i] == Get(i) + other.Get(i)
      ensures r.vector[..] == FeatureVectors.Fill(GetLength(), 0.0)
    {
      var retVector := new real[GetLength()];
      var i := 0;
      while i < GetLength()
        invariant 0 <= i <= GetLength()
        invariant forall k :: 0 <= k < i ==> retVector[k] == Get(k) + other.Get(k)
      {
        retVector[i] := Get(i) + other.Get(i);
        i := i + 1;
      }
      r := new SparseFeatureVector.FromArray(retVector);
    }

    method AddScalar(scalar: real) returns (r: SparseFeatureVector)
      ensures fresh(r) && fresh(r.vector)
      ensures r.vector.Length == GetLength()
      ensures forall i :: 0 <= i < r.vector.Length ==> r.vector[i] == Get(i) + scalar
      ensures r.vector[..] == FeatureVectors.Fill(GetLength(), scalar)
    {
      var retVector := new real[GetLength()];
      var i := 0;
      while i < GetLength()
        invariant 0 <= i <= GetLength()
        invariant forall k :: 0 <= k < i ==> retVector[k] == Get(k) + scalar
      {
        retVector[i] := Get(i) + scalar;
        i := i + 1;
      }
      r := new SparseFeatureVector.FromArray(retVector);
    }

    method AddInt(scalar: int) returns (r: SparseFeatureVector)
      ensures fresh(r) && fresh(r.vector)
      ensures r.vector[..] == FeatureVectors.Fill(GetLength(), scalar as real)
    {
      r := AddScalar(scalar as real);
    }

    /** get(i) - other.get(i) over this vector's length; no length check. */
    method Subtract(other: CompressedFeatureVector) returns (r: SparseFeatureVector)
      ensures fresh(r) && fresh(r.vector)
      ensures r.vector.Length == GetLength()
      ensures forall i :: 0 <= i < r.vector.Length ==> r.vector[i] == Get(i) - other.Get(i)
    {
      var retVector := new real[GetLength()];
      var i := 0;
      while i < GetLength()
        invariant 0 <= i <= GetLength()
        invariant forall k :: 0 <= k < i ==> retVector[k] == Get(k) - other.Get(k)
      {
        retVector[i] := Get(i) - other.Get(i);
        i := i + 1;
      }
      r := new SparseFeatureVector.FromArray(retVector);
    }

    method SubtractSparse(other: SparseFeatureVector) returns (r: SparseFeatureVector)
      ensures fresh(r) && fresh(r.vector)
      ensures r.vector.Length == GetLength()
      ensures forall i :: 0 <= i < r.vector.Length ==> r.vector[i] == Get(i) - other.Get(i)
    {
      var retVector := new real[GetLength()];
      var i := 0;
      while i < GetLength()
        invariant 0 <= i <= GetLength()
        invariant forall k :: 0 <= k < i ==> retVector[k] == Get(k) - other.Get(k)
      {
        retVector[i] := Get(i) - other.Get(i);
        i := i + 1;
      }
      r := new SparseFeatureVector.FromArray(retVector);
    }

    /** subtract(double) is add(-scalar). */
    method SubtractScalar(scalar: real) returns (r: SparseFeatureVector)
      ensures fresh(r) && fresh(r.vector)
      ensures r.vector[..] == FeatureVectors.Fill(GetLength(), -scalar)
    {
      r := AddScalar(-scalar);
    }

    /** The entries whose get is non-zero; get is a stub, so none. */
    method Compressed() returns (r: CompressedFeatureVector)
      ensures fresh(r) && r.length == GetLength()
      ensures r.indexMap == Sums.NonZeroEntries(seq(GetLength(), i => Get(i)))
      ensures r.indexMap == map[]
    {
      var nonZeroIndices: map<int, real> := map[];
      var i := 0;
      while i < GetLength()
        invariant 0 <= i <= GetLength()
        invariant forall k :: k in nonZeroIndices <==> 0 <= k < i && Get(k) != 0.0
        invariant forall k :: k in nonZeroIndices ==> nonZeroIndices[k] == Get(k)
      {
        var value := Get(i);
        if value != 0.0 {
          nonZeroIndices := nonZeroIndices[i := value];
        }
        i := i + 1;
      }
      r := new CompressedFeatureVector.WithMap(GetLength(), nonZeroIndices);
    }

    /** update from a dense vector: getVector returns its own array, which is now shared. */
    method UpdateFromSparse(other: SparseFeatureVector)
      modifies this
      ensures vector == other.vector
    {
      vector := other.vector;
    }

    /** update from a compressed vector: a fresh array of its coordinates. */
    method UpdateFromCompressed(other: CompressedFeatureVector)
      modifies this
      ensures fresh(vector)
      ensures vector[..] == other.Values()
    {
      vector := other.GetVector();
    }
  }

  /** A dense vector (as SparseFeatureVector holds it) plus a bias. */
  class WeightVector {
    var vector: array<real>
    var bias: real

    constructor OfLength(length: nat)
      ensures fresh(vector) && vector[..] == FeatureVectors.Fill(length, 0.0)
      ensures bias == 0.0
    {
      vector := new real[length](i => 0.0);
      bias := 0.0;
    }

    constructor OfLengthWithBias(length: nat, bias: real)
      ensures fresh(vector) && vector[..] == FeatureVectors.Fill(length, 0.0)
      ensures this.bias == bias
    {
      vector := new real[length](i => 0.0);
      this.bias := bias;
    }

    constructor FromArrayWithBias(values: array<real>, bias: real)
      ensures vector == values && this.bias == bias
    {
      vector := values;
      this.bias := bias;
    }

    constructor FromArray(values: array<real>)
      ensures vector == values && bias == 0.0
    {
      vector := values;
      bias := 0.0;
    }

    constructor FromListWithBias(values: seq<real>, bias: real)
      ensures fresh(vector) && vector[..] == values
      ensures this.bias == bias
    {
      var a := new real[|values|];
      var i := 0;
      while i < |values|
        invariant 0 <= i <= |values|
        invariant forall k :: 0 <= k < i ==> a[k] == values[k]
      {
        a[i] := values[i];
        i := i + 1;
      }
      vector := a;
      this.bias := bias;
    }

    constructor FromList(values: seq<real>)
      ensures fresh(vector) && vector[..] == values
      ensures bias == 0.0
    {
      var a := new real[|values|];
      var i := 0;
      while i < |values|
        invariant 0 <= i <= |values|
        invariant forall k :: 0 <= k < i ==> a[k] == values[k]
      {
        a[i] := values[i];
        i := i + 1;
      }
      vector := a;
      bias := 0.0;
    }
  }
}
