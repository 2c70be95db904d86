/**
 * The older top-level counter. Its `add` only raises the count of a key that
 * is already stored, and nothing ever stores a key, so it stays empty.
 */
module LegacyCounting {
  import opened Outcomes

  class Counter<K(==)> {
    var counts: map<K, int>

    /** The default and the capacity constructors. */
    constructor ()
      ensures counts == map[]
    {
      counts := map[];
    }

    /** The capacity constructor: a negative capacity is refused by the map. */
    static method WithCapacity(initialCapacity: int) returns (r: Result<Counter<K>>)
      ensures initialCapacity < 0 <==> r.Err?
      ensures r.Err? ==> r.error == NegativeCapacity
      ensures r.Ok? ==> fresh(r.value) && r.value.counts == map[]
    {
      if initialCapacity < 0 {
        return Err(NegativeCapacity);
      }
      var c := new Counter<K>();
      return Ok(c);
    }

    /** The collection and the array constructors: every element is dropped. */
    constructor FromElements(elements: seq<K>)
      ensures counts == map[] && Size() == 0
    {
      counts := map[];
      new;
      Update(elements);
    }

    /** Raises the count of a stored key by one; an unknown key is ignored. */
    method Add(element: K)
      modifies this
      ensures counts.Keys == old(counts.Keys)
      ensures element in counts ==> counts[element] == old(counts[element]) + 1
      ensures forall k :: k in counts && k != element ==> counts[k] == old(counts[k])
    {
      if element in counts {
        counts := counts[element := counts[element] + 1];
      }
    }

    /** The iterable and the array overloads: adds every element in turn. */
    method Update(elements: seq<K>)
      modifies this
      ensures counts.Keys == old(counts.Keys)
      ensures forall k :: k in counts ==> counts[k] == old(counts[k]) + multiset(elements)[k]
    {
      var i := 0;
      while i < |elements|
        invariant 0 <= i <= |elements|
        invariant counts.Keys == old(counts.Keys)
        invariant forall k :: k in counts ==> counts[k] == old(counts[k]) + multiset(elements[..i])[k]
      {
        assert elements[..i + 1] == elements[..i] + [elements[i]];
        Add(elements[i]);
        i := i + 1;
      }
      assert elements[..i] == elements;
    }

    /** The number of keys stored. */
    function Size(): (r: nat)
      reads this
      ensures r == 0 <==> counts == map[]
    {
      |counts|
    }
  }
}
