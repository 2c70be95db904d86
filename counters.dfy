/**
 * Frequency counters over tokens: `Counter` counts every occurrence, and
 * `DocumentCounter` counts, per key, the number of documents it occurs in.
 */
module Counting {
  import opened Outcomes
  import Sums

  /** Occurrences of `k` across all documents. */
  function TermFreq<K(==)>(docs: seq<seq<K>>, k: K): (r: nat)
  {
    if |docs| == 0 then 0
    else TermFreq(docs[..|docs| - 1], k) + multiset(docs[|docs| - 1])[k]
  }

  /** The number of documents that contain `k`. */
  function DocFreq<K(==)>(docs: seq<seq<K>>, k: K): (r: nat)
  {
    if |docs| == 0 then 0
    else DocFreq(docs[..|docs| - 1], k) + (if k in docs[|docs| - 1] then 1 else 0)
  }

  /** Every element of every document. */
  function Tokens<K(==)>(docs: seq<seq<K>>): (r: set<K>)
  {
    set d, x | d in docs && x in d :: x
  }

  /**
   * A document frequency never exceeds the term frequency or the number of
   * documents, and is positive exactly when some document contains the key.
   */
  lemma {:induction false} DocFreqBounds<K>(docs: seq<seq<K>>, k: K)
    ensures DocFreq(docs, k) <= TermFreq(docs, k)
    ensures DocFreq(docs, k) <= |docs|
    ensures DocFreq(docs, k) > 0 <==> exists i :: 0 <= i < |docs| && k in docs[i]
    ensures DocFreq(docs, k) > 0 <==> k in Tokens(docs)
  {
    if |docs| > 0 {
      var init := docs[..|docs| - 1];
      DocFreqBounds(init, k);
      if k in docs[|docs| - 1] {
        assert multiset(docs[|docs| - 1])[k] >= 1;
      }
      if exists i :: 0 <= i < |docs| && k in docs[i] {
        var i :| 0 <= i < |docs| && k in docs[i];
        if i < |docs| - 1 {
          assert k in init[i];
        }
      }
      if exists i :: 0 <= i < |init| && k in init[i] {
        var i :| 0 <= i < |init| && k in init[i];
        assert k in docs[i];
      }
    }
    if k in Tokens(docs) {
      var d :| d in docs && k in d;
      var i :| 0 <= i < |docs| && docs[i] == d;
      assert k in docs[i];
    }
    if exists i :: 0 <= i < |docs| && k in docs[i] {
      var i :| 0 <= i < |docs| && k in docs[i];
      assert docs[i] in docs;
    }
  }

  /** A key is counted in some document exactly when it is one of the tokens. */
  lemma {:induction false} TermFreqPositive<K>(docs: seq<seq<K>>, k: K)
    ensures TermFreq(docs, k) > 0 <==> k in Tokens(docs)
  {
    if |docs| > 0 {
      var init := docs[..|docs| - 1];
      var last := docs[|docs| - 1];
      TermFreqPositive(init, k);
      assert docs == init + [last];
      if k in Tokens(docs) {
        var d :| d in docs && k in d;
        if d != last {
          assert d in init;
        }
      }
      if k in Tokens(init) {
        var d :| d in init && k in d;
        assert d in docs;
      }
      if k in last {
        assert last in docs;
      }
    }
  }

  /** A map from keys to occurrence counts; a stored count is at least 1. */
  class Counter<K(==,!new)> {
    var counts: map<K, int>

    ghost predicate Valid()
      reads this
    {
      forall k :: k in counts ==> counts[k] >= 1
    }

    /** The default and the capacity constructors: an empty counter. */
    constructor ()
      ensures Valid() && counts == map[]
    {
      counts := map[];
    }

    /** The capacity constructor: a negative capacity is refused by the map. */
    static method WithCapacity(initialCapacity: int) returns (r: Result<Counter<K>>)
      ensures initialCapacity < 0 <==> r.Err?
      ensures r.Err? ==> r.error == NegativeCapacity
      ensures r.Ok? ==> fresh(r.value) && r.value.Valid() && r.value.counts == map[]
    {
      if initialCapacity < 0 {
        return Err(NegativeCapacity);
      }
      var c := new Counter<K>();
      return Ok(c);
    }

    /** The collection and the array constructors: counts every element. */
    constructor FromElements(elements: seq<K>)
      ensures Valid()
      ensures forall k :: Get(k) == multiset(elements)[k]
      ensures Vocab() == set x | x in elements
    {
      counts := map[];
      new;
      Update(elements);
    }

    /** The constructor over a sequence of arrays. */
    constructor FromDocuments(docs: seq<seq<K>>)
      ensures Valid()
      ensures forall k :: Get(k) == TermFreq(docs, k)
      ensures Vocab() == Tokens(docs)
    {
      counts := map[];
      new;
      UpdateAll(docs);
      forall k
        ensures k in Vocab() <==> k in Tokens(docs)
      {
        TermFreqPositive(docs, k);
      }
    }

    /** The count of `key`, 0 for a key never added. */
    function Get(key: K): (r: int)
      reads this
      requires Valid()
      ensures r >= 0
      ensures r == 0 <==> key !in counts
    {
      if key in counts then counts[key] else 0
    }

    /** The keys with a non-zero count. */
    function Vocab(): (r: set<K>)
      reads this
      requires Valid()
      ensures forall k :: k in r <==> Get(k) > 0
    {
      counts.Keys
    }

    /** The number of distinct keys counted. */
    function Size(): (r: nat)
      reads this
      requires Valid()
      ensures r == |Vocab()|
    {
      |counts|
    }

    method Add(element: K)
      requires Valid()
      modifies this
      ensures Valid()
      ensures Get(element) == old(Get(element)) + 1
      ensures forall k :: k != element ==> Get(k) == old(Get(k))
      ensures counts.Keys == old(counts.Keys) + {element}
    {
      if element in counts {
        counts := counts[element := counts[element] + 1];
      } else {
        counts := counts[element := 1];
      }
    }

    /** The collection and the array overloads: adds every element in turn. */
    method Update(elements: seq<K>)
      requires Valid()
      modifies this
      ensures Valid()
      ensures forall k :: Get(k) == old(Get(k)) + multiset(elements)[k]
      ensures counts.Keys == old(counts.Keys) + set x | x in elements
    {
      var i := 0;
      while i < |elements|
        invariant 0 <= i <= |elements| && Valid()
        invariant forall k :: Get(k) == old(Get(k)) + multiset(elements[..i])[k]
        invariant counts.Keys == old(counts.Keys) + set x | x in elements[..i]
      {
        assert elements[..i + 1] == elements[..i] + [elements[i]];
        Add(elements[i]);
        i := i + 1;
      }
      assert elements[..i] == elements;
    }

    /** Applies `update` to each array in turn, so counts accumulate. */
    method UpdateAll(docs: seq<seq<K>>)
      requires Valid()
      modifies this
      ensures Valid()
      ensures forall k :: Get(k) == old(Get(k)) + TermFreq(docs, k)
    {
      var i := 0;
      while i < |docs|
        invariant 0 <= i <= |docs| && Valid()
        invariant forall k :: Get(k) == old(Get(k)) + TermFreq(docs[..i], k)
      {
        assert docs[..i + 1][..i] == docs[..i];
        Update(docs[i]);
        i := i + 1;
      }
      assert docs[..i] == docs;
    }
  }

  /**
   * A counter whose array update adds each distinct element once, so that
   * over a sequence of documents it counts document frequencies.
   */
  class DocumentCounter<K(==,!new)> {
    /** The inherited counter state. */
    const base: Counter<K>

    ghost predicate Valid()
      reads this, base
    {
      base.Valid()
    }

    constructor ()
      ensures Valid() && fresh(base) && base.counts == map[]
    {
      base := new Counter<K>();
    }

    /** The array constructor dispatches to the de-duplicating update. */
    constructor FromArray(elements: seq<K>)
      ensures Valid() && fresh(base)
      ensures forall k :: base.Get(k) == if k in elements then 1 else 0
    {
      base := new Counter<K>();
      new;
      Update(elements);
    }

    /** The collection constructor dispatches to the collection update, which counts duplicates. */
    constructor FromCollection(elements: seq<K>)
      ensures Valid() && fresh(base)
      ensures forall k :: base.Get(k) == multiset(elements)[k]
    {
      base := new Counter<K>();
      new;
      UpdateCollection(elements);
    }

    /** The constructor over a sequence of arrays: document frequencies. */
    constructor FromDocuments(docs: seq<seq<K>>)
      ensures Valid() && fresh(base)
      ensures forall k :: base.Get(k) == DocFreq(docs, k)
      ensures base.Vocab() == Tokens(docs)
    {
      base := new Counter<K>();
      new;
      UpdateAll(docs);
      forall k
        ensures k in base.Vocab() <==> k in Tokens(docs)
      {
        DocFreqBounds(docs, k);
      }
    }

    /**
     * The collection overload builds a set it never uses and adds every
     * element, duplicates included.
     */
    method UpdateCollection(elements: seq<K>)
      requires Valid()
      modifies base
      ensures Valid()
      ensures forall k :: base.Get(k) == old(base.Get(k)) + multiset(elements)[k]
    {
      base.Update(elements);
    }

    /** The array overload: collects the distinct elements, then adds each once. */
    method Update(elements: seq<K>)
      requires Valid()
      modifies base
      ensures Valid()
      ensures forall k :: base.Get(k) == old(base.Get(k)) + if k in elements then 1 else 0
    {
      var docSet: set<K> := {};
      var i := 0;
      while i < |elements|
        invariant 0 <= i <= |elements|
        invariant forall k :: k in docSet <==> k in elements[..i]
      {
        assert elements[..i + 1] == elements[..i] + [elements[i]];
        docSet := docSet + {elements[i]};
        i := i + 1;
      }
      assert elements[..i] == elements;
      var remaining := docSet;
      while remaining != {}
        invariant remaining <= docSet && Valid()
        invariant forall k :: base.Get(k) == old(base.Get(k)) + if k in docSet - remaining then 1 else 0
        decreases remaining
      {
        var key := Sums.Choose(remaining);
        base.Add(key);
        remaining := remaining - {key};
      }
    }

    /** The inherited `updateAll`, whose calls reach the de-duplicating update. */
    method UpdateAll(docs: seq<seq<K>>)
      requires Valid()
      modifies base
      ensures Valid()
      ensures forall k :: base.Get(k) == old(base.Get(k)) + DocFreq(docs, k)
    {
      var i := 0;
      while i < |docs|
        invariant 0 <= i <= |docs| && Valid()
        invariant forall k :: base.Get(k) == old(base.Get(k)) + DocFreq(docs[..i], k)
      {
        assert docs[..i + 1][..i] == docs[..i];
        Update(docs[i]);
        i := i + 1;
      }
      assert docs[..i] == docs;
    }
  }
}
