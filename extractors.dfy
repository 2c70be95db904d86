/**
 * Feature extractors turning a tokenized document into a compressed feature
 * vector: bag of words (1.0 per known token) and TF-IDF.
 */
module FeatureExtraction {
  import opened Outcomes
  import Sums
  import opened Counting
  import opened Vectors

  /**
   * `word2Idx` numbers the words of `vocab` one to one with the indices
   * 0..|vocab|-1.
   */
  ghost predicate IsIndexing(word2Idx: map<string, int>, vocab: set<string>)
  {
    word2Idx.Keys == vocab &&
    (forall w :: w in word2Idx ==> 0 <= word2Idx[w] < |vocab|) &&
    (forall v, w :: v in word2Idx && w in word2Idx && word2Idx[v] == word2Idx[w] ==> v == w) &&
    (forall i :: 0 <= i < |vocab| ==> i in word2Idx.Values)
  }

  /** `numbered` lists the keys of `word2Idx`, each at the position the map gives it. */
  ghost predicate Numbers(word2Idx: map<string, int>, numbered: seq<string>)
  {
    |word2Idx| == |numbered| &&
    (forall w :: w in word2Idx ==> 0 <= word2Idx[w] < |numbered| && numbered[word2Idx[w]] == w) &&
    (forall i :: 0 <= i < |numbered| ==> numbered[i] in word2Idx && word2Idx[numbered[i]] == i)
  }

  /** Numbers the vocabulary in iteration order, which is left open. */
  method InitWord2Idx(vocab: set<string>) returns (word2Idx: map<string, int>)
    ensures IsIndexing(word2Idx, vocab)
  {
    word2Idx := map[];
    var next := 0;
    var remaining := vocab;
    ghost var numbered: seq<string> := [];
    while remaining != {}
      invariant remaining <= vocab
      invariant word2Idx.Keys == vocab - remaining
      invariant Numbers(word2Idx, numbered) && next == |numbered|
      decreases remaining
    {
      var word :| word in remaining;
      NumberingStep(word2Idx, numbered, word);
      word2Idx := word2Idx[word := next];
      numbered := numbered + [word];
      next := next + 1;
      remaining := remaining - {word};
    }
    NumberingIsIndexing(word2Idx, vocab, numbered);
  }

  /** Giving a new word the next number keeps the numbering. */
  lemma NumberingStep(word2Idx: map<string, int>, numbered: seq<string>, word: string)
    requires Numbers(word2Idx, numbered) && word !in word2Idx
    ensures Numbers(word2Idx[word := |numbered|], numbered + [word])
  {
    var m, s := word2Idx[word := |numbered|], numbered + [word];
    forall i | 0 <= i < |s|
      ensures s[i] in m && m[s[i]] == i
    {
      if i < |numbered| {
        assert s[i] == numbered[i] && numbered[i] in word2Idx;
      }
    }
  }

  /** A map with an inverse sequence onto 0..n-1 is an indexing of its keys. */
  lemma NumberingIsIndexing(word2Idx: map<string, int>, vocab: set<string>, numbered: seq<string>)
    requires word2Idx.Keys == vocab && Numbers(word2Idx, numbered)
    ensures IsIndexing(word2Idx, vocab)
  {
    assert |vocab| == |word2Idx|;
    forall i | 0 <= i < |vocab|
      ensures i in word2Idx.Values
    {
      assert word2Idx[numbered[i]] == i;
    }
  }

  lemma TokensSnoc(docs: seq<seq<string>>, d: seq<string>)
    ensures Tokens(docs + [d]) == Tokens(docs) + set x | x in d
  {
    forall x | x in Tokens(docs + [d])
      ensures x in Tokens(docs) + set x | x in d
    {
      var e :| e in docs + [d] && x in e;
      if e != d {
        assert e in docs;
      }
    }
    forall x | x in d
      ensures x in Tokens(docs + [d])
    {
      assert d in docs + [d];
    }
    forall x | x in Tokens(docs)
      ensures x in Tokens(docs + [d])
    {
      var e :| e in docs && x in e;
      assert e in docs + [d];
    }
  }

  /** Collects every token of every document. */
  method GetAllWords(docs: seq<seq<string>>) returns (vocab: set<string>)
    ensures vocab == Tokens(docs)
  {
    vocab := {};
    var i := 0;
    while i < |docs|
      invariant 0 <= i <= |docs|
      invariant vocab == Tokens(docs[..i])
    {
      var j := 0;
      while j < |docs[i]|
        invariant 0 <= j <= |docs[i]|
        invariant vocab == Tokens(docs[..i]) + set x | x in docs[i][..j]
      {
        assert docs[i][..j + 1] == docs[i][..j] + [docs[i][j]];
        vocab := vocab + {docs[i][j]};
        j := j + 1;
      }
      assert docs[i][..j] == docs[i];
      assert docs[..i + 1] == docs[..i] + [docs[i]];
      TokensSnoc(docs[..i], docs[i]);
      i := i + 1;
    }
    assert docs[..i] == docs;
  }

  class BOWExtractor {
    const word2Idx: map<string, int>
    /** The training vocabulary. */
    ghost const vocab: set<string>

    ghost predicate Valid()
      reads this
    {
      IsIndexing(word2Idx, vocab)
    }

    constructor (dataPoints: seq<seq<string>>)
      ensures Valid() && vocab == Tokens(dataPoints)
    {
      var words := GetAllWords(dataPoints);
      var indexing := InitWord2Idx(words);
      vocab := words;
      word2Idx := indexing;
    }

    /** The number of coordinates: one per vocabulary word. */
    function FeatureCount(): (r: nat)
      reads this
      requires Valid()
      ensures r == |vocab|
    {
      |word2Idx|
    }

    /**
     * 1.0 at the index of each known token, however often it occurs;
     * unknown tokens are skipped.
     */
    method Vectorize(tokens: seq<string>) returns (r: CompressedFeatureVector)
      requires Valid()
      ensures fresh(r) && r.length == FeatureCount() && r.InRange()
      ensures forall i :: i in r.indexMap <==>
                exists t :: t in tokens && t in vocab && word2Idx[t] == i
      ensures forall i :: i in r.indexMap ==> r.indexMap[i] == 1.0
    {
      var indexMap: map<int, real> := map[];
      var i := 0;
      while i < |tokens|
        invariant 0 <= i <= |tokens|
        invariant forall k :: k in indexMap <==>
                    exists t :: t in tokens[..i] && t in vocab && word2Idx[t] == k
        invariant forall k :: k in indexMap ==> indexMap[k] == 1.0
      {
        assert tokens[..i + 1] == tokens[..i] + [tokens[i]];
        if tokens[i] in word2Idx {
          indexMap := indexMap[word2Idx[tokens[i]] := 1.0];
        }
        i := i + 1;
      }
      assert tokens[..i] == tokens;
      r := new CompressedFeatureVector.WithMap(FeatureCount(), indexMap);
    }
  }

  /** log(1 + count/docLength). */
  function TermFrequency(count: int, docLength: int, log: real -> real): (r: real)
    requires docLength > 0
  {
    log(1.0 + count as real / docLength as real)
  }

  /** 0 for a word in no document, log(nDocuments/docFreq) otherwise. */
  function InverseDocFreqOf(docFreq: int, nDocuments: int, log: real -> real): (r: real)
  {
    if docFreq == 0 then 0.0 else log(nDocuments as real / docFreq as real)
  }

  /** The weight of `token` in the document `tokens`, against the corpus `docs`. */
  ghost function TfIdf(docs: seq<seq<string>>, tokens: seq<string>, token: string, log: real -> real): (r: real)
    requires |tokens| > 0
  {
    TermFrequency(multiset(tokens)[token], |tokens|, log) *
    InverseDocFreqOf(DocFreq(docs, token), |docs|, log)
  }

  ghost predicate Increasing(log: real -> real)
  {
    forall x, y :: 0.0 < x <= y ==> log(x) <= log(y)
  }

  /** With an increasing logarithm, a token that occurs more often weighs more. */
  lemma TermFrequencyGrows(c1: int, c2: int, docLength: int, log: real -> real)
    requires Increasing(log) && 0 <= c1 <= c2 && docLength > 0
    ensures TermFrequency(c1, docLength, log) <= TermFrequency(c2, docLength, log)
  {
    var n := docLength as real;
    assert c1 as real / n <= c2 as real / n by {
      assert (c2 as real / n - c1 as real / n) * n == c2 as real - c1 as real;
    }
  }

  /** With an increasing logarithm, a word found in fewer documents weighs more. */
  lemma RarerWordsWeighMore(d1: int, d2: int, nDocuments: int, log: real -> real)
    requires Increasing(log) && 0 < d1 <= d2 && 0 < nDocuments
    ensures InverseDocFreqOf(d2, nDocuments, log) <= InverseDocFreqOf(d1, nDocuments, log)
  {
    var n := nDocuments as real;
    var a := n / d1 as real;
    var b := n / d2 as real;
    assert a * d1 as real == n;
    assert b * d2 as real == n;
    assert a * d2 as real >= a * d1 as real;
    assert b <= a;
  }

  class TfIdfExtractor {
    const docFreqs: DocumentCounter<string>
    const word2Idx: map<string, int>
    const nDocuments: int
    /** The training documents. */
    ghost const docs: seq<seq<string>>

    ghost predicate Valid()
      reads this, docFreqs, docFreqs.base
    {
      docFreqs.Valid() &&
      (forall k :: docFreqs.base.Get(k) == DocFreq(docs, k)) &&
      IsIndexing(word2Idx, Tokens(docs)) &&
      nDocuments == |docs|
    }

    constructor (dataPoints: seq<seq<string>>)
      ensures Valid() && docs == dataPoints
    {
      docs := dataPoints;
      var counter := new DocumentCounter<string>.FromDocuments(dataPoints);
      docFreqs := counter;
      var indexing := InitWord2Idx(counter.base.Vocab());
      word2Idx := indexing;
      nDocuments := |dataPoints|;
    }

    /** The number of coordinates: one per distinct training token. */
    function FeatureCount(): (r: nat)
      reads this, docFreqs, docFreqs.base
      requires Valid()
      ensures r == |Tokens(docs)|
    {
      |word2Idx|
    }

    /** The number of training documents holding `token`, or 0, rescaled by a logarithm. */
    function InverseDocFreq(token: string, log: real -> real): (r: real)
      reads this, docFreqs, docFreqs.base
      requires Valid()
      ensures r == InverseDocFreqOf(DocFreq(docs, token), |docs|, log)
      ensures token !in Tokens(docs) ==> r == 0.0
    {
      DocFreqBounds(docs, token);
      var docFreq := docFreqs.base.Get(token);
      if docFreq == 0 then 0.0
      else log(nDocuments as real / docFreqs.base.Get(token) as real)
    }

    /** The index of each token; a token outside the vocabulary has none. */
    method MapToIndices(tokens: seq<string>) returns (r: Result<seq<int>>)
      requires Valid()
      ensures r.Err? <==> exists t :: t in tokens && t !in word2Idx
      ensures r.Err? ==> r.error == MissingEntry
      ensures r.Ok? ==> |r.value| == |tokens|
      ensures r.Ok? ==> forall i :: 0 <= i < |tokens| ==> r.value[i] == word2Idx[tokens[i]]
    {
      var retArray := new int[|tokens|];
      var i := 0;
      while i < |tokens|
        invariant 0 <= i <= |tokens|
        invariant forall k :: 0 <= k < i ==> tokens[k] in word2Idx && retArray[k] == word2Idx[tokens[k]]
      {
        if tokens[i] !in word2Idx {
          return Err(MissingEntry);
        }
        retArray[i] := word2Idx[tokens[i]];
        i := i + 1;
      }
      return Ok(retArray[..]);
    }

    /** tf * idf for each token, counting the tokens of this document. */
    method CalculateTfIdfValues(tokens: seq<string>, log: real -> real) returns (values: seq<real>)
      requires Valid()
      ensures |values| == |tokens|
      ensures forall i :: 0 <= i < |tokens| ==> values[i] == TfIdf(docs, tokens, tokens[i], log)
    {
      ghost var expected := seq(|tokens|, k requires 0 <= k < |tokens| => TfIdf(docs, tokens, tokens[k], log));
      var docCount := new Counter<string>.FromElements(tokens);
      values := [];
      var i := 0;
      while i < |tokens|
        invariant 0 <= i <= |tokens|
        invariant values == expected[..i]
      {
        var tf := TermFrequency(docCount.Get(tokens[i]), |tokens|, log);
        var idf := InverseDocFreq(tokens[i], log);
        var value := tf * idf;
        assert value == expected[i];
        values := values + [value];
        i := i + 1;
      }
    }

    /**
     * A vector with tf * idf at the index of each token. A token outside the
     * vocabulary makes the index lookup fail.
     */
    method Vectorize(tokens: seq<string>, log: real -> real) returns (r: Result<CompressedFeatureVector>)
      requires Valid()
      ensures r.Err? <==> exists t :: t in tokens && t !in Tokens(docs)
      ensures r.Err? ==> r.error == MissingEntry
      ensures r.Ok? ==> fresh(r.value) && r.value.length == FeatureCount() && r.value.InRange()
      ensures r.Ok? ==> forall i :: i in r.value.indexMap <==>
                exists t :: t in tokens && word2Idx[t] == i
      ensures r.Ok? ==> forall t :: t in tokens ==>
                r.value.indexMap[word2Idx[t]] == TfIdf(docs, tokens, t, log)
    {
      var indices := MapToIndices(tokens);
      if indices.Err? {
        return Err(indices.error);
      }
      var tfIdfValues := CalculateTfIdfValues(tokens, log);
      var nonZerosIndices: map<int, real> := map[];
      var i := 0;
      while i < |tokens|
        invariant 0 <= i <= |tokens|
        invariant forall k :: k in nonZerosIndices <==>
                    exists t :: t in tokens[..i] && word2Idx[t] == k
        invariant forall t :: t in tokens[..i] ==>
                    nonZerosIndices[word2Idx[t]] == TfIdf(docs, tokens, t, log)
      {
        assert tokens[..i + 1] == tokens[..i] + [tokens[i]];
        nonZerosIndices := nonZerosIndices[indices.value[i] := tfIdfValues[i]];
        i := i + 1;
      }
      assert tokens[..i] == tokens;
      var vector := new CompressedFeatureVector.WithMap(FeatureCount(), nonZerosIndices);
      return Ok(vector);
    }
  }
}
