/**
 * Evaluation of predictions against a gold standard: per-label confusion
 * matrices, the scores derived from them, accuracy, and macro and micro
 * averages over labels.
 */
module Evaluation {
  import opened Outcomes
  import Sums

  /** The four counters of a confusion matrix, as a value. */
  datatype Counts = Counts(tp: int, fp: int, tn: int, fn: int)
  {
    function Total(): (r: int)
    {
      tp + fp + tn + fn
    }

    /** Counter-wise sum. */
    function Plus(other: Counts): (r: Counts)
    {
      Counts(tp + other.tp, fp + other.fp, tn + other.tn, fn + other.fn)
    }

    predicate NonNegative()
    {
      tp >= 0 && fp >= 0 && tn >= 0 && fn >= 0
    }

    /** The division in `precision` is by a non-zero number whenever it happens. */
    predicate PrecisionDefined()
    {
      tp == 0 || fp == 0 || tp + fp != 0
    }

    predicate RecallDefined()
    {
      tp == 0 || fn == 0 || tp + fn != 0
    }

    /**
     * tp / (tp + fp), except that it is 0 as soon as either counter is 0:
     * a matrix with no false positive has precision 0.
     */
    function Precision(): (r: real)
      requires PrecisionDefined()
      ensures r == 0.0 <==> tp == 0 || fp == 0
      ensures tp >= 0 && fp >= 0 ==> r >= 0.0
    {
      if tp == 0 || fp == 0 then 0.0 else tp as real / (tp + fp) as real
    }

    /** tp / (tp + fn), except that it is 0 as soon as either counter is 0. */
    function Recall(): (r: real)
      requires RecallDefined()
      ensures r == 0.0 <==> tp == 0 || fn == 0
      ensures tp >= 0 && fn >= 0 ==> r >= 0.0
    {
      if tp == 0 || fn == 0 then 0.0 else tp as real / (tp + fn) as real
    }

    /** Both scores exist and their sum is not 0 unless both are. */
    predicate FScoreDefined()
    {
      PrecisionDefined() && RecallDefined() &&
      (Precision() + Recall() != 0.0 || (Precision() == 0.0 && Recall() == 0.0))
    }

    /** 2pr / (p + r) for precision p and recall r, and 0 when both are 0. */
    function FScore(): (f: real)
      requires FScoreDefined()
      ensures f == 0.0 <==> Precision() == 0.0 || Recall() == 0.0
    {
      var p := Precision();
      var r := Recall();
      if p == 0.0 && r == 0.0 then 0.0 else 2.0 * ((p * r) / (p + r))
    }

    /**
     * Precision as documented: the fraction of predicted positives that are
     * right, guarded only against an empty denominator.
     */
    function IntendedPrecision(): (r: real)
      ensures NonNegative() ==> 0.0 <= r <= 1.0
      ensures NonNegative() ==> (r == 0.0 <==> tp == 0)
      ensures NonNegative() ==> (r == 1.0 <==> tp > 0 && fp == 0)
    {
      if tp + fp == 0 then 0.0 else tp as real / (tp + fp) as real
    }

    /** Recall as documented: the fraction of actual positives that are found. */
    function IntendedRecall(): (r: real)
      ensures NonNegative() ==> 0.0 <= r <= 1.0
      ensures NonNegative() ==> (r == 0.0 <==> tp == 0)
      ensures NonNegative() ==> (r == 1.0 <==> tp > 0 && fn == 0)
    {
      if tp + fn == 0 then 0.0 else tp as real / (tp + fn) as real
    }

    /** The harmonic mean of the documented precision and recall. */
    function IntendedFScore(): (f: real)
      requires NonNegative()
      ensures f == 0.0 <==> tp == 0
    {
      var p := IntendedPrecision();
      var r := IntendedRecall();
      if p == 0.0 && r == 0.0 then 0.0 else 2.0 * ((p * r) / (p + r))
    }
  }

  /** Away from the zero cases, precision is the fraction of predicted positives that are right. */
  lemma PrecisionIsFraction(c: Counts)
    requires c.tp != 0 && c.fp != 0 && c.PrecisionDefined()
    ensures c.Precision() * (c.tp + c.fp) as real == c.tp as real
    ensures c.tp > 0 && c.fp > 0 ==> 0.0 < c.Precision() < 1.0
  {
    var a := (c.tp + c.fp) as real;
    assert c.Precision() == c.tp as real / a;
  }

  /** Away from the zero cases, recall is the fraction of actual positives that are found. */
  lemma RecallIsFraction(c: Counts)
    requires c.tp != 0 && c.fn != 0 && c.RecallDefined()
    ensures c.Recall() * (c.tp + c.fn) as real == c.tp as real
    ensures c.tp > 0 && c.fn > 0 ==> 0.0 < c.Recall() < 1.0
  {
    var b := (c.tp + c.fn) as real;
    assert c.Recall() == c.tp as real / b;
  }

  /** With positive precision and recall, the F-score is their harmonic mean and lies between them. */
  lemma FScoreBetween(c: Counts)
    requires c.FScoreDefined() && c.Precision() > 0.0 && c.Recall() > 0.0
    ensures Min(c.Precision(), c.Recall()) <= c.FScore() <= Max(c.Precision(), c.Recall())
  {
    var p, r := c.Precision(), c.Recall();
    var f := c.FScore();
    assert f == 2.0 * ((p * r) / (p + r));
    HarmonicMeanBetween(p, r);
  }

  function Min(a: real, b: real): (r: real)
  {
    if a <= b then a else b
  }

  function Max(a: real, b: real): (r: real)
  {
    if a <= b then b else a
  }

  /** The harmonic mean of two positive numbers lies between them. */
  lemma HarmonicMeanBetween(p: real, r: real)
    requires p > 0.0 && r > 0.0
    ensures Min(p, r) <= 2.0 * ((p * r) / (p + r)) <= Max(p, r)
  {
    var s := p + r;
    var q := (p * r) / s;
    var f := 2.0 * q;
    assert q * s == p * r;
    assert (f - p) * s == p * (r - p);
    assert (f - r) * s == r * (p - r);
    if p <= r {
      assert p * (r - p) >= 0.0;
      assert r * (p - r) <= 0.0;
    } else {
      assert p * (r - p) <= 0.0;
      assert r * (p - r) >= 0.0;
    }
  }

  /**
   * On counts a confusion matrix can hold, the coded precision agrees with
   * the documented one except exactly when there are true positives and no
   * false positive; there the code says 0 and the documentation 1.
   */
  lemma PrecisionDisagreement(c: Counts)
    requires c.NonNegative()
    ensures c.PrecisionDefined()
    ensures c.Precision() == c.IntendedPrecision() <==> !(c.tp > 0 && c.fp == 0)
    ensures c.tp > 0 && c.fp == 0 ==> c.Precision() == 0.0 && c.IntendedPrecision() == 1.0
  {
  }

  /** The same for recall, with false negatives in place of false positives. */
  lemma RecallDisagreement(c: Counts)
    requires c.NonNegative()
    ensures c.RecallDefined()
    ensures c.Recall() == c.IntendedRecall() <==> !(c.tp > 0 && c.fn == 0)
    ensures c.tp > 0 && c.fn == 0 ==> c.Recall() == 0.0 && c.IntendedRecall() == 1.0
  {
  }

  /**
   * A classifier that makes no mistake on a label that occurs scores 1 on
   * every documented measure and 0 on every coded one.
   */
  lemma PerfectClassifierScores(c: Counts)
    requires c.NonNegative() && c.tp > 0 && c.fp == 0 && c.fn == 0
    ensures c.FScoreDefined() && c.Precision() == c.Recall() == c.FScore() == 0.0
    ensures c.IntendedPrecision() == c.IntendedRecall() == c.IntendedFScore() == 1.0
  {
    PrecisionDisagreement(c);
    RecallDisagreement(c);
  }

  /**
   * The harmonic mean of t/a and t/b is 2t / (a + b): the step shared by the
   * coded and the documented F-score.
   */
  lemma HarmonicMeanOfFractions(t: real, a: real, b: real, p: real, r: real)
    requires t > 0.0 && a > 0.0 && b > 0.0
    requires p * a == t && r * b == t
    ensures p + r != 0.0
    ensures 2.0 * ((p * r) / (p + r)) * (a + b) == 2.0 * t
  {
    assert p > 0.0 && r > 0.0;
    var s := p + r;
    var q := (p * r) / s;
    assert q * s == p * r;
    assert s * a * b == t * b + t * a by {
      assert s * a * b == (p * a) * b + (r * b) * a;
    }
    assert p * r * a * b == t * t by {
      assert p * r * a * b == (p * a) * (r * b);
    }
    assert q * (t * b + t * a) == t * t by {
      assert q * (t * b + t * a) == q * s * a * b;
    }
    assert q * (b + a) == t by {
      assert t * (q * (b + a)) == t * t;
    }
  }

  /**
   * The documented F-score is 2tp / (2tp + fp + fn) whenever a true positive
   * exists, zero counters included.
   */
  lemma IntendedFScoreIsF1(c: Counts)
    requires c.NonNegative() && c.tp > 0
    ensures c.IntendedFScore() * (2 * c.tp + c.fp + c.fn) as real == (2 * c.tp) as real
  {
    var t := c.tp as real;
    var a := (c.tp + c.fp) as real;
    var b := (c.tp + c.fn) as real;
    var p := c.IntendedPrecision();
    var r := c.IntendedRecall();
    assert p == t / a && r == t / b;
    HarmonicMeanOfFractions(t, a, b, p, r);
    assert (2 * c.tp + c.fp + c.fn) as real == a + b;
  }

  /** With no zero counter, the F-score is the usual 2tp / (2tp + fp + fn). */
  lemma FScoreIsF1(c: Counts)
    requires c.tp > 0 && c.fp > 0 && c.fn > 0
    ensures c.FScoreDefined()
    ensures c.FScore() * (2 * c.tp + c.fp + c.fn) as real == (2 * c.tp) as real
  {
    var a := (c.tp + c.fp) as real;
    var b := (c.tp + c.fn) as real;
    PrecisionIsFraction(c);
    RecallIsFraction(c);
    HarmonicMeanOfFractions(c.tp as real, a, b, c.Precision(), c.Recall());
    assert (2 * c.tp + c.fp + c.fn) as real == a + b;
  }


  /** Zero, except for the one counter that the pair of labels falls into. */
  function Classify<T(==)>(prediction: T, target: T, targetClass: T): (r: Counts)
    ensures r.tp >= 0 && r.fp >= 0 && r.tn >= 0 && r.fn >= 0
    ensures r.tp + r.fp + r.tn + r.fn == 1
  {
    if prediction == targetClass then
      if target == targetClass then Counts(1, 0, 0, 0) else Counts(0, 1, 0, 0)
    else
      if target == targetClass then Counts(0, 0, 0, 1) else Counts(0, 0, 1, 0)
  }

  /** The confusion counts of parallel predictions and gold labels for `targetClass`. */
  function Tally<T(==)>(predictions: seq<T>, gold: seq<T>, targetClass: T): (r: Counts)
    requires |predictions| == |gold|
  {
    if |predictions| == 0 then Counts(0, 0, 0, 0)
    else
      var n := |predictions| - 1;
      Tally(predictions[..n], gold[..n], targetClass).Plus(Classify(predictions[n], gold[n], targetClass))
  }

  /** Counting one more pair adds its classification. */
  lemma TallyStep<T>(predictions: seq<T>, gold: seq<T>, targetClass: T, i: nat)
    requires |predictions| == |gold| && i < |predictions|
    ensures Tally(predictions[..i + 1], gold[..i + 1], targetClass)
              == Tally(predictions[..i], gold[..i], targetClass).Plus(Classify(predictions[i], gold[i], targetClass))
  {
    assert predictions[..i + 1][..i] == predictions[..i];
    assert gold[..i + 1][..i] == gold[..i];
  }

  /**
   * Every pair lands in exactly one counter, and the counters split the
   * occurrences of `targetClass` among the predictions (tp + fp) and the gold
   * labels (tp + fn).
   */
  lemma {:induction false} TallyCounts<T>(predictions: seq<T>, gold: seq<T>, targetClass: T)
    requires |predictions| == |gold|
    ensures var c := Tally(predictions, gold, targetClass);
      c.tp >= 0 && c.fp >= 0 && c.tn >= 0 && c.fn >= 0 && c.tp + c.fp + c.tn + c.fn == |predictions|
    ensures Tally(predictions, gold, targetClass).tp + Tally(predictions, gold, targetClass).fp
              == multiset(predictions)[targetClass]
    ensures Tally(predictions, gold, targetClass).tp + Tally(predictions, gold, targetClass).fn
              == multiset(gold)[targetClass]
  {
    if |predictions| > 0 {
      var n := |predictions| - 1;
      TallyCounts(predictions[..n], gold[..n], targetClass);
      assert predictions == predictions[..n] + [predictions[n]];
      assert gold == gold[..n] + [gold[n]];
    }
  }

  /**
   * Two true positives and one false negative: with no false positive the
   * precision is 0, and so is the F-score, although two of the three gold
   * positives were found.
   */
  lemma ExampleWithoutFalsePositives()
    ensures Counts(2, 0, 0, 1).Precision() == 0.0
    ensures Counts(2, 0, 0, 1).Recall() * 3.0 == 2.0
    ensures Counts(2, 0, 0, 1).FScoreDefined() && Counts(2, 0, 0, 1).FScore() == 0.0
  {
    var c := Counts(2, 0, 0, 1);
    RecallIsFraction(c);
    assert (c.tp + c.fn) as real == 3.0;
  }

  /** The number of positions where the prediction equals the gold label. */
  function Matches<T(==)>(predictions: seq<T>, gold: seq<T>): (r: nat)
    requires |predictions| <= |gold|
  {
    if |predictions| == 0 then 0
    else
      var n := |predictions| - 1;
      Matches(predictions[..n], gold) + (if predictions[n] == gold[n] then 1 else 0)
  }

  /** At most every prediction matches, and all do exactly when they equal the gold labels. */
  lemma {:induction false} MatchesBounds<T>(predictions: seq<T>, gold: seq<T>)
    requires |predictions| <= |gold|
    ensures Matches(predictions, gold) <= |predictions|
    ensures Matches(predictions, gold) == |predictions| <==> predictions == gold[..|predictions|]
  {
    if |predictions| > 0 {
      var n := |predictions| - 1;
      MatchesBounds(predictions[..n], gold);
      if predictions == gold[..|predictions|] {
        assert predictions[..n] == gold[..n];
      }
      if Matches(predictions, gold) == |predictions| {
        assert predictions[..n] == gold[..n];
        assert predictions == predictions[..n] + [predictions[n]];
        assert gold[..|predictions|] == gold[..n] + [gold[n]];
      }
    }
  }

  class ConfusionMatrix {
    var tp: int
    var fp: int
    var tn: int
    var fn: int

    function Counters(): (r: Counts)
      reads this
    {
      Counts(tp, fp, tn, fn)
    }

    /** An empty matrix. */
    constructor ()
      ensures Counters() == Counts(0, 0, 0, 0)
    {
      tp, fp, tn, fn := 0, 0, 0, 0;
    }

    constructor WithCounts(tp: int, fp: int, tn: int, fn: int)
      ensures Counters() == Counts(tp, fp, tn, fn)
    {
      this.tp, this.fp, this.tn, this.fn := tp, fp, tn, fn;
    }

    method SetTp(tp: int)
      modifies this
      ensures Counters() == old(Counters()).(tp := tp)
    {
      this.tp := tp;
    }

    method IncrementTp()
      modifies this
      ensures Counters() == old(Counters()).(tp := old(tp) + 1)
    {
      tp := tp + 1;
    }

    method SetFp(fp: int)
      modifies this
      ensures Counters() == old(Counters()).(fp := fp)
    {
      this.fp := fp;
    }

    method IncrementFp()
      modifies this
      ensures Counters() == old(Counters()).(fp := old(fp) + 1)
    {
      fp := fp + 1;
    }

    method SetTn(tn: int)
      modifies this
      ensures Counters() == old(Counters()).(tn := tn)
    {
      this.tn := tn;
    }

    method IncrementTn()
      modifies this
      ensures Counters() == old(Counters()).(tn := old(tn) + 1)
    {
      tn := tn + 1;
    }

    method SetFn(fn: int)
      modifies this
      ensures Counters() == old(Counters()).(fn := fn)
    {
      this.fn := fn;
    }

    method IncrementFn()
      modifies this
      ensures Counters() == old(Counters()).(fn := old(fn) + 1)
    {
      fn := fn + 1;
    }

    /** Counter-wise addition of another matrix (which may be this one). */
    method Add(other: ConfusionMatrix)
      modifies this
      ensures Counters() == old(Counters()).Plus(old(other.Counters()))
    {
      tp, fp, tn, fn := tp + other.tp, fp + other.fp, tn + other.tn, fn + other.fn;
    }

    /** Counts the pairs of parallel lists against `targetClass`. */
    static method InitFromPredictions<T(==)>(predictions: seq<T>, gold: seq<T>, targetClass: T)
      returns (r: Result<ConfusionMatrix>)
      ensures r.Err? <==> |predictions| != |gold|
      ensures r.Err? ==> r.error == ContainerSizeMismatch
      ensures r.Ok? ==> fresh(r.value) && r.value.Counters() == Tally(predictions, gold, targetClass)
    {
      if |predictions| != |gold| {
        return Err(ContainerSizeMismatch);
      }
      var tp, fp, tn, fn := 0, 0, 0, 0;
      var i := 0;
      while i < |predictions|
        invariant 0 <= i <= |predictions|
        invariant Counts(tp, fp, tn, fn) == Tally(predictions[..i], gold[..i], targetClass)
      {
        var prediction := predictions[i];
        var target := gold[i];
        ghost var before := Counts(tp, fp, tn, fn);
        ghost var c := Classify(prediction, target, targetClass);
        if prediction == targetClass {
          if target == targetClass {
            tp := tp + 1;
          } else {
            fp := fp + 1;
          }
        } else {
          if target == targetClass {
            fn := fn + 1;
          } else {
            tn := tn + 1;
          }
        }
        assert Counts(tp, fp, tn, fn) == before.Plus(c);
        TallyStep(predictions, gold, targetClass, i);
        i := i + 1;
      }
      assert predictions[..i] == predictions && gold[..i] == gold;
      var m := new ConfusionMatrix.WithCounts(tp, fp, tn, fn);
      return Ok(m);
    }
  }

  class Scores {
    var precision: real
    var recall: real
    var fscore: real

    constructor (precision: real, recall: real, fscore: real)
      ensures this.precision == precision && this.recall == recall && this.fscore == fscore
    {
      this.precision, this.recall, this.fscore := precision, recall, fscore;
    }

    constructor Zero()
      ensures precision == 0.0 && recall == 0.0 && fscore == 0.0
    {
      precision, recall, fscore := 0.0, 0.0, 0.0;
    }

    method SetPrecision(precision: real)
      modifies this
      ensures this.precision == precision && recall == old(recall) && fscore == old(fscore)
    {
      this.precision := precision;
    }

    method SetRecall(recall: real)
      modifies this
      ensures this.recall == recall && precision == old(precision) && fscore == old(fscore)
    {
      this.recall := recall;
    }

    method SetFscore(fscore: real)
      modifies this
      ensures this.fscore == fscore && precision == old(precision) && recall == old(recall)
    {
      this.fscore := fscore;
    }
  }

  /** The counters of each matrix, in order. */
  function CountsOf(matrices: seq<ConfusionMatrix>): (cs: seq<Counts>)
    reads set i | 0 <= i < |matrices| :: matrices[i]
    ensures |cs| == |matrices|
    ensures forall i :: 0 <= i < |matrices| ==> cs[i] == matrices[i].Counters()
  {
    if |matrices| == 0 then []
    else
      var n := |matrices| - 1;
      CountsOf(matrices[..n]) + [matrices[n].Counters()]
  }

  predicate AllScored(cs: seq<Counts>)
  {
    forall i :: 0 <= i < |cs| ==> cs[i].FScoreDefined()
  }

  /** The three scores reported for a matrix. */
  datatype Metric = PrecisionMetric | RecallMetric | FScoreMetric

  function Score(c: Counts, metric: Metric): (r: real)
    requires c.FScoreDefined()
  {
    match metric
    case PrecisionMetric => c.Precision()
    case RecallMetric => c.Recall()
    case FScoreMetric => c.FScore()
  }

  /** The sum of one score over a sequence of counts. */
  function ScoreSum(cs: seq<Counts>, metric: Metric): (r: real)
    requires AllScored(cs)
  {
    if |cs| == 0 then 0.0 else ScoreSum(cs[..|cs| - 1], metric) + Score(cs[|cs| - 1], metric)
  }

  /** Counter-wise sum of all counts. */
  function CountsSum(cs: seq<Counts>): (r: Counts)
  {
    if |cs| == 0 then Counts(0, 0, 0, 0) else CountsSum(cs[..|cs| - 1]).Plus(cs[|cs| - 1])
  }

  /** On non-negative counters every score lies in [0, 1]. */
  lemma ScoresBounded(c: Counts)
    requires c.NonNegative()
    ensures c.FScoreDefined()
    ensures 0.0 <= c.Precision() <= 1.0 && 0.0 <= c.Recall() <= 1.0 && 0.0 <= c.FScore() <= 1.0
  {
    if c.tp > 0 && c.fp > 0 {
      PrecisionIsFraction(c);
    }
    if c.tp > 0 && c.fn > 0 {
      RecallIsFraction(c);
    }
    if c.Precision() > 0.0 && c.Recall() > 0.0 {
      FScoreBetween(c);
    }
  }

  /** On non-negative counters every sum of scores lies between 0 and the number of matrices. */
  lemma {:induction false} ScoreSumBounded(cs: seq<Counts>, metric: Metric)
    requires forall i :: 0 <= i < |cs| ==> cs[i].NonNegative()
    ensures AllScored(cs)
    ensures 0.0 <= ScoreSum(cs, metric) <= |cs| as real
  {
    forall i | 0 <= i < |cs|
      ensures cs[i].FScoreDefined()
    {
      ScoresBounded(cs[i]);
    }
    if |cs| > 0 {
      var n := |cs| - 1;
      ScoreSumBounded(cs[..n], metric);
      ScoresBounded(cs[n]);
    }
  }

  /** Extending a prefix by one element adds that element's score to the sum. */
  lemma ScoreSumStep(cs: seq<Counts>, k: nat, metric: Metric)
    requires AllScored(cs) && k < |cs|
    ensures AllScored(cs[..k]) && AllScored(cs[..k + 1])
    ensures ScoreSum(cs[..k + 1], metric) == ScoreSum(cs[..k], metric) + Score(cs[k], metric)
  {
    assert cs[..k + 1][..k] == cs[..k];
  }

  /** The arithmetic means of the per-matrix precision, recall and F-score. */
  method CalculateMacroAverages(matrices: seq<ConfusionMatrix>) returns (r: Scores)
    requires |matrices| > 0 && AllScored(CountsOf(matrices))
    ensures fresh(r) && CountsOf(matrices) == old(CountsOf(matrices))
    ensures r.precision == ScoreSum(CountsOf(matrices), PrecisionMetric) / |matrices| as real
    ensures r.recall == ScoreSum(CountsOf(matrices), RecallMetric) / |matrices| as real
    ensures r.fscore == ScoreSum(CountsOf(matrices), FScoreMetric) / |matrices| as real
  {
    ghost var cs := CountsOf(matrices);
    var p, rc, f := 0.0, 0.0, 0.0;
    var nMatrices := 0;
    while nMatrices < |matrices|
      invariant 0 <= nMatrices <= |matrices| && AllScored(cs[..nMatrices])
      invariant p == ScoreSum(cs[..nMatrices], PrecisionMetric)
      invariant rc == ScoreSum(cs[..nMatrices], RecallMetric)
      invariant f == ScoreSum(cs[..nMatrices], FScoreMetric)
    {
      ScoreSumStep(cs, nMatrices, PrecisionMetric);
      ScoreSumStep(cs, nMatrices, RecallMetric);
      ScoreSumStep(cs, nMatrices, FScoreMetric);
      var c := matrices[nMatrices].Counters();
      assert c == cs[nMatrices];
      p := p + c.Precision();
      rc := rc + c.Recall();
      f := f + c.FScore();
      nMatrices := nMatrices + 1;
    }
    assert cs[..nMatrices] == cs;
    var n := nMatrices as real;
    r := new Scores(p / n, rc / n, f / n);
    assert CountsOf(matrices) == cs;
  }

  lemma CountsSumStep(cs: seq<Counts>, k: nat)
    requires k < |cs|
    ensures CountsSum(cs[..k + 1]) == CountsSum(cs[..k]).Plus(cs[k])
  {
    assert cs[..k + 1][..k] == cs[..k];
  }

  /** The loop of `calculateMicroAverages`: adds every matrix into a new one. */
  method AddAll(matrices: seq<ConfusionMatrix>) returns (totalMatrix: ConfusionMatrix)
    ensures fresh(totalMatrix)
    ensures totalMatrix.Counters() == CountsSum(CountsOf(matrices))
  {
    ghost var cs := CountsOf(matrices);
    totalMatrix := new ConfusionMatrix();
    var i := 0;
    while i < |matrices|
      invariant 0 <= i <= |matrices|
      invariant fresh(totalMatrix)
      invariant CountsOf(matrices) == cs
      invariant totalMatrix.Counters() == CountsSum(cs[..i])
    {
      CountsSumStep(cs, i);
      assert matrices[i].Counters() == cs[i];
      totalMatrix.Add(matrices[i]);
      i := i + 1;
    }
    assert cs[..i] == cs;
  }

  /** The scores of the counter-wise sum of all matrices. */
  method CalculateMicroAverages(matrices: seq<ConfusionMatrix>) returns (r: Scores)
    requires CountsSum(CountsOf(matrices)).FScoreDefined()
    ensures fresh(r) && CountsOf(matrices) == old(CountsOf(matrices))
    ensures r.precision == CountsSum(CountsOf(matrices)).Precision()
    ensures r.recall == CountsSum(CountsOf(matrices)).Recall()
    ensures r.fscore == CountsSum(CountsOf(matrices)).FScore()
  {
    ghost var cs := CountsOf(matrices);
    var totalMatrix := AddAll(matrices);
    var total := totalMatrix.Counters();
    r := new Scores(total.Precision(), total.Recall(), total.FScore());
    assert CountsOf(matrices) == cs;
  }

  /** Every count in the map has defined scores. */
  predicate Scorable<K>(m: map<K, Counts>)
  {
    forall k :: k in m ==> m[k].FScoreDefined()
  }

  /** One score of every entry of the map. */
  ghost function ScoresOf<K>(m: map<K, Counts>, metric: Metric): (r: map<K, real>)
    requires Scorable(m)
    ensures r.Keys == m.Keys
  {
    map k | k in m :: Score(m[k], metric)
  }

  /** Counter-wise sum of the values of a map, independent of any enumeration order. */
  ghost function CountsTotal<K>(m: map<K, Counts>): (r: Counts)
    decreases |m.Keys|
  {
    if m == map[] then Counts(0, 0, 0, 0)
    else
      var k :| k in m;
      assert (m - {k}).Keys == m.Keys - {k};
      m[k].Plus(CountsTotal(m - {k}))
  }

  /** Removing any one key: the choice CountsTotal makes does not matter. */
  lemma {:induction false} CountsTotalRemove<K>(m: map<K, Counts>, k: K)
    requires k in m
    ensures CountsTotal(m) == m[k].Plus(CountsTotal(m - {k}))
    decreases |m.Keys|
  {
    var j :| j in m && CountsTotal(m) == m[j].Plus(CountsTotal(m - {j}));
    if j != k {
      assert (m - {j}).Keys == m.Keys - {j};
      assert (m - {k}).Keys == m.Keys - {k};
      CountsTotalRemove(m - {j}, k);
      CountsTotalRemove(m - {k}, j);
      assert m - {j} - {k} == m - {k} - {j};
      PlusSwap(m[j], m[k], CountsTotal(m - {j} - {k}));
    }
  }

  lemma PlusSwap(a: Counts, b: Counts, c: Counts)
    ensures a.Plus(b.Plus(c)) == b.Plus(a.Plus(c))
  {
  }

  /** A total of non-negative counts is non-negative. */
  lemma {:induction false} CountsTotalNonNegative<K>(m: map<K, Counts>)
    requires forall k :: k in m ==> m[k].NonNegative()
    ensures CountsTotal(m).NonNegative()
    decreases |m.Keys|
  {
    if m != map[] {
      var k :| k in m;
      CountsTotalRemove(m, k);
      assert (m - {k}).Keys == m.Keys - {k};
      CountsTotalNonNegative(m - {k});
    }
  }

  /** The entries of `m` whose keys are in `keys`. */
  function RestrictCounts<K>(m: map<K, Counts>, keys: set<K>): (r: map<K, Counts>)
  {
    map k | k in keys && k in m :: m[k]
  }

  /** `order` lists every key of `keys` exactly once. */
  predicate Enumerates<K>(order: seq<K>, keys: set<K>)
  {
    (forall i :: 0 <= i < |order| ==> order[i] in keys) &&
    (forall i, j :: 0 <= i < j < |order| ==> order[i] != order[j]) &&
    (forall k :: k in keys ==> k in order)
  }

  /** The counts of the labels of `order`, in that order. */
  function CountsAlong<K>(order: seq<K>, m: map<K, Counts>): (cs: seq<Counts>)
    requires forall i :: 0 <= i < |order| ==> order[i] in m
    ensures |cs| == |order|
    ensures forall i :: 0 <= i < |order| ==> cs[i] == m[order[i]]
  {
    if |order| == 0 then [] else CountsAlong(order[..|order| - 1], m) + [m[order[|order| - 1]]]
  }

  /** Visiting distinct labels in any order sums the scores of exactly those labels. */
  lemma {:induction false} ScoreSumAlong<K>(order: seq<K>, m: map<K, Counts>, metric: Metric)
    requires Scorable(m)
    requires forall i :: 0 <= i < |order| ==> order[i] in m
    requires forall i, j :: 0 <= i < j < |order| ==> order[i] != order[j]
    ensures AllScored(CountsAlong(order, m))
    ensures ScoreSum(CountsAlong(order, m), metric)
         == Sums.MapSum(Sums.Restrict(ScoresOf(m, metric), set x | x in order))
  {
    var f := ScoresOf(m, metric);
    var cs := CountsAlong(order, m);
    assert AllScored(cs);
    if |order| == 0 {
      Sums.MapSumBounds(f);
      assert (set x | x in order) == {};
    } else {
      var n := |order| - 1;
      var init := order[..n];
      var k := order[n];
      assert order == init + [k];
      ScoreSumAlong(init, m, metric);
      var seen := set x | x in init;
      DistinctLast(order, init, k);
      MapSumAdd(f, seen, k);
      assert cs[..n] == CountsAlong(init, m);
      assert ScoreSum(cs, metric) == ScoreSum(cs[..n], metric) + f[k];
    }
  }

  /** Visiting distinct labels in any order adds up the counts of exactly those labels. */
  lemma {:induction false} CountsSumAlong<K>(order: seq<K>, m: map<K, Counts>)
    requires forall i :: 0 <= i < |order| ==> order[i] in m
    requires forall i, j :: 0 <= i < j < |order| ==> order[i] != order[j]
    ensures CountsSum(CountsAlong(order, m)) == CountsTotal(RestrictCounts(m, set x | x in order))
  {
    var cs := CountsAlong(order, m);
    if |order| == 0 {
      assert RestrictCounts(m, set x | x in order) == map[];
    } else {
      var n := |order| - 1;
      var init := order[..n];
      var k := order[n];
      var seen := set x | x in init;
      CountsSumAlong(init, m);
      assert cs[..n] == CountsAlong(init, m);
      assert order == init + [k];
      DistinctLast(order, init, k);
      CountsTotalAdd(m, seen, k);
    }
  }

  /**
   * The sum of a score over an enumeration of all the labels does not depend
   * on the enumeration order.
   */
  lemma ScoreSumOrderIndependent<K>(order: seq<K>, m: map<K, Counts>, metric: Metric)
    requires Scorable(m) && Enumerates(order, m.Keys)
    ensures AllScored(CountsAlong(order, m))
    ensures ScoreSum(CountsAlong(order, m), metric) == Sums.MapSum(ScoresOf(m, metric))
  {
    ScoreSumAlong(order, m, metric);
    assert (set x | x in order) == m.Keys;
    Sums.MapSumBounds(ScoresOf(m, metric));
  }

  /**
   * The counter-wise sum over an enumeration of all the labels does not
   * depend on the enumeration order.
   */
  lemma CountsSumOrderIndependent<K>(order: seq<K>, m: map<K, Counts>)
    requires Enumerates(order, m.Keys)
    ensures CountsSum(CountsAlong(order, m)) == CountsTotal(m)
  {
    CountsSumAlong(order, m);
    EnumerationCovers(order, m.Keys);
    RestrictCountsAll(m);
  }

  lemma RestrictCountsAll<K>(m: map<K, Counts>)
    ensures RestrictCounts(m, m.Keys) == m
  {
  }

  /** An enumeration's elements are exactly the enumerated keys. */
  lemma EnumerationCovers<K>(order: seq<K>, keys: set<K>)
    requires Enumerates(order, keys)
    ensures (set x | x in order) == keys
  {
  }

  lemma MapSumAdd<K>(m: map<K, real>, done: set<K>, k: K)
    requires k in m && k !in done
    ensures Sums.MapSum(Sums.Restrict(m, done + {k})) == Sums.MapSum(Sums.Restrict(m, done)) + m[k]
  {
    assert (done + {k}) - {k} == done;
    Sums.MapSumStep(m, done + {k}, k);
  }

  lemma CountsTotalAdd<K>(m: map<K, Counts>, done: set<K>, k: K)
    requires k in m && k !in done
    ensures CountsTotal(RestrictCounts(m, done + {k})) == CountsTotal(RestrictCounts(m, done)).Plus(m[k])
  {
    CountsTotalRemove(RestrictCounts(m, done + {k}), k);
    assert RestrictCounts(m, done + {k}) - {k} == RestrictCounts(m, done);
  }

  /** The last element of a sequence without repetitions is new to the elements before it. */
  lemma DistinctLast<K>(s: seq<K>, init: seq<K>, last: K)
    requires s == init + [last]
    requires forall i, j :: 0 <= i < j < |s| ==> s[i] != s[j]
    ensures last !in (set x | x in init)
    ensures (set x | x in s) == (set x | x in init) + {last}
  {
    forall i | 0 <= i < |init|
      ensures init[i] != last
    {
      assert s[i] == init[i] && s[|init|] == last;
    }
  }

  /** A sequence without repetitions has as many elements as its set. */
  lemma {:induction false} DistinctCardinality<K>(s: seq<K>)
    requires forall i, j :: 0 <= i < j < |s| ==> s[i] != s[j]
    ensures |set x | x in s| == |s|
  {
    if |s| > 0 {
      var n := |s| - 1;
      DistinctCardinality(s[..n]);
      assert (set x | x in s) == (set x | x in s[..n]) + {s[n]};
      assert s[n] !in (set x | x in s[..n]);
    }
  }

  /**
   * Evaluates predictions against gold labels with one confusion matrix per
   * label of interest.
   */
  class Evaluator<T(==,!new)> {
    const predictions: seq<T>
    const gold: seq<T>
    var classMatrices: map<T, ConfusionMatrix>

    /** Each label's matrix holds the counts of that label over the two lists. */
    ghost predicate Valid()
      reads this, classMatrices.Values
    {
      forall t :: t in classMatrices ==>
        |predictions| == |gold| && classMatrices[t].Counters() == Tally(predictions, gold, t)
    }

    /** The counts held for each label. */
    ghost function LabelCounts(): (m: map<T, Counts>)
      reads this, classMatrices.Values
      ensures m.Keys == classMatrices.Keys
    {
      map t | t in classMatrices :: classMatrices[t].Counters()
    }

    /** The field initialisations the two public constructors share. */
    constructor (predictions: seq<T>, gold: seq<T>)
      ensures this.predictions == predictions && this.gold == gold
      ensures classMatrices == map[] && Valid()
    {
      this.predictions := predictions;
      this.gold := gold;
      classMatrices := map[];
    }

    /** The constructor with an explicit label set. */
    static method Create(predictions: seq<T>, gold: seq<T>, labels: set<T>) returns (r: Result<Evaluator<T>>)
      ensures r.Err? <==> labels != {} && |predictions| != |gold|
      ensures r.Err? ==> r.error == ContainerSizeMismatch
      ensures r.Ok? ==> fresh(r.value) && r.value.Valid()
      ensures r.Ok? ==> r.value.predictions == predictions && r.value.gold == gold
      ensures r.Ok? ==> r.value.classMatrices.Keys == labels
    {
      var e := new Evaluator(predictions, gold);
      var outcome := e.InitClassMatrices(labels);
      if outcome.Fail? {
        return Err(outcome.error);
      }
      return Ok(e);
    }

    /** The constructor without labels: every label seen in either list. */
    static method CreateForAll(predictions: seq<T>, gold: seq<T>) returns (r: Result<Evaluator<T>>)
      ensures r.Err? <==> |predictions| != |gold|
      ensures r.Err? ==> r.error == ContainerSizeMismatch
      ensures r.Ok? ==> fresh(r.value) && r.value.Valid()
      ensures r.Ok? ==> r.value.predictions == predictions && r.value.gold == gold
      ensures r.Ok? ==> forall t :: t in r.value.classMatrices <==> t in predictions || t in gold
    {
      var labelUnion := (set x | x in predictions) + (set x | x in gold);
      if |predictions| > 0 {
        assert predictions[0] in labelUnion;
      } else if |gold| > 0 {
        assert gold[0] in labelUnion;
      }
      r := Create(predictions, gold, labelUnion);
    }

    /**
     * Stores the matrix of each label in turn; the first label fails when the
     * two lists differ in length, before anything is stored.
     */
    method InitClassMatrices(labels: set<T>) returns (r: Outcome)
      requires Valid()
      modifies this
      ensures r.Fail? <==> labels != {} && |predictions| != |gold|
      ensures r.Fail? ==> r.error == ContainerSizeMismatch && classMatrices == old(classMatrices)
      ensures r.Pass? ==> Valid() && classMatrices.Keys == old(classMatrices.Keys) + labels
    {
      var remaining := labels;
      while remaining != {}
        invariant remaining <= labels && Valid()
        invariant classMatrices.Keys == old(classMatrices.Keys) + (labels - remaining)
        invariant remaining != labels ==> |predictions| == |gold|
        invariant remaining == labels ==> classMatrices == old(classMatrices)
        decreases remaining
      {
        var classLabel := Sums.Choose(remaining);
        var classMatrix := ConfusionMatrix.InitFromPredictions(predictions, gold, classLabel);
        if classMatrix.Err? {
          return Fail(classMatrix.error);
        }
        classMatrices := classMatrices[classLabel := classMatrix.value];
        remaining := remaining - {classLabel};
      }
      return Pass;
    }

    /**
     * The fraction of predictions equal to the gold label at the same
     * position; a gold list shorter than the predictions is indexed past its end.
     */
    method GetAccuracy() returns (r: Result<real>)
      requires |predictions| > 0
      ensures r.Err? <==> |gold| < |predictions|
      ensures r.Err? ==> r.error == IndexOutOfBounds
      ensures r.Ok? ==> r.value == Matches(predictions, gold) as real / |predictions| as real
    {
      var correctPredictions := 0;
      var i := 0;
      while i < |predictions|
        invariant 0 <= i <= |predictions| && i <= |gold|
        invariant correctPredictions == Matches(predictions[..i], gold)
      {
        if i >= |gold| {
          return Err(IndexOutOfBounds);
        }
        assert predictions[..i + 1][..i] == predictions[..i];
        if predictions[i] == gold[i] {
          correctPredictions := correctPredictions + 1;
        }
        i := i + 1;
      }
      assert predictions[..i] == predictions;
      return Ok(correctPredictions as real / |predictions| as real);
    }

    /** The counts of every label have defined scores, and so does their total. */
    lemma ScoresDefined()
      requires Valid()
      ensures Scorable(LabelCounts())
      ensures CountsTotal(LabelCounts()).FScoreDefined()
    {
      var m := LabelCounts();
      forall t | t in m
        ensures m[t].NonNegative() && m[t].FScoreDefined()
      {
        TallyCounts(predictions, gold, t);
        ScoresBounded(m[t]);
      }
      CountsTotalNonNegative(m);
      ScoresBounded(CountsTotal(m));
    }

    /** The means, over the labels, of each label's precision, recall and F-score. */
    method GetMacroAverages() returns (r: Scores)
      requires classMatrices != map[] && Scorable(LabelCounts())
      ensures fresh(r)
      ensures r.precision == Sums.MapSum(ScoresOf(old(LabelCounts()), PrecisionMetric)) / |classMatrices| as real
      ensures r.recall == Sums.MapSum(ScoresOf(old(LabelCounts()), RecallMetric)) / |classMatrices| as real
      ensures r.fscore == Sums.MapSum(ScoresOf(old(LabelCounts()), FScoreMetric)) / |classMatrices| as real
    {
      ghost var counts := LabelCounts();
      ghost var order;
      var matrices;
      matrices, order := Values();
      ScoreSumOrderIndependent(order, counts, PrecisionMetric);
      ScoreSumOrderIndependent(order, counts, RecallMetric);
      ScoreSumOrderIndependent(order, counts, FScoreMetric);
      r := CalculateMacroAverages(matrices);
    }

    /** The precision, recall and F-score of the counter-wise total over the labels. */
    method GetMicroAverages() returns (r: Scores)
      requires CountsTotal(LabelCounts()).FScoreDefined()
      ensures fresh(r)
      ensures r.precision == CountsTotal(old(LabelCounts())).Precision()
      ensures r.recall == CountsTotal(old(LabelCounts())).Recall()
      ensures r.fscore == CountsTotal(old(LabelCounts())).FScore()
    {
      ghost var counts := LabelCounts();
      ghost var order;
      var matrices;
      matrices, order := Values();
      CountsSumOrderIndependent(order, counts);
      r := CalculateMicroAverages(matrices);
    }

    /**
     * The stored matrices in the order a hash-map iterator gives them: `order`
     * is that (unspecified) order of the labels.
     */
    method Values() returns (matrices: seq<ConfusionMatrix>, ghost order: seq<T>)
      ensures |matrices| == |classMatrices|
      ensures Enumerates(order, classMatrices.Keys)
      ensures CountsOf(matrices) == CountsAlong(order, LabelCounts())
      ensures classMatrices == old(classMatrices) && LabelCounts() == old(LabelCounts())
    {
      order := [];
      matrices := [];
      var remaining := classMatrices.Keys;
      while remaining != {}
        invariant remaining <= classMatrices.Keys
        invariant |order| == |matrices|
        invariant forall i :: 0 <= i < |order| ==> order[i] in classMatrices && order[i] !in remaining
        invariant forall i :: 0 <= i < |order| ==> matrices[i] == classMatrices[order[i]]
        invariant forall i, j :: 0 <= i < j < |order| ==> order[i] != order[j]
        invariant forall x :: x in classMatrices ==> x in remaining || x in order
        decreases remaining
      {
        var classLabel :| classLabel in remaining;
        matrices := matrices + [classMatrices[classLabel]];
        order := order + [classLabel];
        remaining := remaining - {classLabel};
      }
      assert (set x | x in order) == classMatrices.Keys;
      assert |classMatrices| == |classMatrices.Keys| == |order| by {
        DistinctCardinality(order);
      }
    }
  }
}
