/** `EvaluationMetrics` (src/evaluation/metrics.py): precision and recall at `k`, mean
    average precision, F1 and entity-extraction accuracy, over exact reals. */
module Metrics {
  import opened Wrappers
  import opened PyStr
  import opened Records

  // ---------------------------------------------------------------------------
  // Counting hits

  /** How many entries of `xs` are relevant, repeats counted. */
  function Hits(xs: seq<int>, relevant: seq<int>): (n: nat)
    ensures n <= |xs|
  {
    if xs == [] then 0
    else Hits(xs[..|xs| - 1], relevant) + (if xs[|xs| - 1] in relevant then 1 else 0)
  }

  /** The distinct relevant items of `xs`. */
  function HitSet(xs: seq<int>, relevant: seq<int>): set<int> {
    set x | x in xs && x in relevant
  }

  /** The distinct elements of a sequence are no more than its length. */
  lemma {:induction false} SetOfSeqCard(s: seq<int>)
    ensures |set x | x in s| <= |s|
  {
    if s != [] {
      var n := |s| - 1;
      SetOfSeqCard(s[..n]);
      assert (set x | x in s) == (set x | x in s[..n]) + {s[n]} by {
        assert s == s[..n] + [s[n]];
      }
    }
  }

  /** Over items that are pairwise distinct, the hits are as many as the distinct relevant
      items retrieved. */
  lemma {:induction false} HitsCard(xs: seq<int>, relevant: seq<int>)
    requires Distinct(xs)
    ensures Hits(xs, relevant) == |HitSet(xs, relevant)|
  {
    if xs != [] {
      var n := |xs| - 1;
      var p := xs[..n];
      assert Distinct(p) by {
        forall i, j | 0 <= i < j < n ensures p[i] != p[j] {
          assert p[i] == xs[i] && p[j] == xs[j];
        }
      }
      HitsCard(p, relevant);
      assert xs == p + [xs[n]];
      assert xs[n] !in p by {
        forall i | 0 <= i < n ensures p[i] != xs[n] {
          assert p[i] == xs[i];
        }
      }
      if xs[n] in relevant {
        assert HitSet(xs, relevant) == HitSet(p, relevant) + {xs[n]};
      } else {
        assert HitSet(xs, relevant) == HitSet(p, relevant);
      }
    }
  }

  /** Over pairwise distinct items, there are no more hits than relevant items. */
  lemma HitsAtMostRelevant(xs: seq<int>, relevant: seq<int>)
    requires Distinct(xs)
    ensures Hits(xs, relevant) <= |relevant|
  {
    HitsCard(xs, relevant);
    SetOfSeqCard(relevant);
    assert HitSet(xs, relevant) <= set x | x in relevant;
    SubsetCard(HitSet(xs, relevant), set x | x in relevant);
  }

  lemma SubsetCard(a: set<int>, b: set<int>)
    requires a <= b
    ensures |a| <= |b|
  {
    assert b == a + (b - a);
  }

  /** A prefix of pairwise distinct items is pairwise distinct. */
  lemma DistinctPrefix(xs: seq<int>, p: seq<int>)
    requires Distinct(xs) && p <= xs
    ensures Distinct(p)
  {
    forall i, j | 0 <= i < j < |p| ensures p[i] != p[j] {
      assert p[i] == xs[i] && p[j] == xs[j];
    }
  }

  /** `a / b` lies in [0, 1] when `0 <= a <= b` and `b > 0`. */
  lemma FractionBounds(a: real, b: real)
    requires 0.0 <= a <= b && b > 0.0
    ensures 0.0 <= a / b <= 1.0
  {
  }

  // ---------------------------------------------------------------------------
  // precision_at_k and recall_at_k

  /** `precision_at_k(relevant_items, retrieved_items, k)`; `None` is the `ZeroDivisionError`
      raised when the first `k` items are none at all. */
  function PrecisionAtK(relevant: seq<int>, retrieved: seq<int>, k: int): Option<real> {
    if retrieved == [] then Some(0.0)
    else
      var top := Take(retrieved, k);
      if top == [] then None else Some(Hits(top, relevant) as real / |top| as real)
  }

  /** An empty retrieved list scores 0; otherwise the score is defined exactly when the first
      `k` items are not empty (so `k = 0` fails), and it is a fraction in [0, 1]; with `k` at
      least the list's length it scores the whole list. */
  lemma PrecisionAtKSpec(relevant: seq<int>, retrieved: seq<int>, k: int)
    ensures retrieved == [] ==> PrecisionAtK(relevant, retrieved, k) == Some(0.0)
    ensures retrieved != [] ==> (PrecisionAtK(relevant, retrieved, k).None? <==> Take(retrieved, k) == [])
    ensures retrieved != [] && k == 0 ==> PrecisionAtK(relevant, retrieved, k).None?
    ensures retrieved != [] && k >= |retrieved| ==>
      PrecisionAtK(relevant, retrieved, k) == Some(Hits(retrieved, relevant) as real / |retrieved| as real)
    ensures PrecisionAtK(relevant, retrieved, k).Some? ==> 0.0 <= PrecisionAtK(relevant, retrieved, k).value <= 1.0
  {
    if retrieved != [] {
      var top := Take(retrieved, k);
      if k >= |retrieved| {
        assert top == retrieved;
      }
      if top != [] {
        FractionBounds(Hits(top, relevant) as real, |top| as real);
      }
    }
  }

  /** `recall_at_k(relevant_items, retrieved_items, k)` */
  function RecallAtK(relevant: seq<int>, retrieved: seq<int>, k: int): real {
    if relevant == [] then 0.0
    else Hits(Take(retrieved, k), relevant) as real / |relevant| as real
  }

  /** Recall is never negative, and at most 1 when the retrieved items are pairwise distinct. */
  lemma RecallAtKBounds(relevant: seq<int>, retrieved: seq<int>, k: int)
    ensures 0.0 <= RecallAtK(relevant, retrieved, k)
    ensures Distinct(retrieved) ==> RecallAtK(relevant, retrieved, k) <= 1.0
  {
    if relevant != [] {
      var top := Take(retrieved, k);
      if Distinct(retrieved) {
        DistinctPrefix(retrieved, top);
        HitsAtMostRelevant(top, relevant);
        FractionBounds(Hits(top, relevant) as real, |relevant| as real);
      }
    }
  }

  // ---------------------------------------------------------------------------
  // mean_average_precision

  /** The sum of a list of reals. */
  function Sum(xs: seq<real>): real {
    if xs == [] then 0.0 else Sum(xs[..|xs| - 1]) + xs[|xs| - 1]
  }

  lemma SumAppend(xs: seq<real>, x: real)
    ensures Sum(xs + [x]) == Sum(xs) + x
  {
    assert (xs + [x])[..|xs|] == xs;
  }

  /** `sum(average_precisions)` after the items of `xs`: at each hit, at 1-based rank `i`, the
      hits so far divided by `i`. */
  function PrecisionSum(xs: seq<int>, relevant: seq<int>): real {
    if xs == [] then 0.0
    else
      var n := |xs| - 1;
      PrecisionSum(xs[..n], relevant) + (if xs[n] in relevant then Hits(xs, relevant) as real / |xs| as real else 0.0)
  }

  /** `mean_average_precision(relevant_items, retrieved_items)` as a value. */
  function MeanAveragePrecisionOf(relevant: seq<int>, retrieved: seq<int>): real {
    if relevant == [] then 0.0
    else if Hits(retrieved, relevant) == 0 then 0.0
    else PrecisionSum(retrieved, relevant) / |relevant| as real
  }

  /** `mean_average_precision(relevant_items, retrieved_items)` */
  method MeanAveragePrecision(relevant: seq<int>, retrieved: seq<int>) returns (m: real)
    ensures m == MeanAveragePrecisionOf(relevant, retrieved)
  {
    if relevant == [] {
      return 0.0;
    }
    var averagePrecisions: seq<real> := [];
    var relevantCount := 0;
    for i := 0 to |retrieved|
      invariant relevantCount == Hits(retrieved[..i], relevant)
      invariant |averagePrecisions| == relevantCount
      invariant Sum(averagePrecisions) == PrecisionSum(retrieved[..i], relevant)
    {
      var item := retrieved[i];
      assert retrieved[..i + 1][..i] == retrieved[..i];
      if item in relevant {
        relevantCount := relevantCount + 1;
        var precisionAtI := relevantCount as real / (i + 1) as real;
        SumAppend(averagePrecisions, precisionAtI);
        averagePrecisions := averagePrecisions + [precisionAtI];
      }
    }
    assert retrieved[..|retrieved|] == retrieved;
    if averagePrecisions == [] {
      return 0.0;
    }
    return Sum(averagePrecisions) / |relevant| as real;
  }

  /** Each term is at most 1, so the sum is at most the number of hits. */
  lemma {:induction false} PrecisionSumBounds(xs: seq<int>, relevant: seq<int>)
    ensures 0.0 <= PrecisionSum(xs, relevant) <= Hits(xs, relevant) as real
  {
    if xs != [] {
      var n := |xs| - 1;
      PrecisionSumBounds(xs[..n], relevant);
      if xs[n] in relevant {
        FractionBounds(Hits(xs, relevant) as real, |xs| as real);
      }
    }
  }

  /** The score is never negative, and at most 1 when the retrieved items are pairwise
      distinct. */
  lemma MeanAveragePrecisionBounds(relevant: seq<int>, retrieved: seq<int>)
    ensures 0.0 <= MeanAveragePrecisionOf(relevant, retrieved)
    ensures Distinct(retrieved) ==> MeanAveragePrecisionOf(relevant, retrieved) <= 1.0
  {
    PrecisionSumBounds(retrieved, relevant);
    if relevant != [] && Hits(retrieved, relevant) != 0 {
      if Distinct(retrieved) {
        HitsAtMostRelevant(retrieved, relevant);
        FractionBounds(PrecisionSum(retrieved, relevant), |relevant| as real);
      } else {
        FractionBounds(0.0, |relevant| as real);
        assert PrecisionSum(retrieved, relevant) / |relevant| as real >= 0.0;
      }
    }
  }

  /** When every retrieved item is relevant, every rank is a hit with precision 1. */
  lemma {:induction false} AllHitsPrecisionSum(xs: seq<int>, relevant: seq<int>)
    requires forall i :: 0 <= i < |xs| ==> xs[i] in relevant
    ensures Hits(xs, relevant) == |xs|
    ensures PrecisionSum(xs, relevant) == |xs| as real
  {
    if xs != [] {
      var n := |xs| - 1;
      AllHitsPrecisionSum(xs[..n], relevant);
    }
  }

  /** A ranking whose items are all relevant scores its length over the number of relevant
      items; in particular it scores 1 when it lists as many items as are relevant. */
  lemma MeanAveragePrecisionAllHits(relevant: seq<int>, retrieved: seq<int>)
    requires retrieved != [] && forall i :: 0 <= i < |retrieved| ==> retrieved[i] in relevant
    ensures relevant != []
    ensures MeanAveragePrecisionOf(relevant, retrieved) == |retrieved| as real / |relevant| as real
    ensures |retrieved| == |relevant| ==> MeanAveragePrecisionOf(relevant, retrieved) == 1.0
  {
    assert retrieved[0] in relevant;
    AllHitsPrecisionSum(retrieved, relevant);
    FractionOne(|retrieved|, |relevant|);
  }

  // ---------------------------------------------------------------------------
  // f1_score

  /** `f1_score(precision, recall)` */
  function F1Score(precision: real, recall: real): real {
    if precision + recall == 0.0 then 0.0 else 2.0 * (precision * recall) / (precision + recall)
  }

  /** F1 is symmetric, equals the common value when both are equal, and for scores in [0, 1]
      lies between the smaller and the larger of the two. */
  lemma F1ScoreSpec(p: real, r: real)
    ensures F1Score(p, r) == F1Score(r, p)
    ensures F1Score(p, p) == p
    ensures 0.0 <= p <= r ==> p <= F1Score(p, r) <= r
    ensures 0.0 <= r <= p ==> r <= F1Score(p, r) <= p
  {
    if p + p != 0.0 {
      assert 2.0 * (p * p) == p * (p + p);
    }
    if 0.0 <= p <= r {
      F1Between(p, r);
    }
    if 0.0 <= r <= p {
      F1Between(r, p);
      assert p * r == r * p;
    }
  }

  lemma F1Between(lo: real, hi: real)
    requires 0.0 <= lo <= hi
    ensures lo <= F1Score(lo, hi) <= hi
  {
    if lo + hi != 0.0 {
      var s := lo + hi;
      var f := 2.0 * (lo * hi) / s;
      assert f * s == 2.0 * (lo * hi);
      assert lo * s <= 2.0 * (lo * hi) by {
        assert lo * s == lo * lo + lo * hi;
        assert lo * lo <= lo * hi;
      }
      assert 2.0 * (lo * hi) <= hi * s by {
        assert hi * s == lo * hi + hi * hi;
        assert lo * hi <= hi * hi;
      }
    }
  }

  // ---------------------------------------------------------------------------
  // entity_extraction_accuracy

  /** The (text, label) pairs of the entities, label defaulting to empty. */
  function Tagged(es: seq<ExtractedEntity>): set<(string, string)> {
    set e | e in es :: (e.text, e.entityLabel.GetOr(""))
  }

  /** `entity_extraction_accuracy(true_entities, predicted_entities)` */
  function ExtractionAccuracy(trueEs: seq<ExtractedEntity>, predicted: seq<ExtractedEntity>): real {
    if trueEs == [] then (if predicted != [] then 0.0 else 1.0)
    else
      var trueSet := Tagged(trueEs);
      var predSet := Tagged(predicted);
      var correct := |trueSet * predSet|;
      var total := |trueSet|;
      if total > 0 then correct as real / total as real else 0.0
  }

  /** With some true entities, the accuracy is in [0, 1]; it is 1 exactly when every true
      `(text, label)` pair is predicted, and 0 exactly when none is. */
  lemma ExtractionAccuracySpec(trueEs: seq<ExtractedEntity>, predicted: seq<ExtractedEntity>)
    requires trueEs != []
    ensures 0.0 <= ExtractionAccuracy(trueEs, predicted) <= 1.0
    ensures ExtractionAccuracy(trueEs, predicted) == 1.0 <==> Tagged(trueEs) <= Tagged(predicted)
    ensures ExtractionAccuracy(trueEs, predicted) == 0.0 <==> Tagged(trueEs) !! Tagged(predicted)
  {
    var t := Tagged(trueEs);
    var p := Tagged(predicted);
    var e := trueEs[0];
    assert (e.text, e.entityLabel.GetOr("")) in t;
    var c := t * p;
    SubsetCardPairs(c, t);
    FractionBounds(|c| as real, |t| as real);
    assert ExtractionAccuracy(trueEs, predicted) == |c| as real / |t| as real;
    FractionOne(|c|, |t|);
    FractionZero(|c|, |t|);
    AllCommon(t, p);
    NoneCommon(t, p);
  }

  lemma FractionOne(a: nat, b: nat)
    requires b > 0
    ensures a as real / b as real == 1.0 <==> a == b
  {
    if a as real / b as real == 1.0 {
      assert (a as real / b as real) * (b as real) == a as real;
    }
  }

  lemma FractionZero(a: nat, b: nat)
    requires b > 0
    ensures a as real / b as real == 0.0 <==> a == 0
  {
    if a as real / b as real == 0.0 {
      assert (a as real / b as real) * (b as real) == a as real;
    }
  }

  lemma AllCommon(t: set<(string, string)>, p: set<(string, string)>)
    ensures |t * p| == |t| <==> t <= p
  {
    SubsetCardPairs(t * p, t);
    if |t * p| == |t| {
      assert |t - t * p| == 0;
      assert t - t * p == {};
    }
    if t <= p {
      assert t * p == t;
    }
  }

  lemma NoneCommon(t: set<(string, string)>, p: set<(string, string)>)
    ensures |t * p| == 0 <==> t !! p
  {
    if |t * p| == 0 {
      assert t * p == {};
      forall x | x in t ensures x !in p {
        assert x !in t * p;
      }
    }
    if t !! p {
      var c := t * p;
      assert forall x :: x !in c;
      assert c == {};
    }
  }

  lemma SubsetCardPairs(a: set<(string, string)>, b: set<(string, string)>)
    requires a <= b
    ensures |a| <= |b| && |b - a| == |b| - |a|
  {
    assert b == a + (b - a);
  }
}
