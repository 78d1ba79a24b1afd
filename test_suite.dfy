/** `TestSuite` (src/evaluation/test_suite.py): per-case metrics collected into lists, then
    averaged, for entity extraction and for retrieval, and the overall score. */
module TestSuite {
  import opened Wrappers
  import opened PyStr
  import opened Records
  import opened Metrics

  /** One extraction test case: `true_entities` and `predicted_entities`. */
  datatype ExtractionCase = ExtractionCase(trueEntities: seq<ExtractedEntity>, predictedEntities: seq<ExtractedEntity>)

  /** One retrieval test case: `relevant_items` and `retrieved_items`. */
  datatype RetrievalCase = RetrievalCase(relevantItems: seq<int>, retrievedItems: seq<int>)

  /** The averages `test_entity_extraction` returns. */
  datatype ExtractionReport = ExtractionReport(accuracy: real, precision: real, recall: real, f1: real)

  /** The averages `test_retrieval` returns. */
  datatype RetrievalReport = RetrievalReport(precisionAt5: real, precisionAt10: real, recallAt10: real, meanAveragePrecision: real)

  /** What `run_complete_suite` returns. */
  datatype SuiteReport = SuiteReport(entityExtraction: ExtractionReport, retrieval: RetrievalReport, overallScore: real)

  /** `list(range(n))` */
  function Range(n: nat): (r: seq<int>)
    ensures |r| == n && forall i :: 0 <= i < n ==> r[i] == i
  {
    seq(n, i => i)
  }

  /** `sum(xs) / len(xs) if xs else 0` */
  function Average(xs: seq<real>): real {
    if xs == [] then 0.0 else Sum(xs) / |xs| as real
  }

  // ---------------------------------------------------------------------------
  // Per-case figures

  /** Among the first `m` indices, `min(n, m)` are below `n`. */
  lemma {:induction false} RangeHits(n: nat, m: nat)
    ensures Hits(Range(m), Range(n)) == if n <= m then n else m
  {
    if m > 0 {
      RangeHits(n, m - 1);
      assert Range(m)[..m - 1] == Range(m - 1);
      assert (m - 1 in Range(n)) <==> m - 1 < n by {
        if m - 1 < n {
          assert Range(n)[m - 1] == m - 1;
        }
      }
    }
  }

  /** Precision when only the index ranges of the two lists are compared. */
  function CasePrecision(c: ExtractionCase): real {
    var m := |c.predictedEntities|;
    var p := PrecisionAtK(Range(|c.trueEntities|), Range(m), m);
    PrecisionAtFullLength(Range(|c.trueEntities|), Range(m));
    p.value
  }

  /** Recall when only the index ranges of the two lists are compared. */
  function CaseRecall(c: ExtractionCase): real {
    var m := |c.predictedEntities|;
    RecallAtK(Range(|c.trueEntities|), Range(m), m)
  }

  function CaseAccuracy(c: ExtractionCase): real {
    ExtractionAccuracy(c.trueEntities, c.predictedEntities)
  }

  function CaseF1(c: ExtractionCase): real {
    F1Score(CasePrecision(c), CaseRecall(c))
  }

  /** Precision at the full length of a list is always defined. */
  lemma PrecisionAtFullLength(relevant: seq<int>, retrieved: seq<int>)
    ensures PrecisionAtK(relevant, retrieved, |retrieved|).Some?
  {
    assert Take(retrieved, |retrieved|) == retrieved;
  }

  /** With `n` true and `m` predicted entities, precision is `min(n, m) / m` (0 when nothing is
      predicted) and recall `min(n, m) / n` (0 when nothing is true): the entities themselves
      are never compared. */
  lemma CasePrecisionRecall(c: ExtractionCase)
    ensures var n, m := |c.trueEntities|, |c.predictedEntities|;
      var common := if n <= m then n else m;
      CasePrecision(c) == (if m == 0 then 0.0 else common as real / m as real) &&
      CaseRecall(c) == (if n == 0 then 0.0 else common as real / n as real)
  {
    var n, m := |c.trueEntities|, |c.predictedEntities|;
    RangeHits(n, m);
    assert Take(Range(m), m) == Range(m);
  }

  /** Every per-case extraction figure lies in [0, 1]. */
  lemma CaseFiguresBounds(c: ExtractionCase)
    ensures 0.0 <= CaseAccuracy(c) <= 1.0
    ensures 0.0 <= CasePrecision(c) <= 1.0
    ensures 0.0 <= CaseRecall(c) <= 1.0
    ensures 0.0 <= CaseF1(c) <= 1.0
  {
    if c.trueEntities != [] {
      ExtractionAccuracySpec(c.trueEntities, c.predictedEntities);
    }
    var n, m := |c.trueEntities|, |c.predictedEntities|;
    CasePrecisionRecall(c);
    var common := if n <= m then n else m;
    if m > 0 {
      FractionBounds(common as real, m as real);
    }
    if n > 0 {
      FractionBounds(common as real, n as real);
    }
    F1ScoreSpec(CasePrecision(c), CaseRecall(c));
  }

  /** Precision at a positive `k` is always defined. */
  lemma PrecisionAtPositiveK(relevant: seq<int>, retrieved: seq<int>, k: nat)
    requires k > 0
    ensures PrecisionAtK(relevant, retrieved, k).Some?
  {
    if retrieved != [] {
      assert Take(retrieved, k)[0] == retrieved[0];
    }
  }

  function CasePrecisionAt(c: RetrievalCase, k: nat): real
    requires k > 0
  {
    PrecisionAtPositiveK(c.relevantItems, c.retrievedItems, k);
    PrecisionAtK(c.relevantItems, c.retrievedItems, k).value
  }

  // ---------------------------------------------------------------------------
  // The lists the loops collect

  function Accuracies(cases: seq<ExtractionCase>): (r: seq<real>)
    ensures |r| == |cases| && forall i :: 0 <= i < |cases| ==> r[i] == CaseAccuracy(cases[i])
  {
    seq(|cases|, i requires 0 <= i < |cases| => CaseAccuracy(cases[i]))
  }

  function Precisions(cases: seq<ExtractionCase>): (r: seq<real>)
    ensures |r| == |cases| && forall i :: 0 <= i < |cases| ==> r[i] == CasePrecision(cases[i])
  {
    seq(|cases|, i requires 0 <= i < |cases| => CasePrecision(cases[i]))
  }

  function Recalls(cases: seq<ExtractionCase>): (r: seq<real>)
    ensures |r| == |cases| && forall i :: 0 <= i < |cases| ==> r[i] == CaseRecall(cases[i])
  {
    seq(|cases|, i requires 0 <= i < |cases| => CaseRecall(cases[i]))
  }

  function F1Scores(cases: seq<ExtractionCase>): (r: seq<real>)
    ensures |r| == |cases| && forall i :: 0 <= i < |cases| ==> r[i] == CaseF1(cases[i])
  {
    seq(|cases|, i requires 0 <= i < |cases| => CaseF1(cases[i]))
  }

  function PrecisionsAt(cases: seq<RetrievalCase>, k: nat): (r: seq<real>)
    requires k > 0
    ensures |r| == |cases| && forall i :: 0 <= i < |cases| ==> r[i] == CasePrecisionAt(cases[i], k)
  {
    seq(|cases|, i requires 0 <= i < |cases| => CasePrecisionAt(cases[i], k))
  }

  function RecallsAt10(cases: seq<RetrievalCase>): (r: seq<real>)
    ensures |r| == |cases| &&
      forall i :: 0 <= i < |cases| ==> r[i] == RecallAtK(cases[i].relevantItems, cases[i].retrievedItems, 10)
  {
    seq(|cases|, i requires 0 <= i < |cases| => RecallAtK(cases[i].relevantItems, cases[i].retrievedItems, 10))
  }

  function AveragePrecisions(cases: seq<RetrievalCase>): (r: seq<real>)
    ensures |r| == |cases| &&
      forall i :: 0 <= i < |cases| ==> r[i] == MeanAveragePrecisionOf(cases[i].relevantItems, cases[i].retrievedItems)
  {
    seq(|cases|, i requires 0 <= i < |cases| => MeanAveragePrecisionOf(cases[i].relevantItems, cases[i].retrievedItems))
  }

  // ---------------------------------------------------------------------------
  // The loops

  /** `test_entity_extraction(test_cases)` */
  method TestEntityExtraction(cases: seq<ExtractionCase>) returns (r: ExtractionReport)
    ensures r.accuracy == Average(Accuracies(cases))
    ensures r.precision == Average(Precisions(cases))
    ensures r.recall == Average(Recalls(cases))
    ensures r.f1 == Average(F1Scores(cases))
  {
    var accuracy: seq<real> := [];
    var precision: seq<real> := [];
    var recall: seq<real> := [];
    var f1: seq<real> := [];
    for i := 0 to |cases|
      invariant |accuracy| == |precision| == |recall| == |f1| == i
      invariant forall j :: 0 <= j < i ==> accuracy[j] == CaseAccuracy(cases[j])
      invariant forall j :: 0 <= j < i ==> precision[j] == CasePrecision(cases[j])
      invariant forall j :: 0 <= j < i ==> recall[j] == CaseRecall(cases[j])
      invariant forall j :: 0 <= j < i ==> f1[j] == CaseF1(cases[j])
    {
      var a, p, rc, f := ScoreExtractionCase(cases[i]);
      accuracy := accuracy + [a];
      precision := precision + [p];
      recall := recall + [rc];
      f1 := f1 + [f];
    }
    assert accuracy == Accuracies(cases);
    assert precision == Precisions(cases);
    assert recall == Recalls(cases);
    assert f1 == F1Scores(cases);
    r := ExtractionReport(Average(accuracy), Average(precision), Average(recall), Average(f1));
  }

  /** The figures `test_entity_extraction` computes for one case. */
  method ScoreExtractionCase(testCase: ExtractionCase) returns (a: real, p: real, rc: real, f: real)
    ensures a == CaseAccuracy(testCase) && p == CasePrecision(testCase)
    ensures rc == CaseRecall(testCase) && f == CaseF1(testCase)
  {
    var trueEntities := testCase.trueEntities;
    var predictedEntities := testCase.predictedEntities;
    a := ExtractionAccuracy(trueEntities, predictedEntities);
    var trueIds := Range(|trueEntities|);
    var predIds := Range(|predictedEntities|);
    PrecisionAtFullLength(trueIds, predIds);
    p := PrecisionAtK(trueIds, predIds, |predIds|).value;
    rc := RecallAtK(trueIds, predIds, |predIds|);
    f := F1Score(p, rc);
  }

  /** `test_retrieval(test_cases)` */
  method TestRetrieval(cases: seq<RetrievalCase>) returns (r: RetrievalReport)
    ensures r.precisionAt5 == Average(PrecisionsAt(cases, 5))
    ensures r.precisionAt10 == Average(PrecisionsAt(cases, 10))
    ensures r.recallAt10 == Average(RecallsAt10(cases))
    ensures r.meanAveragePrecision == Average(AveragePrecisions(cases))
  {
    var pAt5: seq<real> := [];
    var pAt10: seq<real> := [];
    var rAt10: seq<real> := [];
    var maps: seq<real> := [];
    for i := 0 to |cases|
      invariant |pAt5| == |pAt10| == |rAt10| == |maps| == i
      invariant forall j :: 0 <= j < i ==> pAt5[j] == CasePrecisionAt(cases[j], 5)
      invariant forall j :: 0 <= j < i ==> pAt10[j] == CasePrecisionAt(cases[j], 10)
      invariant forall j :: 0 <= j < i ==> rAt10[j] == RecallAtK(cases[j].relevantItems, cases[j].retrievedItems, 10)
      invariant forall j :: 0 <= j < i ==> maps[j] == MeanAveragePrecisionOf(cases[j].relevantItems, cases[j].retrievedItems)
    {
      var relevantItems := cases[i].relevantItems;
      var retrievedItems := cases[i].retrievedItems;
      PrecisionAtPositiveK(relevantItems, retrievedItems, 5);
      PrecisionAtPositiveK(relevantItems, retrievedItems, 10);
      var p5 := PrecisionAtK(relevantItems, retrievedItems, 5).value;
      var p10 := PrecisionAtK(relevantItems, retrievedItems, 10).value;
      var r10 := RecallAtK(relevantItems, retrievedItems, 10);
      var mapScore := MeanAveragePrecision(relevantItems, retrievedItems);
      pAt5 := pAt5 + [p5];
      pAt10 := pAt10 + [p10];
      rAt10 := rAt10 + [r10];
      maps := maps + [mapScore];
    }
    assert pAt5 == PrecisionsAt(cases, 5);
    assert pAt10 == PrecisionsAt(cases, 10);
    assert rAt10 == RecallsAt10(cases);
    assert maps == AveragePrecisions(cases);
    r := RetrievalReport(Average(pAt5), Average(pAt10), Average(rAt10), Average(maps));
  }

  /** `run_complete_suite(extraction_cases, retrieval_cases)` */
  method RunCompleteSuite(extractionCases: seq<ExtractionCase>, retrievalCases: seq<RetrievalCase>)
    returns (r: SuiteReport)
    // the two reports are those of test_entity_extraction and test_retrieval on the inputs
    ensures r.entityExtraction == ExtractionReport(
              Average(Accuracies(extractionCases)), Average(Precisions(extractionCases)),
              Average(Recalls(extractionCases)), Average(F1Scores(extractionCases)))
    ensures r.retrieval == RetrievalReport(
              Average(PrecisionsAt(retrievalCases, 5)), Average(PrecisionsAt(retrievalCases, 10)),
              Average(RecallsAt10(retrievalCases)), Average(AveragePrecisions(retrievalCases)))
    // the overall score is the mean of the average F1 and the mean average precision
    ensures r.overallScore == (Average(F1Scores(extractionCases)) + Average(AveragePrecisions(retrievalCases))) / 2.0
    ensures r.overallScore == (r.entityExtraction.f1 + r.retrieval.meanAveragePrecision) / 2.0
    ensures 0.0 <= r.overallScore
    ensures (forall i :: 0 <= i < |retrievalCases| ==> Distinct(retrievalCases[i].retrievedItems)) ==>
      r.overallScore <= 1.0
    ensures extractionCases == [] ==> r.entityExtraction == ExtractionReport(0.0, 0.0, 0.0, 0.0)
    ensures retrievalCases == [] ==> r.retrieval == RetrievalReport(0.0, 0.0, 0.0, 0.0)
  {
    var extractionResults := TestEntityExtraction(extractionCases);
    var retrievalResults := TestRetrieval(retrievalCases);
    ExtractionBounds(extractionCases);
    MapBounds(retrievalCases);
    r := SuiteReport(extractionResults, retrievalResults, (extractionResults.f1 + retrievalResults.meanAveragePrecision) / 2.0);
  }

  // ---------------------------------------------------------------------------
  // Bounds of the averages

  /** The average of nonnegative figures is nonnegative, and at most 1 when every figure is. */
  lemma AverageBounds(xs: seq<real>)
    requires forall i :: 0 <= i < |xs| ==> 0.0 <= xs[i]
    ensures 0.0 <= Average(xs)
    ensures (forall i :: 0 <= i < |xs| ==> xs[i] <= 1.0) ==> Average(xs) <= 1.0
  {
    if xs != [] {
      SumBounds(xs);
      if forall i :: 0 <= i < |xs| ==> xs[i] <= 1.0 {
        FractionBounds(Sum(xs), |xs| as real);
      }
    }
  }

  lemma {:induction false} SumBounds(xs: seq<real>)
    requires forall i :: 0 <= i < |xs| ==> 0.0 <= xs[i]
    ensures 0.0 <= Sum(xs)
    ensures (forall i :: 0 <= i < |xs| ==> xs[i] <= 1.0) ==> Sum(xs) <= |xs| as real
  {
    if xs != [] {
      var n := |xs| - 1;
      assert forall i :: 0 <= i < n ==> xs[..n][i] == xs[i];
      SumBounds(xs[..n]);
    }
  }

  /** Every average `test_entity_extraction` reports lies in [0, 1]. */
  lemma ExtractionBounds(cases: seq<ExtractionCase>)
    ensures 0.0 <= Average(Accuracies(cases)) <= 1.0
    ensures 0.0 <= Average(Precisions(cases)) <= 1.0
    ensures 0.0 <= Average(Recalls(cases)) <= 1.0
    ensures 0.0 <= Average(F1Scores(cases)) <= 1.0
  {
    forall i | 0 <= i < |cases| {
      CaseFiguresBounds(cases[i]);
    }
    AverageBounds(Accuracies(cases));
    AverageBounds(Precisions(cases));
    AverageBounds(Recalls(cases));
    AverageBounds(F1Scores(cases));
  }

  /** The reported mean average precision is nonnegative, and at most 1 when no retrieved list
      repeats an item. */
  lemma MapBounds(cases: seq<RetrievalCase>)
    ensures 0.0 <= Average(AveragePrecisions(cases))
    ensures (forall i :: 0 <= i < |cases| ==> Distinct(cases[i].retrievedItems)) ==>
      Average(AveragePrecisions(cases)) <= 1.0
  {
    var xs := AveragePrecisions(cases);
    forall i | 0 <= i < |cases|
      ensures 0.0 <= xs[i]
      ensures Distinct(cases[i].retrievedItems) ==> xs[i] <= 1.0
    {
      MeanAveragePrecisionBounds(cases[i].relevantItems, cases[i].retrievedItems);
    }
    AverageBounds(xs);
  }
}
