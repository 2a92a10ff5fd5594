/**
 The sweep of a confidence cutoff over the findings (`threshold_sweep` in dlp_harness/metrics.py), scored through
 `match_corpus`.
 */
module ThresholdSweep {
  import opened Options
  import opened Matching
  import opened Metrics
  import opened MetricLaws

  type Findings = map<string, seq<Finding>>

  // ---- What a cutoff keeps, and how the corpus is scored -----------------------------------------------------------

  /** Only the findings of the GLiNER scanner are subject to the cutoff. */
  predicate Survives(f: Finding, t: real) {
    f.scanner != "gliner" || f.confidence >= t
  }

  function Filter(fs: seq<Finding>, t: real): seq<Finding> {
    if fs == [] then [] else
      Filter(fs[..|fs| - 1], t) + if Survives(fs[|fs| - 1], t) then [fs[|fs| - 1]] else []
  }

  function FilterAll(findings: Findings, t: real): Findings {
    map id | id in findings :: Filter(findings[id], t)
  }

  /** A document without an entry has no findings. */
  function FindingsFor(findings: Findings, id: string): seq<Finding> {
    if id in findings then findings[id] else []
  }

  /** `match_corpus`; `errors` holds the documents whose scan failed. */
  function EvaluateAll(docs: seq<Document>, findings: Findings, errors: set<string>, iou: real): seq<DocEval> {
    if docs == [] then [] else
      var doc := docs[|docs| - 1];
      EvaluateAll(docs[..|docs| - 1], findings, errors, iou)
      + [Evaluate(doc, FindingsFor(findings, doc.id), doc.id in errors, iou)]
  }

  function ScoredAt(docs: seq<Document>, findings: Findings, errors: set<string>, t: real): seq<DocEval> {
    EvaluateAll(docs, FilterAll(findings, t), errors, 0.0)
  }

  datatype SweepPoint = SweepPoint(
    threshold: real, spanPrecision: Option<real>, spanRecall: Option<real>, spanF1: Option<real>,
    docPrecision: Option<real>, docRecall: Option<real>, docSpecificity: Option<real>, docFpr: Option<real>)

  function PointOf(t: real, span: Cell, doc: DocCell): SweepPoint {
    SweepPoint(t, Precision(span), Recall(span), CellF1(span),
               Ratio(doc.tp, doc.tp + doc.fp), Ratio(doc.tp, doc.tp + doc.fn), Ratio(doc.tn, doc.tn + doc.fp),
               Ratio(doc.fp, doc.fp + doc.tn))
  }

  function PointAt(docs: seq<Document>, findings: Findings, errors: set<string>, t: real): SweepPoint {
    var evals := ScoredAt(docs, findings, errors, t);
    PointOf(t, CellOf(evals, None, false), DocCounts(evals))
  }

  /** `k` is the first of the points with the highest F1. */
  predicate IsBest(points: seq<SweepPoint>, k: nat) {
    && k < |points| && points[k].spanF1.Some?
    && forall i | 0 <= i < |points| && points[i].spanF1.Some? ::
         points[i].spanF1.value <= points[k].spanF1.value
         && (i < k ==> points[i].spanF1.value < points[k].spanF1.value)
  }

  function PrPairs(points: seq<SweepPoint>): seq<(Option<real>, Option<real>)> {
    seq(|points|, i requires 0 <= i < |points| => (points[i].spanRecall, points[i].spanPrecision))
  }

  function RocPairs(points: seq<SweepPoint>): seq<(Option<real>, Option<real>)> {
    seq(|points|, i requires 0 <= i < |points| => (points[i].docFpr, points[i].docRecall))
  }

  // ---- The loops ---------------------------------------------------------------------------------------------------

  method MatchCorpus(docs: seq<Document>, findings: Findings, errors: set<string>, iou: real)
    returns (evals: seq<DocEval>)
    ensures evals == EvaluateAll(docs, findings, errors, iou)
  {
    evals := [];
    for i := 0 to |docs|
      invariant evals == EvaluateAll(docs[..i], findings, errors, iou)
    {
      assert docs[..i + 1][..i] == docs[..i];
      var ev := MatchDocument(docs[i], FindingsFor(findings, docs[i].id), docs[i].id in errors, iou);
      evals := evals + [ev];
    }
    assert docs[..|docs|] == docs;
  }

  /** One turn of the sweep. */
  method ScorePoint(docs: seq<Document>, findings: Findings, errors: set<string>, t: real) returns (point: SweepPoint)
    ensures point == PointAt(docs, findings, errors, t)
  {
    var evals := MatchCorpus(docs, FilterAll(findings, t), errors, 0.0);
    var _, span := SpanConfusion(evals, false);
    var doc := DocConfusion(evals);
    point := PointOf(t, span, doc);
  }

  method ScoreAll(docs: seq<Document>, findings: Findings, errors: set<string>, thresholds: seq<real>)
    returns (points: seq<SweepPoint>)
    ensures points
            == seq(|thresholds|, i requires 0 <= i < |thresholds| => PointAt(docs, findings, errors, thresholds[i]))
  {
    points := [];
    for i := 0 to |thresholds|
      invariant |points| == i
      invariant forall k | 0 <= k < i :: points[k] == PointAt(docs, findings, errors, thresholds[k])
    {
      var point := ScorePoint(docs, findings, errors, thresholds[i]);
      points := points + [point];
    }
  }

  method FirstBest(points: seq<SweepPoint>) returns (best: Option<nat>)
    ensures best.Some? ==> IsBest(points, best.value)
    ensures best.None? ==> forall i | 0 <= i < |points| :: points[i].spanF1.None?
  {
    best := None;
    for i := 0 to |points|
      invariant best.Some? ==> IsBest(points[..i], best.value)
      invariant best.None? ==> forall k | 0 <= k < i :: points[k].spanF1.None?
    {
      if points[i].spanF1.Some? && (best.None? || points[i].spanF1.value > points[best.value].spanF1.value) {
        best := Some(i);
      }
    }
    assert points[..|points|] == points;
  }

  method Sweep(docs: seq<Document>, findings: Findings, errors: set<string>, thresholds: seq<real>)
    returns (points: seq<SweepPoint>, best: Option<nat>, prAuc: Option<real>, rocAuc: Option<real>)
    ensures points
            == seq(|thresholds|, i requires 0 <= i < |thresholds| => PointAt(docs, findings, errors, thresholds[i]))
    ensures best.Some? ==> IsBest(points, best.value)
    ensures best.None? ==> forall i | 0 <= i < |points| :: points[i].spanF1.None?
    ensures prAuc == TrapezoidAuc(PrPairs(points)) && rocAuc == TrapezoidAuc(RocPairs(points))
  {
    points := ScoreAll(docs, findings, errors, thresholds);
    best := FirstBest(points);
    prAuc, rocAuc := TrapezoidAuc(PrPairs(points)), TrapezoidAuc(RocPairs(points));
  }

  // ---- Raising the cutoff ------------------------------------------------------------------------------------------

  lemma {:induction false} FilterKeeps(fs: seq<Finding>, t: real, t1: real)
    requires t <= t1
    ensures forall f | f in Filter(fs, t1) :: f in Filter(fs, t)
    ensures |Filter(fs, t1)| <= |Filter(fs, t)|
  {
    if fs != [] {
      FilterKeeps(fs[..|fs| - 1], t, t1);
    }
  }

  lemma FateSnoc(fs: seq<Finding>, f: Finding, entities: seq<Entity>, iou: real, fate: Fate, cat: Option<string>)
    ensures CountFindings(WithFate(fs + [f], entities, iou, fate), cat)
            == CountFindings(WithFate(fs, entities, iou, fate), cat)
               + if FateOf(f, entities, iou) == fate && Selects(cat, Claimed(f)) then 1 else 0
  {
    assert (fs + [f])[..|fs|] == fs;
    assert (WithFate(fs, entities, iou, fate) + [f])[..|WithFate(fs, entities, iou, fate)|]
           == WithFate(fs, entities, iou, fate);
  }

  lemma FilteredFates(fs: seq<Finding>, t: real, entities: seq<Entity>, iou: real, fate: Fate, cat: Option<string>)
    requires fs != []
    ensures
      var front, f := fs[..|fs| - 1], fs[|fs| - 1];
      CountFindings(WithFate(Filter(fs, t), entities, iou, fate), cat)
      == CountFindings(WithFate(Filter(front, t), entities, iou, fate), cat)
         + if Survives(f, t) && FateOf(f, entities, iou) == fate && Selects(cat, Claimed(f)) then 1 else 0
  {
    var kept, f := Filter(fs[..|fs| - 1], t), fs[|fs| - 1];
    if Survives(f, t) {
      FateSnoc(kept, f, entities, iou, fate, cat);
    } else {
      assert kept + [] == kept;
    }
  }

  /** Of the findings with a given fate, a higher cutoff leaves no more, in any category. */
  lemma {:induction false} FatesShrink(fs: seq<Finding>, t: real, t1: real, entities: seq<Entity>, iou: real,
                                       fate: Fate, cat: Option<string>)
    requires t <= t1
    ensures CountFindings(WithFate(Filter(fs, t1), entities, iou, fate), cat)
            <= CountFindings(WithFate(Filter(fs, t), entities, iou, fate), cat)
  {
    if fs != [] {
      var front, f := fs[..|fs| - 1], fs[|fs| - 1];
      FatesShrink(front, t, t1, entities, iou, fate, cat);
      FilteredFates(fs, t, entities, iou, fate, cat);
      FilteredFates(fs, t1, entities, iou, fate, cat);
    }
  }

  /** An entity detected with fewer findings is detected with more. */
  lemma DetectionGrows(e: Entity, fewer: seq<Finding>, more: seq<Finding>, entities: seq<Entity>, iou: real,
                       strict: bool)
    requires forall f | f in fewer :: f in more
    ensures Detected(MatchEntity(e, fewer, entities, iou), strict) ==>
              Detected(MatchEntity(e, more, entities, iou), strict)
  {
    forall i | 0 <= i < |fewer| && Hits(fewer[i], e, entities, iou)
      ensures exists k | 0 <= k < |more| :: more[k] == fewer[i] && Hits(more[k], e, entities, iou)
    {
      assert fewer[i] in more;
    }
  }

  /** Pointwise the same entities, detected on the left only if on the right. */
  predicate DetectsLess(a: seq<EntityMatch>, b: seq<EntityMatch>, strict: bool) {
    |a| == |b| && forall i | 0 <= i < |a| ::
      a[i].entity == b[i].entity && (Detected(a[i], strict) ==> Detected(b[i], strict))
  }

  lemma {:induction false} DetectsLessCounts(a: seq<EntityMatch>, b: seq<EntityMatch>, cat: Option<string>,
                                             strict: bool)
    requires DetectsLess(a, b, strict)
    ensures CountEntities(a, cat, TP, strict) <= CountEntities(b, cat, TP, strict)
    ensures CountEntities(a, cat, TP, strict) + CountEntities(a, cat, FN, strict)
            == CountEntities(b, cat, TP, strict) + CountEntities(b, cat, FN, strict)
  {
    if a != [] {
      var n := |a| - 1;
      DetectsLessCounts(a[..n], b[..n], cat, strict);
      assert a[n].entity == b[n].entity;
    }
  }

  /** `less` detects no more and claims no more than `more`, over the same entities. */
  predicate Below(less: Cell, more: Cell) {
    less.tp + less.fn == more.tp + more.fn && less.tp <= more.tp && less.fp <= more.fp
  }

  lemma DocCellBelow(doc: Document, fs: seq<Finding>, scanError: bool, t: real, t1: real, iou: real,
                     cat: Option<string>, strict: bool)
    requires t <= t1
    ensures
      var less, more := Evaluate(doc, Filter(fs, t1), scanError, iou), Evaluate(doc, Filter(fs, t), scanError, iou);
      && CountDoc(less, cat, TP, strict) + CountDoc(less, cat, FN, strict)
         == CountDoc(more, cat, TP, strict) + CountDoc(more, cat, FN, strict)
      && CountDoc(less, cat, TP, strict) <= CountDoc(more, cat, TP, strict)
      && CountDoc(less, cat, FP, strict) <= CountDoc(more, cat, FP, strict)
  {
    var less, more := Evaluate(doc, Filter(fs, t1), scanError, iou), Evaluate(doc, Filter(fs, t), scanError, iou);
    FilterKeeps(fs, t, t1);
    forall i | 0 <= i < |doc.entities|
      ensures Detected(less.entityMatches[i], strict) ==> Detected(more.entityMatches[i], strict)
    {
      DetectionGrows(doc.entities[i], Filter(fs, t1), Filter(fs, t), doc.entities, iou, strict);
    }
    DetectsLessCounts(less.entityMatches, more.entityMatches, cat, strict);
    FatesShrink(fs, t, t1, doc.entities, iou, FalsePositive, cat);
    FatesShrink(fs, t, t1, doc.entities, iou, Mislabeled, cat);
  }

  lemma FilteredFor(findings: Findings, id: string, t: real)
    ensures FindingsFor(FilterAll(findings, t), id) == Filter(FindingsFor(findings, id), t)
  {
  }

  /**
   Raising the cutoff detects no more entities and leaves no more false positives, in any category and in both modes.
   */
  lemma {:induction false} RaisingShrinksSpans(docs: seq<Document>, findings: Findings, errors: set<string>, t: real,
                                               t1: real, cat: Option<string>, strict: bool)
    requires t <= t1
    ensures Below(CellOf(ScoredAt(docs, findings, errors, t1), cat, strict),
                  CellOf(ScoredAt(docs, findings, errors, t), cat, strict))
  {
    if docs != [] {
      var doc := docs[|docs| - 1];
      RaisingShrinksSpans(docs[..|docs| - 1], findings, errors, t, t1, cat, strict);
      FilteredFor(findings, doc.id, t);
      FilteredFor(findings, doc.id, t1);
      DocCellBelow(doc, FindingsFor(findings, doc.id), doc.id in errors, t, t1, 0.0, cat, strict);
    }
  }

  predicate FlagsLess(less: DocEval, more: DocEval) {
    less.scanError == more.scanError && less.isClean == more.isClean && (less.flagged ==> more.flagged)
  }

  lemma {:induction false} FlagCounts(a: seq<DocEval>, b: seq<DocEval>)
    requires |a| == |b| && forall i | 0 <= i < |a| :: FlagsLess(a[i], b[i])
    ensures CountDocs(a, TruePos) <= CountDocs(b, TruePos) && CountDocs(a, FalsePos) <= CountDocs(b, FalsePos)
    ensures CountDocs(a, TruePos) + CountDocs(a, FalseNeg) == CountDocs(b, TruePos) + CountDocs(b, FalseNeg)
    ensures CountDocs(a, FalsePos) + CountDocs(a, TrueNeg) == CountDocs(b, FalsePos) + CountDocs(b, TrueNeg)
    ensures CountDocs(a, ScanError) == CountDocs(b, ScanError)
  {
    if a != [] {
      var n := |a| - 1;
      FlagCounts(a[..n], b[..n]);
      assert FlagsLess(a[n], b[n]);
    }
  }

  lemma {:induction false} RaisingFlagsLess(docs: seq<Document>, findings: Findings, errors: set<string>, t: real,
                                            t1: real)
    requires t <= t1
    ensures
      var less, more := ScoredAt(docs, findings, errors, t1), ScoredAt(docs, findings, errors, t);
      |less| == |more| && forall i | 0 <= i < |less| :: FlagsLess(less[i], more[i])
  {
    if docs != [] {
      var doc := docs[|docs| - 1];
      RaisingFlagsLess(docs[..|docs| - 1], findings, errors, t, t1);
      FilteredFor(findings, doc.id, t);
      FilteredFor(findings, doc.id, t1);
      FilterKeeps(FindingsFor(findings, doc.id), t, t1);
    }
  }

  /** Raising the cutoff flags no more documents, dirty or clean, and leaves the populations as they are. */
  lemma RaisingFlagsFewer(docs: seq<Document>, findings: Findings, errors: set<string>, t: real, t1: real)
    requires t <= t1
    ensures
      var less, more := DocCounts(ScoredAt(docs, findings, errors, t1)), DocCounts(ScoredAt(docs, findings, errors, t));
      && less.tp <= more.tp && less.fp <= more.fp && less.scanErrors == more.scanErrors
      && less.tp + less.fn == more.tp + more.fn && less.fp + less.tn == more.fp + more.tn
  {
    RaisingFlagsLess(docs, findings, errors, t, t1);
    FlagCounts(ScoredAt(docs, findings, errors, t1), ScoredAt(docs, findings, errors, t));
  }

  /** `a` does not exceed `b`, and the two are defined together. */
  predicate NotAbove(a: Option<real>, b: Option<real>) {
    (a.Some? <==> b.Some?) && AtMost(a, b)
  }

  lemma SharesOrdered(a: nat, b: nat, n: nat)
    requires a <= b
    ensures NotAbove(Ratio(a, n), Ratio(b, n))
  {
    if n > 0 {
      assert a * n <= b * n;
      RatioGrows(a, n, b, n);
    }
  }

  /** The tradeoff curves are monotone: the rates that a higher cutoff can only lower, and the one it can only raise. */
  lemma SweepIsMonotone(docs: seq<Document>, findings: Findings, errors: set<string>, t: real, t1: real)
    requires t <= t1
    ensures
      var low, high := PointAt(docs, findings, errors, t), PointAt(docs, findings, errors, t1);
      && NotAbove(high.spanRecall, low.spanRecall)
      && NotAbove(high.docRecall, low.docRecall)
      && NotAbove(high.docFpr, low.docFpr)
      && NotAbove(low.docSpecificity, high.docSpecificity)
    ensures CellOf(ScoredAt(docs, findings, errors, t1), None, false).fp
            <= CellOf(ScoredAt(docs, findings, errors, t), None, false).fp
  {
    RaisingShrinksSpans(docs, findings, errors, t, t1, None, false);
    RaisingFlagsFewer(docs, findings, errors, t, t1);
    var low, high := ScoredAt(docs, findings, errors, t), ScoredAt(docs, findings, errors, t1);
    RatesFall(t, t1, CellOf(low, None, false), CellOf(high, None, false), DocCounts(low), DocCounts(high));
  }

  lemma RatesFall(t: real, t1: real, s: Cell, s1: Cell, d: DocCell, d1: DocCell)
    requires Below(s1, s) && d1.tp <= d.tp && d1.fp <= d.fp
    requires d1.tp + d1.fn == d.tp + d.fn && d1.fp + d1.tn == d.fp + d.tn
    ensures
      var low, high := PointOf(t, s, d), PointOf(t1, s1, d1);
      && NotAbove(high.spanRecall, low.spanRecall)
      && NotAbove(high.docRecall, low.docRecall)
      && NotAbove(high.docFpr, low.docFpr)
      && NotAbove(low.docSpecificity, high.docSpecificity)
  {
    SharesOrdered(s1.tp, s.tp, s.tp + s.fn);
    SharesOrdered(d1.tp, d.tp, d.tp + d.fn);
    SharesOrdered(d1.fp, d.fp, d.fp + d.tn);
    SharesOrdered(d.tn, d1.tn, d.tn + d.fp);
  }

  predicate UnitPoint(p: SweepPoint) {
    UnitPair((p.spanRecall, p.spanPrecision)) && UnitPair((p.docFpr, p.docRecall))
  }

  lemma PointInUnitRange(t: real, s: Cell, d: DocCell)
    ensures UnitPoint(PointOf(t, s, d))
  {
    UnitRatios(s.tp, s.fn, s.tp, s.fp);
    UnitRatios(d.fp, d.tn, d.tp, d.fn);
  }

  lemma UnitRatios(a: nat, b: nat, c: nat, d: nat)
    ensures UnitPair((Ratio(a, a + b), Ratio(c, c + d)))
  {
    RatioUnit(a, a + b);
    RatioUnit(c, c + d);
  }

  lemma CurvesInUnitRange(points: seq<SweepPoint>)
    requires forall i | 0 <= i < |points| :: UnitPoint(points[i])
    ensures InUnit(TrapezoidAuc(PrPairs(points))) && InUnit(TrapezoidAuc(RocPairs(points)))
  {
    var pr, roc := PrPairs(points), RocPairs(points);
    forall i | 0 <= i < |points| ensures UnitPair(pr[i]) && UnitPair(roc[i]) {
      assert UnitPoint(points[i]);
    }
    AucInUnitRange(pr);
    AucInUnitRange(roc);
  }

  /** Both partial areas of a sweep lie in [0, 1], for every corpus and list of cutoffs. */
  lemma SweepAreasInUnitRange(docs: seq<Document>, findings: Findings, errors: set<string>, points: seq<SweepPoint>)
    requires forall i | 0 <= i < |points| :: points[i] == PointAt(docs, findings, errors, points[i].threshold)
    ensures InUnit(TrapezoidAuc(PrPairs(points))) && InUnit(TrapezoidAuc(RocPairs(points)))
  {
    forall i | 0 <= i < |points| ensures UnitPoint(points[i]) {
      var evals := ScoredAt(docs, findings, errors, points[i].threshold);
      PointInUnitRange(points[i].threshold, CellOf(evals, None, false), DocCounts(evals));
    }
    CurvesInUnitRange(points);
  }
}
