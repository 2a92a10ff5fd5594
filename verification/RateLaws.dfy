/**
 What the reported figures mean: counts as numbers of positions, rates as shares of these, and the points of a sweep as
 the rates over the findings that a cutoff keeps.
 */
module RateLaws {
  import opened Options
  import opened Arithmetic
  import opened Sequences
  import opened Matching
  import opened Metrics
  import opened MetricLaws
  import opened StableSort
  import opened ThresholdSweep

  // ---- Counts ------------------------------------------------------------------------------------------------------

  predicate InCategory(cat: Option<string>, category: string) {
    cat == None || cat == Some(category)
  }

  /** The entity is detected or not; in strict mode the category must be right. */
  predicate CountsAs(em: EntityMatch, cat: Option<string>, detected: bool, strict: bool) {
    InCategory(cat, em.entity.category) && detected == (em.matched && (!strict || em.categoryCorrect))
  }

  /** The finding claims the category; without one it claims "unmapped". */
  predicate Claims(f: Finding, cat: Option<string>) {
    InCategory(cat, if f.category == None then "unmapped" else f.category.value)
  }

  /** Such entities of a match list, by position. */
  function EntitiesIn(ems: seq<EntityMatch>, cat: Option<string>, detected: bool, strict: bool): set<nat> {
    Where(ems, (em: EntityMatch) => CountsAs(em, cat, detected, strict))
  }

  function ClaimsIn(fs: seq<Finding>, cat: Option<string>): set<nat> {
    Where(fs, (f: Finding) => Claims(f, cat))
  }

  lemma {:induction false} EntitiesCounted(ems: seq<EntityMatch>, cat: Option<string>, detected: bool, strict: bool)
    ensures CountEntities(ems, cat, if detected then TP else FN, strict) == |EntitiesIn(ems, cat, detected, strict)|
  {
    var p := (em: EntityMatch) => CountsAs(em, cat, detected, strict);
    if ems == [] {
      WhereNone(p);
    } else {
      EntitiesCounted(ems[..|ems| - 1], cat, detected, strict);
      WhereOneMore(ems, p);
    }
  }

  lemma {:induction false} ClaimsCounted(fs: seq<Finding>, cat: Option<string>)
    ensures CountFindings(fs, cat) == |ClaimsIn(fs, cat)|
  {
    var p := (f: Finding) => Claims(f, cat);
    if fs == [] {
      WhereNone(p);
    } else {
      ClaimsCounted(fs[..|fs| - 1], cat);
      WhereOneMore(fs, p);
      ClaimsMean(fs[|fs| - 1], cat);
    }
  }

  lemma ClaimsMean(f: Finding, cat: Option<string>)
    ensures Claims(f, cat) <==> Selects(cat, Claimed(f))
  {
  }

  /** The sum over the documents whose scan succeeded. */
  function SumScanned(evals: seq<DocEval>, count: DocEval -> nat): nat {
    if evals == [] then 0 else
      SumScanned(evals[..|evals| - 1], count)
      + if evals[|evals| - 1].scanError then 0 else count(evals[|evals| - 1])
  }

  /** The cells count, over all scanned documents, detected and missed entities and false alarms. */
  lemma {:induction false} CellMeans(evals: seq<DocEval>, cat: Option<string>, strict: bool)
    ensures CellOf(evals, cat, strict).tp
            == SumScanned(evals, (d: DocEval) => |EntitiesIn(d.entityMatches, cat, true, strict)|)
    ensures CellOf(evals, cat, strict).fn
            == SumScanned(evals, (d: DocEval) => |EntitiesIn(d.entityMatches, cat, false, strict)|)
    ensures CellOf(evals, cat, strict).fp
            == SumScanned(evals, (d: DocEval) => |ClaimsIn(d.falsePositives, cat)|
                                                 + if strict then |ClaimsIn(d.mislabeled, cat)| else 0)
  {
    if evals != [] {
      var d := evals[|evals| - 1];
      CellMeans(evals[..|evals| - 1], cat, strict);
      EntitiesCounted(d.entityMatches, cat, true, strict);
      EntitiesCounted(d.entityMatches, cat, false, strict);
      ClaimsCounted(d.falsePositives, cat);
      ClaimsCounted(d.mislabeled, cat);
    }
  }

  predicate Falls(d: DocEval, clean: bool, flagged: bool) {
    !d.scanError && d.isClean == clean && d.flagged == flagged
  }

  /** The scanned documents that are clean or not and flagged or not, by position. */
  function DocumentsIn(evals: seq<DocEval>, clean: bool, flagged: bool): set<nat> {
    Where(evals, (d: DocEval) => Falls(d, clean, flagged))
  }

  function OutcomeFor(clean: bool, flagged: bool): Outcome {
    if clean then (if flagged then FalsePos else TrueNeg) else (if flagged then TruePos else FalseNeg)
  }

  lemma {:induction false} DocumentsCounted(evals: seq<DocEval>, clean: bool, flagged: bool)
    ensures |DocumentsIn(evals, clean, flagged)| == CountDocs(evals, OutcomeFor(clean, flagged))
  {
    var p := (d: DocEval) => Falls(d, clean, flagged);
    if evals == [] {
      WhereNone(p);
    } else {
      DocumentsCounted(evals[..|evals| - 1], clean, flagged);
      WhereOneMore(evals, p);
    }
  }

  /** A document counts as positive if it holds an entity, and as predicted so if it is flagged. */
  lemma DocCountsMean(evals: seq<DocEval>)
    ensures
      var c := DocCounts(evals);
      && c.tp == |DocumentsIn(evals, false, true)| && c.fn == |DocumentsIn(evals, false, false)|
      && c.fp == |DocumentsIn(evals, true, true)| && c.tn == |DocumentsIn(evals, true, false)|
  {
    DocumentsCounted(evals, false, true);
    DocumentsCounted(evals, false, false);
    DocumentsCounted(evals, true, true);
    DocumentsCounted(evals, true, false);
  }

  // ---- Rates -------------------------------------------------------------------------------------------------------

  /** The rate is the share of `part` in `whole`, and there is none for an empty whole. */
  predicate IsShare(rate: Option<real>, part: nat, whole: nat) {
    (rate.None? <==> whole == 0) && (rate.Some? ==> rate.value * whole as real == part as real)
  }

  lemma RatioIsShare(part: nat, whole: nat)
    ensures IsShare(Ratio(part, whole), part, whole)
  {
    if whole > 0 {
      Restore(part as real, whole as real);
    }
  }

  /** Precision and recall are shares; F1, defined once something is detected, is the share of twice the detections. */
  lemma RatesMean(c: Cell)
    ensures IsShare(Precision(c), c.tp, c.tp + c.fp) && IsShare(Recall(c), c.tp, c.tp + c.fn)
    ensures IsF1(CellF1(c), c)
  {
    RatioIsShare(c.tp, c.tp + c.fp);
    RatioIsShare(c.tp, c.tp + c.fn);
    if c.tp > 0 {
      HarmonicOfShares(c.tp, c.fp, c.fn, Precision(c).value, Recall(c).value);
    } else {
      NoDetection(c);
    }
  }

  predicate IsF1(f1: Option<real>, c: Cell) {
    && (f1.Some? <==> c.tp > 0)
    && (f1.Some? ==> f1.value * (2 * c.tp + c.fp + c.fn) as real == (2 * c.tp) as real)
  }

  lemma NoDetection(c: Cell)
    requires c.tp == 0
    ensures CellF1(c).None?
  {
    if c.fp > 0 {
      assert 0.0 / c.fp as real == 0.0;
    }
    if c.fn > 0 {
      assert 0.0 / c.fn as real == 0.0;
    }
  }

  lemma HarmonicOfShares(tp: nat, fp: nat, fn: nat, p: real, r: real)
    requires tp > 0 && p == tp as real / (tp + fp) as real && r == tp as real / (tp + fn) as real
    ensures p + r > 0.0 && Harmonic(p, r) * (2 * tp + fp + fn) as real == (2 * tp) as real
  {
    var t, a, b := tp as real, (tp + fp) as real, (tp + fn) as real;
    Restore(t, a);
    Restore(t, b);
    Positive(p, a, t);
    Positive(r, b, t);
    HarmonicTimes(p, r, a, b, t);
    assert (2 * tp + fp + fn) as real == a + b;
    assert (2 * tp) as real == 2.0 * t;
  }

  lemma Positive(p: real, a: real, t: real)
    requires p * a == t && a > 0.0 && t > 0.0
    ensures p > 0.0
  {
    if p <= 0.0 {
      Times(p, 0.0, a);
    }
  }

  lemma HarmonicTimes(p: real, r: real, a: real, b: real, t: real)
    requires p > 0.0 && r > 0.0 && p * a == t && r * b == t
    ensures Harmonic(p, r) * (a + b) == 2.0 * t
  {
    var h, s := Harmonic(p, r), p + r;
    Restore(2.0 * p * r, s);
    assert h * s == 2.0 * p * r;
    Spread(p, r, a, b, t);
    Scaled(h, s, a + b, p * r, t);
  }

  lemma Spread(p: real, r: real, a: real, b: real, t: real)
    requires p * a == t && r * b == t
    ensures p * r * (a + b) == t * (p + r)
  {
    assert p * r * a == (p * a) * r;
    assert p * r * b == (r * b) * p;
  }

  lemma Scaled(h: real, s: real, m: real, pr: real, t: real)
    requires s > 0.0 && h * s == 2.0 * pr && pr * m == t * s
    ensures h * m == 2.0 * t
  {
    assert h * m * s == (h * s) * m;
    assert (h * s) * m == 2.0 * (pr * m);
    assert h * m * s == 2.0 * t * s;
    assert (h * m - 2.0 * t) * s == 0.0;
    NoZeroFactor(h * m - 2.0 * t, s);
  }

  lemma NoZeroFactor(x: real, s: real)
    requires x * s == 0.0 && s > 0.0
    ensures x == 0.0
  {
  }

  /** The coefficient is 1 for a perfect scanner, -1 for one that is always wrong, and 0 for one that tells nothing. */
  lemma MccMeans(c: DocCell, root: real)
    requires root >= 0.0 && root * root == MccDenominator(c) as real
    ensures Mcc(c, root).None?
            <==> c.tp + c.fp == 0 || c.tp + c.fn == 0 || c.tn + c.fp == 0 || c.tn + c.fn == 0
    ensures Mcc(c, root).Some? ==>
              && (c.fp == 0 == c.fn ==> Mcc(c, root).value == 1.0)
              && (c.tp == 0 == c.tn ==> Mcc(c, root).value == -1.0)
              && (Mcc(c, root).value == 0.0 <==> c.tp * c.tn == c.fp * c.fn)
  {
    MarginsNonzero(c);
    if MccDenominator(c) != 0 {
      MccSquare(c);
      RootDivides(MccNumerator(c), MccDenominator(c), root);
      Signs(c);
    }
  }

  lemma MarginsNonzero(c: DocCell)
    ensures MccDenominator(c) == 0
            <==> c.tp + c.fp == 0 || c.tp + c.fn == 0 || c.tn + c.fp == 0 || c.tn + c.fn == 0
  {
    var k, l, m, n := c.tp + c.fp, c.tp + c.fn, c.tn + c.fp, c.tn + c.fn;
    FactorsNonzero(k, l);
    FactorsNonzero(k * l, m);
    FactorsNonzero(k * l * m, n);
  }

  lemma FactorsNonzero(a: nat, b: nat)
    ensures a * b == 0 <==> a == 0 || b == 0
    ensures a * b >= 0
  {
  }

  lemma Signs(c: DocCell)
    ensures c.fp == 0 == c.fn ==> MccNumerator(c) >= 0
    ensures c.tp == 0 == c.tn ==> MccNumerator(c) <= 0
  {
    FactorsNonzero(c.tp, c.tn);
    FactorsNonzero(c.fp, c.fn);
  }

  lemma RootDivides(n: int, den: nat, root: real)
    requires den > 0 && root >= 0.0 && root * root == den as real
    ensures root > 0.0
    ensures n * n == den && n >= 0 ==> n as real / root == 1.0
    ensures n * n == den && n <= 0 ==> n as real / root == -1.0
    ensures n as real / root == 0.0 <==> n == 0
  {
    assert root != 0.0;
    var x := n as real / root;
    Restore(n as real, root);
    assert x * root == n as real;
    if n * n == den {
      assert n as real * n as real == (n * n) as real;
      SameSquare(n as real, root);
    }
    if x == 0.0 {
      assert n as real == 0.0;
    }
  }

  lemma SameSquare(n: real, root: real)
    requires root > 0.0 && n * n == root * root
    ensures n == root || n == -root
  {
    assert (n - root) * (n + root) == 0.0;
  }

  // ---- The area under a curve --------------------------------------------------------------------------------------

  type Pair = (Option<real>, Option<real>)

  predicate Both(p: Pair) {
    p.0 != None && p.1 != None
  }

  lemma {:induction false} DefinedPoints(pairs: seq<Pair>)
    ensures |DropUndefined(pairs)| == |Where(pairs, Both)|
    ensures forall q :: q in DropUndefined(pairs) <==> (Some(q.x), Some(q.y)) in pairs
  {
    if pairs == [] {
      WhereNone(Both);
    } else {
      var n := |pairs| - 1;
      DefinedPoints(pairs[..n]);
      WhereOneMore(pairs, Both);
      assert pairs == pairs[..n] + [pairs[n]];
    }
  }

  /** There is an area if and only if at least two points are defined. */
  lemma AreaDefined(pairs: seq<Pair>)
    ensures TrapezoidAuc(pairs).Some? <==> |Where(pairs, Both)| >= 2
  {
    DefinedPoints(pairs);
    SortContents(DropUndefined(pairs), Before);
  }

  /** The defined points lie on a line. */
  predicate OnLine(pairs: seq<Pair>, a: real, b: real) {
    forall p | p in pairs && Both(p) :: p.1.value == Line(a, b, p.0.value)
  }

  predicate HasX(pairs: seq<Pair>, x: real) {
    exists p | p in pairs :: Both(p) && p.0.value == x
  }

  /** `low` and `high` are the least and the greatest x of the defined points. */
  predicate Spans(pairs: seq<Pair>, low: real, high: real) {
    && HasX(pairs, low) && HasX(pairs, high)
    && forall p | p in pairs && Both(p) :: low <= p.0.value <= high
  }

  lemma PointDefined(pairs: seq<Pair>, i: nat)
    requires i < |Sort(DropUndefined(pairs), Before)|
    ensures
      var q := Sort(DropUndefined(pairs), Before)[i];
      (Some(q.x), Some(q.y)) in pairs && HasX(pairs, q.x)
  {
    var pts := DropUndefined(pairs);
    SortMember(pts, Before, i);
    DefinedPoints(pairs);
    var p: Pair := (Some(Sort(pts, Before)[i].x), Some(Sort(pts, Before)[i].y));
    assert p in pairs && Both(p) && p.0.value == Sort(pts, Before)[i].x;
  }

  lemma PairSorted(pairs: seq<Pair>, p: Pair) returns (i: nat)
    requires p in pairs && Both(p)
    ensures i < |Sort(DropUndefined(pairs), Before)|
    ensures Sort(DropUndefined(pairs), Before)[i] == Point(p.0.value, p.1.value)
  {
    var pts := DropUndefined(pairs);
    DefinedPoints(pairs);
    assert p == (Some(p.0.value), Some(p.1.value));
    assert Point(p.0.value, p.1.value) in pts;
    MemberSorted(pts, Before, Point(p.0.value, p.1.value));
    i :| 0 <= i < |Sort(pts, Before)| && Sort(pts, Before)[i] == Point(p.0.value, p.1.value);
  }

  lemma {:induction false} FirstIsLeast(pts: seq<Point>, i: nat)
    requires Ascending(pts) && i < |pts|
    ensures pts[0].x <= pts[i].x <= pts[|pts| - 1].x
    decreases |pts|
  {
    if |pts| > 1 {
      if i == |pts| - 1 {
        FirstIsLeast(pts[..i], i - 1);
      } else {
        FirstIsLeast(pts[..|pts| - 1], i);
        assert pts[|pts| - 2].x <= pts[|pts| - 1].x;
      }
    }
  }

  lemma XWithin(pairs: seq<Pair>, x: real)
    requires HasX(pairs, x)
    ensures
      var sorted := Sort(DropUndefined(pairs), Before);
      sorted != [] && sorted[0].x <= x <= sorted[|sorted| - 1].x
  {
    var p :| p in pairs && Both(p) && p.0.value == x;
    var i := PairSorted(pairs, p);
    PointsSorted(DropUndefined(pairs));
    FirstIsLeast(Sort(DropUndefined(pairs), Before), i);
  }

  lemma XBetween(pairs: seq<Pair>, x: real, low: real, high: real)
    requires HasX(pairs, x) && Spans(pairs, low, high)
    ensures low <= x <= high
  {
  }

  lemma OuterPoints(pairs: seq<Pair>, low: real, high: real)
    requires Spans(pairs, low, high) && Sort(DropUndefined(pairs), Before) != []
    ensures
      var sorted := Sort(DropUndefined(pairs), Before);
      sorted[0].x == low && sorted[|sorted| - 1].x == high
  {
    var sorted := Sort(DropUndefined(pairs), Before);
    PointDefined(pairs, 0);
    PointDefined(pairs, |sorted| - 1);
    XBetween(pairs, sorted[0].x, low, high);
    XBetween(pairs, sorted[|sorted| - 1].x, low, high);
    XWithin(pairs, low);
    XWithin(pairs, high);
  }

  /** In whatever order the points of a line come, the area is the integral from the least to the greatest x. */
  lemma AreaIsIntegral(pairs: seq<Pair>, a: real, b: real, low: real, high: real)
    requires OnLine(pairs, a, b) && Spans(pairs, low, high) && TrapezoidAuc(pairs).Some?
    ensures TrapezoidAuc(pairs).value == Integral(a, b, high) - Integral(a, b, low)
  {
    var sorted := Sort(DropUndefined(pairs), Before);
    forall i | 0 <= i < |sorted| ensures sorted[i].y == Line(a, b, sorted[i].x) {
      PointDefined(pairs, i);
      var p: Pair := (Some(sorted[i].x), Some(sorted[i].y));
      assert p in pairs && Both(p);
    }
    OuterPoints(pairs, low, high);
    AreaExactOnLines(a, b, sorted);
  }

  // ---- The points of a sweep ---------------------------------------------------------------------------------------

  /** A cutoff concerns the findings of the GLiNER scanner only, and keeps those whose confidence reaches it. */
  predicate Keeps(f: Finding, cutoff: real) {
    f.scanner == "gliner" ==> f.confidence >= cutoff
  }

  /** `kept` holds exactly the findings that the cutoff keeps, at the positions `at`, in order. */
  predicate KeptAt(fs: seq<Finding>, kept: seq<Finding>, at: seq<nat>, cutoff: real) {
    && |at| == |kept|
    && (forall k | 0 <= k < |at| :: at[k] < |fs| && kept[k] == fs[at[k]])
    && (forall j, k | 0 <= j < k < |at| :: at[j] < at[k])
    && (forall i: nat | i < |fs| :: i in at <==> Keeps(fs[i], cutoff))
  }

  lemma {:induction false} FilterKeepsExactly(fs: seq<Finding>, cutoff: real) returns (at: seq<nat>)
    ensures KeptAt(fs, Filter(fs, cutoff), at, cutoff)
  {
    if fs == [] {
      at := [];
    } else {
      var n := |fs| - 1;
      var before := FilterKeepsExactly(fs[..n], cutoff);
      assert fs == fs[..n] + [fs[n]];
      KeptOneMore(fs[..n], Filter(fs[..n], cutoff), before, fs[n], cutoff);
      at := if Keeps(fs[n], cutoff) then before + [n] else before;
      assert Filter(fs[..n], cutoff) + [] == Filter(fs[..n], cutoff);
    }
  }

  lemma KeptOneMore(fs: seq<Finding>, kept: seq<Finding>, at: seq<nat>, f: Finding, cutoff: real)
    requires KeptAt(fs, kept, at, cutoff)
    ensures if Keeps(f, cutoff) then KeptAt(fs + [f], kept + [f], at + [|fs|], cutoff)
            else KeptAt(fs + [f], kept, at, cutoff)
  {
    var fs1 := fs + [f];
    var at1 := if Keeps(f, cutoff) then at + [|fs|] else at;
    assert forall k | 0 <= k < |at| :: at[k] in at && at[k] < |fs| && fs1[at[k]] == fs[at[k]];
    forall i: nat | i < |fs1| ensures i in at1 <==> Keeps(fs1[i], cutoff) {
      OneMoreMember(at, |fs|, i, Keeps(f, cutoff));
      assert fs1[i] == if i < |fs| then fs[i] else f;
    }
  }

  /** `n`, which is above all members of `at`, is added or not. */
  lemma OneMoreMember(at: seq<nat>, n: nat, i: nat, added: bool)
    requires forall k | 0 <= k < |at| :: at[k] < n
    ensures i in (if added then at + [n] else at) <==> if i == n then added else i in at
  {
  }

  lemma {:induction false} EvaluatedAll(docs: seq<Document>, findings: Findings, errors: set<string>, iou: real)
    ensures |EvaluateAll(docs, findings, errors, iou)| == |docs|
  {
    if docs != [] {
      EvaluatedAll(docs[..|docs| - 1], findings, errors, iou);
    }
  }

  lemma {:induction false} EvaluatedAt(docs: seq<Document>, findings: Findings, errors: set<string>, iou: real, i: nat)
    requires i < |docs| == |EvaluateAll(docs, findings, errors, iou)|
    ensures EvaluateAll(docs, findings, errors, iou)[i]
            == Evaluate(docs[i], FindingsFor(findings, docs[i].id), docs[i].id in errors, iou)
  {
    var front := docs[..|docs| - 1];
    EvaluatedAll(front, findings, errors, iou);
    if i < |front| {
      EvaluatedAt(front, findings, errors, iou, i);
      assert front[i] == docs[i];
    }
  }

  /** The evaluation of a document over exactly the findings that the cutoff keeps, touching being enough to match. */
  ghost predicate EvaluatedKept(eval: DocEval, doc: Document, fs: seq<Finding>, scanError: bool, cutoff: real) {
    exists kept, at :: KeptAt(fs, kept, at, cutoff) && eval == Evaluate(doc, kept, scanError, 0.0)
  }

  ghost predicate ScoredKept(evals: seq<DocEval>, docs: seq<Document>, findings: Findings, errors: set<string>,
                             cutoff: real) {
    && |evals| == |docs|
    && forall i | 0 <= i < |docs| ::
         EvaluatedKept(evals[i], docs[i], if docs[i].id in findings then findings[docs[i].id] else [],
                       docs[i].id in errors, cutoff)
  }

  /** The rates of a point are shares of the counts of entities and of documents. */
  predicate IsPoint(p: SweepPoint, cutoff: real, c: Cell, d: DocCell) {
    p.threshold == cutoff && HasSpanRates(p, c) && HasDocRates(p, d)
  }

  predicate HasSpanRates(p: SweepPoint, c: Cell) {
    IsShare(p.spanPrecision, c.tp, c.tp + c.fp) && IsShare(p.spanRecall, c.tp, c.tp + c.fn) && IsF1(p.spanF1, c)
  }

  predicate HasDocRates(p: SweepPoint, d: DocCell) {
    && IsShare(p.docPrecision, d.tp, d.tp + d.fp) && IsShare(p.docRecall, d.tp, d.tp + d.fn)
    && IsShare(p.docSpecificity, d.tn, d.tn + d.fp) && IsShare(p.docFpr, d.fp, d.fp + d.tn)
  }

  lemma KeptScored(docs: seq<Document>, findings: Findings, errors: set<string>, cutoff: real)
    ensures ScoredKept(ScoredAt(docs, findings, errors, cutoff), docs, findings, errors, cutoff)
  {
    var evals := ScoredAt(docs, findings, errors, cutoff);
    EvaluatedAll(docs, FilterAll(findings, cutoff), errors, 0.0);
    forall i | 0 <= i < |docs|
      ensures EvaluatedKept(evals[i], docs[i], if docs[i].id in findings then findings[docs[i].id] else [],
                            docs[i].id in errors, cutoff)
    {
      var fs := if docs[i].id in findings then findings[docs[i].id] else [];
      var at := FilterKeepsExactly(fs, cutoff);
      EvaluatedAt(docs, FilterAll(findings, cutoff), errors, 0.0, i);
      assert FindingsFor(FilterAll(findings, cutoff), docs[i].id) == Filter(fs, cutoff);
    }
  }

  lemma SpanRates(p: SweepPoint, c: Cell)
    requires p.spanPrecision == Precision(c) && p.spanRecall == Recall(c) && p.spanF1 == CellF1(c)
    ensures HasSpanRates(p, c)
  {
    RatesMean(c);
  }

  lemma DocRates(p: SweepPoint, d: DocCell)
    requires p.docPrecision == Ratio(d.tp, d.tp + d.fp) && p.docRecall == Ratio(d.tp, d.tp + d.fn)
    requires p.docSpecificity == Ratio(d.tn, d.tn + d.fp) && p.docFpr == Ratio(d.fp, d.fp + d.tn)
    ensures HasDocRates(p, d)
  {
    RatioIsShare(d.tp, d.tp + d.fp);
    RatioIsShare(d.tp, d.tp + d.fn);
    RatioIsShare(d.tn, d.tn + d.fp);
    RatioIsShare(d.fp, d.fp + d.tn);
  }

  lemma PointIsPoint(cutoff: real, c: Cell, d: DocCell)
    ensures IsPoint(PointOf(cutoff, c, d), cutoff, c, d)
  {
    SpanRates(PointOf(cutoff, c, d), c);
    DocRates(PointOf(cutoff, c, d), d);
  }

  /** Every point of a sweep holds the rates over exactly the findings that its cutoff keeps. */
  lemma PointMeans(docs: seq<Document>, findings: Findings, errors: set<string>, cutoff: real)
    ensures exists evals | ScoredKept(evals, docs, findings, errors, cutoff) ::
              IsPoint(PointAt(docs, findings, errors, cutoff), cutoff, CellOf(evals, None, false), DocCounts(evals))
  {
    KeptScored(docs, findings, errors, cutoff);
    var evals := ScoredAt(docs, findings, errors, cutoff);
    PointIsPoint(cutoff, CellOf(evals, None, false), DocCounts(evals));
  }
}
