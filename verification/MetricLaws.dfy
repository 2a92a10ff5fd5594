/**
 The figures computed from the confusion counts, and what bounds them (dlp_harness/metrics.py). Ratios are exact reals.
 */
module MetricLaws {
  import opened Options
  import opened Matching
  import opened Metrics
  import opened Arithmetic
  import opened StableSort

  /** `None` for an empty population. */
  function Ratio(num: nat, den: nat): Option<real> {
    if den == 0 then None else Some(num as real / den as real)
  }

  function F1(p: Option<real>, r: Option<real>): Option<real> {
    if p.None? || r.None? || p.value + r.value == 0.0 then None
    else Some(Harmonic(p.value, r.value))
  }

  function Harmonic(p: real, r: real): real
    requires p + r != 0.0
  {
    2.0 * p * r / (p + r)
  }

  function Precision(c: Cell): Option<real> {
    Ratio(c.tp, c.tp + c.fp)
  }

  function Recall(c: Cell): Option<real> {
    Ratio(c.tp, c.tp + c.fn)
  }

  function CellF1(c: Cell): Option<real> {
    F1(Precision(c), Recall(c))
  }

  /** `a` does not exceed `b` where both are defined. */
  predicate AtMost(a: Option<real>, b: Option<real>) {
    a.Some? && b.Some? ==> a.value <= b.value
  }

  // ---- Strict against lenient --------------------------------------------------------------------------------------

  predicate Stricter(strict: Cell, lenient: Cell) {
    strict.tp + strict.fn == lenient.tp + lenient.fn && strict.tp <= lenient.tp && strict.fp >= lenient.fp
  }

  lemma {:induction false} StrictEntities(ems: seq<EntityMatch>, cat: Option<string>)
    ensures CountEntities(ems, cat, TP, true) + CountEntities(ems, cat, FN, true)
            == CountEntities(ems, cat, TP, false) + CountEntities(ems, cat, FN, false)
    ensures CountEntities(ems, cat, TP, true) <= CountEntities(ems, cat, TP, false)
  {
    if ems != [] {
      StrictEntities(ems[..|ems| - 1], cat);
    }
  }

  /** Both modes count the same entities; strict mode detects no more of them and has no fewer false positives. */
  lemma {:induction false} StrictCounts(evals: seq<DocEval>, cat: Option<string>)
    ensures Stricter(CellOf(evals, cat, true), CellOf(evals, cat, false))
  {
    if evals != [] {
      StrictCounts(evals[..|evals| - 1], cat);
      StrictEntities(evals[|evals| - 1].entityMatches, cat);
    }
  }

  lemma RatioGrows(num: nat, den: nat, num1: nat, den1: nat)
    requires den > 0 && den1 > 0 && num * den1 <= num1 * den
    ensures num as real / den as real <= num1 as real / den1 as real
  {
    assert num as real * den1 as real == (num * den1) as real;
    assert num1 as real * den as real == (num1 * den) as real;
    Cross(num as real, den as real, num1 as real, den1 as real);
  }

  lemma RatioUnit(num: nat, den: nat)
    requires num <= den
    ensures Ratio(num, den).Some? ==> 0.0 <= Ratio(num, den).value <= 1.0
  {
    if den > 0 {
      Between(num as real, 0.0, 1.0, den as real);
    }
  }

  /** The harmonic mean grows in both arguments. */
  lemma F1Grows(p: real, r: real, p1: real, r1: real)
    requires 0.0 <= p <= p1 && 0.0 <= r <= r1 && p + r > 0.0
    ensures Harmonic(p, r) <= Harmonic(p1, r1)
  {
    var x, x1 := p * p1, r * r1;
    NonNegative(p, p1);
    NonNegative(r, r1);
    Times(r, r1, x);
    Times(p, p1, x1);
    assert (p * r) * (p1 + r1) == r * x + p * x1;
    assert (p1 * r1) * (p + r) == r1 * x + p1 * x1;
    Doubled(p, r, p1 + r1);
    Doubled(p1, r1, p + r);
    Cross(2.0 * p * r, p + r, 2.0 * p1 * r1, p1 + r1);
  }

  lemma Doubled(a: real, b: real, k: real)
    ensures 2.0 * a * b * k == 2.0 * (a * b * k)
  {
  }

  lemma CrossCounts(a: nat, b: nat, c: nat, d: nat)
    requires a <= c && b >= d
    ensures a * (c + d) <= c * (a + b)
  {
    assert a * d <= c * d <= c * b;
  }

  lemma PrecisionOrdered(strict: Cell, lenient: Cell)
    requires Stricter(strict, lenient)
    ensures AtMost(Precision(strict), Precision(lenient))
  {
    if strict.tp + strict.fp > 0 && lenient.tp + lenient.fp > 0 {
      CrossCounts(strict.tp, strict.fp, lenient.tp, lenient.fp);
      RatioGrows(strict.tp, strict.tp + strict.fp, lenient.tp, lenient.tp + lenient.fp);
    }
  }

  lemma RecallOrdered(strict: Cell, lenient: Cell)
    requires Stricter(strict, lenient)
    ensures AtMost(Recall(strict), Recall(lenient))
  {
    if strict.tp + strict.fn > 0 {
      assert strict.tp * (lenient.tp + lenient.fn) <= lenient.tp * (strict.tp + strict.fn);
      RatioGrows(strict.tp, strict.tp + strict.fn, lenient.tp, lenient.tp + lenient.fn);
    }
  }

  lemma F1Ordered(strict: Cell, lenient: Cell)
    requires Stricter(strict, lenient)
    ensures AtMost(CellF1(strict), CellF1(lenient))
  {
    if CellF1(strict).Some? && CellF1(lenient).Some? {
      PrecisionOrdered(strict, lenient);
      RecallOrdered(strict, lenient);
      RatioUnit(strict.tp, strict.tp + strict.fp);
      RatioUnit(strict.tp, strict.tp + strict.fn);
      F1Grows(Precision(strict).value, Recall(strict).value, Precision(lenient).value, Recall(lenient).value);
    }
  }

  /** Strict precision, recall and F1 never exceed the lenient ones, per category and overall. */
  lemma StrictNeverExceedsLenient(evals: seq<DocEval>, cat: Option<string>)
    ensures
      var strict, lenient := CellOf(evals, cat, true), CellOf(evals, cat, false);
      && (Recall(strict).Some? <==> Recall(lenient).Some?)
      && AtMost(Precision(strict), Precision(lenient)) && AtMost(Recall(strict), Recall(lenient))
      && AtMost(CellF1(strict), CellF1(lenient))
  {
    StrictCounts(evals, cat);
    var strict, lenient := CellOf(evals, cat, true), CellOf(evals, cat, false);
    PrecisionOrdered(strict, lenient);
    RecallOrdered(strict, lenient);
    F1Ordered(strict, lenient);
  }

  // ---- The Matthews correlation coefficient ------------------------------------------------------------------------

  function MccNumerator(c: DocCell): int {
    c.tp * c.tn - c.fp * c.fn
  }

  function MccDenominator(c: DocCell): nat {
    (c.tp + c.fp) * (c.tp + c.fn) * (c.tn + c.fp) * (c.tn + c.fn)
  }

  /** `root` stands for the square root of the denominator. */
  function Mcc(c: DocCell, root: real): Option<real>
    requires root >= 0.0 && root * root == MccDenominator(c) as real
  {
    if MccDenominator(c) == 0 then None else Some(MccNumerator(c) as real / root)
  }

  /** The gap between the denominator and the square of the numerator, as a sum of products of counts. */
  lemma MccGap(a: nat, b: nat, c: nat, d: nat)
    ensures
      var p, q, x, y := a * d, b * c, a * c + b * d, a * b + c * d;
      (a + b) * (a + c) * (d + b) * (d + c) == (p - q) * (p - q) + 4 * (p * q) + (p + q) * (x + y) + x * y
  {
    var p, q, x, y := a * d, b * c, a * c + b * d, a * b + c * d;
    var s := p + q;
    assert (a + b) * (d + c) == s + x;
    assert (a + c) * (d + b) == s + y;
    Rearrange(a + b, a + c, d + b, d + c);
    assert (s + x) * (s + y) == s * s + s * (x + y) + x * y;
    assert s * s == (p - q) * (p - q) + 4 * (p * q);
  }

  lemma Rearrange(k: int, l: int, m: int, n: int)
    ensures k * l * m * n == (k * n) * (l * m)
  {
  }

  lemma ProductNat(a: int, b: int)
    requires a >= 0 && b >= 0
    ensures a * b >= 0 && (a * b == 0 <==> a == 0 || b == 0)
  {
  }

  /** The numerator is within the root of the denominator; it reaches it exactly for one-sided matrices. */
  lemma MccSquare(c: DocCell)
    ensures MccNumerator(c) * MccNumerator(c) <= MccDenominator(c)
    ensures MccDenominator(c) != 0 ==>
              (MccNumerator(c) * MccNumerator(c) == MccDenominator(c)
               <==> (c.fp == 0 && c.fn == 0) || (c.tp == 0 && c.tn == 0))
  {
    var a, b, f, d := c.tp, c.fp, c.fn, c.tn;
    MccGap(a, b, f, d);
    var p, q, x, y := a * d, b * f, a * f + b * d, a * b + f * d;
    ProductNat(a, d);
    ProductNat(b, f);
    ProductNat(a, f);
    ProductNat(b, d);
    ProductNat(a, b);
    ProductNat(f, d);
    ProductNat(p, q);
    ProductNat(p + q, x + y);
    ProductNat(x, y);
  }

  /** The coefficient lies in [-1, 1]. */
  lemma MccInUnitRange(c: DocCell, root: real)
    requires root >= 0.0 && root * root == MccDenominator(c) as real
    ensures Mcc(c, root).Some? ==> -1.0 <= Mcc(c, root).value <= 1.0
  {
    MccSquare(c);
    if MccDenominator(c) != 0 {
      WithinRoot(MccNumerator(c), MccDenominator(c), root);
    }
  }

  lemma WithinRoot(n: int, den: nat, root: real)
    requires den > 0 && root >= 0.0 && root * root == den as real && n * n <= den
    ensures -1.0 <= n as real / root <= 1.0
  {
    assert n as real * n as real == (n * n) as real;
    assert root != 0.0;
    SquareBound(n as real, root);
    Between(n as real, -1.0, 1.0, root);
  }

  // ---- Area under a curve ------------------------------------------------------------------------------------------

  datatype Point = Point(x: real, y: real)

  /** The order of Python's tuples. */
  predicate Before(a: Point, b: Point) {
    a.x < b.x || (a.x == b.x && a.y <= b.y)
  }

  function DropUndefined(pairs: seq<(Option<real>, Option<real>)>): seq<Point> {
    if pairs == [] then [] else
      var (x, y) := pairs[|pairs| - 1];
      DropUndefined(pairs[..|pairs| - 1]) + if x.Some? && y.Some? then [Point(x.value, y.value)] else []
  }

  function Trapezoid(a: Point, b: Point): real {
    HalfOf(b.x - a.x, a.y + b.y)
  }

  function HalfOf(w: real, h: real): real {
    w * h / 2.0
  }

  /** The trapezoids between neighbouring points. */
  function Area(pts: seq<Point>): real {
    if |pts| < 2 then 0.0
    else Trapezoid(pts[0], pts[1]) + Area(pts[1..])
  }

  function TrapezoidAuc(pairs: seq<(Option<real>, Option<real>)>): Option<real> {
    var pts := Sort(DropUndefined(pairs), Before);
    if |pts| < 2 then None else Some(Area(pts))
  }

  predicate Ascending(pts: seq<Point>) {
    forall i | 0 <= i < |pts| - 1 :: pts[i].x <= pts[i + 1].x
  }

  predicate InSquare(p: Point) {
    0.0 <= p.x <= 1.0 && 0.0 <= p.y <= 1.0
  }

  predicate AllInSquare(pts: seq<Point>) {
    forall i | 0 <= i < |pts| :: InSquare(pts[i])
  }

  /** The sorted points are the same points, ascending. */
  lemma PointsSorted(pts: seq<Point>)
    ensures Ascending(Sort(pts, Before)) && multiset(Sort(pts, Before)) == multiset(pts)
    ensures AllInSquare(pts) ==> AllInSquare(Sort(pts, Before))
  {
    SortContents(pts, Before);
    SortOrders(pts, Before);
    var sorted := Sort(pts, Before);
    forall i | 0 <= i < |sorted| - 1 ensures sorted[i].x <= sorted[i + 1].x {
      assert Before(sorted[i], sorted[i + 1]);
    }
    forall i | 0 <= i < |sorted| && AllInSquare(pts) ensures InSquare(sorted[i]) {
      SortMember(pts, Before, i);
    }
  }

  /** The area over ascending points in the unit square is at most their extent. */
  lemma {:induction false} AreaBounds(pts: seq<Point>)
    requires Ascending(pts) && AllInSquare(pts) && pts != []
    ensures 0.0 <= Area(pts) <= pts[|pts| - 1].x - pts[0].x
  {
    if |pts| >= 2 {
      AreaBounds(pts[1..]);
      assert InSquare(pts[0]) && InSquare(pts[1]);
      assert pts[1..][|pts| - 2] == pts[|pts| - 1];
      TrapezoidBounds(pts[0], pts[1]);
    }
  }

  lemma HalfBounds(w: real, h: real)
    requires w >= 0.0 && 0.0 <= h <= 2.0
    ensures 0.0 <= HalfOf(w, h) <= w
  {
    var p := w * h;
    NonNegative(w, h);
    Times(h, 2.0, w);
    assert p <= 2.0 * w;
    assert HalfOf(w, h) == p / 2.0;
  }

  lemma TrapezoidBounds(a: Point, b: Point)
    requires InSquare(a) && InSquare(b) && a.x <= b.x
    ensures 0.0 <= Trapezoid(a, b) <= b.x - a.x
  {
    HalfBounds(b.x - a.x, a.y + b.y);
  }

  predicate InUnit(a: Option<real>) {
    a.Some? ==> 0.0 <= a.value <= 1.0
  }

  predicate UnitPair(p: (Option<real>, Option<real>)) {
    p.0.Some? && p.1.Some? ==> 0.0 <= p.0.value <= 1.0 && 0.0 <= p.1.value <= 1.0
  }

  /** The value at `x` of the line through (0, `a`) with slope `b`. */
  function Line(a: real, b: real, x: real): real {
    a + b * x
  }

  /** The integral of that line from 0 to `x`. */
  function Integral(a: real, b: real, x: real): real {
    a * x + b * (x * x) / 2.0
  }

  lemma TrapezoidIsIntegral(a: real, b: real, p: Point, q: Point)
    requires p.y == Line(a, b, p.x) && q.y == Line(a, b, q.x)
    ensures Trapezoid(p, q) == Integral(a, b, q.x) - Integral(a, b, p.x)
  {
    var w, h := q.x - p.x, p.y + q.y;
    var px, qx := p.x, q.x;
    assert h == 2.0 * a + b * (px + qx);
    assert w * h == 2.0 * (a * w) + b * ((qx - px) * (px + qx)) by {
      assert w * h == w * (2.0 * a) + w * (b * (px + qx));
      assert w * (b * (px + qx)) == b * (w * (px + qx));
    }
    assert (qx - px) * (px + qx) == qx * qx - px * px;
    assert a * w == a * qx - a * px;
    assert b * (qx * qx - px * px) == b * (qx * qx) - b * (px * px);
  }

  /** The rule is exact for points on a line: the area is the integral between the outer points. */
  lemma {:induction false} AreaExactOnLines(a: real, b: real, pts: seq<Point>)
    requires pts != [] && forall i | 0 <= i < |pts| :: pts[i].y == Line(a, b, pts[i].x)
    ensures Area(pts) == Integral(a, b, pts[|pts| - 1].x) - Integral(a, b, pts[0].x)
  {
    if |pts| >= 2 {
      AreaExactOnLines(a, b, pts[1..]);
      assert pts[1..][|pts| - 2] == pts[|pts| - 1];
      TrapezoidIsIntegral(a, b, pts[0], pts[1]);
    }
  }

  lemma {:induction false} DropKeepsSquare(pairs: seq<(Option<real>, Option<real>)>)
    requires forall i | 0 <= i < |pairs| :: UnitPair(pairs[i])
    ensures AllInSquare(DropUndefined(pairs))
  {
    if pairs != [] {
      DropKeepsSquare(pairs[..|pairs| - 1]);
      assert UnitPair(pairs[|pairs| - 1]);
    }
  }

  /** The area of points in the unit square is in [0, 1], whatever order they come in. */
  lemma AucInUnitRange(pairs: seq<(Option<real>, Option<real>)>)
    requires forall i | 0 <= i < |pairs| :: UnitPair(pairs[i])
    ensures InUnit(TrapezoidAuc(pairs))
  {
    DropKeepsSquare(pairs);
    var pts := DropUndefined(pairs);
    PointsSorted(pts);
    var sorted := Sort(pts, Before);
    if |sorted| >= 2 {
      AreaBounds(sorted);
      assert InSquare(sorted[0]) && InSquare(sorted[|sorted| - 1]);
    }
  }
}
