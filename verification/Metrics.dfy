/**
 Span-level and document-level confusion (dlp_harness/metrics.py).
 */
module Metrics {
  import opened Options
  import opened Matching

  datatype Mark = TP | FN | FP

  /** The counters of one category. */
  datatype Cell = Cell(tp: nat, fn: nat, fp: nat) {
    function At(m: Mark): nat {
      match m
      case TP => tp
      case FN => fn
      case FP => fp
    }

    function Raise(m: Mark): (c: Cell)
      ensures forall k :: c.At(k) == At(k) + if k == m then 1 else 0
    {
      match m
      case TP => this.(tp := tp + 1)
      case FN => this.(fn := fn + 1)
      case FP => this.(fp := fp + 1)
    }
  }

  const ZERO := Cell(0, 0, 0)

  // ---- What is to be counted ---------------------------------------------------------------------------------------

  predicate Detected(em: EntityMatch, strict: bool) {
    em.matched && (strict ==> em.categoryCorrect)
  }

  function MarkOf(em: EntityMatch, strict: bool): Mark {
    if Detected(em, strict) then TP else FN
  }

  /** The category a false positive is booked under. */
  function Claimed(f: Finding): string {
    if f.category.Some? then f.category.value else "unmapped"
  }

  /** `None` selects all categories. */
  predicate Selects(cat: Option<string>, c: string) {
    cat.None? || cat.value == c
  }

  function CountEntities(ems: seq<EntityMatch>, cat: Option<string>, mark: Mark, strict: bool): nat {
    if ems == [] then 0 else
      var em := ems[|ems| - 1];
      CountEntities(ems[..|ems| - 1], cat, mark, strict)
      + if Selects(cat, em.entity.category) && MarkOf(em, strict) == mark then 1 else 0
  }

  function CountFindings(fs: seq<Finding>, cat: Option<string>): nat {
    if fs == [] then 0 else
      CountFindings(fs[..|fs| - 1], cat) + if Selects(cat, Claimed(fs[|fs| - 1])) then 1 else 0
  }

  /** In strict mode a mislabeled finding counts against the category it claims. */
  function CountDoc(d: DocEval, cat: Option<string>, mark: Mark, strict: bool): nat {
    if d.scanError then 0
    else if mark == FP then
      CountFindings(d.falsePositives, cat) + if strict then CountFindings(d.mislabeled, cat) else 0
    else CountEntities(d.entityMatches, cat, mark, strict)
  }

  function CountSpans(evals: seq<DocEval>, cat: Option<string>, mark: Mark, strict: bool): nat {
    if evals == [] then 0
    else CountSpans(evals[..|evals| - 1], cat, mark, strict) + CountDoc(evals[|evals| - 1], cat, mark, strict)
  }

  /** The cell of a category, or of all categories together. */
  function CellOf(evals: seq<DocEval>, cat: Option<string>, strict: bool): Cell {
    Cell(CountSpans(evals, cat, TP, strict), CountSpans(evals, cat, FN, strict), CountSpans(evals, cat, FP, strict))
  }

  // ---- The increments, in the order they are made ------------------------------------------------------------------

  /** One increment of `span_confusion`. */
  datatype Bump = Bump(category: string, mark: Mark)

  predicate Is(b: Bump, cat: Option<string>, mark: Mark) {
    Selects(cat, b.category) && b.mark == mark
  }

  function CountLog(log: seq<Bump>, cat: Option<string>, mark: Mark): nat {
    if log == [] then 0 else
      CountLog(log[..|log| - 1], cat, mark) + if Is(log[|log| - 1], cat, mark) then 1 else 0
  }

  function EntityBumps(ems: seq<EntityMatch>, strict: bool): seq<Bump> {
    if ems == [] then [] else
      EntityBumps(ems[..|ems| - 1], strict) + [Bump(ems[|ems| - 1].entity.category, MarkOf(ems[|ems| - 1], strict))]
  }

  function FindingBumps(fs: seq<Finding>): seq<Bump> {
    if fs == [] then [] else FindingBumps(fs[..|fs| - 1]) + [Bump(Claimed(fs[|fs| - 1]), FP)]
  }

  function DocBumps(d: DocEval, strict: bool): seq<Bump> {
    if d.scanError then [] else
      EntityBumps(d.entityMatches, strict) + FindingBumps(d.falsePositives)
      + if strict then FindingBumps(d.mislabeled) else []
  }

  function AllBumps(evals: seq<DocEval>, strict: bool): seq<Bump> {
    if evals == [] then [] else AllBumps(evals[..|evals| - 1], strict) + DocBumps(evals[|evals| - 1], strict)
  }

  lemma CountLogSnoc(log: seq<Bump>, b: Bump, cat: Option<string>, mark: Mark)
    ensures CountLog(log + [b], cat, mark) == CountLog(log, cat, mark) + if Is(b, cat, mark) then 1 else 0
  {
    assert (log + [b])[..|log|] == log;
  }

  lemma {:induction false} CountLogConcat(a: seq<Bump>, b: seq<Bump>, cat: Option<string>, mark: Mark)
    ensures CountLog(a + b, cat, mark) == CountLog(a, cat, mark) + CountLog(b, cat, mark)
    decreases |b|
  {
    if b == [] {
      assert a + b == a;
    } else {
      var front, last := b[..|b| - 1], b[|b| - 1];
      CountLogConcat(a, front, cat, mark);
      assert b == front + [last] && a + b == (a + front) + [last];
      CountLogSnoc(a + front, last, cat, mark);
    }
  }

  lemma {:induction false} EntityBumpsCount(ems: seq<EntityMatch>, cat: Option<string>, mark: Mark, strict: bool)
    ensures CountLog(EntityBumps(ems, strict), cat, mark)
            == if mark == FP then 0 else CountEntities(ems, cat, mark, strict)
  {
    if ems != [] {
      var front, em := ems[..|ems| - 1], ems[|ems| - 1];
      EntityBumpsCount(front, cat, mark, strict);
      CountLogSnoc(EntityBumps(front, strict), Bump(em.entity.category, MarkOf(em, strict)), cat, mark);
    }
  }

  lemma {:induction false} FindingBumpsCount(fs: seq<Finding>, cat: Option<string>, mark: Mark)
    ensures CountLog(FindingBumps(fs), cat, mark) == if mark == FP then CountFindings(fs, cat) else 0
  {
    if fs != [] {
      FindingBumpsCount(fs[..|fs| - 1], cat, mark);
      CountLogSnoc(FindingBumps(fs[..|fs| - 1]), Bump(Claimed(fs[|fs| - 1]), FP), cat, mark);
    }
  }

  lemma CountLogThree(a: seq<Bump>, b: seq<Bump>, c: seq<Bump>, cat: Option<string>, mark: Mark)
    ensures CountLog(a + b + c, cat, mark) == CountLog(a, cat, mark) + CountLog(b, cat, mark) + CountLog(c, cat, mark)
  {
    CountLogConcat(a, b, cat, mark);
    CountLogConcat(a + b, c, cat, mark);
  }

  lemma DocBumpsCount(d: DocEval, cat: Option<string>, mark: Mark, strict: bool)
    ensures CountLog(DocBumps(d, strict), cat, mark) == CountDoc(d, cat, mark, strict)
  {
    if !d.scanError {
      var es, fs := EntityBumps(d.entityMatches, strict), FindingBumps(d.falsePositives);
      EntityBumpsCount(d.entityMatches, cat, mark, strict);
      FindingBumpsCount(d.falsePositives, cat, mark);
      FindingBumpsCount(d.mislabeled, cat, mark);
      CountLogThree(es, fs, if strict then FindingBumps(d.mislabeled) else [], cat, mark);
    }
  }

  lemma {:induction false} AllBumpsCount(evals: seq<DocEval>, cat: Option<string>, mark: Mark, strict: bool)
    ensures CountLog(AllBumps(evals, strict), cat, mark) == CountSpans(evals, cat, mark, strict)
  {
    if evals != [] {
      AllBumpsCount(evals[..|evals| - 1], cat, mark, strict);
      DocBumpsCount(evals[|evals| - 1], cat, mark, strict);
      CountLogConcat(AllBumps(evals[..|evals| - 1], strict), DocBumps(evals[|evals| - 1], strict), cat, mark);
    }
  }

  // ---- The dictionary of cells -------------------------------------------------------------------------------------

  function Elements(order: seq<string>): set<string> {
    if order == [] then {} else Elements(order[..|order| - 1]) + {order[|order| - 1]}
  }

  predicate NoRepeats(order: seq<string>) {
    order == [] || (NoRepeats(order[..|order| - 1]) && order[|order| - 1] !in Elements(order[..|order| - 1]))
  }

  function SumCells(order: seq<string>, per: map<string, Cell>, mark: Mark): nat
    requires Elements(order) <= per.Keys
  {
    if order == [] then 0 else SumCells(order[..|order| - 1], per, mark) + per[order[|order| - 1]].At(mark)
  }

  lemma {:induction false} SumCellsUpdate(order: seq<string>, per: map<string, Cell>, c: string, v: Cell, mark: Mark)
    requires Elements(order) <= per.Keys && NoRepeats(order)
    ensures SumCells(order, per[c := v], mark)
            == SumCells(order, per, mark) + if c in Elements(order) then v.At(mark) - per[c].At(mark) else 0
  {
    if order != [] {
      SumCellsUpdate(order[..|order| - 1], per, c, v, mark);
    }
  }

  /** `order` lists the keys of `per`. */
  predicate Ordered(order: seq<string>, per: map<string, Cell>) {
    NoRepeats(order) && per.Keys == Elements(order)
  }

  lemma NewKey(order: seq<string>, per: map<string, Cell>, c: string, mark: Mark)
    requires Ordered(order, per) && c !in per
    ensures Ordered(order + [c], per[c := ZERO])
    ensures SumCells(order + [c], per[c := ZERO], mark) == SumCells(order, per, mark)
  {
    assert (order + [c])[..|order|] == order;
    SumCellsUpdate(order, per, c, ZERO, mark);
  }

  function Lookup(per: map<string, Cell>, c: string): Cell {
    if c in per then per[c] else ZERO
  }

  /** The cells hold what the log booked: per category, and summed over the categories. */
  ghost predicate Booked(order: seq<string>, per: map<string, Cell>, log: seq<Bump>) {
    && Ordered(order, per)
    && (forall mark :: SumCells(order, per, mark) == CountLog(log, None, mark))
    && (forall c, mark :: Lookup(per, c).At(mark) == CountLog(log, Some(c), mark))
  }

  lemma AddedCells(order: seq<string>, per: map<string, Cell>, log: seq<Bump>, c: string, m: Mark, mark: Mark)
    requires Ordered(order, per) && c in per
    requires SumCells(order, per, mark) == CountLog(log, None, mark)
    ensures SumCells(order, per[c := per[c].Raise(m)], mark) == CountLog(log + [Bump(c, m)], None, mark)
  {
    SumCellsUpdate(order, per, c, per[c].Raise(m), mark);
    CountLogSnoc(log, Bump(c, m), None, mark);
  }

  lemma AddedOne(per: map<string, Cell>, log: seq<Bump>, c: string, m: Mark, k: string, mark: Mark)
    requires c in per && Lookup(per, k).At(mark) == CountLog(log, Some(k), mark)
    ensures Lookup(per[c := per[c].Raise(m)], k).At(mark) == CountLog(log + [Bump(c, m)], Some(k), mark)
  {
    CountLogSnoc(log, Bump(c, m), Some(k), mark);
  }

  lemma BookedNew(order: seq<string>, per: map<string, Cell>, log: seq<Bump>, c: string)
    requires Booked(order, per, log) && c !in per
    ensures Booked(order + [c], per[c := ZERO], log)
  {
    forall mark ensures SumCells(order + [c], per[c := ZERO], mark) == CountLog(log, None, mark) {
      NewKey(order, per, c, mark);
    }
    NewKey(order, per, c, TP);
    forall k ensures Lookup(per[c := ZERO], k) == Lookup(per, k) {
    }
  }

  lemma BookedMore(order: seq<string>, per: map<string, Cell>, log: seq<Bump>, c: string, m: Mark)
    requires Booked(order, per, log) && c in per
    ensures Booked(order, per[c := per[c].Raise(m)], log + [Bump(c, m)])
  {
    forall mark ensures SumCells(order, per[c := per[c].Raise(m)], mark) == CountLog(log + [Bump(c, m)], None, mark) {
      AddedCells(order, per, log, c, m, mark);
    }
    forall k, mark
      ensures Lookup(per[c := per[c].Raise(m)], k).At(mark) == CountLog(log + [Bump(c, m)], Some(k), mark)
    {
      AddedOne(per, log, c, m, k, mark);
    }
  }

  lemma Regroup(a: seq<Bump>, b: seq<Bump>, c: seq<Bump>, d: seq<Bump>)
    ensures a + b + c + d == a + (b + c + d)
    ensures d == [] ==> a + b + c == a + (b + c + d)
  {
  }

  /** The dictionary of cells that `span_confusion` fills, with the insertion order of its keys. */
  class Tally {
    var order: seq<string>
    var per: map<string, Cell>
    ghost var log: seq<Bump>

    ghost predicate Valid()
      reads this
    {
      Booked(order, per, log) && forall c | c in per :: per[c] != ZERO
    }

    constructor ()
      ensures Valid() && log == [] && per == map[]
    {
      order, per, log := [], map[], [];
    }

    method Add(c: string, m: Mark)
      requires Valid()
      modifies this
      ensures Valid() && log == old(log) + [Bump(c, m)]
    {
      if c !in per {
        BookedNew(order, per, log, c);
        order, per := order + [c], per[c := ZERO];
      }
      BookedMore(order, per, log, c, m);
      assert per[c].Raise(m).At(m) > 0;
      per, log := per[c := per[c].Raise(m)], log + [Bump(c, m)];
    }

    method AddEntities(ems: seq<EntityMatch>, strict: bool)
      requires Valid()
      modifies this
      ensures Valid() && log == old(log) + EntityBumps(ems, strict)
    {
      for i := 0 to |ems|
        invariant Valid() && log == old(log) + EntityBumps(ems[..i], strict)
      {
        assert ems[..i + 1][..i] == ems[..i];
        Add(ems[i].entity.category, if Detected(ems[i], strict) then TP else FN);
      }
      assert ems[..|ems|] == ems;
    }

    method AddFindings(fs: seq<Finding>)
      requires Valid()
      modifies this
      ensures Valid() && log == old(log) + FindingBumps(fs)
    {
      for i := 0 to |fs|
        invariant Valid() && log == old(log) + FindingBumps(fs[..i])
      {
        assert fs[..i + 1][..i] == fs[..i];
        Add(Claimed(fs[i]), FP);
      }
      assert fs[..|fs|] == fs;
    }

    method AddDoc(d: DocEval, strict: bool)
      requires Valid()
      modifies this
      ensures Valid() && log == old(log) + DocBumps(d, strict)
    {
      if !d.scanError {
        AddEntities(d.entityMatches, strict);
        AddFindings(d.falsePositives);
        if strict {
          AddFindings(d.mislabeled);
        }
        Regroup(old(log), EntityBumps(d.entityMatches, strict), FindingBumps(d.falsePositives),
                if strict then FindingBumps(d.mislabeled) else []);
      }
    }
  }

  lemma {:induction false} ElementsGrow(order: seq<string>, i: nat)
    requires i <= |order|
    ensures Elements(order[..i]) <= Elements(order)
    decreases |order|
  {
    if i < |order| {
      ElementsGrow(order[..|order| - 1], i);
      assert order[..|order| - 1][..i] == order[..i];
    } else {
      assert order[..i] == order;
    }
  }

  /** `sum(c[mark] for c in per.values())` */
  method Total(order: seq<string>, per: map<string, Cell>, mark: Mark) returns (total: nat)
    requires Elements(order) <= per.Keys
    ensures total == SumCells(order, per, mark)
  {
    total := 0;
    for i := 0 to |order|
      invariant Elements(order[..i]) <= per.Keys && total == SumCells(order[..i], per, mark)
    {
      assert order[..i + 1][..i] == order[..i];
      ElementsGrow(order, i + 1);
      total := total + per[order[i]].At(mark);
    }
    assert order[..|order|] == order;
  }

  /** The cells of exactly the categories that something is counted for, and the overall cell that sums them. */
  method SpanConfusion(evals: seq<DocEval>, strict: bool) returns (per: map<string, Cell>, overall: Cell)
    ensures forall c :: Lookup(per, c) == CellOf(evals, Some(c), strict)
    ensures forall c :: c in per <==> CellOf(evals, Some(c), strict) != ZERO
    ensures overall == CellOf(evals, None, strict)
  {
    var t := new Tally();
    for i := 0 to |evals|
      invariant fresh(t) && t.Valid() && t.log == AllBumps(evals[..i], strict)
    {
      assert evals[..i + 1][..i] == evals[..i];
      t.AddDoc(evals[i], strict);
    }
    assert evals[..|evals|] == evals;
    per := t.per;
    var tp := Total(t.order, per, TP);
    var fn := Total(t.order, per, FN);
    var fp := Total(t.order, per, FP);
    overall := Cell(tp, fn, fp);
    CellsAreCounts(evals, per, t.order, strict);
  }

  lemma CellsAreCounts(evals: seq<DocEval>, per: map<string, Cell>, order: seq<string>, strict: bool)
    requires Booked(order, per, AllBumps(evals, strict))
    ensures forall mark :: SumCells(order, per, mark) == CountSpans(evals, None, mark, strict)
    ensures forall c :: Lookup(per, c) == CellOf(evals, Some(c), strict)
  {
    forall mark ensures SumCells(order, per, mark) == CountSpans(evals, None, mark, strict) {
      AllBumpsCount(evals, None, mark, strict);
    }
    forall c ensures Lookup(per, c) == CellOf(evals, Some(c), strict) {
      forall mark ensures Lookup(per, c).At(mark) == CountSpans(evals, Some(c), mark, strict) {
        AllBumpsCount(evals, Some(c), mark, strict);
      }
      assert Lookup(per, c).At(TP) == Lookup(per, c).tp && Lookup(per, c).At(FN) == Lookup(per, c).fn
             && Lookup(per, c).At(FP) == Lookup(per, c).fp;
    }
  }

  // ---- `doc_confusion` ---------------------------------------------------------------------------------------------

  datatype DocCell = DocCell(tp: nat, fp: nat, tn: nat, fn: nat, scanErrors: nat)

  datatype Outcome = TruePos | FalsePos | TrueNeg | FalseNeg | ScanError

  function OutcomeOf(d: DocEval): Outcome {
    if d.scanError then ScanError
    else if d.isClean then (if d.flagged then FalsePos else TrueNeg)
    else (if d.flagged then TruePos else FalseNeg)
  }

  /** How many documents have outcome `o`. */
  function CountDocs(evals: seq<DocEval>, o: Outcome): nat {
    if evals == [] then 0 else
      CountDocs(evals[..|evals| - 1], o) + if OutcomeOf(evals[|evals| - 1]) == o then 1 else 0
  }

  function DocCounts(evals: seq<DocEval>): DocCell {
    DocCell(CountDocs(evals, TruePos), CountDocs(evals, FalsePos), CountDocs(evals, TrueNeg),
            CountDocs(evals, FalseNeg), CountDocs(evals, ScanError))
  }

  method DocConfusion(evals: seq<DocEval>) returns (r: DocCell)
    ensures r == DocCounts(evals)
    ensures r.tp + r.fp + r.tn + r.fn + r.scanErrors == |evals|
  {
    var tp: nat, fp: nat, tn: nat, fn: nat, scanErrors: nat := 0, 0, 0, 0, 0;
    for i := 0 to |evals|
      invariant DocCell(tp, fp, tn, fn, scanErrors) == DocCounts(evals[..i])
      invariant tp + fp + tn + fn + scanErrors == i
    {
      assert evals[..i + 1][..i] == evals[..i];
      var d := evals[i];
      if d.scanError {
        scanErrors := scanErrors + 1;
      } else if !d.isClean {
        tp, fn := if d.flagged then tp + 1 else tp, if d.flagged then fn else fn + 1;
      } else {
        fp, tn := if d.flagged then fp + 1 else fp, if d.flagged then tn else tn + 1;
      }
    }
    assert evals[..|evals|] == evals;
    r := DocCell(tp, fp, tn, fn, scanErrors);
  }
}
