/**
 What the evaluation of a document means, in positions of the text: which findings touch which entities, and what that
 makes of findings, entities and traps.
 */
module MatchingLaws {
  import opened Options
  import opened Matching
  import opened Arithmetic

  // ---- Touching by position ----------------------------------------------------------------------------------------

  /** The text positions of a span. */
  function Positions(start: int, end: int): (r: set<int>)
    ensures forall p :: p in r <==> start <= p < end
    decreases end - start
  {
    if start >= end then {} else Positions(start, end - 1) + {end - 1}
  }

  predicate IsPart(n: int, m: int, part: real) {
    n as real >= part * m as real
  }

  /**
   The finding and the span have a position in common; under a threshold, in addition as many as the given part of the
   positions that either of them covers.
   */
  predicate Shares(f: Finding, start: int, end: int, iou: real) {
    var a, b := Positions(f.start, f.end), Positions(start, end);
    && a * b != {}
    && (iou > 0.0 ==> IsPart(|a * b|, |a + b|, iou))
  }

  lemma {:induction false} PositionsCount(start: int, end: int)
    requires start <= end
    ensures |Positions(start, end)| == end - start
    decreases end - start
  {
    if start < end {
      PositionsCount(start, end - 1);
    }
  }

  lemma SharedPositions(a: int, b: int, c: int, d: int)
    ensures Positions(a, b) * Positions(c, d) == Positions(MaxInt(a, c), MinInt(b, d))
    ensures Positions(a, b) * Positions(c, d) == {} <==> MinInt(b, d) <= MaxInt(a, c)
  {
    if MaxInt(a, c) < MinInt(b, d) {
      assert MaxInt(a, c) in Positions(a, b) * Positions(c, d);
    }
  }

  lemma PartOf(inter: int, union: int, iou: real)
    requires union > 0
    ensures inter as real / union as real >= iou <==> IsPart(inter, union, iou)
  {
    var x, u := inter as real / union as real, union as real;
    Restore(inter as real, u);
    if x >= iou {
      Times(iou, x, u);
    }
    if IsPart(inter, union, iou) {
      Cancel(iou, x, u);
    }
  }

  lemma Sizes(a: int, b: int, c: int, d: int)
    ensures
      var inter, x, y := MinInt(b, d) - MaxInt(a, c), Positions(a, b), Positions(c, d);
      && (inter > 0 <==> x * y != {})
      && (inter > 0 ==> |x * y| == inter && |x + y| == (b - a) + (d - c) - inter > 0)
  {
    SharedPositions(a, b, c, d);
    if MaxInt(a, c) < MinInt(b, d) {
      PositionsCount(a, b);
      PositionsCount(c, d);
      PositionsCount(MaxInt(a, c), MinInt(b, d));
    }
  }

  lemma OverlapsBy(f: Finding, start: int, end: int, iou: real, inter: int, union: int)
    requires inter == MinInt(f.end, end) - MaxInt(f.start, start)
    requires union == (f.end - f.start) + (end - start) - inter && (inter > 0 ==> union > 0)
    ensures Overlaps(f, start, end, iou) <==> inter > 0 && (iou > 0.0 ==> IsPart(inter, union, iou))
  {
    if inter > 0 {
      PartOf(inter, union, iou);
    }
  }

  lemma SharesBy(f: Finding, start: int, end: int, iou: real, inter: int, union: int)
    requires inter == MinInt(f.end, end) - MaxInt(f.start, start)
    requires union == (f.end - f.start) + (end - start) - inter
    ensures Shares(f, start, end, iou) <==> inter > 0 && (iou > 0.0 ==> IsPart(inter, union, iou))
    ensures inter > 0 ==> union > 0
  {
    Sizes(f.start, f.end, start, end);
  }

  /** The arithmetic on offsets decides exactly that. */
  lemma OverlapsMeans(f: Finding, start: int, end: int, iou: real)
    ensures Overlaps(f, start, end, iou) <==> Shares(f, start, end, iou)
  {
    var inter := MinInt(f.end, end) - MaxInt(f.start, start);
    var union := (f.end - f.start) + (end - start) - inter;
    SharesBy(f, start, end, iou, inter, union);
    OverlapsBy(f, start, end, iou, inter, union);
  }

  // ---- Touching without a span -------------------------------------------------------------------------------------

  predicate OccursIn(t: string, s: string) {
    exists i: nat | i <= |s| :: OccursAt(t, s, i)
  }

  predicate OccursAt(t: string, s: string, i: nat) {
    i + |t| <= |s| && s[i..i + |t|] == t
  }

  lemma ContainsMeans(s: string, t: string)
    ensures Contains(s, t) <==> OccursIn(t, s)
  {
    if i :| 0 <= i <= |s| && t <= s[i..] {
      assert s[i..][..|t|] == s[i..i + |t|];
      assert OccursAt(t, s, i);
    }
    if i: nat :| OccursAt(t, s, i) {
      assert s[i..][..|t|] == s[i..i + |t|];
      assert t <= s[i..];
    }
  }

  /** The entities of a category, by position in the document's list. */
  function OfCategory(entities: seq<Entity>, category: string): set<nat> {
    set j: nat | j < |entities| && entities[j].category == category
  }

  lemma {:induction false} CategoryCountMeans(entities: seq<Entity>, category: string)
    ensures CategoryCount(entities, category) == |OfCategory(entities, category)|
  {
    if entities == [] {
      assert OfCategory(entities, category) == {};
    } else {
      var n := |entities| - 1;
      CategoryCountMeans(entities[..n], category);
      assert OfCategory(entities, category)
             == OfCategory(entities[..n], category) + if entities[n].category == category then {n} else {};
    }
  }

  /**
   A finding without a span needs a text that contains the entity's text or is contained in it, both not empty; or the
   category of the entity, if the document has no other entity of that category.
   */
  predicate Resembles(f: Finding, e: Entity, entities: seq<Entity>) {
    || (f.text != "" && e.text != "" && (OccursIn(f.text, e.text) || OccursIn(e.text, f.text)))
    || (f.category == Some(e.category) && |OfCategory(entities, e.category)| == 1)
  }

  predicate HasNoSpan(f: Finding) {
    f.scanner == "llm" && f.start == 0 == f.end
  }

  predicate Touches(f: Finding, e: Entity, entities: seq<Entity>, iou: real) {
    if HasNoSpan(f) then Resembles(f, e, entities) else Shares(f, e.start, e.end, iou)
  }

  lemma HitsMeans(f: Finding, e: Entity, entities: seq<Entity>, iou: real)
    ensures Hits(f, e, entities, iou) <==> Touches(f, e, entities, iou)
  {
    OverlapsMeans(f, e.start, e.end, iou);
    ContainsMeans(f.text, e.text);
    ContainsMeans(e.text, f.text);
    CategoryCountMeans(entities, e.category);
  }

  // ---- The evaluation ----------------------------------------------------------------------------------------------

  predicate TouchesSome(f: Finding, entities: seq<Entity>, iou: real) {
    exists j | 0 <= j < |entities| :: Touches(f, entities[j], entities, iou)
  }

  predicate TouchesOwn(f: Finding, entities: seq<Entity>, iou: real) {
    exists j | 0 <= j < |entities| :: Touches(f, entities[j], entities, iou) && f.category == Some(entities[j].category)
  }

  lemma SomeMeans(f: Finding, entities: seq<Entity>, iou: real)
    ensures HitsSome(f, entities, iou) <==> TouchesSome(f, entities, iou)
  {
    if j :| 0 <= j < |entities| && Hits(f, entities[j], entities, iou) {
      HitsMeans(f, entities[j], entities, iou);
    }
    if j :| 0 <= j < |entities| && Touches(f, entities[j], entities, iou) {
      HitsMeans(f, entities[j], entities, iou);
      assert Hits(f, entities[j], entities, iou);
    }
  }

  lemma OwnMeans(f: Finding, entities: seq<Entity>, iou: real)
    ensures HitsRightly(f, entities, iou) <==> TouchesOwn(f, entities, iou)
  {
    if j :| 0 <= j < |entities| && Hits(f, entities[j], entities, iou) && SameCategory(f, entities[j]) {
      HitsMeans(f, entities[j], entities, iou);
    }
    if j :| 0 <= j < |entities| && Touches(f, entities[j], entities, iou) && f.category == Some(entities[j].category) {
      HitsMeans(f, entities[j], entities, iou);
      assert Hits(f, entities[j], entities, iou) && SameCategory(f, entities[j]);
    }
  }

  lemma OwnIsSome(f: Finding, entities: seq<Entity>, iou: real)
    ensures TouchesOwn(f, entities, iou) ==> TouchesSome(f, entities, iou)
  {
  }

  lemma FateMeans(f: Finding, entities: seq<Entity>, iou: real)
    ensures FateOf(f, entities, iou).FalsePositive? <==> !TouchesSome(f, entities, iou)
    ensures FateOf(f, entities, iou).Mislabeled? <==> TouchesSome(f, entities, iou) && !TouchesOwn(f, entities, iou)
  {
    SomeMeans(f, entities, iou);
    OwnMeans(f, entities, iou);
    OwnIsSome(f, entities, iou);
  }

  /** An entity's match: by the scanners of the findings that touch it, and right if one of them has its category. */
  predicate IsMatch(em: EntityMatch, e: Entity, findings: seq<Finding>, entities: seq<Entity>, iou: real) {
    && em.entity == e
    && (em.matched <==> exists f | f in findings :: Touches(f, e, entities, iou))
    && (em.categoryCorrect
        <==> exists f | f in findings :: Touches(f, e, entities, iou) && f.category == Some(e.category))
    && (forall f | f in findings && Touches(f, e, entities, iou) ::
          f.scanner in em.matchedBy && f.confidence <= em.bestConfidence)
    && (forall s | s in em.matchedBy :: exists f | f in findings :: f.scanner == s && Touches(f, e, entities, iou))
    && em.bestConfidence >= 0.0
    && (em.bestConfidence > 0.0 ==>
          exists f | f in findings :: f.confidence == em.bestConfidence && Touches(f, e, entities, iou))
  }

  lemma MatchMeans(e: Entity, findings: seq<Finding>, entities: seq<Entity>, iou: real)
    ensures IsMatch(MatchEntity(e, findings, entities, iou), e, findings, entities, iou)
  {
    var em := MatchEntity(e, findings, entities, iou);
    forall f ensures Hits(f, e, entities, iou) <==> Touches(f, e, entities, iou) {
      HitsMeans(f, e, entities, iou);
    }
    BestConfidenceIsBest(findings, e, entities, iou);
    forall i | 0 <= i < |findings| ensures findings[i] in findings {
    }
    forall f | f in findings && Touches(f, e, entities, iou) ensures f.scanner in em.matchedBy && em.matched {
      var i :| 0 <= i < |findings| && findings[i] == f;
      assert Hits(findings[i], e, entities, iou);
    }
    forall f | f in findings && Touches(f, e, entities, iou) && f.category == Some(e.category)
      ensures em.categoryCorrect
    {
      var i :| 0 <= i < |findings| && findings[i] == f;
      assert Hits(findings[i], e, entities, iou) && SameCategory(findings[i], e);
    }
  }

  lemma {:induction false} WithFateMembers(findings: seq<Finding>, entities: seq<Entity>, iou: real, fate: Fate)
    ensures forall f :: f in WithFate(findings, entities, iou, fate)
                        <==> f in findings && FateOf(f, entities, iou) == fate
  {
    if findings != [] {
      var n := |findings| - 1;
      WithFateMembers(findings[..n], entities, iou, fate);
      assert findings == findings[..n] + [findings[n]];
    }
  }

  /** The generators of the traps that share positions with a finding that touches no entity. */
  ghost predicate IsTrapHits(hits: set<string>, findings: seq<Finding>, doc: Document, iou: real) {
    forall g :: g in hits
      <==> exists f, j: nat | f in findings :: HitsTrap(f, j, doc, iou) && doc.negatives[j].generator == g
  }

  /** Finding `f`, a false positive with a span, shares positions with trap `j`. */
  predicate HitsTrap(f: Finding, j: nat, doc: Document, iou: real) {
    && j < |doc.negatives| && !TouchesSome(f, doc.entities, iou) && !HasNoSpan(f)
    && Shares(f, doc.negatives[j].start, doc.negatives[j].end, iou)
  }

  lemma HitsTrapMeans(f: Finding, j: nat, doc: Document, iou: real)
    requires j < |doc.negatives|
    ensures HitsTrap(f, j, doc, iou)
            <==> FateOf(f, doc.entities, iou).FalsePositive? && !Spanless(f)
                 && Overlaps(f, doc.negatives[j].start, doc.negatives[j].end, iou)
  {
    FateMeans(f, doc.entities, iou);
    OverlapsMeans(f, doc.negatives[j].start, doc.negatives[j].end, iou);
  }

  lemma TrapHitsMeans(findings: seq<Finding>, doc: Document, iou: real)
    ensures IsTrapHits(TrapHits(findings, doc, iou), findings, doc, iou)
  {
    var hits := TrapHits(findings, doc, iou);
    forall g | g in hits
      ensures exists f, j: nat | f in findings :: HitsTrap(f, j, doc, iou) && doc.negatives[j].generator == g
    {
      var i, j :| 0 <= i < |findings| && 0 <= j < |doc.negatives|
                  && FateOf(findings[i], doc.entities, iou).FalsePositive? && !Spanless(findings[i])
                  && Overlaps(findings[i], doc.negatives[j].start, doc.negatives[j].end, iou)
                  && doc.negatives[j].generator == g;
      HitsTrapMeans(findings[i], j, doc, iou);
    }
    forall f, j: nat | f in findings && HitsTrap(f, j, doc, iou) ensures doc.negatives[j].generator in hits {
      HitsTrapMeans(f, j, doc, iou);
      var i :| 0 <= i < |findings| && findings[i] == f;
      assert FateOf(findings[i], doc.entities, iou).FalsePositive?;
    }
  }

  /**
   The evaluation of a document by positions: an entity is matched if and only if a finding touches it; a finding that
   touches no entity is a false positive, one that touches entities of other categories only is mislabeled, and no other
   finding is either; and the traps hit are those that false positives share positions with.
   */
  lemma EvaluationMeans(doc: Document, findings: seq<Finding>, scanError: bool, iou: real)
    ensures
      var ev := Evaluate(doc, findings, scanError, iou);
      && |ev.entityMatches| == |doc.entities|
      && (forall j | 0 <= j < |doc.entities| ::
            IsMatch(ev.entityMatches[j], doc.entities[j], findings, doc.entities, iou))
      && (forall f :: f in ev.falsePositives <==> f in findings && !TouchesSome(f, doc.entities, iou))
      && (forall f :: f in ev.mislabeled <==>
            f in findings && TouchesSome(f, doc.entities, iou) && !TouchesOwn(f, doc.entities, iou))
      && IsTrapHits(ev.trapHits, findings, doc, iou)
      && (ev.isClean <==> |doc.entities| == 0) && (ev.flagged <==> |findings| > 0)
  {
    var ev := Evaluate(doc, findings, scanError, iou);
    forall j | 0 <= j < |doc.entities|
      ensures IsMatch(ev.entityMatches[j], doc.entities[j], findings, doc.entities, iou)
    {
      MatchMeans(doc.entities[j], findings, doc.entities, iou);
    }
    WithFateMembers(findings, doc.entities, iou, FalsePositive);
    WithFateMembers(findings, doc.entities, iou, Mislabeled);
    forall f
      ensures FateOf(f, doc.entities, iou).FalsePositive? <==> !TouchesSome(f, doc.entities, iou)
      ensures FateOf(f, doc.entities, iou).Mislabeled?
              <==> TouchesSome(f, doc.entities, iou) && !TouchesOwn(f, doc.entities, iou)
    {
      FateMeans(f, doc.entities, iou);
    }
    TrapHitsMeans(findings, doc, iou);
  }

  /** Without a threshold, a finding with a span touches an entity if and only if some position lies in both spans. */
  lemma TouchingPosition(f: Finding, e: Entity, entities: seq<Entity>, iou: real)
    requires iou <= 0.0 && !HasNoSpan(f)
    ensures Hits(f, e, entities, iou) <==> exists p :: Inside(p, f.start, f.end) && Inside(p, e.start, e.end)
  {
    HitsMeans(f, e, entities, iou);
    var shared := Positions(f.start, f.end) * Positions(e.start, e.end);
    if p :| Inside(p, f.start, f.end) && Inside(p, e.start, e.end) {
      assert p in shared;
    }
    if shared != {} {
      var p :| p in shared;
      assert Inside(p, f.start, f.end) && Inside(p, e.start, e.end);
    }
  }

  predicate Inside(p: int, start: int, end: int) {
    start <= p < end
  }
}
