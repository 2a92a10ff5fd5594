/**
 Matching scanner findings against ground-truth spans (dlp_harness/matching.py).
 */
module Matching {
  import opened Options

  datatype Finding = Finding(scanner: string, category: Option<string>, text: string, confidence: real, start: int,
                             end: int)

  datatype Entity = Entity(category: string, text: string, start: int, end: int, generator: string)

  datatype Document = Document(id: string, entities: seq<Entity>, negatives: seq<Entity>)

  datatype EntityMatch = EntityMatch(entity: Entity, matched: bool, matchedBy: set<string>, bestConfidence: real,
                                     categoryCorrect: bool)

  /** `scanError` documents are left out of the accuracy figures; sorted lists of names are sets here. */
  datatype DocEval = DocEval(id: string, isClean: bool, scanError: bool, entityMatches: seq<EntityMatch>,
                             falsePositives: seq<Finding>, mislabeled: seq<Finding>, trapHits: set<string>,
                             flagged: bool, findingsCount: nat)

  function MinInt(a: int, b: int): int {
    if a <= b then a else b
  }

  function MaxInt(a: int, b: int): int {
    if a >= b then a else b
  }

  // ---- Predicates --------------------------------------------------------------------------------------------------

  predicate Overlaps(f: Finding, start: int, end: int, iou: real) {
    var inter := MinInt(f.end, end) - MaxInt(f.start, start);
    && inter > 0
    && (iou > 0.0 ==>
          var union := (f.end - f.start) + (end - start) - inter;
          union > 0 && inter as real / union as real >= iou)
  }

  predicate Spanless(f: Finding) {
    f.scanner == "llm" && f.start == 0 && f.end == 0
  }

  predicate Contains(s: string, t: string) {
    exists i | 0 <= i <= |s| :: t <= s[i..]
  }

  function CategoryCount(entities: seq<Entity>, category: string): nat {
    if entities == [] then 0 else
      CategoryCount(entities[..|entities| - 1], category)
      + if entities[|entities| - 1].category == category then 1 else 0
  }

  predicate SameCategory(f: Finding, e: Entity) {
    f.category == Some(e.category)
  }

  predicate SpanlessMatches(f: Finding, e: Entity, entities: seq<Entity>) {
    || (f.text != "" && e.text != "" && (Contains(f.text, e.text) || Contains(e.text, f.text)))
    || (SameCategory(f, e) && CategoryCount(entities, e.category) == 1)
  }

  predicate Hits(f: Finding, e: Entity, entities: seq<Entity>, iou: real) {
    if Spanless(f) then SpanlessMatches(f, e, entities) else Overlaps(f, e.start, e.end, iou)
  }

  // ---- The evaluation of a document --------------------------------------------------------------------------------

  predicate HitsSome(f: Finding, entities: seq<Entity>, iou: real) {
    exists j | 0 <= j < |entities| :: Hits(f, entities[j], entities, iou)
  }

  predicate HitsRightly(f: Finding, entities: seq<Entity>, iou: real) {
    exists j | 0 <= j < |entities| :: Hits(f, entities[j], entities, iou) && SameCategory(f, entities[j])
  }

  /** The finding's fate: consumed by an entity of its own category, of other categories only, or of none. */
  datatype Fate = Correct | Mislabeled | FalsePositive

  function FateOf(f: Finding, entities: seq<Entity>, iou: real): Fate {
    if HitsRightly(f, entities, iou) then Correct else if HitsSome(f, entities, iou) then Mislabeled else FalsePositive
  }

  /** The findings with fate `fate`, in order. */
  function WithFate(findings: seq<Finding>, entities: seq<Entity>, iou: real, fate: Fate): seq<Finding> {
    if findings == [] then [] else
      var before, last := WithFate(findings[..|findings| - 1], entities, iou, fate), findings[|findings| - 1];
      if FateOf(last, entities, iou) == fate then before + [last] else before
  }

  function MaxReal(a: real, b: real): real {
    if a >= b then a else b
  }

  function BestConfidence(findings: seq<Finding>, e: Entity, entities: seq<Entity>, iou: real): real {
    if findings == [] then 0.0 else
      var before, last := BestConfidence(findings[..|findings| - 1], e, entities, iou), findings[|findings| - 1];
      if Hits(last, e, entities, iou) then MaxReal(before, last.confidence) else before
  }

  function MatchEntity(e: Entity, findings: seq<Finding>, entities: seq<Entity>, iou: real): EntityMatch {
    EntityMatch(
      e,
      exists i | 0 <= i < |findings| :: Hits(findings[i], e, entities, iou),
      set i | 0 <= i < |findings| && Hits(findings[i], e, entities, iou) :: findings[i].scanner,
      BestConfidence(findings, e, entities, iou),
      exists i | 0 <= i < |findings| :: Hits(findings[i], e, entities, iou) && SameCategory(findings[i], e))
  }

  function TrapHits(findings: seq<Finding>, doc: Document, iou: real): set<string> {
    set i, j | 0 <= i < |findings| && 0 <= j < |doc.negatives|
               && FateOf(findings[i], doc.entities, iou).FalsePositive? && !Spanless(findings[i])
               && Overlaps(findings[i], doc.negatives[j].start, doc.negatives[j].end, iou)
             :: doc.negatives[j].generator
  }

  function Evaluate(doc: Document, findings: seq<Finding>, scanError: bool, iou: real): DocEval {
    DocEval(
      doc.id, doc.entities == [], scanError,
      seq(|doc.entities|,
          i requires 0 <= i < |doc.entities| => MatchEntity(doc.entities[i], findings, doc.entities, iou)),
      WithFate(findings, doc.entities, iou, FalsePositive), WithFate(findings, doc.entities, iou, Mislabeled),
      TrapHits(findings, doc, iou),
      findings != [],
      |findings|)
  }

  // ---- `match_document` --------------------------------------------------------------------------------------------

  function HitIndices(findings: seq<Finding>, n: nat, e: Entity, entities: seq<Entity>, iou: real): set<nat>
    requires n <= |findings|
  {
    set k | 0 <= k < n && Hits(findings[k], e, entities, iou)
  }

  function RightIndices(findings: seq<Finding>, n: nat, e: Entity, entities: seq<Entity>, iou: real): set<nat>
    requires n <= |findings|
  {
    set k | 0 <= k < n && Hits(findings[k], e, entities, iou) && SameCategory(findings[k], e)
  }

  lemma OneMoreIndex(findings: seq<Finding>, n: nat, e: Entity, entities: seq<Entity>, iou: real)
    requires n < |findings|
    ensures HitIndices(findings, n + 1, e, entities, iou)
            == HitIndices(findings, n, e, entities, iou) + if Hits(findings[n], e, entities, iou) then {n} else {}
    ensures RightIndices(findings, n + 1, e, entities, iou)
            == RightIndices(findings, n, e, entities, iou)
               + if Hits(findings[n], e, entities, iou) && SameCategory(findings[n], e) then {n} else {}
  {
  }

  /** What the flags of an entity's match say about the indices. */
  lemma MatchFromIndices(findings: seq<Finding>, e: Entity, entities: seq<Entity>, iou: real, scanners: set<string>)
    requires scanners == set k | k in HitIndices(findings, |findings|, e, entities, iou) :: findings[k].scanner
    ensures MatchEntity(e, findings, entities, iou)
            == EntityMatch(e, scanners != {}, scanners, BestConfidence(findings, e, entities, iou),
                           RightIndices(findings, |findings|, e, entities, iou) != {})
  {
    var hits := HitIndices(findings, |findings|, e, entities, iou);
    var right := RightIndices(findings, |findings|, e, entities, iou);
    forall i | 0 <= i < |findings| && Hits(findings[i], e, entities, iou) ensures findings[i].scanner in scanners {
      assert i in hits;
    }
    forall i | 0 <= i < |findings| && Hits(findings[i], e, entities, iou) && SameCategory(findings[i], e)
      ensures right != {}
    {
      assert i in right;
    }
    assert scanners == MatchEntity(e, findings, entities, iou).matchedBy;
  }

  /** The loop over the findings for one entity. */
  method MatchOne(e: Entity, findings: seq<Finding>, entities: seq<Entity>, iou: real, matchedIn: set<nat>,
                  correctIn: set<nat>)
    returns (em: EntityMatch, matched: set<nat>, correct: set<nat>)
    ensures em == MatchEntity(e, findings, entities, iou)
    ensures matched == matchedIn + HitIndices(findings, |findings|, e, entities, iou)
    ensures correct == correctIn + RightIndices(findings, |findings|, e, entities, iou)
  {
    var scanners: set<string>, best, categoryCorrect := {}, 0.0, false;
    matched, correct := matchedIn, correctIn;
    for i := 0 to |findings|
      invariant scanners == set k | k in HitIndices(findings, i, e, entities, iou) :: findings[k].scanner
      invariant best == BestConfidence(findings[..i], e, entities, iou)
      invariant categoryCorrect <==> RightIndices(findings, i, e, entities, iou) != {}
      invariant matched == matchedIn + HitIndices(findings, i, e, entities, iou)
      invariant correct == correctIn + RightIndices(findings, i, e, entities, iou)
    {
      assert findings[..i + 1][..i] == findings[..i];
      OneMoreIndex(findings, i, e, entities, iou);
      var f := findings[i];
      if Hits(f, e, entities, iou) {
        matched, scanners, best := matched + {i}, scanners + {f.scanner}, MaxReal(best, f.confidence);
        if SameCategory(f, e) {
          categoryCorrect, correct := true, correct + {i};
        }
      }
    }
    assert findings[..|findings|] == findings;
    MatchFromIndices(findings, e, entities, iou, scanners);
    em := EntityMatch(e, scanners != {}, scanners, best, categoryCorrect);
  }

  predicate HitsAmong(f: Finding, entities: seq<Entity>, n: nat, iou: real)
    requires n <= |entities|
  {
    exists j | 0 <= j < n :: Hits(f, entities[j], entities, iou)
  }

  predicate HitsRightlyAmong(f: Finding, entities: seq<Entity>, n: nat, iou: real)
    requires n <= |entities|
  {
    exists j | 0 <= j < n :: Hits(f, entities[j], entities, iou) && SameCategory(f, entities[j])
  }

  lemma AmongOneMore(f: Finding, entities: seq<Entity>, n: nat, iou: real)
    requires n < |entities|
    ensures HitsAmong(f, entities, n + 1, iou)
            <==> HitsAmong(f, entities, n, iou) || Hits(f, entities[n], entities, iou)
    ensures HitsRightlyAmong(f, entities, n + 1, iou)
            <==> HitsRightlyAmong(f, entities, n, iou)
                 || (Hits(f, entities[n], entities, iou) && SameCategory(f, entities[n]))
  {
    var rightly := HitsRightlyAmong(f, entities, n, iou);
    if Hits(f, entities[n], entities, iou) {
      assert HitsAmong(f, entities, n + 1, iou);
    }
    assert rightly ==> HitsRightlyAmong(f, entities, n + 1, iou);
  }

  /** The loop over the entities. */
  method MatchEntities(findings: seq<Finding>, entities: seq<Entity>, iou: real)
    returns (ems: seq<EntityMatch>, matched: set<nat>, correct: set<nat>)
    ensures ems == seq(|entities|, i requires 0 <= i < |entities| => MatchEntity(entities[i], findings, entities, iou))
    ensures matched == set i | 0 <= i < |findings| && HitsSome(findings[i], entities, iou)
    ensures correct == set i | 0 <= i < |findings| && HitsRightly(findings[i], entities, iou)
  {
    ems, matched, correct := [], {}, {};
    for n := 0 to |entities|
      invariant |ems| == n && forall j | 0 <= j < n :: ems[j] == MatchEntity(entities[j], findings, entities, iou)
      invariant matched == set i | 0 <= i < |findings| && HitsAmong(findings[i], entities, n, iou)
      invariant correct == set i | 0 <= i < |findings| && HitsRightlyAmong(findings[i], entities, n, iou)
    {
      var em;
      em, matched, correct := MatchOne(entities[n], findings, entities, iou, matched, correct);
      ems := ems + [em];
      forall i | 0 <= i < |findings| {
        AmongOneMore(findings[i], entities, n, iou);
      }
    }
  }

  /** The findings with the given indices, in order (`[findings[i] for i in sorted(indices)]`). */
  method Collect(findings: seq<Finding>, indices: set<nat>, ghost entities: seq<Entity>, ghost iou: real,
                 ghost fate: Fate)
    returns (r: seq<Finding>)
    requires forall i | 0 <= i < |findings| :: i in indices <==> FateOf(findings[i], entities, iou) == fate
    ensures r == WithFate(findings, entities, iou, fate)
  {
    r := [];
    for i := 0 to |findings|
      invariant r == WithFate(findings[..i], entities, iou, fate)
    {
      assert findings[..i + 1][..i] == findings[..i];
      if i in indices {
        r := r + [findings[i]];
      }
    }
    assert findings[..|findings|] == findings;
  }

  method TrapsOf(f: Finding, negatives: seq<Entity>, iou: real) returns (traps: set<string>)
    ensures traps == set j | 0 <= j < |negatives| && Overlaps(f, negatives[j].start, negatives[j].end, iou)
                           :: negatives[j].generator
  {
    traps := {};
    for j := 0 to |negatives|
      invariant traps == set k | 0 <= k < j && Overlaps(f, negatives[k].start, negatives[k].end, iou)
                               :: negatives[k].generator
    {
      if Overlaps(f, negatives[j].start, negatives[j].end, iou) {
        traps := traps + {negatives[j].generator};
      }
    }
  }

  /** The loop that collects the false positives and the traps they fell into. */
  method CollectFalsePositives(doc: Document, findings: seq<Finding>, iou: real, matched: set<nat>)
    returns (falsePositives: seq<Finding>, trapHits: set<string>)
    requires forall i | 0 <= i < |findings| :: i in matched <==> HitsSome(findings[i], doc.entities, iou)
    ensures falsePositives == WithFate(findings, doc.entities, iou, FalsePositive)
    ensures trapHits == TrapHits(findings, doc, iou)
  {
    falsePositives, trapHits := [], {};
    for i := 0 to |findings|
      invariant falsePositives == WithFate(findings[..i], doc.entities, iou, FalsePositive)
      invariant trapHits == TrapHits(findings[..i], doc, iou)
    {
      assert findings[..i + 1][..i] == findings[..i];
      ghost var before := trapHits;
      ghost var f := findings[i];
      var caught: set<string> := {};
      if i !in matched {
        RightlyIsSome(findings[i], doc.entities, iou);
        falsePositives := falsePositives + [findings[i]];
        if !Spanless(findings[i]) {
          caught := TrapsOf(findings[i], doc.negatives, iou);
        }
      }
      trapHits := trapHits + caught;
      TrapHitsOneMore(findings[..i], findings[i], doc, iou);
      assert findings[..i + 1] == findings[..i] + [findings[i]];
    }
    assert findings[..|findings|] == findings;
  }

  lemma RightlyIsSome(f: Finding, entities: seq<Entity>, iou: real)
    ensures HitsRightly(f, entities, iou) ==> HitsSome(f, entities, iou)
  {
    if j :| 0 <= j < |entities| && Hits(f, entities[j], entities, iou) && SameCategory(f, entities[j]) {
      assert Hits(f, entities[j], entities, iou);
    }
  }

  lemma TrapHitsOneMore(findings: seq<Finding>, f: Finding, doc: Document, iou: real)
    ensures TrapHits(findings + [f], doc, iou) == TrapHits(findings, doc, iou) +
            if FateOf(f, doc.entities, iou).FalsePositive? && !Spanless(f)
            then set j | 0 <= j < |doc.negatives| && Overlaps(f, doc.negatives[j].start, doc.negatives[j].end, iou)
                       :: doc.negatives[j].generator
            else {}
  {
    var all := findings + [f];
    assert forall i | 0 <= i < |findings| :: all[i] == findings[i];
    assert all[|findings|] == f;
    forall g | g in TrapHits(findings, doc, iou) ensures g in TrapHits(all, doc, iou) {
      var i, j :| 0 <= i < |findings| && 0 <= j < |doc.negatives|
                  && FateOf(findings[i], doc.entities, iou).FalsePositive? && !Spanless(findings[i])
                  && Overlaps(findings[i], doc.negatives[j].start, doc.negatives[j].end, iou)
                  && doc.negatives[j].generator == g;
      assert all[i] == findings[i];
    }
  }

  method MatchDocument(doc: Document, findings: seq<Finding>, scanError: bool, iou: real) returns (r: DocEval)
    ensures r == Evaluate(doc, findings, scanError, iou)
  {
    var ems, matched, correct := MatchEntities(findings, doc.entities, iou);
    forall i | 0 <= i < |findings|
      ensures i in matched - correct <==> FateOf(findings[i], doc.entities, iou).Mislabeled?
    {
      RightlyIsSome(findings[i], doc.entities, iou);
    }
    var mislabeled := Collect(findings, matched - correct, doc.entities, iou, Mislabeled);
    var falsePositives, trapHits := CollectFalsePositives(doc, findings, iou, matched);
    r := DocEval(doc.id, doc.entities == [], scanError, ems, falsePositives, mislabeled, trapHits, findings != [],
                 |findings|);
  }

  // ---- Laws --------------------------------------------------------------------------------------------------------

  /** Every finding has exactly one fate: the three kinds together are all the findings, each as often as it occurs. */
  lemma {:induction false} FatesPartition(findings: seq<Finding>, entities: seq<Entity>, iou: real)
    ensures multiset(WithFate(findings, entities, iou, Correct))
            + multiset(WithFate(findings, entities, iou, Mislabeled))
            + multiset(WithFate(findings, entities, iou, FalsePositive)) == multiset(findings)
    ensures |WithFate(findings, entities, iou, Correct)| + |WithFate(findings, entities, iou, Mislabeled)|
            + |WithFate(findings, entities, iou, FalsePositive)| == |findings|
  {
    if findings != [] {
      var n := |findings| - 1;
      FatesPartition(findings[..n], entities, iou);
      assert findings == findings[..n] + [findings[n]];
    }
  }

  lemma HitsShrink(f: Finding, e: Entity, entities: seq<Entity>, iou: real, iou1: real)
    requires iou <= iou1
    ensures Hits(f, e, entities, iou1) ==> Hits(f, e, entities, iou)
  {
  }

  /** A stricter overlap threshold never matches more entities. */
  lemma StricterMatchesLess(doc: Document, findings: seq<Finding>, scanError: bool, iou: real, iou1: real, j: nat)
    requires iou <= iou1 && j < |doc.entities|
    ensures
      var em := Evaluate(doc, findings, scanError, iou).entityMatches[j];
      var em1 := Evaluate(doc, findings, scanError, iou1).entityMatches[j];
      && em.entity == em1.entity == doc.entities[j]
      && (em1.matched ==> em.matched) && (em1.categoryCorrect ==> em.categoryCorrect)
      && em1.matchedBy <= em.matchedBy
  {
    var e := doc.entities[j];
    forall i | 0 <= i < |findings|
      ensures Hits(findings[i], e, doc.entities, iou1) ==> Hits(findings[i], e, doc.entities, iou)
    {
      HitsShrink(findings[i], e, doc.entities, iou, iou1);
    }
  }

  /** A stricter overlap threshold never has fewer false positives: those there were stay, each as often. */
  lemma {:induction false} StricterFailsMore(findings: seq<Finding>, entities: seq<Entity>, iou: real, iou1: real)
    requires iou <= iou1
    ensures multiset(WithFate(findings, entities, iou, FalsePositive))
            <= multiset(WithFate(findings, entities, iou1, FalsePositive))
    ensures |WithFate(findings, entities, iou, FalsePositive)| <= |WithFate(findings, entities, iou1, FalsePositive)|
  {
    if findings != [] {
      var n := |findings| - 1;
      StricterFailsMore(findings[..n], entities, iou, iou1);
      var f := findings[n];
      RightlyIsSome(f, entities, iou);
      RightlyIsSome(f, entities, iou1);
      if j :| 0 <= j < |entities| && Hits(f, entities[j], entities, iou1) {
        HitsShrink(f, entities[j], entities, iou, iou1);
        assert HitsSome(f, entities, iou);
      }
    }
  }

  /** The fate of a finding and the matches of the entities tell the same story. */
  lemma FatesAndMatches(doc: Document, findings: seq<Finding>, scanError: bool, iou: real)
    ensures
      var ev := Evaluate(doc, findings, scanError, iou);
      && (forall j | 0 <= j < |doc.entities| :: ev.entityMatches[j].matched
            <==> exists i | 0 <= i < |findings| :: Hits(findings[i], doc.entities[j], doc.entities, iou))
      && (|ev.falsePositives| == |findings| <==> forall j | 0 <= j < |doc.entities| :: !ev.entityMatches[j].matched)
  {
    var ev := Evaluate(doc, findings, scanError, iou);
    AllFalse(findings, doc.entities, iou);
    forall i | 0 <= i < |findings| && HitsSome(findings[i], doc.entities, iou)
      ensures exists j | 0 <= j < |doc.entities| :: ev.entityMatches[j].matched
    {
      var j :| 0 <= j < |doc.entities| && Hits(findings[i], doc.entities[j], doc.entities, iou);
      assert ev.entityMatches[j].matched;
    }
  }

  lemma {:induction false} AllFalse(findings: seq<Finding>, entities: seq<Entity>, iou: real)
    ensures |WithFate(findings, entities, iou, FalsePositive)| <= |findings|
    ensures |WithFate(findings, entities, iou, FalsePositive)| == |findings|
            <==> forall i | 0 <= i < |findings| :: !HitsSome(findings[i], entities, iou)
  {
    if findings != [] {
      var n := |findings| - 1;
      AllFalse(findings[..n], entities, iou);
      assert forall i | 0 <= i < n :: findings[..n][i] == findings[i];
      RightlyIsSome(findings[n], entities, iou);
    }
  }

  /** The best confidence of an entity: no hit is above it, and it is that of some hit unless none is above zero. */
  lemma {:induction false} BestConfidenceIsBest(findings: seq<Finding>, e: Entity, entities: seq<Entity>, iou: real)
    ensures BestConfidence(findings, e, entities, iou) >= 0.0
    ensures forall f | f in findings && Hits(f, e, entities, iou) ::
              f.confidence <= BestConfidence(findings, e, entities, iou)
    ensures BestConfidence(findings, e, entities, iou) == 0.0
            || exists f | f in findings && Hits(f, e, entities, iou) ::
                 f.confidence == BestConfidence(findings, e, entities, iou)
  {
    if findings != [] {
      var front, last := findings[..|findings| - 1], findings[|findings| - 1];
      BestConfidenceIsBest(front, e, entities, iou);
      assert findings == front + [last];
      if f :| f in front && Hits(f, e, entities, iou) && f.confidence == BestConfidence(front, e, entities, iou) {
        assert f in findings;
      }
      assert last in findings;
    }
  }
}
