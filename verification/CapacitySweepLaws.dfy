/**
 What every adaptive sweep does, whatever the stages answer (chat_bench.py).
 */
module CapacitySweepLaws {
  import opened Options
  import opened Sorting
  import opened CapacitySweep

  /** The results the code had before step `k` of a sweep. */
  function ResultsBefore(cfg: Config, oracle: nat -> bool, log: seq<Step>, k: nat): Results
    requires k <= |log|
  {
    ResultsFor(Plan(cfg, log[..k]), cfg.repeats, oracle)
  }

  lemma {:induction false} TraceStep(follows: (seq<Step>, Step) -> bool, log: seq<Step>, k: nat)
    requires IsTrace(follows, log) && k < |log|
    ensures follows(log[..k], log[k])
  {
    if k < |log| - 1 {
      TraceStep(follows, log[..|log| - 1], k);
      assert log[..|log| - 1][..k] == log[..k];
    }
  }

  lemma StepTaken(cfg: Config, oracle: nat -> bool, log: seq<Step>, k: nat)
    requires IsSweep(cfg, oracle, log) && k < |log|
    ensures Follows(cfg, oracle, log[..k], Some(log[k]))
  {
    TraceStep(Decisions(cfg, oracle), log, k);
  }

  // ---- Verdicts ----------------------------------------------------------------------------------------------------

  predicate Good(m: Results, u: int) {
    u in m && m[u]
  }

  predicate Bad(m: Results, u: int) {
    u in m && !m[u]
  }

  /** `p` passes, `f` fails, every tested count below `f` passes, and none lies between them. */
  predicate Knee(m: Results, p: int, f: int) {
    p < f && Good(m, p) && Bad(m, f) && forall u | u in m && u < f :: u <= p && Good(m, u)
  }

  lemma GoodUpTo(m: Results, p: int, u: int)
    requires PassesUpTo(m, p) && u in m && u <= p
    ensures Good(m, u)
  {
  }

  lemma CapacityUnique(m: Results, p: int, q: int)
    requires IsCapacity(m, p) && IsCapacity(m, q)
    ensures p == q
  {
    assert q > p ==> !PassesUpTo(m, q);
    assert p > q ==> !PassesUpTo(m, p);
  }

  lemma FirstFailUnique(m: Results, f: int, g: int)
    requires IsFirstFail(m, f) && IsFirstFail(m, g)
    ensures f == g
  {
    assert g < f ==> Good(m, g);
    assert f < g ==> Good(m, f);
  }

  lemma FailStopsCapacity(m: Results, f: int, q: int)
    requires Bad(m, f) && q >= f
    ensures !PassesUpTo(m, q)
  {
    assert PassesUpTo(m, q) ==> Good(m, f);
  }

  lemma PassesBelow(m: Results, f: int, u: int)
    requires IsFirstFail(m, f) && u < f
    ensures PassesUpTo(m, u)
  {
  }

  /** Capacity and first failure are neighbours among the tested counts; neighbours of that kind are these two. */
  lemma KneeIsBracket(m: Results, p: int, f: int)
    ensures IsCapacity(m, p) && IsFirstFail(m, f) <==> Knee(m, p, f)
  {
    if Knee(m, p, f) {
      forall q | q in m && q > p ensures !PassesUpTo(m, q) {
        assert q < f ==> q <= p;
        FailStopsCapacity(m, f, q);
      }
      assert forall u | u in m && u < f :: Good(m, u);
      assert PassesUpTo(m, p) by {
        assert forall u | u in m && u <= p :: Good(m, u);
      }
    }
    if IsCapacity(m, p) && IsFirstFail(m, f) {
      BracketIsKnee(m, p, f);
    }
  }

  lemma BracketIsKnee(m: Results, p: int, f: int)
    requires IsCapacity(m, p) && IsFirstFail(m, f)
    ensures Knee(m, p, f)
  {
    assert f <= p ==> Good(m, f);
    GoodUpTo(m, p, p);
    forall u | u in m && u < f ensures u <= p && Good(m, u) {
      PassesBelow(m, f, u);
      assert Good(m, u);
      assert u > p ==> !PassesUpTo(m, u);
    }
  }

  /** The results determine the verdict. */
  lemma VerdictUnique(m: Results, v: Verdict, w: Verdict)
    requires IsVerdict(v, m) && IsVerdict(w, m)
    ensures v == w
  {
    CapacityIsUnique(m, v.capacity, w.capacity);
    FirstFailIsUnique(m, v.firstFail, w.firstFail);
  }

  lemma CapacityIsUnique(m: Results, a: Option<int>, b: Option<int>)
    requires CapacityIs(m, a) && CapacityIs(m, b)
    ensures a == b
  {
    if a.Some? && b.Some? {
      CapacityUnique(m, a.value, b.value);
    }
  }

  lemma FirstFailIsUnique(m: Results, a: Option<int>, b: Option<int>)
    requires FirstFailIs(m, a) && FirstFailIs(m, b)
    ensures a == b
  {
    if a.Some? && b.Some? {
      FirstFailUnique(m, a.value, b.value);
    }
  }

  // ---- Extensions --------------------------------------------------------------------------------------------------

  lemma ExtendTaken(maxUsers: int, m: Results, bisections: nat, step: Step)
    requires Takes(maxUsers, m, bisections, Some(step)) && step.Extend?
    ensures AllPass(m) && step.last in m && forall u | u in m :: u <= step.last
    ensures step.last < step.added == Extension(step.last, maxUsers) <= maxUsers
  {
    var v :| IsVerdict(v, m) && NextStep(maxUsers, v, bisections) == Some(step);
    VerdictFacts(v, m);
    ExtendFacts(maxUsers, v, m, bisections, step);
  }

  lemma BisectFacts(maxUsers: int, m: Results, v: Verdict, bisections: nat, step: Step)
    requires NextStep(maxUsers, v, bisections) == Some(step) && step.Bisect?
    ensures bisections < 2 && !v.allPass && v.capacity == Some(step.p) && v.firstFail == Some(step.f)
    ensures step.p != 0 && step.f != 0 && FarApart(step.p, step.f)
    ensures step.added == (step.p + step.f) / 2 && step.added !in v.counts
  {
  }

  lemma VerdictKnee(m: Results, v: Verdict, p: int, f: int)
    requires IsVerdict(v, m) && v.capacity == Some(p) && v.firstFail == Some(f)
    ensures Knee(m, p, f)
  {
    BracketIsKnee(m, p, f);
  }

  lemma BisectTaken(maxUsers: int, m: Results, bisections: nat, step: Step)
    requires Takes(maxUsers, m, bisections, Some(step)) && step.Bisect?
    ensures bisections < 2 && !AllPass(m) && Knee(m, step.p, step.f)
    ensures step.p != 0 && step.f != 0 && FarApart(step.p, step.f)
    ensures step.added == (step.p + step.f) / 2 && step.added !in m
  {
    var v :| IsVerdict(v, m) && NextStep(maxUsers, v, bisections) == Some(step);
    BisectFacts(maxUsers, m, v, bisections, step);
    VerdictFacts(v, m);
    VerdictKnee(m, v, step.p, step.f);
  }

  /** An extension below the ceiling is one and a half times the largest count, rounded up. */
  lemma ExtensionFactor(last: int, maxUsers: int)
    ensures Extension(last, maxUsers) < maxUsers ==> 3 * last <= 2 * Extension(last, maxUsers) < 3 * last + 2
  {
  }

  /** Each extension follows only passing stages; it strictly grows the largest planned count, up to the ceiling. */
  lemma ExtensionsGrow(cfg: Config, oracle: nat -> bool, log: seq<Step>, k: nat)
    requires IsSweep(cfg, oracle, log) && k < |log| && log[k].Extend?
    ensures AllPass(ResultsBefore(cfg, oracle, log, k))
    ensures forall u | u in Plan(cfg, log[..k]) :: u <= log[k].last < log[k].added
    ensures log[k].last in Plan(cfg, log[..k]) && log[k].added <= cfg.maxUsers
    ensures log[k].added < cfg.maxUsers ==> 3 * log[k].last <= 2 * log[k].added < 3 * log[k].last + 2
  {
    ExtensionFactor(log[k].last, cfg.maxUsers);
    StepTaken(cfg, oracle, log, k);
    var planned := Plan(cfg, log[..k]);
    ExtendTaken(cfg.maxUsers, ResultsBefore(cfg, oracle, log, k), Bisections(log[..k]), log[k]);
    TestedIsPlanned(planned, cfg.repeats, oracle);
    assert log[k].last in Members(planned);
    assert forall u | u in planned :: u in Members(planned);
  }

  // ---- Failures persist --------------------------------------------------------------------------------------------

  lemma FailurePersists(ss: seq<Summary>, more: seq<Summary>)
    requires !AllPass(ResultsOf(ss))
    ensures !AllPass(ResultsOf(ss + more))
  {
    var u :| u in ResultsOf(ss) && !ResultsOf(ss)[u];
    var s :| s in ss && s.users == u && !s.passed;
    assert s in ss + more;
    assert u in ResultsOf(ss + more) && !Passes(ss + more, u);
  }

  lemma {:induction false} SweepFailurePersists(cfg: Config, oracle: nat -> bool, log: seq<Step>, j: nat, k: nat)
    requires j <= k <= |log| && !AllPass(ResultsBefore(cfg, oracle, log, j))
    ensures !AllPass(ResultsBefore(cfg, oracle, log, k))
  {
    if j < k {
      SweepFailurePersists(cfg, oracle, log, j, k - 1);
      var planned := Plan(cfg, log[..k - 1]);
      assert log[..k][..k - 1] == log[..k - 1];
      assert (planned + [log[k - 1].added])[..|planned|] == planned;
      var ss := RunAll(planned, cfg.repeats, oracle);
      FailurePersists(ss, RunStage(log[k - 1].added, cfg.repeats, oracle, |ss|));
    }
  }

  /** Once a stage has failed there is no extension any more; in particular none follows a bisection. */
  lemma NoExtensionAfterFailure(cfg: Config, oracle: nat -> bool, log: seq<Step>, j: nat, k: nat)
    requires IsSweep(cfg, oracle, log) && j <= k < |log|
    requires !AllPass(ResultsBefore(cfg, oracle, log, j)) || log[j].Bisect?
    ensures log[k].Bisect?
  {
    if log[j].Bisect? {
      StepTaken(cfg, oracle, log, j);
      BisectTaken(cfg.maxUsers, ResultsBefore(cfg, oracle, log, j), Bisections(log[..j]), log[j]);
    }
    SweepFailurePersists(cfg, oracle, log, j, k);
    if log[k].Extend? {
      ExtensionsGrow(cfg, oracle, log, k);
    }
  }

  // ---- Bisections --------------------------------------------------------------------------------------------------

  /** At most two bisections run. */
  lemma {:induction false} AtMostTwoBisections(cfg: Config, oracle: nat -> bool, log: seq<Step>)
    requires IsSweep(cfg, oracle, log)
    ensures Bisections(log) <= 2
  {
    if log != [] {
      var k := |log| - 1;
      AtMostTwoBisections(cfg, oracle, log[..k]);
      StepTaken(cfg, oracle, log, k);
      if log[k].Bisect? {
        BisectTaken(cfg.maxUsers, ResultsBefore(cfg, oracle, log, k), Bisections(log[..k]), log[k]);
      }
    }
  }

  lemma PassesApart(a: seq<Summary>, b: seq<Summary>, u: int)
    requires u !in Counts(b)
    ensures Passes(a + b, u) <==> Passes(a, u)
  {
    forall s | s in b ensures s.users != u {
      assert s.users in Counts(b);
    }
    assert forall s | s in a :: s in a + b;
  }

  /** `m1` also has a result for `u`, and is otherwise `m`. */
  predicate OneMore(m: Results, m1: Results, u: int) {
    m1.Keys == m.Keys + {u} && forall w | w in m && w != u :: m1[w] == m[w]
  }

  /** One more planned count changes the results of that count only. */
  lemma OneMoreCount(planned: seq<int>, u: int, repeats: int, oracle: nat -> bool)
    requires repeats > 0
    ensures OneMore(ResultsFor(planned, repeats, oracle), ResultsFor(planned + [u], repeats, oracle), u)
  {
    assert (planned + [u])[..|planned|] == planned;
    var ss := RunAll(planned, repeats, oracle);
    var stage := RunStage(u, repeats, oracle, |ss|);
    RunStageCounts(u, repeats, oracle, |ss|);
    CountsConcat(ss, stage);
    forall w | w in Counts(ss) && w != u ensures Passes(ss + stage, w) <==> Passes(ss, w) {
      PassesApart(ss, stage, w);
    }
  }

  lemma MidWithin(p: int, f: int)
    requires p < f
    ensures p <= (p + f) / 2 < f && ((p + f) / 2 == p <==> f == p + 1)
    ensures f - (p + f) / 2 == (f - p + 1) / 2 && (p + f) / 2 - p == (f - p) / 2
  {
  }

  /** After the count in the middle has been tested, it replaces the end of the bracket that it agrees with. */
  lemma KneeMoves(m: Results, m1: Results, p: int, f: int, mid: int)
    requires Knee(m, p, f) && p < mid < f && OneMore(m, m1, mid)
    ensures if Good(m1, mid) then Knee(m1, mid, f) else Knee(m1, p, mid)
  {
    assert Good(m1, p) && Bad(m1, f);
    forall u | u in m1 && u < f && u != mid ensures u <= p && Good(m1, u) {
      assert u in m;
      assert Good(m, u);
    }
  }

  /**
   A bisection tests the middle of the bracket. Afterwards capacity and first failure are again neighbours among the
   tested counts, and their distance is at most half of what it was, rounded up.
   */
  lemma BisectionsHalve(cfg: Config, oracle: nat -> bool, log: seq<Step>, k: nat)
    requires IsSweep(cfg, oracle, log) && k < |log| && log[k].Bisect?
    ensures
      var p, f, mid := log[k].p, log[k].f, log[k].added;
      var m, m1 := ResultsBefore(cfg, oracle, log, k), ResultsBefore(cfg, oracle, log, k + 1);
      && Knee(m, p, f) && p < mid < f
      && (if Good(m1, mid) then Knee(m1, mid, f) && f - mid == (f - p + 1) / 2
          else Knee(m1, p, mid) && mid - p == (f - p) / 2)
  {
    StepTaken(cfg, oracle, log, k);
    BisectBracket(cfg, oracle, log[..k], log[k]);
    BracketAfter(cfg, oracle, log, k);
  }

  lemma BracketAfter(cfg: Config, oracle: nat -> bool, log: seq<Step>, k: nat)
    requires k < |log| && log[k].Bisect?
    requires IsBracket(ResultsBefore(cfg, oracle, log, k), log[k])
    ensures
      var p, f, mid, m1 := log[k].p, log[k].f, log[k].added, ResultsBefore(cfg, oracle, log, k + 1);
      && p < mid < f
      && if Good(m1, mid) then Knee(m1, mid, f) && f - mid == (f - p + 1) / 2
         else Knee(m1, p, mid) && mid - p == (f - p) / 2
  {
    var m, m1 := ResultsBefore(cfg, oracle, log, k), ResultsBefore(cfg, oracle, log, k + 1);
    assert log[k].p in m;
    ResultsAfterBisect(cfg, oracle, log, k);
    BracketHalves(m, m1, log[k].p, log[k].f, log[k].added);
  }

  /** A bisection of a knee, in the middle, which has not been tested. */
  predicate IsBracket(m: Results, step: Step)
    requires step.Bisect?
  {
    Knee(m, step.p, step.f) && step.added == (step.p + step.f) / 2 && step.added !in m
  }

  lemma BisectBracket(cfg: Config, oracle: nat -> bool, before: seq<Step>, step: Step)
    requires Follows(cfg, oracle, before, Some(step)) && step.Bisect?
    ensures IsBracket(ResultsFor(Plan(cfg, before), cfg.repeats, oracle), step)
  {
    BisectTaken(cfg.maxUsers, ResultsFor(Plan(cfg, before), cfg.repeats, oracle), Bisections(before), step);
  }

  lemma BracketHalves(m: Results, m1: Results, p: int, f: int, mid: int)
    requires Knee(m, p, f) && mid == (p + f) / 2 && mid !in m && OneMore(m, m1, mid)
    ensures p < mid < f
    ensures if Good(m1, mid) then Knee(m1, mid, f) && f - mid == (f - p + 1) / 2
            else Knee(m1, p, mid) && mid - p == (f - p) / 2
  {
    MidWithin(p, f);
    KneeMoves(m, m1, p, f, mid);
  }

  lemma ResultsAfterBisect(cfg: Config, oracle: nat -> bool, log: seq<Step>, k: nat)
    requires k < |log| && ResultsBefore(cfg, oracle, log, k).Keys != {}
    ensures OneMore(ResultsBefore(cfg, oracle, log, k), ResultsBefore(cfg, oracle, log, k + 1), log[k].added)
  {
    var planned := Plan(cfg, log[..k]);
    assert log[..k + 1][..k] == log[..k];
    TestedIsPlanned(planned, cfg.repeats, oracle);
    OneMoreCount(planned, log[k].added, cfg.repeats, oracle);
  }

  /** A bracket is far apart if its upper end is more than one and a quarter times its lower end. */
  lemma FarApartMeans(p: int, f: int)
    requires p != 0
    ensures FarApart(p, f) <==> f as real / p as real > 1.25
  {
    var q := f as real / p as real;
    assert q * p as real == f as real;
    if p > 0 {
      assert q > 1.25 ==> (q - 1.25) * p as real > 0.0;
      assert q <= 1.25 ==> (1.25 - q) * p as real >= 0.0;
    } else {
      assert q > 1.25 ==> (q - 1.25) * p as real < 0.0;
      assert q <= 1.25 ==> (1.25 - q) * p as real <= 0.0;
    }
  }

  // ---- How a sweep ends --------------------------------------------------------------------------------------------

  lemma ExtensionStops(last: int, maxUsers: int)
    ensures Extension(last, maxUsers) <= last <==> last >= maxUsers || last <= 0
  {
  }

  lemma NothingToExtend(maxUsers: int, m: Results, bisections: nat)
    requires Takes(maxUsers, m, bisections, None) && AllPass(m) && m.Keys != {}
    ensures exists last | last in m :: (last >= maxUsers || last <= 0) && forall u | u in m :: u <= last
  {
    var v :| IsVerdict(v, m) && NextStep(maxUsers, v, bisections) == None;
    VerdictFacts(v, m);
    EmptyOrInhabited(m.Keys);
    var some :| some in m;
    assert some in v.counts;
    LastIsLargest(v.counts, m);
    ExtensionStops(v.counts[|v.counts| - 1], maxUsers);
  }

  /** A sweep without a failure ends only at or beyond the ceiling, or without any users. */
  lemma PassingSweepReachesCeiling(cfg: Config, oracle: nat -> bool, log: seq<Step>)
    requires IsFinished(cfg, oracle, log) && cfg.repeats > 0 && Plan(cfg, log) != []
    requires AllPass(ResultsFor(Plan(cfg, log), cfg.repeats, oracle))
    ensures exists u | u in Plan(cfg, log) :: (u >= cfg.maxUsers || u <= 0) && forall w | w in Plan(cfg, log) :: w <= u
  {
    var planned := Plan(cfg, log);
    var m := ResultsFor(planned, cfg.repeats, oracle);
    TestedIsPlanned(planned, cfg.repeats, oracle);
    assert planned[0] in Members(planned);
    NothingToExtend(cfg.maxUsers, m, Bisections(log));
    var last :| last in m && (last >= cfg.maxUsers || last <= 0) && forall u | u in m :: u <= last;
    forall w | w in planned ensures w <= last {
      assert w in Members(planned);
    }
    assert last in Members(planned);
  }

  lemma StopFacts(maxUsers: int, v: Verdict, bisections: nat, p: int, f: int)
    requires NextStep(maxUsers, v, bisections) == None && v.capacity == Some(p) && v.firstFail == Some(f) && !v.allPass
    ensures p == 0 || f == 0 || bisections >= 2 || !FarApart(p, f) || (p + f) / 2 in v.counts
  {
  }

  /** The verdict behind a knee. */
  lemma KneeVerdict(m: Results, v: Verdict, p: int, f: int)
    requires IsVerdict(v, m) && Knee(m, p, f)
    ensures v.capacity == Some(p) && v.firstFail == Some(f) && !v.allPass
  {
    KneeIsBracket(m, p, f);
    CapacityIsUnique(m, v.capacity, Some(p));
    FirstFailIsUnique(m, v.firstFail, Some(f));
  }

  /** A sweep with a failure ends when the bracket is tight enough, cannot be divided, or has been halved twice. */
  lemma FailingSweepBracketsKnee(cfg: Config, oracle: nat -> bool, log: seq<Step>, p: int, f: int)
    requires IsFinished(cfg, oracle, log) && Knee(ResultsFor(Plan(cfg, log), cfg.repeats, oracle), p, f)
    ensures p == 0 || f == 0 || Bisections(log) >= 2 || !FarApart(p, f) || f == p + 1
  {
    var m := ResultsFor(Plan(cfg, log), cfg.repeats, oracle);
    var v :| IsVerdict(v, m) && NextStep(cfg.maxUsers, v, Bisections(log)) == None;
    VerdictFacts(v, m);
    KneeVerdict(m, v, p, f);
    StopFacts(cfg.maxUsers, v, Bisections(log), p, f);
    MidWithin(p, f);
  }
}
