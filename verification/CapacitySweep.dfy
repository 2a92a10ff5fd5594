/**
 The adaptive search for the largest user count that meets the service levels (`capacity_verdict` and the stage loop of
 `main_async` in chat_bench.py). Whether a stage passes is up to an arbitrary oracle, asked once per stage run.
 */
module CapacitySweep {
  import opened Options
  import opened Sorting

  datatype Summary = Summary(users: int, passed: bool)

  datatype Config = Config(usersStages: seq<int>, repeats: int, adapt: bool, maxUsers: int)

  /** By user count, whether all its runs passed. */
  type Results = map<int, bool>

  datatype Verdict = Verdict(capacity: Option<int>, firstFail: Option<int>, allPass: bool, nonMonotone: bool,
                             counts: seq<int>)

  // ---- What a verdict means ----------------------------------------------------------------------------------------

  function Counts(ss: seq<Summary>): set<int> {
    set s | s in ss :: s.users
  }

  predicate Passes(ss: seq<Summary>, u: int) {
    forall s | s in ss && s.users == u :: s.passed
  }

  function ResultsOf(ss: seq<Summary>): Results {
    map u | u in Counts(ss) :: Passes(ss, u)
  }

  predicate PassesUpTo(m: Results, p: int) {
    forall u | u in m && u <= p :: m[u]
  }

  /** The largest tested count up to which every tested count passes. */
  predicate IsCapacity(m: Results, p: int) {
    p in m && PassesUpTo(m, p) && forall q | q in m && q > p :: !PassesUpTo(m, q)
  }

  predicate IsFirstFail(m: Results, f: int) {
    f in m && !m[f] && forall u | u in m && u < f :: m[u]
  }

  predicate AllPass(m: Results) {
    forall u | u in m :: m[u]
  }

  predicate CapacityIs(m: Results, capacity: Option<int>) {
    match capacity
    case Some(p) => IsCapacity(m, p)
    case None => forall p | p in m :: !PassesUpTo(m, p)
  }

  predicate FirstFailIs(m: Results, firstFail: Option<int>) {
    match firstFail
    case Some(f) => IsFirstFail(m, f)
    case None => AllPass(m)
  }

  predicate PassesAbove(m: Results, f: int) {
    exists u | u in m :: u > f && m[u]
  }

  predicate IsVerdict(v: Verdict, m: Results) {
    && v.counts == Sorted(m.Keys)
    && CapacityIs(m, v.capacity)
    && FirstFailIs(m, v.firstFail)
    && (v.allPass <==> AllPass(m))
    && (v.nonMonotone <==> v.firstFail.Some? && PassesAbove(m, v.firstFail.value))
  }

  // ---- `capacity_verdict` ------------------------------------------------------------------------------------------

  /** The grouping loop, with the conjunction per group. */
  method GroupByUsers(ss: seq<Summary>) returns (m: Results)
    ensures m == ResultsOf(ss)
  {
    m := map[];
    for i := 0 to |ss|
      invariant m == ResultsOf(ss[..i])
    {
      assert ss[..i + 1] == ss[..i] + [ss[i]];
      var u := ss[i].users;
      m := m[u := ss[i].passed && (u in m ==> m[u])];
    }
    assert ss[..|ss|] == ss;
  }

  /** `counts` lists the keys of `m`, ascending. */
  ghost predicate Lists(counts: seq<int>, m: Results) {
    && (forall k | 0 <= k < |counts| :: counts[k] in m)
    && (forall u | u in m :: u in counts)
    && (forall i, j | 0 <= i < j < |counts| :: counts[i] < counts[j])
  }

  lemma PassingPrefix(m: Results, counts: seq<int>, i: nat)
    requires Lists(counts, m) && 0 < i <= |counts| && forall k | 0 <= k < i :: m[counts[k]]
    ensures PassesUpTo(m, counts[i - 1])
  {
    forall u | u in m && u <= counts[i - 1] ensures m[u] {
      var k :| 0 <= k < |counts| && counts[k] == u;
    }
  }

  lemma FailingNext(m: Results, counts: seq<int>, i: nat)
    requires Lists(counts, m) && i < |counts| && !m[counts[i]] && forall k | 0 <= k < i :: m[counts[k]]
    ensures IsFirstFail(m, counts[i])
    ensures forall q | q >= counts[i] :: !PassesUpTo(m, q)
    ensures forall q | q in m && q < counts[i] :: i > 0 && q <= counts[i - 1]
  {
    forall u | u in m && u < counts[i] ensures m[u] && i > 0 && u <= counts[i - 1] {
      var k :| 0 <= k < |counts| && counts[k] == u;
    }
  }

  lemma AllPassing(m: Results, counts: seq<int>)
    requires Lists(counts, m) && forall k | 0 <= k < |counts| :: m[counts[k]]
    ensures forall u | u in m :: m[u]
    ensures forall q | q in m :: counts != [] && q <= counts[|counts| - 1]
  {
    forall u | u in m ensures m[u] && counts != [] && u <= counts[|counts| - 1] {
      var k :| 0 <= k < |counts| && counts[k] == u;
    }
  }

  /** The longest passing prefix of the tested counts. */
  method PassingCount(m: Results, counts: seq<int>) returns (i: nat)
    requires Lists(counts, m)
    ensures i <= |counts| && forall k | 0 <= k < i :: m[counts[k]]
    ensures i < |counts| ==> !m[counts[i]]
  {
    i := 0;
    while i < |counts| && m[counts[i]]
      invariant 0 <= i <= |counts| && forall k | 0 <= k < i :: m[counts[k]]
    {
      i := i + 1;
    }
  }

  function CountBefore(counts: seq<int>, i: nat): Option<int>
    requires i <= |counts|
  {
    if i > 0 then Some(counts[i - 1]) else None
  }

  function CountAt(counts: seq<int>, i: nat): Option<int>
    requires i <= |counts|
  {
    if i < |counts| then Some(counts[i]) else None
  }

  lemma VerdictAt(m: Results, counts: seq<int>, i: nat)
    requires Lists(counts, m) && i <= |counts| && (forall k | 0 <= k < i :: m[counts[k]])
    requires i < |counts| ==> !m[counts[i]]
    ensures CapacityIs(m, CountBefore(counts, i)) && FirstFailIs(m, CountAt(counts, i))
  {
    if i > 0 {
      PassingPrefix(m, counts, i);
    }
    if i < |counts| {
      FailingNext(m, counts, i);
    } else {
      AllPassing(m, counts);
    }
  }

  method CapacityVerdict(ss: seq<Summary>) returns (v: Verdict)
    ensures IsVerdict(v, ResultsOf(ss))
  {
    var m := GroupByUsers(ss);
    var counts := Sorted(m.Keys);
    SortedLists(m);
    var i := PassingCount(m, counts);
    VerdictAt(m, counts, i);
    var firstFail := CountAt(counts, i);
    var nonMonotone := firstFail.Some? && PassesAbove(m, firstFail.value);
    v := Verdict(CountBefore(counts, i), firstFail, AllPass(m), nonMonotone, counts);
  }

  // ---- The decision to go on ---------------------------------------------------------------------------------------

  datatype Step = Extend(last: int, added: int) | Bisect(p: int, f: int, added: int)

  function CeilOfHalves(n: int): int {
    -((-n) / 2)
  }

  /** The quotient of two non-zero counts exceeds 1.25. */
  predicate FarApart(p: int, f: int) {
    if p > 0 then 4 * f > 5 * p else 4 * f < 5 * p
  }

  predicate Truthy(x: Option<int>) {
    x.Some? && x.value != 0
  }

  function Extension(last: int, maxUsers: int): int {
    if CeilOfHalves(3 * last) <= maxUsers then CeilOfHalves(3 * last) else maxUsers
  }

  /**
   What the code adds to its plan when the last planned stage is done; all passing counts without any is its crash.
   */
  function NextStep(maxUsers: int, v: Verdict, bisections: nat): Option<Step> {
    if v.allPass then
      if v.counts == [] then None else
        var last := v.counts[|v.counts| - 1];
        if Extension(last, maxUsers) > last then Some(Extend(last, Extension(last, maxUsers))) else None
    else if Truthy(v.capacity) && Truthy(v.firstFail) && bisections < 2 then
      var p, f := v.capacity.value, v.firstFail.value;
      if FarApart(p, f) && (p + f) / 2 !in v.counts then Some(Bisect(p, f, (p + f) / 2)) else None
    else None
  }

  // ---- Runs of the loop --------------------------------------------------------------------------------------------

  /** `repeats` runs with `users` users, the first being run number `first`. */
  function RunStage(users: int, repeats: int, oracle: nat -> bool, first: nat): seq<Summary>
    decreases if repeats > 0 then repeats else 0
  {
    if repeats <= 0 then []
    else RunStage(users, repeats - 1, oracle, first) + [Summary(users, oracle(first + repeats - 1))]
  }

  function RunAll(planned: seq<int>, repeats: int, oracle: nat -> bool): seq<Summary> {
    if planned == [] then [] else
      var before := RunAll(planned[..|planned| - 1], repeats, oracle);
      before + RunStage(planned[|planned| - 1], repeats, oracle, |before|)
  }

  function ResultsFor(planned: seq<int>, repeats: int, oracle: nat -> bool): Results {
    ResultsOf(RunAll(planned, repeats, oracle))
  }

  /** The configured stages and what the steps added. */
  function Plan(cfg: Config, log: seq<Step>): seq<int> {
    if log == [] then cfg.usersStages else Plan(cfg, log[..|log| - 1]) + [log[|log| - 1].added]
  }

  function Bisections(log: seq<Step>): nat {
    if log == [] then 0 else Bisections(log[..|log| - 1]) + if log[|log| - 1].Bisect? then 1 else 0
  }

  /** On results `m`, the code takes `step`. */
  ghost predicate Takes(maxUsers: int, m: Results, bisections: nat, step: Option<Step>) {
    exists v | IsVerdict(v, m) :: NextStep(maxUsers, v, bisections) == step
  }

  /** After the steps `before`, once all stages planned so far have run, the code decides `step`. */
  ghost predicate Follows(cfg: Config, oracle: nat -> bool, before: seq<Step>, step: Option<Step>) {
    Takes(cfg.maxUsers, ResultsFor(Plan(cfg, before), cfg.repeats, oracle), Bisections(before), step)
  }

  ghost function Decisions(cfg: Config, oracle: nat -> bool): (seq<Step>, Step) -> bool {
    (before: seq<Step>, step: Step) => Follows(cfg, oracle, before, Some(step))
  }

  /** Each step of the log follows from those before it. */
  ghost predicate IsTrace(follows: (seq<Step>, Step) -> bool, log: seq<Step>) {
    log == [] || (IsTrace(follows, log[..|log| - 1]) && follows(log[..|log| - 1], log[|log| - 1]))
  }

  ghost predicate IsSweep(cfg: Config, oracle: nat -> bool, log: seq<Step>) {
    IsTrace(Decisions(cfg, oracle), log)
  }

  /** Nothing is left to be added. */
  ghost predicate IsFinished(cfg: Config, oracle: nat -> bool, log: seq<Step>) {
    Follows(cfg, oracle, log, None)
  }

  datatype Outcome = Crashed | Swept(log: seq<Step>, summaries: seq<Summary>)

  ghost function Largest(planned: seq<int>): int {
    if planned == [] then 0
    else if |planned| == 1 then planned[0]
    else
      var m := Largest(planned[..|planned| - 1]);
      if m >= planned[|planned| - 1] then m else planned[|planned| - 1]
  }

  lemma {:induction false} LargestIsLargest(planned: seq<int>)
    requires planned != []
    ensures Largest(planned) in planned && forall u | u in planned :: u <= Largest(planned)
  {
    var front, last := planned[..|planned| - 1], planned[|planned| - 1];
    if front != [] {
      LargestIsLargest(front);
    }
    assert planned == front + [last];
  }

  lemma LargestSnoc(planned: seq<int>, u: int)
    requires planned != [] && u > Largest(planned)
    ensures Largest(planned + [u]) == u
  {
    assert (planned + [u])[..|planned|] == planned;
  }

  lemma {:induction false} RunStageCounts(users: int, repeats: int, oracle: nat -> bool, first: nat)
    ensures Counts(RunStage(users, repeats, oracle, first)) == if repeats <= 0 then {} else {users}
    decreases if repeats > 0 then repeats else 0
  {
    if repeats > 0 {
      RunStageCounts(users, repeats - 1, oracle, first);
      CountsConcat(RunStage(users, repeats - 1, oracle, first), [Summary(users, oracle(first + repeats - 1))]);
      CountsOfOne(Summary(users, oracle(first + repeats - 1)));
    }
  }

  lemma CountsConcat(a: seq<Summary>, b: seq<Summary>)
    ensures Counts(a + b) == Counts(a) + Counts(b)
  {
  }

  lemma CountsOfOne(s: Summary)
    ensures Counts([s]) == {s.users}
  {
    assert s in [s];
  }

  function Members(planned: seq<int>): set<int> {
    set u | u in planned
  }

  lemma MembersSnoc(planned: seq<int>, u: int)
    ensures Members(planned + [u]) == Members(planned) + {u}
  {
  }

  /** With at least one repeat, the tested counts are the planned ones; with none, nothing is tested. */
  lemma {:induction false} TestedIsPlanned(planned: seq<int>, repeats: int, oracle: nat -> bool)
    ensures ResultsFor(planned, repeats, oracle).Keys == if repeats <= 0 then {} else Members(planned)
  {
    if planned != [] {
      var front, last := planned[..|planned| - 1], planned[|planned| - 1];
      TestedIsPlanned(front, repeats, oracle);
      var before := RunAll(front, repeats, oracle);
      RunStageCounts(last, repeats, oracle, |before|);
      CountsConcat(before, RunStage(last, repeats, oracle, |before|));
      MembersSnoc(front, last);
      assert planned == front + [last];
    }
  }

  /** A verdict lists no counts exactly when nothing was tested. */
  lemma NothingTested(v: Verdict, planned: seq<int>, repeats: int, oracle: nat -> bool)
    requires planned != [] && IsVerdict(v, ResultsFor(planned, repeats, oracle))
    ensures v.counts == [] <==> repeats <= 0
    ensures v.counts == [] ==> v.allPass
  {
    var m := ResultsFor(planned, repeats, oracle);
    TestedIsPlanned(planned, repeats, oracle);
    assert planned[0] in Members(planned);
    assert repeats > 0 ==> planned[0] in m && planned[0] in v.counts;
    assert repeats <= 0 ==> m.Keys == {};
  }

  lemma SortedLists(m: Results)
    ensures Lists(Sorted(m.Keys), m)
  {
    forall k | 0 <= k < |Sorted(m.Keys)| ensures Sorted(m.Keys)[k] in m {
      assert Sorted(m.Keys)[k] in Sorted(m.Keys);
    }
  }

  lemma LastIsLargest(counts: seq<int>, m: Results)
    requires Lists(counts, m) && counts != []
    ensures counts[|counts| - 1] in m && forall u | u in m :: u <= counts[|counts| - 1]
  {
    forall u | u in m ensures u <= counts[|counts| - 1] {
      var k :| 0 <= k < |counts| && counts[k] == u;
    }
  }

  lemma VerdictFacts(v: Verdict, m: Results)
    requires IsVerdict(v, m)
    ensures Lists(v.counts, m) && (v.allPass <==> AllPass(m))
  {
    SortedLists(m);
  }

  /** An extension follows only passing stages, goes beyond every tested count, and not beyond the ceiling. */
  lemma ExtendFacts(maxUsers: int, v: Verdict, m: Results, bisections: nat, step: Step)
    requires Lists(v.counts, m) && (v.allPass <==> AllPass(m))
    requires NextStep(maxUsers, v, bisections) == Some(step) && step.Extend?
    ensures step.last in m && forall u | u in m :: u <= step.last
    ensures step.last < step.added == Extension(step.last, maxUsers) <= maxUsers
    ensures AllPass(m)
  {
    LastIsLargest(v.counts, m);
  }

  /** The repeats of one stage. */
  method RunRepeats(users: int, repeats: int, oracle: nat -> bool, summaries0: seq<Summary>)
    returns (summaries: seq<Summary>)
    ensures summaries == summaries0 + RunStage(users, repeats, oracle, |summaries0|)
  {
    summaries := summaries0;
    var rep := 0;
    while rep < repeats
      invariant 0 <= rep && (rep <= repeats || repeats < 0)
      invariant repeats < 0 ==> rep == 0
      invariant summaries == summaries0 + RunStage(users, rep, oracle, |summaries0|)
      invariant |summaries| == |summaries0| + rep
    {
      summaries := summaries + [Summary(users, oracle(|summaries|))];
      rep := rep + 1;
    }
  }

  lemma RunAllSnoc(planned: seq<int>, idx: nat, repeats: int, oracle: nat -> bool)
    requires idx < |planned|
    ensures RunAll(planned[..idx + 1], repeats, oracle)
            == RunAll(planned[..idx], repeats, oracle)
               + RunStage(planned[idx], repeats, oracle, |RunAll(planned[..idx], repeats, oracle)|)
  {
    assert planned[..idx + 1][..idx] == planned[..idx];
  }

  /** How far the plan may still grow. */
  ghost function Room(maxUsers: int, planned: seq<int>): nat {
    if maxUsers >= Largest(planned) then maxUsers - Largest(planned) else 0
  }

  lemma ExtensionShrinksRoom(maxUsers: int, planned: seq<int>, repeats: int, oracle: nat -> bool, v: Verdict,
                             bisections: nat, step: Step)
    requires repeats > 0 && planned != []
    requires Lists(v.counts, ResultsFor(planned, repeats, oracle))
    requires v.allPass <==> AllPass(ResultsFor(planned, repeats, oracle))
    requires NextStep(maxUsers, v, bisections) == Some(step) && step.Extend?
    ensures Room(maxUsers, planned + [step.added]) < Room(maxUsers, planned)
  {
    var m := ResultsFor(planned, repeats, oracle);
    ExtendFacts(maxUsers, v, m, bisections, step);
    TestedIsPlanned(planned, repeats, oracle);
    LargestIsLargest(planned);
    assert step.last in Members(planned) && Largest(planned) in Members(planned);
    LargestSnoc(planned, step.added);
  }

  lemma SweepSnoc(cfg: Config, oracle: nat -> bool, log: seq<Step>, step: Step)
    requires IsSweep(cfg, oracle, log)
    requires Follows(cfg, oracle, log, Some(step))
    ensures IsSweep(cfg, oracle, log + [step])
    ensures Plan(cfg, log + [step]) == Plan(cfg, log) + [step.added]
    ensures Bisections(log + [step]) == Bisections(log) + if step.Bisect? then 1 else 0
  {
    assert (log + [step])[..|log|] == log;
  }

  lemma AtMostTwo(maxUsers: int, v: Verdict, bisections: nat, step: Step)
    requires NextStep(maxUsers, v, bisections) == Some(step) && step.Bisect?
    ensures bisections < 2
  {
  }

  /** What the loop keeps about its plan. */
  ghost predicate IsPlan(cfg: Config, oracle: nat -> bool, planned: seq<int>, log: seq<Step>, bisections: nat) {
    && planned == Plan(cfg, log) && planned != [] && bisections == Bisections(log) <= 2 && IsSweep(cfg, oracle, log)
    && (!cfg.adapt ==> log == [])
  }

  /** The adaptive continuation after the last planned stage; `crashed` is the maximum of no counts. */
  method Continue(cfg: Config, ghost oracle: nat -> bool, planned: seq<int>, ghost log: seq<Step>, bisections: nat,
                  summaries: seq<Summary>)
    returns (crashed: bool, step: Option<Step>)
    requires cfg.adapt && IsPlan(cfg, oracle, planned, log, bisections)
    requires summaries == RunAll(planned, cfg.repeats, oracle)
    ensures crashed <==> cfg.repeats <= 0
    ensures !crashed && step.None? ==> IsFinished(cfg, oracle, log)
    ensures !crashed && step.Some? ==>
              && IsPlan(cfg, oracle, planned + [step.value.added], log + [step.value],
                        bisections + if step.value.Bisect? then 1 else 0)
              && (step.value.Extend? ==> Room(cfg.maxUsers, planned + [step.value.added]) < Room(cfg.maxUsers, planned))
  {
    var v := CapacityVerdict(summaries);
    NothingTested(v, planned, cfg.repeats, oracle);
    VerdictFacts(v, ResultsFor(planned, cfg.repeats, oracle));
    crashed := v.allPass && v.counts == [];
    step := NextStep(cfg.maxUsers, v, bisections);
    if step.Some? && !crashed {
      SweepSnoc(cfg, oracle, log, step.value);
      if step.value.Extend? {
        ExtensionShrinksRoom(cfg.maxUsers, planned, cfg.repeats, oracle, v, bisections, step.value);
      } else {
        AtMostTwo(cfg.maxUsers, v, bisections, step.value);
      }
    }
  }

  /** What the loop keeps: the first `idx` stages have run; when all have, nothing is left to be added. */
  ghost predicate IsTurn(cfg: Config, oracle: nat -> bool, planned: seq<int>, log: seq<Step>, bisections: nat, idx: nat,
                         summaries: seq<Summary>) {
    && IsPlan(cfg, oracle, planned, log, bisections)
    && idx <= |planned| && summaries == RunAll(planned[..idx], cfg.repeats, oracle)
    && (idx == |planned| && cfg.adapt ==> IsFinished(cfg, oracle, log) && cfg.repeats > 0)
  }

  /** One turn of the loop: a stage is run and, after the last one, the plan continued. */
  method Turn(cfg: Config, oracle: nat -> bool, planned0: seq<int>, log0: seq<Step>, bisections0: nat, idx0: nat,
              summaries0: seq<Summary>)
    returns (crashed: bool, planned: seq<int>, log: seq<Step>, bisections: nat, idx: nat, summaries: seq<Summary>)
    requires idx0 < |planned0| && IsTurn(cfg, oracle, planned0, log0, bisections0, idx0, summaries0)
    ensures crashed ==> cfg.adapt && cfg.repeats <= 0
    ensures !crashed ==> IsTurn(cfg, oracle, planned, log, bisections, idx, summaries)
    ensures bisections > bisections0
            || (bisections == bisections0 && Room(cfg.maxUsers, planned) < Room(cfg.maxUsers, planned0))
            || (bisections == bisections0 && planned == planned0 && idx == idx0 + 1)
  {
    planned, log, bisections, idx, crashed := planned0, log0, bisections0, idx0 + 1, false;
    summaries := RunRepeats(planned[idx0], cfg.repeats, oracle, summaries0);
    RunAllSnoc(planned, idx0, cfg.repeats, oracle);
    if idx == |planned| && cfg.adapt {
      assert planned[..idx] == planned;
      var step;
      crashed, step := Continue(cfg, oracle, planned, log, bisections, summaries);
      if step.Some? && !crashed {
        assert (planned + [step.value.added])[..idx] == planned;
        planned, log := planned + [step.value.added], log + [step.value];
        bisections := if step.value.Bisect? then bisections + 1 else bisections;
      }
    }
  }

  /** The stages of the plan are run, and the plan continued, until nothing is added. */
  method RunPlan(cfg: Config, oracle: nat -> bool) returns (crashed: bool, log: seq<Step>, summaries: seq<Summary>)
    requires cfg.usersStages != []
    ensures crashed <==> cfg.adapt && cfg.repeats <= 0
    ensures !crashed ==>
              exists planned, bisections :: IsTurn(cfg, oracle, planned, log, bisections, |planned|, summaries)
  {
    var planned, idx: nat, bisections: nat := cfg.usersStages, 0, 0;
    log, summaries, crashed := [], [], false;
    while idx < |planned|
      invariant IsTurn(cfg, oracle, planned, log, bisections, idx, summaries)
      decreases 2 - bisections, Room(cfg.maxUsers, planned), |planned| - idx
    {
      crashed, planned, log, bisections, idx, summaries := Turn(cfg, oracle, planned, log, bisections, idx, summaries);
      if crashed {
        return;
      }
    }
  }

  /** Every stage of the plan has run, each step of the log was the code's decision, and it would add nothing more. */
  method AdaptiveSweep(cfg: Config, oracle: nat -> bool) returns (outcome: Outcome)
    ensures outcome.Crashed? <==> cfg.usersStages == [] || (cfg.adapt && cfg.repeats <= 0)
    ensures outcome.Swept? ==> IsSweep(cfg, oracle, outcome.log) && (!cfg.adapt ==> outcome.log == [])
    ensures outcome.Swept? && cfg.adapt ==> IsFinished(cfg, oracle, outcome.log)
    ensures outcome.Swept? ==> outcome.summaries == RunAll(Plan(cfg, outcome.log), cfg.repeats, oracle)
  {
    if cfg.usersStages == [] {
      return Crashed;
    }
    var crashed, log, summaries := RunPlan(cfg, oracle);
    if crashed {
      return Crashed;
    }
    ghost var planned, bisections :| IsTurn(cfg, oracle, planned, log, bisections, |planned|, summaries);
    assert planned[..|planned|] == planned;
    outcome := Swept(log, summaries);
  }
}
