/**
 The order of an end-to-end run, on the positions of its trace: what has been completed before a step is attempted. The
 trace has one step for each tick, so step `i` of a run from tick `t` on raises what happens at tick `t + i`.
 */
module RunOrder {
  import opened Options
  import opened ConfigStore
  import opened ConfigCleanup

  /** Step `i` is `step`, and it went through. */
  predicate DoneAt(steps: seq<Step>, faults: Faults, t: nat, i: nat, step: Step) {
    i < |steps| && steps[i] == step && At(faults, t + i).Fine?
  }

  /** Before step `i`, `step` went through. */
  predicate DoneBefore(steps: seq<Step>, faults: Faults, t: nat, i: nat, step: Step) {
    exists j: nat | j < i :: DoneAt(steps, faults, t, j, step)
  }

  // ---- The cleanup -------------------------------------------------------------------------------------------------

  predicate CleansUp(step: Step) {
    step == Work(FetchUnresolved) || step == ResidualDrain || step == Purge
  }

  /** Some step of the cleanup raises. */
  predicate Fails(steps: seq<Step>, faults: Faults, t: nat, i: nat) {
    i < |steps| && CleansUp(steps[i]) && !At(faults, t + i).Fine?
  }

  predicate CleanupFails(steps: seq<Step>, faults: Faults, t: nat) {
    exists i: nat | i < |steps| :: Fails(steps, faults, t, i)
  }

  /**
   Alerts are purged only where they are to be, and once late scans have been awaited; these only once ids are known.
   */
  predicate InTurn(steps: seq<Step>, faults: Faults, t: nat, run: Run, i: nat)
    requires i < |steps|
  {
    && (steps[i] == Purge ==>
          run.purgeIds && !run.keepAlerts && DoneBefore(steps, faults, t, i, ResidualDrain))
    && (steps[i] == ResidualDrain ==>
          run.purgeIds && (run.unresolved ==> DoneBefore(steps, faults, t, i, Work(FetchUnresolved))))
    && (steps[i] == Work(FetchUnresolved) ==> run.unresolved)
  }

  /** What is due has been attempted. */
  predicate Complete(steps: seq<Step>, run: Run) {
    && (run.unresolved ==> Work(FetchUnresolved) in steps)
    && (run.purgeIds ==> ResidualDrain in steps)
    && (run.purgeIds && !run.keepAlerts ==> Purge in steps)
  }

  /** No step of the cleanup is taken twice. */
  predicate Once(steps: seq<Step>, i: nat, j: nat)
    requires i < |steps| && j < |steps|
  {
    CleansUp(steps[i]) && steps[i] == steps[j] ==> i == j
  }

  /** The cleanup is in order, complete unless it fails, and a warning follows if and only if it fails. */
  predicate Orderly(steps: seq<Step>, faults: Faults, t: nat, run: Run) {
    && (forall i | 0 <= i < |steps| :: InTurn(steps, faults, t, run, i))
    && (forall i, j | 0 <= i < |steps| && 0 <= j < |steps| :: Once(steps, i, j))
    && (Warn in steps <==> CleanupFails(steps, faults, t))
    && (!CleanupFails(steps, faults, t) ==> Complete(steps, run))
  }

  /** The plan itself: the lookup is first, and the purge right behind the drain. */
  lemma PlanInOrder(run: Run)
    ensures var p := CleanupSteps(run);
            && Warn !in p && Complete(p, run) && (forall i, j | 0 <= i < |p| && 0 <= j < |p| :: Once(p, i, j))
            && forall i | 0 <= i < |p| ::
                 && CleansUp(p[i])
                 && (p[i] == Purge ==> run.purgeIds && !run.keepAlerts && i > 0 && p[i - 1] == ResidualDrain)
                 && (p[i] == ResidualDrain ==>
                       run.purgeIds && (run.unresolved ==> i > 0 && p[0] == Work(FetchUnresolved)))
                 && (p[i] == Work(FetchUnresolved) ==> run.unresolved)
  {
    var p := CleanupSteps(run);
    if run.unresolved {
      assert p[0] == Work(FetchUnresolved);
    }
    if run.purgeIds {
      assert p[if run.unresolved then 1 else 0] == ResidualDrain;
      assert !run.keepAlerts ==> p[|p| - 1] == Purge;
    }
  }

  /** Steps that were followed by another one went through. */
  lemma FineBefore(faults: Faults, t: nat, n: nat, i: nat)
    requires i < Reached(faults, t, n)
    ensures AllFine(faults, t, i)
  {
    ReachedMeans(faults, t, n);
    var k := Reached(faults, t, n);
    if AllFine(faults, t, n) {
      AllFineJoin(faults, t, i, n - i);
    } else {
      AllFineJoin(faults, t, i, k - 1 - i);
    }
  }

  lemma {:induction false} FineAt(faults: Faults, t: nat, n: nat, i: nat)
    requires AllFine(faults, t, n) && i < n
    ensures At(faults, t + i).Fine?
  {
    if i < n - 1 {
      FineAt(faults, t, n - 1, i);
    }
  }

  /** The cleanup as it is taken: step by step that of the plan, all before it having gone through, and the warning. */
  lemma CleanupAt(faults: Faults, t: nat, run: Run, i: nat)
    requires i < |CleanupTaken(faults, t, run)|
    ensures var c, p := CleanupTaken(faults, t, run), CleanupSteps(run);
            if i < Reached(faults, t, |p|) then i < |p| && c[i] == p[i] && AllFine(faults, t, i)
            else c[i] == Warn && i == |c| - 1 && !AllFine(faults, t, |p|)
  {
    var p := CleanupSteps(run);
    ReachedMeans(faults, t, |p|);
    if i < Reached(faults, t, |p|) {
      FineBefore(faults, t, |p|, i);
    }
  }

  lemma CleanupInTurn(faults: Faults, t: nat, run: Run, i: nat)
    requires i < |CleanupTaken(faults, t, run)|
    ensures InTurn(CleanupTaken(faults, t, run), faults, t, run, i)
  {
    var c, p := CleanupTaken(faults, t, run), CleanupSteps(run);
    CleanupAt(faults, t, run, i);
    PlanInOrder(run);
    if i > 0 && i < Reached(faults, t, |p|) {
      CleanupAt(faults, t, run, 0);
      CleanupAt(faults, t, run, i - 1);
      FineAt(faults, t, i, 0);
      FineAt(faults, t, i, i - 1);
      assert DoneAt(c, faults, t, 0, p[0]) && DoneAt(c, faults, t, i - 1, p[i - 1]);
    }
  }

  lemma CleanupOnce(faults: Faults, t: nat, run: Run, i: nat, j: nat)
    requires i < |CleanupTaken(faults, t, run)| && j < |CleanupTaken(faults, t, run)|
    ensures Once(CleanupTaken(faults, t, run), i, j)
  {
    CleanupAt(faults, t, run, i);
    CleanupAt(faults, t, run, j);
    PlanInOrder(run);
    var p := CleanupSteps(run);
    assert i < |p| && j < |p| ==> Once(p, i, j);
  }

  /** The warning is there if and only if a step has raised; otherwise the whole plan has been taken. */
  lemma CleanupWarns(faults: Faults, t: nat, run: Run)
    ensures var c := CleanupTaken(faults, t, run);
            && (Warn in c <==> CleanupFails(c, faults, t))
            && (!CleanupFails(c, faults, t) ==> c == CleanupSteps(run))
  {
    var c, p := CleanupTaken(faults, t, run), CleanupSteps(run);
    var k := Reached(faults, t, |p|);
    PlanInOrder(run);
    ReachedMeans(faults, t, |p|);
    if AllFine(faults, t, |p|) {
      forall i: nat | i < |c| ensures !Fails(c, faults, t, i) {
        FineAt(faults, t, |p|, i);
      }
    } else {
      assert c[k] == Warn && c[k - 1] == p[k - 1] && Fails(c, faults, t, k - 1);
    }
  }

  lemma CleanupIsOrderly(faults: Faults, t: nat, run: Run)
    ensures Orderly(CleanupTaken(faults, t, run), faults, t, run)
  {
    var c := CleanupTaken(faults, t, run);
    forall i | 0 <= i < |c| ensures InTurn(c, faults, t, run, i) {
      CleanupInTurn(faults, t, run, i);
    }
    forall i, j | 0 <= i < |c| && 0 <= j < |c| ensures Once(c, i, j) {
      CleanupOnce(faults, t, run, i, j);
    }
    CleanupWarns(faults, t, run);
    PlanInOrder(run);
  }

  // ---- The cleanup within the trace --------------------------------------------------------------------------------

  /** Steps that are no part of the cleanup. */
  predicate Other(steps: seq<Step>) {
    forall i | 0 <= i < |steps| :: !CleansUp(steps[i]) && steps[i] != Warn
  }

  /** `all` is `c`, from position `n` on, with other steps before and after. */
  predicate Within(all: seq<Step>, n: nat, c: seq<Step>) {
    && n + |c| <= |all| && Other(all[..n]) && Other(all[n + |c|..])
    && forall i | 0 <= i < |c| :: all[n + i] == c[i]
  }

  lemma WithinAt(all: seq<Step>, n: nat, c: seq<Step>, i: nat)
    requires Within(all, n, c) && i < |all|
    ensures CleansUp(all[i]) || all[i] == Warn ==> n <= i < n + |c| && all[i] == c[i - n]
  {
    assert i < n ==> all[..n][i] == all[i];
    assert i >= n + |c| ==> all[n + |c|..][i - (n + |c|)] == all[i];
    assert n <= i < n + |c| ==> all[n + (i - n)] == c[i - n];
  }

  lemma DoneWithin(all: seq<Step>, n: nat, c: seq<Step>, faults: Faults, t: nat, i: nat, step: Step)
    requires Within(all, n, c) && DoneBefore(c, faults, t + n, i, step)
    ensures DoneBefore(all, faults, t, n + i, step)
  {
    var j: nat :| j < i && DoneAt(c, faults, t + n, j, step);
    assert all[n + j] == c[j] && DoneAt(all, faults, t, n + j, step);
  }

  lemma FailsWithin(all: seq<Step>, n: nat, c: seq<Step>, faults: Faults, t: nat)
    requires Within(all, n, c)
    ensures CleanupFails(all, faults, t) <==> CleanupFails(c, faults, t + n)
  {
    var t1 := t + n;
    if i: nat :| i < |all| && Fails(all, faults, t, i) {
      WithinAt(all, n, c, i);
      assert Fails(c, faults, t1, i - n);
    }
    if i: nat :| i < |c| && Fails(c, faults, t1, i) {
      assert all[n + i] == c[i] && Fails(all, faults, t, n + i);
    }
  }

  lemma MembersWithin(all: seq<Step>, n: nat, c: seq<Step>, step: Step)
    requires Within(all, n, c) && (CleansUp(step) || step == Warn)
    ensures step in all <==> step in c
  {
    if i :| 0 <= i < |all| && all[i] == step {
      WithinAt(all, n, c, i);
    }
    if i :| 0 <= i < |c| && c[i] == step {
      assert all[n + i] == step;
    }
  }

  lemma InTurnWithin(all: seq<Step>, n: nat, c: seq<Step>, faults: Faults, t: nat, run: Run, i: nat)
    requires Within(all, n, c) && Orderly(c, faults, t + n, run) && i < |all|
    ensures InTurn(all, faults, t, run, i)
  {
    WithinAt(all, n, c, i);
    if CleansUp(all[i]) {
      assert InTurn(c, faults, t + n, run, i - n);
      if DoneBefore(c, faults, t + n, i - n, ResidualDrain) {
        DoneWithin(all, n, c, faults, t, i - n, ResidualDrain);
      }
      if DoneBefore(c, faults, t + n, i - n, Work(FetchUnresolved)) {
        DoneWithin(all, n, c, faults, t, i - n, Work(FetchUnresolved));
      }
    }
  }

  lemma OrderlyWithin(all: seq<Step>, n: nat, c: seq<Step>, faults: Faults, t: nat, run: Run)
    requires Within(all, n, c) && Orderly(c, faults, t + n, run)
    ensures Orderly(all, faults, t, run)
  {
    forall i | 0 <= i < |all| ensures InTurn(all, faults, t, run, i) {
      InTurnWithin(all, n, c, faults, t, run, i);
    }
    forall i, j | 0 <= i < |all| && 0 <= j < |all| ensures Once(all, i, j) {
      WithinAt(all, n, c, i);
      WithinAt(all, n, c, j);
      assert n <= i < n + |c| && n <= j < n + |c| ==> Once(c, i - n, j - n);
    }
    FailsWithin(all, n, c, faults, t);
    MembersWithin(all, n, c, Warn);
    MembersWithin(all, n, c, Work(FetchUnresolved));
    MembersWithin(all, n, c, ResidualDrain);
    MembersWithin(all, n, c, Purge);
  }

  // ---- The body ----------------------------------------------------------------------------------------------------

  /** The place of a task in the work of the run. */
  function Place(task: Task): nat {
    match task
    case Preflight => 0
    case Send => 1
    case FetchRequests => 2
    case AwaitScans => 3
    case FetchAlerts => 4
    case FetchLags => 5
    case Score => 6
    case WriteResults => 7
    case WriteMetrics => 8
    case WriteManifest => 9
    case Report => 10
    case FetchUnresolved => 11
  }

  lemma WorkInPlace(i: nat, task: Task)
    requires i < |WORK|
    ensures WORK[i].Work? && WORK[i].task != FetchUnresolved && Place(WORK[i].task) == i
    ensures Place(task) < |WORK| ==> WORK[Place(task)] == Work(task)
  {
  }

  lemma OnlyWork()
    ensures forall i | 0 <= i < |WORK| :: WORK[i].Work?
  {
  }

  /**
   What has been done when a step is attempted: for an override, all reads and the filing of the snapshot; for a task,
   all tasks that come before it and, unless the configuration is left alone, every override.
   */
  ghost predicate Prepared(steps: seq<Step>, faults: Faults, t: nat, run: Run, keys: seq<string>, i: nat)
    requires i < |steps|
  {
    && (steps[i].Override? ==>
          && DoneBefore(steps, faults, t, i, Snapped)
          && forall k | k in keys :: DoneBefore(steps, faults, t, i, Read(k)))
    && (steps[i].Work? && steps[i].task != FetchUnresolved ==>
          && (forall task | Place(task) < Place(steps[i].task) :: DoneBefore(steps, faults, t, i, Work(task)))
          && (!run.skipConfig ==>
                forall m | 0 <= m < |run.overrides| ::
                  DoneBefore(steps, faults, t, i, Override(run.overrides[m].0))))
  }

  lemma {:induction false} ReadsHave(s: Store, keys: seq<string>, k: string) returns (i: nat)
    requires k in keys
    ensures i < |Reads(s, keys)| && Reads(s, keys)[i] == Read(k)
  {
    var n := |keys| - 1;
    if keys[n] == k {
      i := |Reads(s, keys[..n])|;
    } else {
      i := ReadsHave(s, keys[..n], k);
    }
  }

  lemma {:induction false} ReadsRead(s: Store, keys: seq<string>)
    ensures forall i | 0 <= i < |Reads(s, keys)| :: Reads(s, keys)[i].Read?
  {
    if keys != [] {
      ReadsRead(s, keys[..|keys| - 1]);
    }
  }

  /** The steps of the body, part by part. */
  lemma BodyAt(run: Run, rs: seq<Step>, i: nat)
    requires i < |BodySteps(run, rs)|
    ensures var p, body := PrepareSteps(run, rs), BodySteps(run, rs);
            && |body| == |p| + |WORK|
            && body[i] == (if i < |p| then p[i] else WORK[i - |p|])
            && (!run.skipConfig ==> |p| == |rs| + 1 + |run.overrides|)
            && (i < |p| ==>
                  p[i] == if i < |rs| then rs[i] else if i == |rs| then Snapped
                          else Override(run.overrides[i - |rs| - 1].0))
  {
    assert PrepareSteps(run, rs) == if run.skipConfig then [] else rs + ConfigureSteps(run);
  }

  /** A step that has been planned before step `i` went through, if step `i` has been attempted. */
  lemma DoneEarlier(faults: Faults, t: nat, planned: seq<Step>, i: nat, j: nat)
    requires j < i < Reached(faults, t, |planned|)
    ensures DoneBefore(Taken(faults, t, planned), faults, t, i, planned[j])
  {
    FineBefore(faults, t, |planned|, i);
    FineAt(faults, t, i, j);
    assert DoneAt(Taken(faults, t, planned), faults, t, j, planned[j]);
  }

  lemma OverridePrepared(faults: Faults, t: nat, run: Run, s: Store, keys: seq<string>, i: nat)
    requires i < |Taken(faults, t, BodySteps(run, Reads(s, keys)))|
    requires BodySteps(run, Reads(s, keys))[i].Override?
    ensures Prepared(Taken(faults, t, BodySteps(run, Reads(s, keys))), faults, t, run, keys, i)
  {
    var rs := Reads(s, keys);
    var planned := BodySteps(run, rs);
    OnlyWork();
    BodyAt(run, rs, i);
    ReadsRead(s, keys);
    assert |rs| < i < |PrepareSteps(run, rs)|;
    BodyAt(run, rs, |rs|);
    DoneEarlier(faults, t, planned, i, |rs|);
    forall k | k in keys ensures DoneBefore(Taken(faults, t, planned), faults, t, i, Read(k)) {
      var j := ReadsHave(s, keys, k);
      BodyAt(run, rs, j);
      DoneEarlier(faults, t, planned, i, j);
    }
  }

  lemma WorkPrepared(faults: Faults, t: nat, run: Run, s: Store, keys: seq<string>, i: nat)
    requires i < |Taken(faults, t, BodySteps(run, Reads(s, keys)))|
    requires BodySteps(run, Reads(s, keys))[i].Work?
    ensures Prepared(Taken(faults, t, BodySteps(run, Reads(s, keys))), faults, t, run, keys, i)
  {
    var rs := Reads(s, keys);
    var planned, p := BodySteps(run, rs), PrepareSteps(run, rs);
    BodyAt(run, rs, i);
    ReadsRead(s, keys);
    assert i >= |p|;
    WorkInPlace(i - |p|, Preflight);
    forall task | Place(task) < Place(planned[i].task)
      ensures DoneBefore(Taken(faults, t, planned), faults, t, i, Work(task))
    {
      WorkInPlace(i - |p|, task);
      BodyAt(run, rs, |p| + Place(task));
      DoneEarlier(faults, t, planned, i, |p| + Place(task));
    }
    if !run.skipConfig {
      OverridesEarlier(faults, t, run, rs, i);
    }
  }

  lemma OverridesEarlier(faults: Faults, t: nat, run: Run, rs: seq<Step>, i: nat)
    requires !run.skipConfig && |PrepareSteps(run, rs)| <= i < |Taken(faults, t, BodySteps(run, rs))|
    ensures forall m | 0 <= m < |run.overrides| ::
              DoneBefore(Taken(faults, t, BodySteps(run, rs)), faults, t, i, Override(run.overrides[m].0))
  {
    var planned := BodySteps(run, rs);
    BodyAt(run, rs, i);
    forall m | 0 <= m < |run.overrides|
      ensures DoneBefore(Taken(faults, t, planned), faults, t, i, Override(run.overrides[m].0))
    {
      BodyAt(run, rs, |rs| + 1 + m);
      DoneEarlier(faults, t, planned, i, |rs| + 1 + m);
    }
  }

  lemma BodyIsOther(run: Run, rs: seq<Step>)
    requires forall i | 0 <= i < |rs| :: rs[i].Read?
    ensures Other(BodySteps(run, rs))
  {
    var planned := BodySteps(run, rs);
    forall i | 0 <= i < |planned| ensures !CleansUp(planned[i]) && planned[i] != Warn {
      BodyAt(run, rs, i);
      if i >= |PrepareSteps(run, rs)| {
        WorkInPlace(i - |PrepareSteps(run, rs)|, Preflight);
      }
    }
  }

  // ---- No mail -----------------------------------------------------------------------------------------------------

  lemma SafetyInEffect(body: BodyLog, faults: Faults, t: nat, run: Run, s: Store, keys: seq<string>, mode: string,
                       severityRules: string, i: nat)
    requires body == BodyOf(faults, t, run, s, keys) && run.overrides == RunOverrides(mode, severityRules)
    requires !run.skipConfig && |body.steps| > |PrepareSteps(run, Reads(s, keys))| && i < |SAFE_RUN_OVERRIDES|
    ensures Get(body.during, SAFE_RUN_OVERRIDES[i].0) == Present(SAFE_RUN_OVERRIDES[i].1)
  {
    SafetyIsLast(mode, severityRules, i);
    SafeWhileWorking(body, faults, t, run, s, keys, |ScannerMode(mode)| + i);
  }

  /** While a run works and cleans up, in every scanner mode, no mail goes to anybody and no finding is deduplicated. */
  lemma NoMailWhileWorking(body: BodyLog, faults: Faults, t: nat, run: Run, s: Store, keys: seq<string>, mode: string,
                           severityRules: string)
    requires body == BodyOf(faults, t, run, s, keys) && run.overrides == RunOverrides(mode, severityRules)
    requires !run.skipConfig && |body.steps| > |PrepareSteps(run, Reads(s, keys))|
    ensures Get(body.during, "dlp.email.minor.mode") == Get(body.during, "dlp.email.moderate.mode")
            == Get(body.during, "dlp.email.major.mode") == Present("\"off\"")
    ensures Get(body.during, "dlp.email.minor_recipients") == Get(body.during, "dlp.email.moderate_recipients")
            == Get(body.during, "dlp.email.major_recipients") == Get(body.during, "dlp.digest.recipients")
            == Present("\"\"")
    ensures Get(body.during, "dlp.dedup.enabled") == Present("false")
  {
    forall i | 0 <= i < |SAFE_RUN_OVERRIDES|
      ensures Get(body.during, SAFE_RUN_OVERRIDES[i].0) == Present(SAFE_RUN_OVERRIDES[i].1)
    {
      SafetyInEffect(body, faults, t, run, s, keys, mode, severityRules, i);
    }
    SafetySettings(body.during);
  }

  lemma ScannerInEffect(body: BodyLog, faults: Faults, t: nat, run: Run, s: Store, keys: seq<string>, mode: string,
                        severityRules: string, i: nat)
    requires body == BodyOf(faults, t, run, s, keys) && run.overrides == RunOverrides(mode, severityRules)
    requires !run.skipConfig && |body.steps| > |PrepareSteps(run, Reads(s, keys))| && i < |ScannerMode(mode)|
    ensures Get(body.during, ScannerMode(mode)[i].0) == Present(ScannerMode(mode)[i].1)
  {
    ScannersAreLast(mode, severityRules, i);
    SafeWhileWorking(body, faults, t, run, s, keys, i);
  }

  /** While a run works, exactly the scanners of its mode are enabled, whatever was set before. */
  lemma ScannersWhileWorking(body: BodyLog, faults: Faults, t: nat, run: Run, s: Store, keys: seq<string>, mode: string,
                             severityRules: string)
    requires body == BodyOf(faults, t, run, s, keys) && run.overrides == RunOverrides(mode, severityRules)
    requires !run.skipConfig && |body.steps| > |PrepareSteps(run, Reads(s, keys))|
    requires mode in {"off", "regex", "gliner", "regex+gliner"}
    ensures Get(body.during, "dlp.enabled") == Present(if mode == "off" then "false" else "true")
    ensures mode != "off" ==>
              && Get(body.during, "dlp.regex.enabled")
                 == Present(if mode in {"regex", "regex+gliner"} then "true" else "false")
              && Get(body.during, "dlp.gliner.enabled")
                 == Present(if mode in {"gliner", "regex+gliner"} then "true" else "false")
              && Get(body.during, "dlp.llm.enabled") == Present("false")
  {
    forall i | 0 <= i < |ScannerMode(mode)|
      ensures Get(body.during, ScannerMode(mode)[i].0) == Present(ScannerMode(mode)[i].1)
    {
      ScannerInEffect(body, faults, t, run, s, keys, mode, severityRules, i);
    }
    ScannerSettings(body.during, mode);
  }

  lemma ScannerSettings(store: Store, mode: string)
    requires forall i | 0 <= i < |ScannerMode(mode)| ::
               Get(store, ScannerMode(mode)[i].0) == Present(ScannerMode(mode)[i].1)
    requires mode in {"off", "regex", "gliner", "regex+gliner"}
    ensures Get(store, "dlp.enabled") == Present(if mode == "off" then "false" else "true")
    ensures mode != "off" ==>
              && Get(store, "dlp.regex.enabled")
                 == Present(if mode in {"regex", "regex+gliner"} then "true" else "false")
              && Get(store, "dlp.gliner.enabled")
                 == Present(if mode in {"gliner", "regex+gliner"} then "true" else "false")
              && Get(store, "dlp.llm.enabled") == Present("false")
  {
    var m := ScannerMode(mode);
    assert m[0].0 == "dlp.enabled";
    if mode != "off" {
      assert m[1].0 == "dlp.regex.enabled" && m[2].0 == "dlp.gliner.enabled" && m[3] == ("dlp.llm.enabled", "false");
    }
  }

  lemma SafetySettings(store: Store)
    requires forall i | 0 <= i < |SAFE_RUN_OVERRIDES| ::
               Get(store, SAFE_RUN_OVERRIDES[i].0) == Present(SAFE_RUN_OVERRIDES[i].1)
    ensures Get(store, "dlp.email.minor.mode") == Get(store, "dlp.email.moderate.mode")
            == Get(store, "dlp.email.major.mode") == Present("\"off\"")
    ensures Get(store, "dlp.email.minor_recipients") == Get(store, "dlp.email.moderate_recipients")
            == Get(store, "dlp.email.major_recipients") == Get(store, "dlp.digest.recipients") == Present("\"\"")
    ensures Get(store, "dlp.dedup.enabled") == Present("false")
  {
    var o := SAFE_RUN_OVERRIDES;
    assert o[0] == ("dlp.dedup.enabled", "false");
    assert o[1] == ("dlp.email.minor.mode", "\"off\"") && o[2] == ("dlp.email.moderate.mode", "\"off\"");
    assert o[3] == ("dlp.email.major.mode", "\"off\"") && o[4] == ("dlp.email.minor_recipients", "\"\"");
    assert o[5] == ("dlp.email.moderate_recipients", "\"\"") && o[6] == ("dlp.email.major_recipients", "\"\"");
    assert o[7] == ("dlp.digest.recipients", "\"\"");
  }

  // ---- The whole trace ---------------------------------------------------------------------------------------------

  lemma TraceParts(log: RunLog)
    requires Other(log.body.steps) && OnlyRestores(log.restore)
    ensures Within(TraceOf(log), |log.body.steps|, log.cleanup)
  {
    var all, n, m := TraceOf(log), |log.body.steps|, |log.body.steps| + |log.cleanup|;
    assert all[..n] == log.body.steps && all[m..] == log.restore + Again(log);
    assert forall i | 0 <= i < |log.cleanup| :: all[n + i] == log.cleanup[i];
  }

  /**
   The order on every exit path, whatever raises: alerts are purged only after late scans have been awaited, these only
   after missing ids have been looked up; unless one of these steps raises, all that are due have been taken, and
   otherwise a warning has been given. Every restoring write comes after all of them.
   */
  lemma CleanupInOrder(log: RunLog, faults: Faults, t: nat, run: Run, s: Store, keys: seq<string>)
    requires log == LogOf(faults, t, run, s, keys)
    ensures Orderly(TraceOf(log), faults, t, run)
    ensures forall i, j | 0 <= i < |TraceOf(log)| && 0 <= j < |TraceOf(log)| :: RestoredAfter(TraceOf(log), j, i)
  {
    CleanupIsWithin(log, faults, t, run, s, keys);
    TraceIsOrderly(TraceOf(log), |log.body.steps|, log.cleanup, faults, t, run);
    forall i, j | 0 <= i < |TraceOf(log)| && 0 <= j < |TraceOf(log)| ensures RestoredAfter(TraceOf(log), j, i) {
      WithinAt(TraceOf(log), |log.body.steps|, log.cleanup, j);
      if TraceOf(log)[i].RestoreWrite? {
        RestoreComesLast(log, faults, t, run, s, keys, i, j);
      }
    }
  }

  /** If step `i` restores and step `j` cleans up, `j` comes first. */
  predicate RestoredAfter(steps: seq<Step>, j: nat, i: nat)
    requires i < |steps| && j < |steps|
  {
    steps[i].RestoreWrite? && CleansUp(steps[j]) ==> j < i
  }

  lemma CleanupIsWithin(log: RunLog, faults: Faults, t: nat, run: Run, s: Store, keys: seq<string>)
    requires log == LogOf(faults, t, run, s, keys)
    ensures Within(TraceOf(log), |log.body.steps|, log.cleanup)
    ensures log.cleanup == CleanupTaken(faults, CleanupTick(log, t), run)
  {
    FinishedFinishes(log.body, faults, t, run);
    PartsWrite(log, faults, t, run, s, keys);
    ReadsRead(s, keys);
    BodyIsOther(run, Reads(s, keys));
    TraceParts(log);
  }

  lemma TraceIsOrderly(all: seq<Step>, n: nat, c: seq<Step>, faults: Faults, t: nat, run: Run)
    requires Within(all, n, c) && c == CleanupTaken(faults, t + n, run)
    ensures Orderly(all, faults, t, run)
  {
    CleanupIsOrderly(faults, t + n, run);
    OrderlyWithin(all, n, c, faults, t, run);
  }

  lemma DoneInTrace(log: RunLog, faults: Faults, t: nat, i: nat, step: Step)
    requires i < |log.body.steps| && DoneBefore(log.body.steps, faults, t, i, step)
    ensures DoneBefore(TraceOf(log), faults, t, i, step)
  {
    var j: nat :| j < i && DoneAt(log.body.steps, faults, t, j, step);
    assert TraceOf(log)[j] == log.body.steps[j];
    assert DoneAt(TraceOf(log), faults, t, j, step);
  }

  lemma PreparedInTrace(log: RunLog, faults: Faults, t: nat, run: Run, keys: seq<string>, i: nat)
    requires i < |log.body.steps| && Prepared(log.body.steps, faults, t, run, keys, i)
    ensures Prepared(TraceOf(log), faults, t, run, keys, i)
  {
    assert TraceOf(log)[i] == log.body.steps[i];
    forall step | DoneBefore(log.body.steps, faults, t, i, step) ensures DoneBefore(TraceOf(log), faults, t, i, step) {
      DoneInTrace(log, faults, t, i, step);
    }
  }

  /**
   No override is written before the whole snapshot has been read and filed, no task is begun before all overrides are
   written and all earlier tasks are done, and both only in the body.
   */
  lemma BodyInOrder(log: RunLog, faults: Faults, t: nat, run: Run, s: Store, keys: seq<string>, i: nat)
    requires log == LogOf(faults, t, run, s, keys) && i < |TraceOf(log)|
    ensures Prepared(TraceOf(log), faults, t, run, keys, i)
  {
    FinishedFinishes(log.body, faults, t, run);
    PartsWrite(log, faults, t, run, s, keys);
    if i < |log.body.steps| {
      assert TraceOf(log)[i] == log.body.steps[i];
      if log.body.steps[i].Override? {
        OverridePrepared(faults, t, run, s, keys, i);
      } else if log.body.steps[i].Work? {
        WorkPrepared(faults, t, run, s, keys, i);
      }
      PreparedInTrace(log, faults, t, run, keys, i);
    } else {
      AfterBody(log, faults, t, run, i);
    }
  }

  /** The trace, part by part. */
  lemma TraceAt(log: RunLog, i: nat)
    requires i < |TraceOf(log)|
    ensures var n, m := |log.body.steps|, |log.body.steps| + |log.cleanup|;
            TraceOf(log)[i] == if i < n then log.body.steps[i] else if i < m then log.cleanup[i - n]
                               else if i < m + |log.restore| then log.restore[i - m] else Rewrite
  {
  }

  lemma AfterBody(log: RunLog, faults: Faults, t: nat, run: Run, i: nat)
    requires log.cleanup == CleanupTaken(faults, CleanupTick(log, t), run) && OnlyRestores(log.restore)
    requires |log.body.steps| <= i < |TraceOf(log)|
    ensures !TraceOf(log)[i].Override?
    ensures TraceOf(log)[i].Work? ==> TraceOf(log)[i].task == FetchUnresolved
  {
    TraceAt(log, i);
    CleanupKinds(faults, CleanupTick(log, t), run);
  }

  lemma CleanupKinds(faults: Faults, t: nat, run: Run)
    ensures forall i | 0 <= i < |CleanupTaken(faults, t, run)| ::
              CleansUp(CleanupTaken(faults, t, run)[i]) || CleanupTaken(faults, t, run)[i] == Warn
  {
    PlanInOrder(run);
  }
}
