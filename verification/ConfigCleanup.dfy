/**
 The end-to-end run as a protocol on the configuration (`run_e2e_async` in dlp_harness/e2e.py, with the writing
 operations of dlp_harness/db.py). Any step may raise, before or after it has taken effect: `faults` says what happens
 at each tick.
 */
module ConfigCleanup {
  import opened Options
  import opened Sequences
  import opened ConfigStore

  datatype Exception = OsError | OtherError(message: string) | Interrupt

  datatype Fault = Fine | Before(exc: Exception) | After(exc: Exception)

  /** What happens at each tick; a run is finite, so from some tick on nothing needs to raise any more. */
  type Faults = seq<Fault>

  function At(faults: Faults, tick: nat): Fault {
    if tick < |faults| then faults[tick] else Fine
  }

  function Raised(fault: Fault): Option<Exception> {
    if fault.Fine? then None else Some(fault.exc)
  }

  datatype Task =
    | Preflight | Send | FetchRequests | AwaitScans | FetchAlerts | FetchLags | Score
    | WriteResults | WriteMetrics | WriteManifest | Report
    | FetchUnresolved

  /** What a run attempts, in order. */
  datatype Step =
    | Read(key: string)
    | Snapped
    | Override(key: string)
    | Work(task: Task)
    | ResidualDrain
    | Purge
    | Warn
    | RestoreWrite(key: string)
    | Rewrite

  /** What is decided elsewhere: the mode of the run, and which ids are there to be resolved and purged in the end. */
  datatype Run = Run(skipConfig: bool, overrides: seq<(string, string)>, unresolved: bool, purgeIds: bool,
                     keepAlerts: bool)

  predicate WritesConfig(step: Step) {
    step.Override? || step.RestoreWrite?
  }

  predicate NoConfigWrite(steps: seq<Step>) {
    forall i | 0 <= i < |steps| :: !WritesConfig(steps[i])
  }

  predicate NoRestore(steps: seq<Step>) {
    forall i | 0 <= i < |steps| :: !steps[i].RestoreWrite?
  }

  // ---- How far a plan gets under faults ----------------------------------------------------------------------------

  /** None of the `n` ticks from `t` on raises. */
  predicate AllFine(faults: Faults, t: nat, n: nat) {
    n == 0 || (AllFine(faults, t, n - 1) && At(faults, t + n - 1).Fine?)
  }

  /** How many of `n` steps are attempted from tick `t` on: all, or those up to the first that raises. */
  function Reached(faults: Faults, t: nat, n: nat): (k: nat)
    ensures k <= n
  {
    if n == 0 || AllFine(faults, t, n - 1) then n else Reached(faults, t, n - 1)
  }

  /** What these steps raise. */
  function Raises(faults: Faults, t: nat, n: nat): Option<Exception> {
    if n == 0 then None
    else if AllFine(faults, t, n - 1) then Raised(At(faults, t + n - 1))
    else Raises(faults, t, n - 1)
  }

  lemma {:induction false} AllFineJoin(faults: Faults, t: nat, n: nat, m: nat)
    ensures AllFine(faults, t, n + m) <==> AllFine(faults, t, n) && AllFine(faults, t + n, m)
  {
    if m > 0 {
      AllFineJoin(faults, t, n, m - 1);
    }
  }

  /**
   Either every step is fine and all are taken; or exactly those up to the first that is not, which decides what is
   raised.
   */
  lemma {:induction false} ReachedMeans(faults: Faults, t: nat, n: nat)
    ensures Raises(faults, t, n).None? <==> AllFine(faults, t, n)
    ensures AllFine(faults, t, n) ==> Reached(faults, t, n) == n
    ensures !AllFine(faults, t, n) ==>
              var k := Reached(faults, t, n);
              k > 0 && AllFine(faults, t, k - 1) && Raises(faults, t, n) == Raised(At(faults, t + k - 1)) != None
  {
    if n > 0 {
      ReachedMeans(faults, t, n - 1);
    }
  }

  /** One part after another. */
  lemma {:induction false} ReachedJoin(faults: Faults, t: nat, n: nat, m: nat)
    ensures AllFine(faults, t, n) ==>
              && Reached(faults, t, n + m) == n + Reached(faults, t + n, m)
              && Raises(faults, t, n + m) == Raises(faults, t + n, m)
    ensures !AllFine(faults, t, n) ==>
              Reached(faults, t, n + m) == Reached(faults, t, n) && Raises(faults, t, n + m) == Raises(faults, t, n)
  {
    if m > 0 {
      ReachedJoin(faults, t, n, m - 1);
      AllFineJoin(faults, t, n, m - 1);
    } else {
      ReachedMeans(faults, t, n);
    }
  }

  /** The steps of a plan that are taken from tick `t` on. */
  function Taken(faults: Faults, t: nat, planned: seq<Step>): seq<Step> {
    planned[..Reached(faults, t, |planned|)]
  }

  /** One part of a plan after another: the second is begun if and only if all of the first is fine. */
  lemma TakenJoin(faults: Faults, t: nat, p: seq<Step>, q: seq<Step>)
    ensures AllFine(faults, t, |p|) ==>
              && Taken(faults, t, p) == p && Taken(faults, t, p + q) == p + Taken(faults, t + |p|, q)
              && Raises(faults, t, |p|) == None && Raises(faults, t, |p + q|) == Raises(faults, t + |p|, |q|)
    ensures !AllFine(faults, t, |p|) ==>
              && Taken(faults, t, p + q) == Taken(faults, t, p)
              && Raises(faults, t, |p|) != None && Raises(faults, t, |p + q|) == Raises(faults, t, |p|)
  {
    ReachedJoin(faults, t, |p|, |q|);
    ReachedMeans(faults, t, |p|);
  }

  /** The first tick that is not fine ends the plan. */
  lemma FirstRaise(faults: Faults, t: nat, i: nat, n: nat)
    requires i < n && AllFine(faults, t, i) && !At(faults, t + i).Fine?
    ensures Reached(faults, t, n) == i + 1 && Raises(faults, t, n) == Raised(At(faults, t + i))
            && !AllFine(faults, t, n)
  {
    ReachedJoin(faults, t, i + 1, n - (i + 1));
    AllFineJoin(faults, t, i + 1, n - (i + 1));
  }

  /** The store after the first `n` writes; the last of them may have raised, and then have taken effect or not. */
  function Written(s: Store, writes: Snapshot, faults: Faults, t: nat, n: nat): Store
    requires n <= |writes|
  {
    if n == 0 then s else
      var before := Written(s, writes, faults, t, n - 1);
      if At(faults, t + n - 1).Before? then before else Put(before, writes[n - 1].0, writes[n - 1].1)
  }

  // ---- The plan of a run -------------------------------------------------------------------------------------------

  /** A present key is read twice. */
  function ReadsOf(s: Store, key: string): seq<Step> {
    if key in s then [Read(key), Read(key)] else [Read(key)]
  }

  function Reads(s: Store, keys: seq<string>): seq<Step> {
    if keys == [] then [] else Reads(s, keys[..|keys| - 1]) + ReadsOf(s, keys[|keys| - 1])
  }

  function OverrideWrites(overrides: seq<(string, string)>): Snapshot {
    seq(|overrides|, i requires 0 <= i < |overrides| => (overrides[i].0, Present(overrides[i].1)))
  }

  function Overrides(overrides: seq<(string, string)>): seq<Step> {
    seq(|overrides|, i requires 0 <= i < |overrides| => Override(overrides[i].0))
  }

  function RestoreWrites(snap: Snapshot): seq<Step> {
    seq(|snap|, i requires 0 <= i < |snap| => RestoreWrite(snap[i].0))
  }

  function Targets(overrides: seq<(string, string)>): seq<string> {
    seq(|overrides|, i requires 0 <= i < |overrides| => overrides[i].0)
  }

  /** The snapshot is filed, and the overrides are written. */
  function ConfigureSteps(run: Run): seq<Step> {
    [Snapped] + Overrides(run.overrides)
  }

  /** Snapshot and overrides. */
  function PrepareSteps(run: Run, rs: seq<Step>): seq<Step> {
    if run.skipConfig then [] else rs + ConfigureSteps(run)
  }

  /** What the run does once the configuration is set, up to the scored metrics, and the files it then writes. */
  const SCORING: seq<Step> := [Work(Preflight), Work(Send), Work(FetchRequests), Work(AwaitScans), Work(FetchAlerts),
                               Work(FetchLags), Work(Score)]

  const REPORTING: seq<Step> := [Work(WriteResults), Work(WriteMetrics), Work(WriteManifest), Work(Report)]

  const WORK: seq<Step> := SCORING + REPORTING

  function BodySteps(run: Run, rs: seq<Step>): seq<Step> {
    PrepareSteps(run, rs) + WORK
  }

  /** The cleanup before the restore: unresolved ids are looked up, late scans awaited, alerts purged. */
  function CleanupSteps(run: Run): seq<Step> {
    (if run.unresolved then [Work(FetchUnresolved)] else [])
    + (if run.purgeIds then [ResidualDrain] + (if run.keepAlerts then [] else [Purge]) else [])
  }

  // ---- What a run comes to -----------------------------------------------------------------------------------------

  /** The snapshot is there if and only if none of its reads raised. */
  function SnapAt(faults: Faults, t: nat, run: Run, s: Store, keys: seq<string>): Option<Snapshot> {
    if !run.skipConfig && AllFine(faults, t, |Reads(s, keys)|) then Some(SnapshotOf(s, keys)) else None
  }

  /** The metrics have been computed if and only if nothing up to the score has raised. */
  predicate HasMetrics(faults: Faults, t: nat, run: Run, rs: seq<Step>) {
    AllFine(faults, t, |PrepareSteps(run, rs)| + |SCORING|)
  }

  /** The configuration once `n` steps of the body have been taken, the first `first` of which precede the overrides. */
  function StoreAfter(faults: Faults, t: nat, run: Run, s: Store, first: nat, n: nat): Store {
    if run.skipConfig || n <= first then s
    else
      Written(s, OverrideWrites(run.overrides), faults, t + first,
              if n - first <= |run.overrides| then n - first else |run.overrides|)
  }

  /** The cleanup steps taken from tick `t` on; a warning follows one that raises. */
  function CleanupTaken(faults: Faults, t: nat, run: Run): seq<Step> {
    var planned := CleanupSteps(run);
    if AllFine(faults, t, |planned|) then planned else Taken(faults, t, planned) + [Warn]
  }

  /** The exception of a cleanup step is dropped unless it is an interrupt; the warning's is not. */
  function CleanupRaises(faults: Faults, t: nat, run: Run): Option<Exception> {
    var n := |CleanupSteps(run)|;
    if AllFine(faults, t, n) then None
    else
      var warning := Raised(At(faults, t + Reached(faults, t, n)));
      if warning.Some? then warning else if Raises(faults, t, n) == Some(Interrupt) then Some(Interrupt) else None
  }

  /** How many keys a restore from tick `t` on writes. */
  function Restores(faults: Faults, t: nat, snap: Option<Snapshot>): nat {
    if snap.None? then 0 else Reached(faults, t, |snap.value|)
  }

  function RestoreRaises(faults: Faults, t: nat, snap: Option<Snapshot>): Option<Exception> {
    if snap.None? then None else Raises(faults, t, |snap.value|)
  }

  function RestoreTaken(faults: Faults, t: nat, snap: Option<Snapshot>): seq<Step> {
    if snap.None? then [] else Taken(faults, t, RestoreWrites(snap.value))
  }

  function RestoredStore(s: Store, faults: Faults, t: nat, snap: Option<Snapshot>): Store {
    if snap.None? then s else Written(s, snap.value, faults, t, Restores(faults, t, snap))
  }

  /** The metrics file is written again; only a file error is ignored. */
  function RewriteRaises(fault: Fault): Option<Exception> {
    if Raised(fault) == Some(OsError) then None else Raised(fault)
  }

  /** A later exception replaces an earlier one. */
  function Last(body: Option<Exception>, rewriting: Option<Exception>, cleanup: Option<Exception>,
                restore: Option<Exception>)
    : Option<Exception> {
    if restore.Some? then restore
    else if cleanup.Some? then cleanup
    else if rewriting.Some? then rewriting
    else body
  }

  /** How the `try` part of a run goes; `during` is the configuration it leaves, under which the cleanup runs. */
  datatype BodyLog = BodyLog(steps: seq<Step>, exc: Option<Exception>, snap: Option<Snapshot>, during: Store,
                             metrics: bool)

  function BodyOf(faults: Faults, t: nat, run: Run, s: Store, keys: seq<string>): BodyLog {
    var planned := BodySteps(run, Reads(s, keys));
    var steps := Taken(faults, t, planned);
    BodyLog(steps, Raises(faults, t, |planned|), SnapAt(faults, t, run, s, keys),
            StoreAfter(faults, t, run, s, |Reads(s, keys)| + 1, |steps|), HasMetrics(faults, t, run, Reads(s, keys)))
  }

  /** A run: its body, its cleanup and its restore, with the exceptions they end with. */
  datatype RunLog = RunLog(body: BodyLog, cleanup: seq<Step>, cleanupExc: Option<Exception>,
                           restore: seq<Step>, restored: Option<Exception>)

  function Finished(body: BodyLog, faults: Faults, t: nat, run: Run): RunLog {
    var cleanup := CleanupTaken(faults, t + |body.steps|, run);
    var t2 := t + |body.steps| + |cleanup|;
    RunLog(body, cleanup, CleanupRaises(faults, t + |body.steps|, run),
           RestoreTaken(faults, t2, body.snap), RestoreRaises(faults, t2, body.snap))
  }

  /** A whole run from tick `t` and configuration `s` on. */
  function LogOf(faults: Faults, t: nat, run: Run, s: Store, keys: seq<string>): RunLog {
    Finished(BodyOf(faults, t, run, s, keys), faults, t, run)
  }

  function CleanupTick(log: RunLog, t: nat): nat {
    t + |log.body.steps|
  }

  function RestoreTick(log: RunLog, t: nat): nat {
    t + |log.body.steps| + |log.cleanup|
  }

  function AfterTick(log: RunLog, t: nat): nat {
    t + |log.body.steps| + |log.cleanup| + |log.restore|
  }

  /** The metrics are written again if they were computed and neither cleanup nor restore raised. */
  predicate Rewrites(log: RunLog) {
    log.body.metrics && log.cleanupExc.None? && log.restored.None?
  }

  function Again(log: RunLog): seq<Step> {
    if Rewrites(log) then [Rewrite] else []
  }

  function TraceOf(log: RunLog): seq<Step> {
    log.body.steps + log.cleanup + log.restore + Again(log)
  }

  function ResultOf(log: RunLog, faults: Faults, t: nat): Option<Exception> {
    var rewriting := if Rewrites(log) then RewriteRaises(At(faults, AfterTick(log, t))) else None;
    Last(log.body.exc, rewriting, log.cleanupExc, log.restored)
  }

  /** The configuration in the end. */
  function FinalStore(log: RunLog, faults: Faults, t: nat): Store {
    RestoredStore(log.body.during, faults, RestoreTick(log, t), log.body.snap)
  }

  // ---- The parts of a run, put together ----------------------------------------------------------------------------

  lemma {:induction false} ReadsPrefix(s: Store, keys: seq<string>, i: nat)
    requires i <= |keys|
    ensures Reads(s, keys[..i]) <= Reads(s, keys)
    decreases |keys|
  {
    if i < |keys| {
      ReadsPrefix(s, keys[..|keys| - 1], i);
      assert keys[..|keys| - 1][..i] == keys[..i];
    } else {
      assert keys[..i] == keys;
    }
  }

  /** A plan that gets through its first part and stops in the second. */
  lemma StopsInside(faults: Faults, t: nat, p: seq<Step>, q: seq<Step>, r: seq<Step>)
    requires AllFine(faults, t, |p|) && !AllFine(faults, t + |p|, |q|)
    ensures Taken(faults, t, p + q + r) == p + Taken(faults, t + |p|, q)
    ensures Raises(faults, t, |p + q + r|) == Raises(faults, t + |p|, |q|)
  {
    AllFineJoin(faults, t, |p|, |q|);
    TakenJoin(faults, t, p, q);
    TakenJoin(faults, t, p + q, r);
  }

  /** The first `i` keys have been read, and none of the reads has raised. */
  predicate IsSnapshot(faults: Faults, t: nat, s: Store, keys: seq<string>, i: nat, done: seq<Step>, snap: Snapshot) {
    i <= |keys| && done == Reads(s, keys[..i]) && snap == SnapshotOf(s, keys[..i]) && AllFine(faults, t, |done|)
  }

  /** A snapshot that stops at key `i`. */
  lemma SnapshotStops(faults: Faults, t: nat, s: Store, keys: seq<string>, i: nat, done: seq<Step>, snap: Snapshot)
    requires i < |keys| && IsSnapshot(faults, t, s, keys, i, done, snap)
    requires !AllFine(faults, t + |done|, |ReadsOf(s, keys[i])|)
    ensures Taken(faults, t, Reads(s, keys)) == done + Taken(faults, t + |done|, ReadsOf(s, keys[i]))
    ensures Raises(faults, t, |Reads(s, keys)|) == Raises(faults, t + |done|, |ReadsOf(s, keys[i])|)
  {
    var all, upTo := Reads(s, keys), done + ReadsOf(s, keys[i]);
    assert keys[..i + 1][..i] == keys[..i];
    ReadsPrefix(s, keys, i + 1);
    assert all == upTo + all[|upTo|..];
    StopsInside(faults, t, done, ReadsOf(s, keys[i]), all[|upTo|..]);
  }

  /** A snapshot that gets past key `i`. */
  lemma SnapshotGoesOn(faults: Faults, t: nat, s: Store, keys: seq<string>, i: nat, done: seq<Step>, snap: Snapshot)
    requires i < |keys| && IsSnapshot(faults, t, s, keys, i, done, snap)
    requires AllFine(faults, t + |done|, |ReadsOf(s, keys[i])|)
    ensures IsSnapshot(faults, t, s, keys, i + 1, done + ReadsOf(s, keys[i]), snap + [(keys[i], Get(s, keys[i]))])
  {
    assert keys[..i + 1][..i] == keys[..i];
    AllFineJoin(faults, t, |done|, |ReadsOf(s, keys[i])|);
  }

  /** The preparation that got no snapshot, from its reads. */
  lemma PreparedWithout(faults: Faults, t: nat, run: Run, s: Store, rs: seq<Step>)
    requires !run.skipConfig && !AllFine(faults, t, |rs|)
    ensures Taken(faults, t, PrepareSteps(run, rs)) == Taken(faults, t, rs)
    ensures Raises(faults, t, |PrepareSteps(run, rs)|) == Raises(faults, t, |rs|)
    ensures StoreAfter(faults, t, run, s, |rs| + 1, |Taken(faults, t, rs)|) == s
  {
    TakenJoin(faults, t, rs, ConfigureSteps(run));
  }

  /** The preparation that got one. */
  lemma PreparedWith(faults: Faults, t: nat, run: Run, s: Store, rs: seq<Step>, before: seq<Step>)
    requires !run.skipConfig && AllFine(faults, t, |rs|) && Taken(faults, t + |rs|, ConfigureSteps(run)) != []
    ensures var steps, more := Taken(faults, t, PrepareSteps(run, rs)), Taken(faults, t + |rs|, ConfigureSteps(run));
            && steps == rs + more && before + rs + more == before + steps
            && Raises(faults, t, |PrepareSteps(run, rs)|) == Raises(faults, t + |rs|, |ConfigureSteps(run)|)
            && StoreAfter(faults, t, run, s, |rs| + 1, |steps|)
               == Written(s, OverrideWrites(run.overrides), faults, t + |rs| + 1, |more| - 1)
  {
    var more := Taken(faults, t + |rs|, ConfigureSteps(run));
    TakenJoin(faults, t, rs, ConfigureSteps(run));
    Reassociate(before, rs, more);
    OverridesAfter(faults, t, run, s, |rs|, |more|);
  }

  lemma OverridesAfter(faults: Faults, t: nat, run: Run, s: Store, first: nat, n: nat)
    requires !run.skipConfig && 0 < n <= 1 + |run.overrides|
    ensures StoreAfter(faults, t, run, s, first + 1, first + n)
            == Written(s, OverrideWrites(run.overrides), faults, t + first + 1, n - 1)
  {
  }

  /** From the preparation to the whole body. */
  lemma BodyJoin(faults: Faults, t: nat, run: Run, s: Store, rs: seq<Step>)
    ensures var p := PrepareSteps(run, rs);
            var steps, first := Taken(faults, t, p), |rs| + 1;
            var body := Taken(faults, t, BodySteps(run, rs));
            && StoreAfter(faults, t, run, s, first, |body|) == StoreAfter(faults, t, run, s, first, |steps|)
            && if AllFine(faults, t, |p|) then
                 && Raises(faults, t, |p|) == None && steps == p && body == steps + Taken(faults, t + |steps|, WORK)
                 && Raises(faults, t, |BodySteps(run, rs)|) == Raises(faults, t + |steps|, |WORK|)
                 && (HasMetrics(faults, t, run, rs) <==> AllFine(faults, t + |steps|, |SCORING|))
               else
                 && Raises(faults, t, |p|) != None && body == steps
                 && Raises(faults, t, |BodySteps(run, rs)|) == Raises(faults, t, |p|)
                 && !HasMetrics(faults, t, run, rs)
  {
    var p := PrepareSteps(run, rs);
    TakenJoin(faults, t, p, WORK);
    AllFineJoin(faults, t, |p|, |SCORING|);
    if AllFine(faults, t, |p|) {
      MoreWork(faults, t, run, s, |rs| + 1, |p|, |Taken(faults, t, BodySteps(run, rs))|);
    }
  }

  /** Work after the overrides leaves the configuration as they left it. */
  lemma MoreWork(faults: Faults, t: nat, run: Run, s: Store, first: nat, n: nat, n1: nat)
    requires run.skipConfig || first + |run.overrides| <= n
    requires n <= n1
    ensures StoreAfter(faults, t, run, s, first, n) == StoreAfter(faults, t, run, s, first, n1)
  {
  }

  // ---- The code ----------------------------------------------------------------------------------------------------

  class Harness {
    const faults: Faults
    var store: Store
    var ticks: nat
    ghost var trace: seq<Step>

    constructor (faults: Faults, store: Store)
      ensures this.faults == faults && this.store == store && ticks == 0 && trace == []
    {
      this.faults, this.store, ticks, trace := faults, store, 0, [];
    }

    /** The steps taken since the trace was `before` and the tick `t`. */
    ghost predicate Took(before: seq<Step>, t: nat, steps: seq<Step>)
      reads this
    {
      trace == before + steps && ticks == t + |steps|
    }

    /** A step that does not write the configuration. */
    method Do(step: Step) returns (exc: Option<Exception>)
      requires !WritesConfig(step)
      modifies this
      ensures store == old(store) && Took(old(trace), old(ticks), [step])
      ensures exc == Raised(At(faults, old(ticks)))
    {
      exc := Raised(At(faults, ticks));
      ticks, trace := ticks + 1, trace + [step];
    }

    /** A write of one key; one that raises may have taken effect. */
    method Write(ghost step: Step, key: string, value: Raw) returns (exc: Option<Exception>)
      modifies this
      ensures Took(old(trace), old(ticks), [step])
      ensures exc == Raised(At(faults, old(ticks)))
      ensures store == if At(faults, old(ticks)).Before? then old(store) else Put(old(store), key, value)
    {
      var fault := At(faults, ticks);
      ticks, trace := ticks + 1, trace + [step];
      exc := Raised(fault);
      if !fault.Before? {
        store := Put(store, key, value);
      }
    }

    /** Steps that leave the configuration alone. */
    method DoAll(planned: seq<Step>) returns (exc: Option<Exception>)
      requires NoConfigWrite(planned)
      modifies this
      ensures store == old(store) && Took(old(trace), old(ticks), Taken(faults, old(ticks), planned))
      ensures exc == Raises(faults, old(ticks), |planned|)
    {
      exc := None;
      for i := 0 to |planned|
        invariant store == old(store) && exc.None? && AllFine(faults, old(ticks), i)
        invariant Took(old(trace), old(ticks), planned[..i])
      {
        exc := Do(planned[i]);
        assert planned[..i + 1] == planned[..i] + [planned[i]];
        if exc.Some? {
          FirstRaise(faults, old(ticks), i, |planned|);
          return;
        }
      }
      ReachedMeans(faults, old(ticks), |planned|);
    }

    /** The reads of one key. */
    method ReadKey(key: string) returns (exc: Option<Exception>)
      modifies this
      ensures store == old(store) && Took(old(trace), old(ticks), Taken(faults, old(ticks), ReadsOf(store, key)))
      ensures exc == Raises(faults, old(ticks), |ReadsOf(store, key)|)
    {
      exc := Do(Read(key));
      if exc.None? && key in store {
        exc := Do(Read(key));
      }
    }

    /** The configuration as it is. The snapshot is the caller's if no read raises. */
    method TakeSnapshot(keys: seq<string>) returns (snap: Snapshot, exc: Option<Exception>)
      modifies this
      ensures store == old(store) && Took(old(trace), old(ticks), Taken(faults, old(ticks), Reads(store, keys)))
      ensures exc == Raises(faults, old(ticks), |Reads(store, keys)|)
      ensures exc.None? ==> snap == SnapshotOf(store, keys)
    {
      snap, exc := [], None;
      ghost var done := [];
      for i := 0 to |keys|
        invariant store == old(store) && exc.None? && Took(old(trace), old(ticks), done)
        invariant IsSnapshot(faults, old(ticks), store, keys, i, done, snap)
      {
        ghost var here := ReadsOf(store, keys[i]);
        Reassociate(old(trace), done, Taken(faults, ticks, here));
        ReachedMeans(faults, ticks, |here|);
        exc := ReadKey(keys[i]);
        if exc.Some? {
          SnapshotStops(faults, old(ticks), store, keys, i, done, snap);
          return;
        }
        SnapshotGoesOn(faults, old(ticks), store, keys, i, done, snap);
        done, snap := done + here, snap + [(keys[i], Get(store, keys[i]))];
      }
      assert keys[..|keys|] == keys;
      ReachedMeans(faults, old(ticks), |Reads(store, keys)|);
    }

    method ApplyOverrides(overrides: seq<(string, string)>) returns (exc: Option<Exception>)
      modifies this
      ensures Took(old(trace), old(ticks), Taken(faults, old(ticks), Overrides(overrides)))
      ensures exc == Raises(faults, old(ticks), |overrides|)
      ensures store == Written(old(store), OverrideWrites(overrides), faults, old(ticks),
                               Reached(faults, old(ticks), |overrides|))
    {
      exc := None;
      ghost var steps := Overrides(overrides);
      for i := 0 to |overrides|
        invariant exc.None? && AllFine(faults, old(ticks), i)
        invariant Took(old(trace), old(ticks), steps[..i])
        invariant store == Written(old(store), OverrideWrites(overrides), faults, old(ticks), i)
      {
        var (key, value) := overrides[i];
        exc := Write(Override(key), key, Present(value));
        assert steps[..i + 1] == steps[..i] + [Override(key)];
        if exc.Some? {
          FirstRaise(faults, old(ticks), i, |overrides|);
          return;
        }
      }
      ReachedMeans(faults, old(ticks), |overrides|);
    }

    method Restore(snap: Snapshot) returns (exc: Option<Exception>)
      modifies this
      ensures Took(old(trace), old(ticks), Taken(faults, old(ticks), RestoreWrites(snap)))
      ensures exc == Raises(faults, old(ticks), |snap|)
      ensures store == Written(old(store), snap, faults, old(ticks), Reached(faults, old(ticks), |snap|))
    {
      exc := None;
      ghost var steps := RestoreWrites(snap);
      for i := 0 to |snap|
        invariant exc.None? && AllFine(faults, old(ticks), i)
        invariant Took(old(trace), old(ticks), steps[..i])
        invariant store == Written(old(store), snap, faults, old(ticks), i)
      {
        exc := Write(RestoreWrite(snap[i].0), snap[i].0, snap[i].1);
        assert steps[..i + 1] == steps[..i] + [RestoreWrite(snap[i].0)];
        if exc.Some? {
          FirstRaise(faults, old(ticks), i, |snap|);
          return;
        }
      }
      ReachedMeans(faults, old(ticks), |snap|);
    }

    /** The cleanup before the restore. An error is reported and dropped, an interrupt is passed on. */
    method CleanUp(run: Run) returns (exc: Option<Exception>)
      modifies this
      ensures store == old(store) && Took(old(trace), old(ticks), CleanupTaken(faults, old(ticks), run))
      ensures exc == CleanupRaises(faults, old(ticks), run)
    {
      ReachedMeans(faults, ticks, |CleanupSteps(run)|);
      exc := DoAll(CleanupSteps(run));
      if exc.Some? {
        var raised := exc;
        exc := Do(Warn);
        if exc.None? && raised.value.Interrupt? {
          exc := raised;
        }
      }
    }

    /** The snapshot is filed and the overrides are applied. */
    method Configure(run: Run) returns (exc: Option<Exception>)
      modifies this
      ensures var steps := Taken(faults, old(ticks), ConfigureSteps(run));
              && Took(old(trace), old(ticks), steps) && steps != []
              && store == Written(old(store), OverrideWrites(run.overrides), faults, old(ticks) + 1, |steps| - 1)
      ensures exc == Raises(faults, old(ticks), |ConfigureSteps(run)|)
    {
      TakenJoin(faults, ticks, [Snapped], Overrides(run.overrides));
      exc := Do(Snapped);
      if exc.None? {
        exc := ApplyOverrides(run.overrides);
      }
    }

    /** `snap` is what has been taken, even if a later step raises. */
    method SnapshotAndConfigure(run: Run, keys: seq<string>) returns (snap: Option<Snapshot>, exc: Option<Exception>)
      modifies this
      ensures var t, rs, more := old(ticks), Reads(old(store), keys), ConfigureSteps(run);
              var t1 := t + |rs|;
              if AllFine(faults, t, |rs|) then
                && Took(old(trace) + rs, t1, Taken(faults, t1, more)) && 0 < |Taken(faults, t1, more)|
                && store
                   == Written(old(store), OverrideWrites(run.overrides), faults, t1 + 1, |Taken(faults, t1, more)| - 1)
                && snap == Some(SnapshotOf(old(store), keys)) && exc == Raises(faults, t1, |more|)
              else
                && Took(old(trace), t, Taken(faults, t, rs)) && store == old(store)
                && snap.None? && exc == Raises(faults, t, |rs|) != None
    {
      ReachedMeans(faults, ticks, |Reads(store, keys)|);
      snap := None;
      var taken;
      taken, exc := TakeSnapshot(keys);
      if exc.None? {
        snap := Some(taken);
        exc := Configure(run);
      }
    }

    /** The part of the run that sets the configuration. */
    method Prepare(run: Run, keys: seq<string>) returns (snap: Option<Snapshot>, exc: Option<Exception>)
      modifies this
      ensures var steps := Taken(faults, old(ticks), PrepareSteps(run, Reads(old(store), keys)));
              && Took(old(trace), old(ticks), steps)
              && store == StoreAfter(faults, old(ticks), run, old(store), |Reads(old(store), keys)| + 1, |steps|)
      ensures snap == SnapAt(faults, old(ticks), run, old(store), keys)
      ensures exc == Raises(faults, old(ticks), |PrepareSteps(run, Reads(old(store), keys))|)
    {
      snap, exc := None, None;
      if !run.skipConfig {
        ghost var t, s, rs := ticks, store, Reads(store, keys);
        snap, exc := SnapshotAndConfigure(run, keys);
        if AllFine(faults, t, |rs|) {
          PreparedWith(faults, t, run, s, rs, old(trace));
        } else {
          PreparedWithout(faults, t, run, s, rs);
        }
      }
    }

    /** The work of the run; `metrics` says whether they have been computed. */
    method DoWork() returns (metrics: bool, exc: Option<Exception>)
      modifies this
      ensures store == old(store) && Took(old(trace), old(ticks), Taken(faults, old(ticks), WORK))
      ensures exc == Raises(faults, old(ticks), |WORK|)
      ensures metrics <==> AllFine(faults, old(ticks), |SCORING|)
    {
      TakenJoin(faults, ticks, SCORING, REPORTING);
      exc := DoAll(SCORING);
      metrics := exc.None?;
      if metrics {
        exc := DoAll(REPORTING);
      }
    }

    /** The `try` part of the run. */
    method Body(run: Run, keys: seq<string>) returns (snap: Option<Snapshot>, metrics: bool, exc: Option<Exception>)
      modifies this
      ensures var steps := Taken(faults, old(ticks), BodySteps(run, Reads(old(store), keys)));
              && Took(old(trace), old(ticks), steps)
              && store == StoreAfter(faults, old(ticks), run, old(store), |Reads(old(store), keys)| + 1, |steps|)
      ensures snap == SnapAt(faults, old(ticks), run, old(store), keys)
      ensures exc == Raises(faults, old(ticks), |BodySteps(run, Reads(old(store), keys))|)
      ensures metrics <==> HasMetrics(faults, old(ticks), run, Reads(old(store), keys))
    {
      BodyJoin(faults, ticks, run, store, Reads(store, keys));
      ghost var prepare := PrepareSteps(run, Reads(store, keys));
      Reassociate(trace, prepare, Taken(faults, ticks + |prepare|, WORK));
      metrics := false;
      snap, exc := Prepare(run, keys);
      if exc.None? {
        metrics, exc := DoWork();
      }
    }

    /** The innermost `finally`. */
    method RestoreIfTaken(snap: Option<Snapshot>) returns (exc: Option<Exception>)
      modifies this
      ensures Took(old(trace), old(ticks), RestoreTaken(faults, old(ticks), snap))
      ensures exc == RestoreRaises(faults, old(ticks), snap)
      ensures store == RestoredStore(old(store), faults, old(ticks), snap)
    {
      exc := None;
      if snap.Some? {
        exc := Restore(snap.value);
      }
    }

    method RewriteMetrics() returns (exc: Option<Exception>)
      modifies this
      ensures store == old(store) && Took(old(trace), old(ticks), [Rewrite])
      ensures exc == RewriteRaises(At(faults, old(ticks)))
    {
      exc := Do(Rewrite);
      if exc == Some(OsError) {
        exc := None;
      }
    }

    /** The cleanup, and the restore after it however the cleanup ends. */
    method CleanUpAndRestore(ghost log: RunLog, ghost t: nat, run: Run, snap: Option<Snapshot>)
      returns (exc: Option<Exception>)
      requires ticks == CleanupTick(log, t) && store == log.body.during && Finishes(log, faults, t, run)
      requires log.body.snap == snap
      modifies this
      ensures Took(old(trace), old(ticks), log.cleanup + log.restore) && ticks == AfterTick(log, t)
      ensures store == FinalStore(log, faults, t)
      ensures exc == if log.restored.Some? then log.restored else log.cleanupExc
    {
      var raised := CleanUp(run);
      exc := RestoreIfTaken(snap);
      if exc.None? {
        exc := raised;
      }
    }

    /** The outer `finally`, after the body. */
    method Finish(ghost log: RunLog, ghost t: nat, run: Run, snap: Option<Snapshot>, metrics: bool,
                  exc: Option<Exception>)
      returns (result: Option<Exception>)
      requires ticks == CleanupTick(log, t) && store == log.body.during && Finishes(log, faults, t, run)
      requires log.body.snap == snap && log.body.metrics == metrics && log.body.exc == exc
      modifies this
      ensures Took(old(trace), old(ticks), log.cleanup + log.restore + Again(log))
      ensures store == FinalStore(log, faults, t) && result == ResultOf(log, faults, t)
    {
      var raised := CleanUpAndRestore(log, t, run, snap);
      result := if raised.Some? then raised else exc;
      if raised.None? && metrics {
        var rewriting := RewriteMetrics();
        result := if rewriting.Some? then rewriting else exc;
      }
    }

    /** The whole run: what it attempts, what it leaves in the configuration and what it raises, for any faults. */
    method RunE2e(run: Run, keys: seq<string>) returns (result: Option<Exception>)
      modifies this
      ensures var log := LogOf(faults, old(ticks), run, old(store), keys);
              && Took(old(trace), old(ticks), TraceOf(log))
              && store == FinalStore(log, faults, old(ticks))
              && result == ResultOf(log, faults, old(ticks))
    {
      ghost var body := BodyOf(faults, ticks, run, store, keys);
      ghost var log := Finished(body, faults, ticks, run);
      FinishedFinishes(body, faults, ticks, run);
      var snap, metrics, exc := Body(run, keys);
      result := Finish(log, old(ticks), run, snap, metrics, exc);
      PartsJoin(old(trace), log);
    }
  }

  /** What comes after the body of a run from tick `t` on. */
  predicate Finishes(log: RunLog, faults: Faults, t: nat, run: Run) {
    && log.cleanup == CleanupTaken(faults, CleanupTick(log, t), run)
    && log.cleanupExc == CleanupRaises(faults, CleanupTick(log, t), run)
    && log.restore == RestoreTaken(faults, RestoreTick(log, t), log.body.snap)
    && log.restored == RestoreRaises(faults, RestoreTick(log, t), log.body.snap)
  }

  lemma FinishedFinishes(body: BodyLog, faults: Faults, t: nat, run: Run)
    ensures Finishes(Finished(body, faults, t, run), faults, t, run)
  {
  }

  lemma PartsJoin(before: seq<Step>, log: RunLog)
    ensures before + log.body.steps + (log.cleanup + log.restore + Again(log)) == before + TraceOf(log)
  {
    Reassociate(log.body.steps, log.cleanup, log.restore);
    Reassociate(log.body.steps, log.cleanup + log.restore, Again(log));
    Reassociate(before, log.body.steps, log.cleanup + log.restore + Again(log));
  }

  // ---- Cleanup and restore -----------------------------------------------------------------------------------------

  /** How far a plan of `n` steps gets when something raises. */
  predicate StopsAt(faults: Faults, t: nat, n: nat) {
    n > 0 && AllFine(faults, t, n - 1) && !At(faults, t + n - 1).Fine?
  }

  /**
   Unless a fault hits it, the cleanup is complete: ids looked up, late scans awaited, alerts purged. If one does,
   exactly the steps up to it have been taken, and the warning is given. The exception goes on only if it is an
   interrupt, or the warning's own.
   */
  lemma CleanupRuns(log: RunLog, faults: Faults, t: nat, run: Run)
    requires Finishes(log, faults, t, run)
    ensures AllFine(faults, CleanupTick(log, t), |CleanupSteps(run)|) <==> log.cleanup == CleanupSteps(run)
    ensures log.cleanup == CleanupSteps(run) ==> log.cleanupExc.None?
    ensures log.cleanup != CleanupSteps(run) ==>
              var n := |log.cleanup| - 1;
              && 0 < n <= |CleanupSteps(run)| && log.cleanup == CleanupSteps(run)[..n] + [Warn]
              && StopsAt(faults, CleanupTick(log, t), n)
              && var raised, warning := At(faults, CleanupTick(log, t) + n - 1), At(faults, CleanupTick(log, t) + n);
                 log.cleanupExc == if warning.Fine? && raised.exc != Interrupt then None
                                   else Some(if warning.Fine? then Interrupt else warning.exc)
  {
    NeverWarns(run);
    ReachedMeans(faults, CleanupTick(log, t), |CleanupSteps(run)|);
  }

  lemma NeverWarns(run: Run)
    ensures Warn !in CleanupSteps(run)
  {
  }

  /**
   With a snapshot, the restore is complete if and only if no fault hits one of its writes, and ends at the first
   otherwise.
   */
  lemma RestoreRuns(log: RunLog, faults: Faults, t: nat, run: Run)
    requires Finishes(log, faults, t, run) && log.body.snap.Some?
    ensures var snap := log.body.snap.value;
            if AllFine(faults, RestoreTick(log, t), |snap|) then
              log.restored.None? && log.restore == RestoreWrites(snap)
            else
              && |log.restore| <= |snap| && log.restore == RestoreWrites(snap)[..|log.restore|]
              && StopsAt(faults, RestoreTick(log, t), |log.restore|)
              && log.restored == Raised(At(faults, RestoreTick(log, t) + |log.restore| - 1)) != None
  {
    RestoreEnds(faults, RestoreTick(log, t), log.body.snap.value);
  }

  lemma RestoreEnds(faults: Faults, t: nat, snap: Snapshot)
    ensures var n, steps := Reached(faults, t, |snap|), RestoreTaken(faults, t, Some(snap));
            && |steps| == n && steps == RestoreWrites(snap)[..n]
            && if AllFine(faults, t, |snap|) then
                 RestoreRaises(faults, t, Some(snap)).None? && steps == RestoreWrites(snap)
               else
                 && StopsAt(faults, t, n)
                 && RestoreRaises(faults, t, Some(snap)) == Raised(At(faults, t + n - 1)) != None
  {
    ReachedMeans(faults, t, |snap|);
    var planned := RestoreWrites(snap);
    assert Reached(faults, t, |planned|) == Reached(faults, t, |snap|);
  }

  /** Writes that take effect restore. */
  lemma {:induction false} WrittenRestores(s: Store, snap: Snapshot, faults: Faults, t: nat, n: nat)
    requires n <= |snap| && AllFine(faults, t, n)
    ensures Written(s, snap, faults, t, n) == RestoreAll(s, snap[..n])
  {
    if n > 0 {
      WrittenRestores(s, snap, faults, t, n - 1);
      assert snap[..n][..n - 1] == snap[..n - 1];
      assert At(faults, t + n - 1).Fine?;
    }
  }

  lemma {:induction false} SnapshotPrefix(s: Store, keys: seq<string>, n: nat)
    requires n <= |keys|
    ensures |SnapshotOf(s, keys)| == |keys| && SnapshotOf(s, keys)[..n] == SnapshotOf(s, keys[..n])
    ensures n < |keys| ==> SnapshotOf(s, keys)[n] == (keys[n], Get(s, keys[n]))
    decreases |keys|
  {
    if n < |keys| {
      SnapshotPrefix(s, keys[..|keys| - 1], n);
      assert keys[..|keys| - 1][..n] == keys[..n];
    } else if n > 0 {
      SnapshotPrefix(s, keys[..n - 1], n - 1);
      assert keys[..n] == keys;
    }
  }

  /** After `n` writes of a restore that were fine, and perhaps one more that was not, those keys are back. */
  lemma RestoredSoFar(s: Store, s0: Store, keys: seq<string>, faults: Faults, t: nat, n: nat, m: nat, k: string)
    requires n <= m <= |keys| && m <= n + 1 && AllFine(faults, t, n) && |SnapshotOf(s0, keys)| == |keys|
    ensures k in keys[..n] ==> Get(Written(s, SnapshotOf(s0, keys), faults, t, m), k) == Get(s0, k)
    ensures m == n && k !in keys[..n] ==> Get(Written(s, SnapshotOf(s0, keys), faults, t, m), k) == Get(s, k)
  {
    var snap := SnapshotOf(s0, keys);
    SnapshotPrefix(s0, keys, n);
    WrittenRestores(s, snap, faults, t, n);
    RestoreGet(s, s0, keys[..n], k);
    if m > n {
      PutGet(Written(s, snap, faults, t, n), keys[n], Get(s0, keys[n]), k);
    }
  }

  /** How many keys a restore has certainly brought back. */
  function Back(log: RunLog): nat {
    if log.restored.Some? && log.restore != [] then |log.restore| - 1 else |log.restore|
  }

  /** The first `n` keys are as they were in `s`. */
  predicate KeysBack(s: Store, back: Store, keys: seq<string>, n: nat) {
    n <= |keys| && forall k | k in keys[..n] :: Get(back, k) == Get(s, k)
  }

  lemma {:induction false} WrittenTouches(s: Store, writes: Snapshot, faults: Faults, t: nat, n: nat, k: string)
    requires n <= |writes| && forall i | 0 <= i < |writes| :: writes[i].0 != k
    ensures Get(Written(s, writes, faults, t, n), k) == Get(s, k)
  {
    if n > 0 {
      WrittenTouches(s, writes, faults, t, n - 1, k);
      PutGet(Written(s, writes, faults, t, n - 1), writes[n - 1].0, writes[n - 1].1, k);
    }
  }

  /** The body changes no key but those it overrides. */
  lemma BodyTouches(faults: Faults, t: nat, run: Run, s: Store, first: nat, n: nat, k: string)
    requires k !in Targets(run.overrides)
    ensures Get(StoreAfter(faults, t, run, s, first, n), k) == Get(s, k)
  {
    var writes := OverrideWrites(run.overrides);
    forall i | 0 <= i < |writes| ensures writes[i].0 != k {
      assert Targets(run.overrides)[i] == run.overrides[i].0;
    }
    if !run.skipConfig && n > first {
      WrittenTouches(s, writes, faults, t + first, if n - first <= |writes| then n - first else |writes|, k);
    }
  }

  lemma DuringAgrees(faults: Faults, t: nat, run: Run, s: Store, keys: seq<string>)
    ensures var body := BodyOf(faults, t, run, s, keys);
            AgreeOutside(s, body.during, Targets(run.overrides)) && (body.snap.None? ==> body.during == s)
  {
    var body := BodyOf(faults, t, run, s, keys);
    forall k | k !in Targets(run.overrides) ensures Get(s, k) == Get(body.during, k) {
      BodyTouches(faults, t, run, s, |Reads(s, keys)| + 1, |body.steps|, k);
    }
    if body.snap.None? && !run.skipConfig {
      StoppedInReads(faults, t, Reads(s, keys), ConfigureSteps(run), WORK);
    }
  }

  /** If something in the first part is not fine, nothing after it is reached. */
  lemma StoppedInReads(faults: Faults, t: nat, p: seq<Step>, q: seq<Step>, r: seq<Step>)
    requires !AllFine(faults, t, |p|)
    ensures |Taken(faults, t, p + q + r)| <= |p|
  {
    Reassociate(p, q, r);
    TakenJoin(faults, t, p, q + r);
  }

  /**
   The configuration in the end. A restore that raises has brought back every key before the one it raised at; without
   an exception from the restore every key of the inventory is back, absent ones included, and if the run overrides no
   other key, the configuration is as it was.
   */
  lemma ConfigurationRestored(log: RunLog, faults: Faults, t: nat, run: Run, s: Store, keys: seq<string>)
    requires log == LogOf(faults, t, run, s, keys)
    ensures log.body.snap.Some? ==> KeysBack(s, FinalStore(log, faults, t), keys, Back(log))
    ensures log.restored.None? && log.body.snap.Some? ==> Back(log) == |keys|
    ensures log.restored.None? && (log.body.snap.None? || Covered(run.overrides, keys)) ==>
              FinalStore(log, faults, t) == s
  {
    DuringAgrees(faults, t, run, s, keys);
    FinishedFinishes(log.body, faults, t, run);
    if log.body.snap.Some? {
      BackFrom(log, faults, t, run, s, keys);
    }
  }

  /** With a snapshot of `s`, when the body has touched nothing but what it overrides. */
  lemma BackFrom(log: RunLog, faults: Faults, t: nat, run: Run, s: Store, keys: seq<string>)
    requires Finishes(log, faults, t, run) && log.body.snap == Some(SnapshotOf(s, keys))
    requires AgreeOutside(s, log.body.during, Targets(run.overrides))
    ensures KeysBack(s, FinalStore(log, faults, t), keys, Back(log))
    ensures log.restored.None? ==> Back(log) == |keys|
    ensures log.restored.None? && Covered(run.overrides, keys) ==> FinalStore(log, faults, t) == s
  {
    SnapshotPrefix(s, keys, 0);
    RestoreEnds(faults, RestoreTick(log, t), SnapshotOf(s, keys));
    RestoredFrom(log.body.during, s, run, keys, faults, RestoreTick(log, t));
  }

  /** A restore of the configuration `s`, from tick `t` on, when `during` has been left. */
  lemma RestoredFrom(during: Store, s: Store, run: Run, keys: seq<string>, faults: Faults, t: nat)
    requires AgreeOutside(s, during, Targets(run.overrides))
    ensures var n, fine := Reached(faults, t, |keys|), AllFine(faults, t, |keys|);
            var m := if fine || n == 0 then n else n - 1;
            && |SnapshotOf(s, keys)| == |keys|
            && KeysBack(s, Written(during, SnapshotOf(s, keys), faults, t, n), keys, m)
            && (fine && Covered(run.overrides, keys) ==> Written(during, SnapshotOf(s, keys), faults, t, n) == s)
  {
    SnapshotPrefix(s, keys, 0);
    ReachedMeans(faults, t, |keys|);
    var n, fine := Reached(faults, t, |keys|), AllFine(faults, t, |keys|);
    KeysAreBack(during, s, keys, faults, t, if fine then n else n - 1, n);
    if fine && Covered(run.overrides, keys) {
      CoveredAgrees(s, during, run.overrides, keys);
      WholeStoreIsBack(during, s, keys, faults, t);
    }
  }

  lemma KeysAreBack(during: Store, s: Store, keys: seq<string>, faults: Faults, t: nat, n: nat, m: nat)
    requires n <= m <= |keys| && m <= n + 1 && AllFine(faults, t, n) && |SnapshotOf(s, keys)| == |keys|
    ensures KeysBack(s, Written(during, SnapshotOf(s, keys), faults, t, m), keys, n)
  {
    forall k | k in keys[..n] ensures Get(Written(during, SnapshotOf(s, keys), faults, t, m), k) == Get(s, k) {
      RestoredSoFar(during, s, keys, faults, t, n, m, k);
    }
  }

  lemma WholeStoreIsBack(during: Store, s: Store, keys: seq<string>, faults: Faults, t: nat)
    requires |SnapshotOf(s, keys)| == |keys| && AllFine(faults, t, |keys|) && AgreeOutside(s, during, keys)
    ensures Written(during, SnapshotOf(s, keys), faults, t, |keys|) == s
  {
    var n := |keys|;
    assert keys[..n] == keys;
    forall k ensures Get(Written(during, SnapshotOf(s, keys), faults, t, n), k) == Get(s, k) {
      RestoredSoFar(during, s, keys, faults, t, n, n, k);
    }
    SameGets(Written(during, SnapshotOf(s, keys), faults, t, n), s);
  }

  lemma CoveredAgrees(s0: Store, s: Store, overrides: seq<(string, string)>, keys: seq<string>)
    requires AgreeOutside(s0, s, Targets(overrides)) && Covered(overrides, keys)
    ensures AgreeOutside(s0, s, keys)
  {
    forall k | k !in keys ensures Get(s0, k) == Get(s, k) {
      assert k !in Targets(overrides);
    }
  }

  lemma BodyCompletes(faults: Faults, t: nat, run: Run, s: Store, keys: seq<string>)
    ensures var body, planned := BodyOf(faults, t, run, s, keys), BodySteps(run, Reads(s, keys));
            && (body.exc.None? <==> AllFine(faults, t, |planned|))
            && (body.exc.None? ==> body.steps == planned && body.metrics)
            && (body.exc.None? && !run.skipConfig ==> body.snap == Some(SnapshotOf(s, keys)))
  {
    ReachedMeans(faults, t, |BodySteps(run, Reads(s, keys))|);
    BodyJoin(faults, t, run, s, Reads(s, keys));
    AllFineJoin(faults, t, |PrepareSteps(run, Reads(s, keys))|, |WORK|);
    AllFineJoin(faults, t + |PrepareSteps(run, Reads(s, keys))|, |SCORING|, |REPORTING|);
    if !run.skipConfig {
      AllFineJoin(faults, t, |Reads(s, keys)|, |ConfigureSteps(run)|);
    }
  }

  /**
   A run that returns normally has taken every step of its body, has written its metrics again after the cleanup, and
   has left the configuration as it was. An exception of the body or of the restore is never lost.
   */
  lemma ReturnMeansRestored(log: RunLog, faults: Faults, t: nat, run: Run, s: Store, keys: seq<string>)
    requires log == LogOf(faults, t, run, s, keys)
    ensures ResultOf(log, faults, t).None? ==>
              log.body.steps == BodySteps(run, Reads(s, keys)) && AllFine(faults, t, |log.body.steps|) && Rewrites(log)
    ensures ResultOf(log, faults, t).None? && (run.skipConfig || Covered(run.overrides, keys)) ==>
              FinalStore(log, faults, t) == s
    ensures log.restored.Some? ==> ResultOf(log, faults, t) == log.restored
  {
    BodyCompletes(faults, t, run, s, keys);
    ConfigurationRestored(log, faults, t, run, s, keys);
  }

  // ---- The configuration while the run works -----------------------------------------------------------------------

  /** Override `i` is the last one for its key. */
  predicate LastFor(overrides: seq<(string, string)>, i: nat) {
    i < |overrides| && forall j | i < j < |overrides| :: overrides[j].0 != overrides[i].0
  }

  lemma {:induction false} OverrideHolds(s: Store, overrides: seq<(string, string)>, faults: Faults, t: nat, n: nat,
                                         i: nat)
    requires LastFor(overrides, i) && i < n <= |overrides| && AllFine(faults, t, n)
    ensures Get(Written(s, OverrideWrites(overrides), faults, t, n), overrides[i].0) == Present(overrides[i].1)
  {
    var before := Written(s, OverrideWrites(overrides), faults, t, n - 1);
    assert At(faults, t + n - 1).Fine?;
    PutGet(before, overrides[n - 1].0, Present(overrides[n - 1].1), overrides[i].0);
    if i < n - 1 {
      OverrideHolds(s, overrides, faults, t, n - 1, i);
    }
  }

  /**
   Once any work of the run has been attempted, every override is in effect, and stays so through the whole cleanup:
   what is sent is sent, drained and purged under the safe configuration.
   */
  lemma SafeWhileWorking(body: BodyLog, faults: Faults, t: nat, run: Run, s: Store, keys: seq<string>, i: nat)
    requires body == BodyOf(faults, t, run, s, keys)
    requires !run.skipConfig && |body.steps| > |PrepareSteps(run, Reads(s, keys))| && LastFor(run.overrides, i)
    ensures Get(body.during, run.overrides[i].0) == Present(run.overrides[i].1)
  {
    OverrideAtWork(faults, t, run, s, Reads(s, keys), i);
  }

  lemma OverrideAtWork(faults: Faults, t: nat, run: Run, s: Store, rs: seq<Step>, i: nat)
    requires !run.skipConfig && LastFor(run.overrides, i)
    requires |Taken(faults, t, BodySteps(run, rs))| > |PrepareSteps(run, rs)|
    ensures Get(StoreAfter(faults, t, run, s, |rs| + 1, |Taken(faults, t, BodySteps(run, rs))|), run.overrides[i].0)
            == Present(run.overrides[i].1)
  {
    WorkMeansConfigured(faults, t, PrepareSteps(run, rs), |rs| + 1, |run.overrides|);
    OverrideInEffect(faults, t, run, s, |rs| + 1, |Taken(faults, t, BodySteps(run, rs))|, i);
  }

  lemma OverrideInEffect(faults: Faults, t: nat, run: Run, s: Store, first: nat, n: nat, i: nat)
    requires !run.skipConfig && n > first + |run.overrides| && LastFor(run.overrides, i)
    requires AllFine(faults, t + first, |run.overrides|)
    ensures Get(StoreAfter(faults, t, run, s, first, n), run.overrides[i].0) == Present(run.overrides[i].1)
  {
    OverrideHolds(s, run.overrides, faults, t + first, |run.overrides|, i);
  }

  lemma WorkMeansConfigured(faults: Faults, t: nat, prepare: seq<Step>, first: nat, n: nat)
    requires |prepare| == first + n && |Taken(faults, t, prepare + WORK)| > |prepare|
    ensures AllFine(faults, t + first, n)
  {
    TakenJoin(faults, t, prepare, WORK);
    AllFineJoin(faults, t, first, n);
  }

  // ---- The order of a run ------------------------------------------------------------------------------------------

  lemma {:induction false} ReadsWriteNothing(s: Store, keys: seq<string>)
    ensures NoConfigWrite(Reads(s, keys))
  {
    if keys != [] {
      ReadsWriteNothing(s, keys[..|keys| - 1]);
    }
  }

  lemma NoRestoreJoin(a: seq<Step>, b: seq<Step>)
    requires NoRestore(a) && NoRestore(b)
    ensures NoRestore(a + b)
  {
  }

  lemma BodyNeverRestores(run: Run, s: Store, keys: seq<string>)
    ensures NoRestore(BodySteps(run, Reads(s, keys)))
  {
    ReadsWriteNothing(s, keys);
    NoRestoreJoin([Snapped], Overrides(run.overrides));
    NoRestoreJoin(Reads(s, keys), ConfigureSteps(run));
    NoRestoreJoin(SCORING, REPORTING);
    NoRestoreJoin(PrepareSteps(run, Reads(s, keys)), WORK);
  }

  lemma CleanupWritesNothing(faults: Faults, t: nat, run: Run)
    ensures NoConfigWrite(CleanupTaken(faults, t, run))
  {
    assert NoConfigWrite(CleanupSteps(run));
  }

  predicate OnlyRestores(steps: seq<Step>) {
    forall i | 0 <= i < |steps| :: steps[i].RestoreWrite?
  }

  lemma PartsWrite(log: RunLog, faults: Faults, t: nat, run: Run, s: Store, keys: seq<string>)
    requires log.body == BodyOf(faults, t, run, s, keys) && Finishes(log, faults, t, run)
    ensures NoRestore(log.body.steps) && NoConfigWrite(log.cleanup) && OnlyRestores(log.restore)
  {
    BodyNeverRestores(run, s, keys);
    CleanupWritesNothing(faults, CleanupTick(log, t), run);
  }

  /**
   Every restoring write comes after every override and after the whole cleanup; nothing writes after it but its kind.
   */
  lemma RestoreComesLast(log: RunLog, faults: Faults, t: nat, run: Run, s: Store, keys: seq<string>, i: nat, j: nat)
    requires log == LogOf(faults, t, run, s, keys)
    requires i < |TraceOf(log)| && j < |TraceOf(log)| && TraceOf(log)[i].RestoreWrite?
    ensures i >= |log.body.steps| + |log.cleanup|
    ensures TraceOf(log)[j].Override? || (|log.body.steps| <= j < |log.body.steps| + |log.cleanup|) ==> j < i
    ensures j > i && WritesConfig(TraceOf(log)[j]) ==> TraceOf(log)[j].RestoreWrite?
  {
    FinishedFinishes(BodyOf(faults, t, run, s, keys), faults, t, run);
    PartsWrite(log, faults, t, run, s, keys);
    PartsInOrder(log.body.steps, log.cleanup, log.restore, Again(log), i, j);
  }

  lemma PartsInOrder(body: seq<Step>, cleanup: seq<Step>, restore: seq<Step>, after: seq<Step>, i: nat, j: nat)
    requires NoRestore(body) && NoConfigWrite(cleanup) && NoConfigWrite(after)
    requires OnlyRestores(restore)
    requires i < |body + cleanup + restore + after| && j < |body + cleanup + restore + after|
    requires (body + cleanup + restore + after)[i].RestoreWrite?
    ensures i >= |body| + |cleanup|
    ensures (body + cleanup + restore + after)[j].Override? || (|body| <= j < |body| + |cleanup|) ==> j < i
    ensures j > i && WritesConfig((body + cleanup + restore + after)[j]) ==>
              (body + cleanup + restore + after)[j].RestoreWrite?
  {
    var b, c, r := |body|, |body| + |cleanup|, |body| + |cleanup| + |restore|;
    var trace := body + cleanup + restore + after;
    assert forall k | 0 <= k < b :: trace[k] == body[k];
    assert forall k | b <= k < c :: trace[k] == cleanup[k - b];
    assert forall k | c <= k < r :: trace[k] == restore[k - c];
    assert forall k | r <= k < |trace| :: trace[k] == after[k - r];
  }
}
