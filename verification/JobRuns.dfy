/**
 The life of video jobs as a state machine (video-worker/worker.py): submission, cancellation, the consumer that takes
 one job at a time, and the engine that reports progress and ends, all interleaved.
 */
module JobRuns {
  import opened Options

  datatype Status = Queued | InProgress | Completed | Failed | Cancelled

  datatype Job = Job(status: Status, cancel: bool, progress: real, step: int, totalSteps: int, error: Option<string>,
                     durationMs: Option<int>)

  const NEW_JOB := Job(Queued, false, 0.0, 0, 0, None, None)

  /** How the engine ends. */
  datatype Outcome = Result(durationMs: Option<int>) | RaisedCancelled | RaisedError(message: string)

  /**
   `submitted` and `started` are the history: all ids in order, and the positions among them that reached the engine.
   */
  datatype World = World(jobs: map<string, Job>, queue: seq<string>, current: Option<string>, submitted: seq<string>,
                         started: seq<nat>)

  datatype Event =
    | Submit(id: string)
    | RequestCancel(id: string)
    | Take
    | Progress(step: int, total: int)
    | Finish(outcome: Outcome)

  const Start := World(map[], [], None, [], [])

  // ---- One step ----------------------------------------------------------------------------------------------------

  /** Ids are fresh; the consumer waits for the engine; the engine acts on the current job only. */
  predicate Enabled(w: World, e: Event) {
    match e
    case Submit(id) => id !in w.jobs
    case RequestCancel(_) => true
    case Take => w.queue != [] && w.current.None?
    case Progress(_, _) => w.current.Some? && w.current.value in w.jobs
    case Finish(_) => w.current.Some? && w.current.value in w.jobs
  }

  function CancelJob(job: Job): Job {
    job.(cancel := true, status := if job.status == Queued then Cancelled else job.status)
  }

  /** The share of the steps that is done, in percent. */
  function Percent(step: int, total: int): real {
    if total != 0 then step as real / total as real * 100.0 else 0.0
  }

  const MESSAGE_LIMIT := 500

  /** How the job of an engine that ended this way is reported. */
  predicate Shows(job: Job, outcome: Outcome) {
    match outcome
    case Result(d) => job.status == Completed && job.durationMs == d && job.progress == 100.0
    case RaisedCancelled => job.status == Cancelled
    case RaisedError(m) =>
      && job.status == Failed && job.error.Some? && job.error.value <= m
      && (job.error.value == m || |job.error.value| == 500 < |m|)
  }

  function FinishJob(job: Job, outcome: Outcome): Job {
    match outcome
    case Result(d) => job.(durationMs := d, status := Completed, progress := 100.0)
    case RaisedCancelled => job.(status := Cancelled)
    case RaisedError(m) => job.(status := Failed, error := Some(if |m| > MESSAGE_LIMIT then m[..MESSAGE_LIMIT] else m))
  }

  /** The position of the head of the queue among all submissions. */
  function Taken(w: World): int {
    |w.submitted| - |w.queue|
  }

  function TakeJob(w: World): World
    requires w.queue != []
  {
    var id, w1 := w.queue[0], w.(queue := w.queue[1..]);
    if id !in w.jobs then w1
    else if w.jobs[id].cancel then
      var status := w.jobs[id].status;
      w1.(jobs := w.jobs[id := w.jobs[id].(status := if status == Queued then Cancelled else status)])
    else
      w1.(jobs := w.jobs[id := w.jobs[id].(status := InProgress)], current := Some(id),
          started := w.started + if Taken(w) >= 0 then [Taken(w)] else [])
  }

  function Apply(w: World, e: Event): World
    requires Enabled(w, e)
  {
    match e
    case Submit(id) => w.(jobs := w.jobs[id := NEW_JOB], queue := w.queue + [id], submitted := w.submitted + [id])
    case RequestCancel(id) => if id in w.jobs then w.(jobs := w.jobs[id := CancelJob(w.jobs[id])]) else w
    case Take => TakeJob(w)
    case Progress(step, total) =>
      var id := w.current.value;
      w.(jobs := w.jobs[id := w.jobs[id].(step := step, totalSteps := total, progress := Percent(step, total))])
    case Finish(outcome) =>
      var id := w.current.value;
      w.(jobs := w.jobs[id := FinishJob(w.jobs[id], outcome)], current := None)
  }

  // ---- What every reachable state satisfies ------------------------------------------------------------------------

  predicate Terminal(s: Status) {
    s in {Completed, Failed, Cancelled}
  }

  /** Every id was submitted once, and every submitted id has its job. */
  ghost predicate Registered(w: World) {
    && (forall i, j | 0 <= i < j < |w.submitted| :: w.submitted[i] != w.submitted[j])
    && (forall k | 0 <= k < |w.submitted| :: w.submitted[k] in w.jobs)
    && (forall id | id in w.jobs :: id in w.submitted)
  }

  /** The queue holds the latest submissions, in order. */
  predicate InOrder(w: World) {
    Taken(w) >= 0 && w.queue == w.submitted[Taken(w)..]
  }

  /**
   The job at position `k`: still in the queue, or taken and started, or taken and skipped because it was cancelled.
   */
  predicate Placed(job: Job, k: int, taken: int, started: seq<nat>, isCurrent: bool) {
    && (job.status == InProgress <==> isCurrent)
    && (k >= taken ==> job.status in {Queued, Cancelled} && (job.status == Cancelled <==> job.cancel))
    && (k < taken ==> job.status != Queued)
    && (k in started ==> k < taken)
    && (k < taken && k !in started ==> job.status == Cancelled)
  }

  ghost predicate AllPlaced(w: World)
    requires Registered(w)
  {
    forall k | 0 <= k < |w.submitted| ::
      Placed(w.jobs[w.submitted[k]], k, Taken(w), w.started, w.current == Some(w.submitted[k]))
  }

  predicate Increasing(s: seq<nat>) {
    forall i, j | 0 <= i < j < |s| :: s[i] < s[j]
  }

  predicate Below(s: seq<nat>, n: int) {
    forall i | 0 <= i < |s| :: s[i] < n
  }

  ghost predicate Good(w: World) {
    && Registered(w) && InOrder(w) && AllPlaced(w) && Increasing(w.started) && Below(w.started, Taken(w))
    && (w.current.Some? ==> w.current.value in w.submitted)
  }

  lemma StartIsGood()
    ensures Good(Start)
  {
  }

  /** Changing the job of one id leaves the registry as it is. */
  lemma ReplaceJob(w: World, id: string, job: Job)
    requires Registered(w) && id in w.jobs
    ensures Registered(w.(jobs := w.jobs[id := job]))
  {
  }

  lemma SubmitIsGood(w: World, id: string)
    requires Good(w) && id !in w.jobs
    ensures Good(Apply(w, Submit(id)))
  {
    var w1 := Apply(w, Submit(id));
    assert Taken(w1) == Taken(w);
    assert w1.submitted[Taken(w)..] == w.submitted[Taken(w)..] + [id];
    forall k | 0 <= k < |w1.submitted| ensures w1.submitted[k] in w1.jobs
    {
    }
    forall i | i in w1.jobs ensures i in w1.submitted {
      assert i == id ==> w1.submitted[|w.submitted|] == id;
    }
    assert w.current != Some(id);
    assert |w.submitted| !in w.started;
  }

  lemma CancelIsGood(w: World, id: string)
    requires Good(w)
    ensures Good(Apply(w, RequestCancel(id)))
  {
    if id in w.jobs {
      ReplaceJob(w, id, CancelJob(w.jobs[id]));
    }
  }

  lemma ProgressIsGood(w: World, step: int, total: int)
    requires Good(w) && Enabled(w, Progress(step, total))
    ensures Good(Apply(w, Progress(step, total)))
  {
    var id := w.current.value;
    ReplaceJob(w, id, w.jobs[id].(step := step, totalSteps := total, progress := Percent(step, total)));
  }

  lemma FinishIsGood(w: World, outcome: Outcome)
    requires Good(w) && Enabled(w, Finish(outcome))
    ensures Good(Apply(w, Finish(outcome)))
  {
    var id := w.current.value;
    EndCurrent(w, w.jobs[id := FinishJob(w.jobs[id], outcome)], outcome);
  }

  /** The current job has ended in `jobs`, and no other has changed. */
  lemma EndCurrent(w: World, jobs: map<string, Job>, outcome: Outcome)
    requires Registered(w) && AllPlaced(w) && w.current.Some? && w.current.value in w.jobs
    requires jobs == w.jobs[w.current.value := FinishJob(w.jobs[w.current.value], outcome)]
    ensures Registered(w.(jobs := jobs, current := None)) && AllPlaced(w.(jobs := jobs, current := None))
  {
    var id, w1 := w.current.value, w.(jobs := jobs, current := None);
    ReplaceJob(w, id, jobs[id]);
    forall k | 0 <= k < |w.submitted|
      ensures Placed(jobs[w.submitted[k]], k, Taken(w), w.started, w1.current == Some(w.submitted[k]))
    {
      assert Placed(w.jobs[w.submitted[k]], k, Taken(w), w.started, w.current == Some(w.submitted[k]));
      if w.submitted[k] == id {
        FinishPlaced(w.jobs[id], k, Taken(w), w.started, outcome);
      }
    }
  }

  lemma FinishPlaced(job: Job, k: int, taken: int, started: seq<nat>, outcome: Outcome)
    requires Placed(job, k, taken, started, true)
    ensures Placed(FinishJob(job, outcome), k, taken, started, false)
  {
  }

  /** Taking position `p` moves no other job. */
  lemma OthersStayPlaced(job: Job, k: int, p: int, started: seq<nat>, started1: seq<nat>)
    requires Placed(job, k, p, started, false) && k != p && (k in started <==> k in started1)
    ensures Placed(job, k, p + 1, started1, false)
  {
  }

  /** The head of the queue of a good world, before and after it is taken. */
  lemma Head(w: World)
    requires Good(w) && Enabled(w, Take)
    ensures var p, id := Taken(w), w.queue[0];
            && 0 <= p < |w.submitted| && w.submitted[p] == id && id in w.jobs && p !in w.started
            && w.queue[1..] == w.submitted[p + 1..]
            && Placed(w.jobs[id], p, p, w.started, false)
            && forall k | 0 <= k < |w.submitted| && k != p ::
                 w.submitted[k] != id && Placed(w.jobs[w.submitted[k]], k, p, w.started, false)
  {
    var p, id := Taken(w), w.queue[0];
    assert w.submitted[p] == id;
    assert Placed(w.jobs[id], p, p, w.started, w.current == Some(id));
    forall k | 0 <= k < |w.submitted| && k != p
      ensures w.submitted[k] != id && Placed(w.jobs[w.submitted[k]], k, p, w.started, false)
    {
      assert Placed(w.jobs[w.submitted[k]], k, p, w.started, w.current == Some(w.submitted[k]));
    }
  }

  lemma SkipIsGood(w: World)
    requires Good(w) && Enabled(w, Take) && w.queue[0] in w.jobs && w.jobs[w.queue[0]].cancel
    ensures Good(Apply(w, Take)) && Apply(w, Take) == w.(queue := w.queue[1..])
  {
    Head(w);
    var p, id := Taken(w), w.queue[0];
    assert w.jobs == w.jobs[id := w.jobs[id]];
    forall k | 0 <= k < |w.submitted| ensures Placed(w.jobs[w.submitted[k]], k, p + 1, w.started, false) {
      if k != p {
        OthersStayPlaced(w.jobs[w.submitted[k]], k, p, w.started, w.started);
      }
    }
  }

  lemma StartIsOrdered(started: seq<nat>, p: nat)
    requires Increasing(started) && Below(started, p)
    ensures Increasing(started + [p]) && Below(started + [p], p + 1)
    ensures forall k: nat :: k in started + [p] <==> k in started || k == p
  {
  }

  lemma BeginIsGood(w: World)
    requires Good(w) && Enabled(w, Take) && w.queue[0] in w.jobs && !w.jobs[w.queue[0]].cancel
    ensures Good(Apply(w, Take))
    ensures w.jobs[w.queue[0]].status == Queued
  {
    Head(w);
    var w1, p, id := Apply(w, Take), Taken(w), w.queue[0];
    StartIsOrdered(w.started, p);
    ReplaceJob(w, id, w1.jobs[id]);
    BeginPlaced(w, p, id, w1.jobs);
  }

  /** Position `p`, the job `id`, has been started in `jobs`, and no other job has changed. */
  lemma BeginPlaced(w: World, p: nat, id: string, jobs: map<string, Job>)
    requires p < |w.submitted| && w.submitted[p] == id && id in w.jobs && p !in w.started
    requires forall k | 0 <= k < |w.submitted| :: w.submitted[k] in w.jobs
    requires Placed(w.jobs[id], p, p, w.started, false) && !w.jobs[id].cancel
    requires forall k | 0 <= k < |w.submitted| && k != p ::
               w.submitted[k] != id && Placed(w.jobs[w.submitted[k]], k, p, w.started, false)
    requires jobs == w.jobs[id := w.jobs[id].(status := InProgress)]
    ensures forall k | 0 <= k < |w.submitted| ::
              Placed(jobs[w.submitted[k]], k, p + 1, w.started + [p], Some(id) == Some(w.submitted[k]))
  {
    forall k | 0 <= k < |w.submitted|
      ensures Placed(jobs[w.submitted[k]], k, p + 1, w.started + [p], Some(id) == Some(w.submitted[k]))
    {
      if k != p {
        OthersStayPlaced(w.jobs[w.submitted[k]], k, p, w.started, w.started + [p]);
      }
    }
  }

  lemma TakeIsGood(w: World)
    requires Good(w) && Enabled(w, Take)
    ensures Good(Apply(w, Take))
  {
    Head(w);
    if w.jobs[w.queue[0]].cancel {
      SkipIsGood(w);
    } else {
      BeginIsGood(w);
    }
  }

  lemma StepIsGood(w: World, e: Event)
    requires Good(w) && Enabled(w, e)
    ensures Good(Apply(w, e))
  {
    match e
    case Submit(id) => SubmitIsGood(w, id);
    case RequestCancel(id) => CancelIsGood(w, id);
    case Take => TakeIsGood(w);
    case Progress(step, total) => ProgressIsGood(w, step, total);
    case Finish(outcome) => FinishIsGood(w, outcome);
  }

  // ---- Runs --------------------------------------------------------------------------------------------------------

  predicate IsRun(w: World, events: seq<Event>)
    decreases |events|
  {
    events == [] || (Enabled(w, events[0]) && IsRun(Apply(w, events[0]), events[1..]))
  }

  function After(w: World, events: seq<Event>): World
    requires IsRun(w, events)
    decreases |events|
  {
    if events == [] then w else After(Apply(w, events[0]), events[1..])
  }

  /** Whatever the interleaving, every state keeps the invariant. */
  lemma {:induction false} RunsAreGood(w: World, events: seq<Event>)
    requires Good(w) && IsRun(w, events)
    ensures Good(After(w, events))
    decreases |events|
  {
    if events != [] {
      StepIsGood(w, events[0]);
      RunsAreGood(Apply(w, events[0]), events[1..]);
    }
  }

  /** What the invariant says in the worker's own terms. */
  lemma AtMostOneInProgress(w: World, id: string, id1: string)
    requires Good(w) && id in w.jobs && id1 in w.jobs
    ensures w.jobs[id].status == InProgress <==> w.current == Some(id)
    ensures w.jobs[id].status == InProgress && w.jobs[id1].status == InProgress ==> id == id1
  {
    var k :| 0 <= k < |w.submitted| && w.submitted[k] == id;
    assert Placed(w.jobs[w.submitted[k]], k, Taken(w), w.started, w.current == Some(w.submitted[k]));
    var k1 :| 0 <= k1 < |w.submitted| && w.submitted[k1] == id1;
    assert Placed(w.jobs[w.submitted[k1]], k1, Taken(w), w.started, w.current == Some(w.submitted[k1]));
  }

  /** A queued job stands in the queue exactly once; the other jobs in the queue have been cancelled. */
  lemma QueuedExactlyOnce(w: World, id: string)
    requires Good(w) && id in w.jobs
    ensures w.jobs[id].status == Queued ==> exists i :: 0 <= i < |w.queue| && w.queue[i] == id
    ensures forall i, j | 0 <= i < |w.queue| && 0 <= j < |w.queue| && w.queue[i] == id && w.queue[j] == id :: i == j
    ensures id in w.queue ==> w.jobs[id].status in {Queued, Cancelled}
  {
    var k :| 0 <= k < |w.submitted| && w.submitted[k] == id;
    var p := Taken(w);
    assert Placed(w.jobs[w.submitted[k]], k, p, w.started, w.current == Some(w.submitted[k]));
    forall i | 0 <= i < |w.queue| && w.queue[i] == id ensures i == k - p {
      assert w.submitted[p + i] == id;
    }
    if k >= p {
      assert w.queue[k - p] == id;
    }
  }

  /** Jobs reach the engine in submission order, each at most once. */
  lemma StartsInSubmissionOrder(events: seq<Event>)
    requires IsRun(Start, events)
    ensures var w := After(Start, events);
            && Increasing(w.started)
            && forall i | 0 <= i < |w.started| :: w.started[i] < |w.submitted| - |w.queue|
  {
    StartIsGood();
    RunsAreGood(Start, events);
  }

  /** When nothing is queued or running, every job has ended. */
  lemma QuietMeansDone(w: World, id: string)
    requires Good(w) && w.queue == [] && w.current == None && id in w.jobs
    ensures Terminal(w.jobs[id].status)
  {
    var k :| 0 <= k < |w.submitted| && w.submitted[k] == id;
    assert Placed(w.jobs[w.submitted[k]], k, Taken(w), w.started, w.current == Some(w.submitted[k]));
  }

  /** The job of `id` and whether it has reached the engine. */
  predicate ReachedEngine(w: World, id: string) {
    exists i | 0 <= i < |w.started| :: w.started[i] < |w.submitted| && w.submitted[w.started[i]] == id
  }

  /** `job1` is `job`, except that a cancellation may have been requested in vain. */
  predicate SameResult(job: Job, job1: Job) {
    job1.(cancel := job.cancel) == job
  }

  lemma TerminalStep(w: World, e: Event, id: string)
    requires Good(w) && Enabled(w, e) && id in w.jobs && Terminal(w.jobs[id].status)
    ensures id in Apply(w, e).jobs && SameResult(w.jobs[id], Apply(w, e).jobs[id])
    ensures ReachedEngine(Apply(w, e), id) <==> ReachedEngine(w, id)
  {
    AtMostOneInProgress(w, id, id);
    match e
    case Take =>
      Head(w);
      assert w.queue[0] == id ==> w.jobs[id].cancel;
      TakeReaches(w, id);
    case Submit(_) => SubmitReaches(w, e, id);
    case _ =>
  }

  lemma TakeReaches(w: World, id: string)
    requires Good(w) && Enabled(w, Take)
    requires w.queue[0] == id ==> id in w.jobs && w.jobs[id].cancel
    ensures ReachedEngine(Apply(w, Take), id) <==> ReachedEngine(w, id)
  {
    Head(w);
    var w1 := Apply(w, Take);
    if w1.started != w.started {
      assert w1.started == w.started + [Taken(w)];
      if i :| 0 <= i < |w.started| && w.started[i] < |w.submitted| && w.submitted[w.started[i]] == id {
        assert w1.started[i] == w.started[i];
      }
    }
  }

  lemma SubmitReaches(w: World, e: Event, id: string)
    requires Good(w) && Enabled(w, e) && e.Submit?
    ensures ReachedEngine(Apply(w, e), id) <==> ReachedEngine(w, id)
  {
    forall i | 0 <= i < |w.started| ensures w.started[i] < |w.submitted| {
      assert w.started[i] in w.started;
    }
  }

  /** Completed, failed and cancelled are final: the job keeps its result, and is not started again. */
  lemma {:induction false} TerminalForever(w: World, events: seq<Event>, id: string)
    requires Good(w) && IsRun(w, events) && id in w.jobs && Terminal(w.jobs[id].status)
    ensures id in After(w, events).jobs && SameResult(w.jobs[id], After(w, events).jobs[id])
    ensures ReachedEngine(After(w, events), id) <==> ReachedEngine(w, id)
    decreases |events|
  {
    if events != [] {
      TerminalStep(w, events[0], id);
      StepIsGood(w, events[0]);
      TerminalForever(Apply(w, events[0]), events[1..], id);
    }
  }

  /** A job in the queue has not reached the engine. */
  lemma QueuedNotStarted(w: World, id: string)
    requires Good(w) && id in w.queue
    ensures !ReachedEngine(w, id)
  {
    forall i | 0 <= i < |w.started| && w.started[i] < |w.submitted| ensures w.submitted[w.started[i]] != id {
      var j :| 0 <= j < |w.queue| && w.queue[j] == id;
      assert w.submitted[Taken(w) + j] == id;
    }
  }

  /** A job cancelled while it is queued never reaches the engine, whatever happens afterwards. */
  lemma CancelledInQueueNeverRuns(w: World, id: string, events: seq<Event>)
    requires Good(w) && id in w.jobs && w.jobs[id].status == Queued
    requires IsRun(Apply(w, RequestCancel(id)), events)
    ensures var w1 := After(Apply(w, RequestCancel(id)), events);
            id in w1.jobs && w1.jobs[id].status == Cancelled && !ReachedEngine(w1, id)
  {
    QueuedExactlyOnce(w, id);
    StepIsGood(w, RequestCancel(id));
    QueuedNotStarted(Apply(w, RequestCancel(id)), id);
    TerminalForever(Apply(w, RequestCancel(id)), events, id);
  }

  /** The next job to start is the first in the queue that has not been cancelled. */
  lemma TakesFirstUncancelled(w: World)
    requires Good(w) && Enabled(w, Take)
    ensures var id := w.queue[0];
            && id in w.jobs
            && (w.jobs[id].cancel ==> Apply(w, Take) == w.(queue := w.queue[1..]))
            && (!w.jobs[id].cancel ==>
                  Apply(w, Take).current == Some(id) && Apply(w, Take).jobs[id].status == InProgress
                  && w.jobs[id].status == Queued)
  {
    Head(w);
    if w.jobs[w.queue[0]].cancel {
      SkipIsGood(w);
    } else {
      BeginIsGood(w);
    }
  }

  // ---- The mock engine ---------------------------------------------------------------------------------------------

  const MOCK_STEPS := 12

  function Trunc(x: real): int {
    if x >= 0.0 then x.Floor else -((-x).Floor)
  }

  function MockProgress(n: nat): seq<(int, int)> {
    if n == 0 then [] else MockProgress(n - 1) + [(n, MOCK_STEPS)]
  }

  /**
   `MockEngine.generate`: `cancelled(k)` is what `should_cancel` answers before step `k`. The first positive answer ends
   the run after exactly the steps before it; a run that gets none reports all steps, and ends with the duration unless
   writing the output file fails, with the message `failure`.
   */
  method MockGenerate(cancelled: int -> bool, failure: Option<string>, seconds: real)
    returns (progress: seq<(int, int)>, outcome: Outcome)
    ensures forall k | 1 <= k <= MOCK_STEPS && cancelled(k) && (forall j | 1 <= j < k :: !cancelled(j)) ::
              outcome == RaisedCancelled && progress == MockProgress(k - 1)
    ensures (forall k | 1 <= k <= MOCK_STEPS :: !cancelled(k)) ==>
              && progress == MockProgress(MOCK_STEPS)
              && outcome == if failure.Some? then RaisedError(failure.value) else Result(Some(Trunc(seconds * 1000.0)))
  {
    progress := [];
    for step := 1 to MOCK_STEPS + 1
      invariant progress == MockProgress(step - 1)
      invariant forall j | 1 <= j < step :: !cancelled(j)
    {
      if cancelled(step) {
        return progress, RaisedCancelled;
      }
      progress := progress + [(step, MOCK_STEPS)];
    }
    if failure.Some? {
      return progress, RaisedError(failure.value);
    }
    outcome := Result(Some(Trunc(seconds * 1000.0)));
  }
}
