/**
 How jobs end, over whole runs of the worker: the status of a job tells how its engine ended, or that it was cancelled
 in the queue, and nothing else does.
 */
module JobOutcomes {
  import opened Options
  import opened JobRuns

  // ---- Runs, event by event ----------------------------------------------------------------------------------------

  lemma {:induction false} RunPrefix(w: World, events: seq<Event>, n: nat)
    requires IsRun(w, events) && n <= |events|
    ensures IsRun(w, events[..n]) && IsRun(After(w, events[..n]), events[n..])
    ensures After(w, events) == After(After(w, events[..n]), events[n..])
    decreases n
  {
    if n == 0 {
      assert events[0..] == events;
    } else {
      RunPrefix(Apply(w, events[0]), events[1..], n - 1);
      assert events[..n][1..] == events[1..][..n - 1] && events[1..][n - 1..] == events[n..];
    }
  }

  /** The state after the first `n` events. */
  function StateAt(events: seq<Event>, n: nat): World
    requires IsRun(Start, events) && n <= |events|
  {
    RunPrefix(Start, events, n);
    After(Start, events[..n])
  }

  lemma StateIsGood(events: seq<Event>, n: nat)
    requires IsRun(Start, events) && n <= |events|
    ensures Good(StateAt(events, n))
  {
    RunPrefix(Start, events, n);
    StartIsGood();
    RunsAreGood(Start, events[..n]);
  }

  lemma NextState(events: seq<Event>, n: nat)
    requires IsRun(Start, events) && n < |events|
    ensures Enabled(StateAt(events, n), events[n])
    ensures StateAt(events, n + 1) == Apply(StateAt(events, n), events[n])
  {
    RunPrefix(Start, events, n);
    RunPrefix(Start, events, n + 1);
    RunPrefix(Start, events[..n + 1], n);
    assert events[..n + 1][..n] == events[..n] && events[..n + 1][n..] == [events[n]];
    assert events[n..][0] == events[n];
    var w := StateAt(events, n);
    assert After(w, [events[n]]) == After(Apply(w, events[n]), [events[n]][1..]);
  }

  lemma LastState(events: seq<Event>)
    requires IsRun(Start, events)
    ensures StateAt(events, |events|) == After(Start, events)
  {
    assert events[..|events|] == events;
  }

  // ---- What ends a job ---------------------------------------------------------------------------------------------

  /** Event `n` is the end of the engine of job `id`. */
  ghost predicate EngineEnds(events: seq<Event>, n: nat, id: string, outcome: Outcome) {
    && IsRun(Start, events) && n < |events|
    && events[n] == Finish(outcome) && StateAt(events, n).current == Some(id)
  }

  /** Event `n` cancels job `id` while it is queued. */
  ghost predicate LeavesQueue(events: seq<Event>, n: nat, id: string) {
    && IsRun(Start, events) && n < |events|
    && events[n] == RequestCancel(id)
    && id in StateAt(events, n).jobs && StateAt(events, n).jobs[id].status == Queued
  }

  /** Right after the engine has ended, its job shows how; no other job has changed, and none is current. */
  lemma FinishMeans(w: World, outcome: Outcome)
    requires Good(w) && Enabled(w, Finish(outcome))
    ensures
      var w1, id := Apply(w, Finish(outcome)), w.current.value;
      && w1.current == None && w1.jobs.Keys == w.jobs.Keys && Shows(w1.jobs[id], outcome)
      && (forall k | k in w.jobs && k != id :: w1.jobs[k] == w.jobs[k])
      && w1.queue == w.queue && w1.submitted == w.submitted && w1.started == w.started
  {
  }

  /** What a status shows: the end of the engine, or a cancellation in the queue, as event `n`. */
  ghost predicate Explains(events: seq<Event>, n: nat, id: string, status: Status) {
    match status
    case Completed => exists d :: EngineEnds(events, n, id, Result(d))
    case Failed => exists m :: EngineEnds(events, n, id, RaisedError(m))
    case Cancelled => EngineEnds(events, n, id, RaisedCancelled) || LeavesQueue(events, n, id)
    case _ => false
  }

  /** A job whose status becomes terminal does so by such an event. */
  lemma BecomesTerminal(w: World, e: Event, id: string)
    requires Good(w) && Enabled(w, e) && id in Apply(w, e).jobs && Terminal(Apply(w, e).jobs[id].status)
    requires id in w.jobs ==> !Terminal(w.jobs[id].status)
    ensures id in w.jobs
    ensures
      match Apply(w, e).jobs[id].status
      case Completed => w.current == Some(id) && e.Finish? && e.outcome.Result?
      case Failed => w.current == Some(id) && e.Finish? && e.outcome.RaisedError?
      case Cancelled =>
        (w.current == Some(id) && e.Finish? && e.outcome.RaisedCancelled?)
        || (e == RequestCancel(id) && w.jobs[id].status == Queued)
      case _ => true
  {
    if e.Take? {
      Head(w);
    }
  }

  lemma {:induction false} HasExplanation(events: seq<Event>, k: nat, id: string)
    requires IsRun(Start, events) && k <= |events|
    requires id in StateAt(events, k).jobs && Terminal(StateAt(events, k).jobs[id].status)
    ensures exists n: nat | n < k :: Explains(events, n, id, StateAt(events, k).jobs[id].status)
  {
    if k > 0 {
      var w, w1 := StateAt(events, k - 1), StateAt(events, k);
      NextState(events, k - 1);
      StateIsGood(events, k - 1);
      if id in w.jobs && Terminal(w.jobs[id].status) {
        TerminalStep(w, events[k - 1], id);
        HasExplanation(events, k - 1, id);
        var n: nat :| n < k - 1 && Explains(events, n, id, w.jobs[id].status);
        assert Explains(events, n, id, w1.jobs[id].status);
      } else {
        BecomesTerminal(w, events[k - 1], id);
        StepExplains(events, k - 1, id);
      }
    }
  }

  lemma StepExplains(events: seq<Event>, n: nat, id: string)
    requires IsRun(Start, events) && n < |events|
    requires id in StateAt(events, n).jobs && id in StateAt(events, n + 1).jobs
    requires
      var w, e, status := StateAt(events, n), events[n], StateAt(events, n + 1).jobs[id].status;
      || (status == Completed && w.current == Some(id) && e.Finish? && e.outcome.Result?)
      || (status == Failed && w.current == Some(id) && e.Finish? && e.outcome.RaisedError?)
      || (status == Cancelled && w.current == Some(id) && e.Finish? && e.outcome.RaisedCancelled?)
      || (status == Cancelled && e == RequestCancel(id) && w.jobs[id].status == Queued)
    ensures Explains(events, n, id, StateAt(events, n + 1).jobs[id].status)
  {
    var e := events[n];
    if e.Finish? {
      assert EngineEnds(events, n, id, e.outcome);
    }
  }

  // ---- Whole runs --------------------------------------------------------------------------------------------------

  /** However a run goes on, a job shows for ever how its engine ended. */
  lemma EngineDecides(events: seq<Event>, n: nat, id: string, outcome: Outcome)
    requires EngineEnds(events, n, id, outcome)
    ensures id in After(Start, events).jobs && Shows(After(Start, events).jobs[id], outcome)
  {
    var w := StateAt(events, n);
    StateIsGood(events, n);
    NextState(events, n);
    FinishMeans(w, outcome);
    StateIsGood(events, n + 1);
    RunPrefix(Start, events, n + 1);
    TerminalForever(StateAt(events, n + 1), events[n + 1..], id);
  }

  /** And a job that was cancelled in the queue is cancelled for ever. */
  lemma QueueDecides(events: seq<Event>, n: nat, id: string)
    requires LeavesQueue(events, n, id)
    ensures id in After(Start, events).jobs && After(Start, events).jobs[id].status == Cancelled
  {
    StateIsGood(events, n);
    NextState(events, n);
    RunPrefix(Start, events, n + 1);
    CancelledInQueueNeverRuns(StateAt(events, n), id, events[n + 1..]);
  }

  /**
   Over every run: a job is completed if and only if its engine returned, and then shows the duration that was
   returned; failed if and only if its engine raised, and then shows the message; and cancelled if and only if its
   engine was, or it was cancelled while it was queued.
   */
  lemma StatusMeans(events: seq<Event>, id: string)
    requires IsRun(Start, events) && id in After(Start, events).jobs
    ensures
      var status := After(Start, events).jobs[id].status;
      && (status == Completed <==> exists n: nat, d | n < |events| :: EngineEnds(events, n, id, Result(d)))
      && (status == Failed <==> exists n: nat, m | n < |events| :: EngineEnds(events, n, id, RaisedError(m)))
      && (status == Cancelled <==>
            || (exists n: nat | n < |events| :: EngineEnds(events, n, id, RaisedCancelled))
            || (exists n: nat | n < |events| :: LeavesQueue(events, n, id)))
  {
    var job := After(Start, events).jobs[id];
    LastState(events);
    if Terminal(job.status) {
      HasExplanation(events, |events|, id);
      var n: nat :| n < |events| && Explains(events, n, id, job.status);
    }
    forall n: nat, outcome | n < |events| && EngineEnds(events, n, id, outcome) ensures Shows(job, outcome) {
      EngineDecides(events, n, id, outcome);
    }
    forall n: nat | n < |events| && LeavesQueue(events, n, id) ensures job.status == Cancelled {
      QueueDecides(events, n, id);
    }
  }

  // ---- Requests and reports ----------------------------------------------------------------------------------------

  /** A cancellation marks the job, and takes effect at once only on a queued one; nothing else changes. */
  lemma CancelMeans(w: World, id: string)
    requires Good(w)
    ensures
      var w1 := Apply(w, RequestCancel(id));
      && w1.queue == w.queue && w1.current == w.current && w1.jobs.Keys == w.jobs.Keys
      && (forall k | k in w.jobs && k != id :: w1.jobs[k] == w.jobs[k])
      && (id in w.jobs ==>
            && w1.jobs[id].cancel
            && w1.jobs[id].status == (if w.jobs[id].status == Queued then Cancelled else w.jobs[id].status)
            && w1.jobs[id].progress == w.jobs[id].progress)
  {
  }

  /** A report shows the step and, when there are steps, the share that is done, so that all of them are 100 percent. */
  lemma ProgressMeans(w: World, step: int, total: int)
    requires Good(w) && Enabled(w, Progress(step, total))
    ensures
      var job := Apply(w, Progress(step, total)).jobs[w.current.value];
      && job.step == step && job.totalSteps == total && job.status == InProgress
      && (total != 0 ==> job.progress * total as real == 100.0 * step as real)
      && (total == 0 ==> job.progress == 0.0)
      && (step == total != 0 ==> job.progress == 100.0)
  {
    AtMostOneInProgress(w, w.current.value, w.current.value);
    if total != 0 {
      ShareOf(step as real, total as real);
    }
  }

  lemma ShareOf(a: real, b: real)
    requires b != 0.0
    ensures a / b * 100.0 * b == 100.0 * a && (a == b ==> a / b * 100.0 == 100.0)
  {
    assert a / b * b == a;
  }
}
