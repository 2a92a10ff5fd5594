/**
 The objects of video-worker/worker.py: jobs and their manager. Each method is one stretch of code between two awaits,
 and is one event of the state machine in `JobRuns`. Timestamps, job specifications and files are left out.
 */
module VideoWorker {
  import opened Options
  import Runs = JobRuns
  import opened JobRuns

  class VideoJob {
    const id: string
    var status: Status
    var cancel: bool
    var progress: real
    var step: int
    var totalSteps: int
    var error: Option<string>
    var durationMs: Option<int>

    ghost function View(): Runs.Job
      reads this
    {
      Runs.Job(status, cancel, progress, step, totalSteps, error, durationMs)
    }

    constructor (id: string)
      ensures this.id == id && View() == NEW_JOB
    {
      this.id, status, cancel, progress, step, totalSteps, error, durationMs :=
        id, Queued, false, 0.0, 0, 0, None, None;
    }

    /** The job as the engine has left it. */
    method End(outcome: Outcome)
      modifies this
      ensures View() == FinishJob(old(View()), outcome) && Shows(View(), outcome)
    {
      match outcome {
        case Result(d) =>
          durationMs, status, progress := d, Completed, 100.0;
        case RaisedCancelled =>
          status := Cancelled;
        case RaisedError(message) =>
          status, error := Failed, Some(if |message| > MESSAGE_LIMIT then message[..MESSAGE_LIMIT] else message);
      }
    }
  }

  class JobManager {
    var jobs: map<string, VideoJob>
    var queue: seq<string>
    var current: Option<string>
    ghost var submitted: seq<string>
    ghost var started: seq<nat>

    /** A job is registered under its own id. */
    ghost predicate Valid()
      reads this
    {
      forall id | id in jobs :: jobs[id].id == id
    }

    ghost function View(): World
      reads this, jobs.Values
    {
      World(map id | id in jobs :: jobs[id].View(), queue, current, submitted, started)
    }

    constructor ()
      ensures Valid() && View() == Start
    {
      jobs, queue, current, submitted, started := map[], [], None, [], [];
    }

    /** `id` is fresh, as random ids are taken to be. */
    method Submit(id: string) returns (job: VideoJob)
      requires Valid() && id !in jobs
      modifies this
      ensures Valid() && fresh(job) && jobs == old(jobs)[id := job]
      ensures View() == Apply(old(View()), Event.Submit(id))
    {
      job := new VideoJob(id);
      jobs, queue := jobs[id := job], queue + [id];
      submitted := submitted + [id];
    }

    method RequestCancel(id: string) returns (found: bool)
      requires Valid()
      modifies jobs.Values
      ensures Valid() && found == (id in jobs)
      ensures View() == Apply(old(View()), Event.RequestCancel(id))
    {
      if id !in jobs {
        return false;
      }
      var job := jobs[id];
      job.cancel := true;
      if job.status == Queued {
        job.status := Cancelled;
      }
      found := true;
    }

    /** One iteration of the consumer, up to where it awaits the engine; the job if one is to run. */
    method TakeNext() returns (job: VideoJob?)
      requires Valid() && queue != [] && current.None?
      modifies this, jobs.Values
      ensures Valid() && jobs == old(jobs)
      ensures View() == Apply(old(View()), Take)
      ensures job != null <==> current.Some?
      ensures job != null ==> job.id in jobs && jobs[job.id] == job && current == Some(job.id)
    {
      ghost var w := View();
      var id := queue[0];
      queue, job := queue[1..], null;
      if id !in jobs {
        return;
      }
      if jobs[id].cancel {
        if jobs[id].status == Queued {
          jobs[id].status := Cancelled;
        }
        assert View().jobs == w.jobs[id := jobs[id].View()];
        return;
      }
      job := jobs[id];
      current, job.status := Some(id), InProgress;
      started := started + if Taken(w) >= 0 then [Taken(w)] else [];
      assert View().jobs == w.jobs[id := job.View()];
    }

    /** The engine's callback. */
    method ReportProgress(job: VideoJob, step: int, total: int)
      requires Valid() && current == Some(job.id) && job.id in jobs && jobs[job.id] == job
      modifies job
      ensures Valid() && View() == Apply(old(View()), Progress(step, total))
    {
      job.step, job.totalSteps, job.progress := step, total, Percent(step, total);
    }

    /** The rest of `_run` once the engine has ended. */
    method EndRun(job: VideoJob, outcome: Outcome)
      requires Valid() && current == Some(job.id) && job.id in jobs && jobs[job.id] == job
      modifies this, job
      ensures Valid() && jobs == old(jobs) && View() == Apply(old(View()), Finish(outcome))
      ensures current == None && Shows(job.View(), outcome)
    {
      job.End(outcome);
      current := None;
      assert View().jobs == old(View()).jobs[job.id := FinishJob(old(job.View()), outcome)];
    }
  }
}
