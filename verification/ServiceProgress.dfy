/**
 Progress of the batcher, and how its events fit the specifications of a batch and of a submission
 (dlp_service/server.py).
 */
module ServiceProgress {
  import opened Options
  import opened Arithmetic
  import opened Batching
  import opened BatchingLaws
  import opened ServiceRuns
  import Routing

  // ---- How far a request is from the end of its batch --------------------------------------------------------------

  /** An event of replica `i` itself. */
  predicate IsOwn(e: Event, i: nat) {
    match e
    case TakeFirst(j) => i == j
    case TakeNext(j) => i == j
    case CloseWindow(j) => i == j
    case LoadFailed(j, _) => i == j
    case Loaded(j) => i == j
    case CallReturned(j, _, _) => i == j
    case _ => false
  }

  /** How many events the replica needs at most until its current batch, which may still grow, is over. */
  function StageSteps(cfg: Config, stage: Stage): nat {
    match stage
    case Idle => 0
    case Collecting(batch) => 2 + BatchLimit(cfg) + if |batch| <= BatchLimit(cfg) then BatchLimit(cfg) - |batch| else 0
    case Loading(batch) => 1 + |batch|
    case Calling(batch, next) => if next < |Keys(batch, Self)| then |Keys(batch, Self)| - next else 0
  }

  /** What each request in the queue up to `r` adds, `one` being what a whole batch may take. */
  function QueueSteps(queue: seq<Req>, r: Req, one: nat): nat {
    if r !in queue then 0
    else if queue[0] == r then one
    else one + QueueSteps(queue[1..], r, one)
  }

  function OneBatch(cfg: Config): nat {
    2 + 2 * BatchLimit(cfg)
  }

  /** How many events of its replica a request is at most away from the end of its batch. */
  function Steps(cfg: Config, rep: Replica, r: Req): nat {
    QueueSteps(rep.queue, r, OneBatch(cfg)) + StageSteps(cfg, rep.stage)
  }

  /** Replica `i` has `r`, in its queue or in its batch. */
  predicate IsAt(s: System, i: nat, r: Req) {
    i < |s.replicas| && (r in s.replicas[i].queue || r in BatchOf(s.replicas[i].stage))
  }

  lemma {:induction false} KeysBounded(batch: seq<Req>)
    ensures |Keys(batch, Self)| <= |batch|
  {
    if batch != [] {
      KeysBounded(batch[..|batch| - 1]);
    }
  }

  lemma {:induction false} QueueAppends(queue: seq<Req>, q: Req, r: Req, one: nat)
    requires r in queue
    ensures QueueSteps(queue + [q], r, one) == QueueSteps(queue, r, one)
  {
    assert (queue + [q])[0] == queue[0];
    if queue[0] != r {
      assert queue == [queue[0]] + queue[1..];
      assert (queue + [q])[1..] == queue[1..] + [q];
      QueueAppends(queue[1..], q, r, one);
    }
  }

  /** Never more than all that wait. */
  lemma {:induction false} QueueBounded(queue: seq<Req>, r: Req, one: nat)
    ensures QueueSteps(queue, r, one) <= |queue| * one
  {
    if r in queue && queue[0] != r {
      QueueBounded(queue[1..], r, one);
      OneMore(|queue| - 1, one);
    } else {
      TimesOrder(if queue == [] then 0 else 1, |queue|, one);
    }
  }

  lemma OneMore(n: nat, one: nat)
    ensures (n + 1) * one == n * one + one
  {
  }

  /** A request waits in one place only. */
  lemma OnePlace(s: System, i: nat, r: Req)
    requires Conserved(s, r) && i < |s.replicas|
    ensures r in BatchOf(s.replicas[i].stage) ==> r !in s.replicas[i].queue
    ensures s.replicas[i].queue != [] && s.replicas[i].queue[0] == r ==> r !in s.replicas[i].queue[1..]
  {
    var queue := s.replicas[i].queue;
    HeldAtLeast(s.replicas, i, r);
    CountIsMembership(queue, r);
    CountIsMembership(BatchOf(s.replicas[i].stage), r);
    if queue != [] {
      assert queue == [queue[0]] + queue[1..];
      CountConcat([queue[0]], queue[1..], r);
      CountIsMembership([queue[0]], r);
      CountIsMembership(queue[1..], r);
    }
  }

  // ---- Progress ----------------------------------------------------------------------------------------------------

  /** A replica that has a request can always move. */
  lemma CanMove(cfg: Config, s: System, i: nat, r: Req) returns (e: Event)
    requires Safe(cfg, s) && IsAt(s, i, r)
    ensures Enabled(cfg, s, e) && IsOwn(e, i)
  {
    HeldIsAccepted(s, i);
    match s.replicas[i].stage
    case Idle => e := TakeFirst(i);
    case Collecting(_) => e := CloseWindow(i);
    case Loading(_) => e := Loaded(i);
    case Calling(_, _) =>
      assert Fits(cfg, s.replicas[i]);
      e := CallReturned(i, Raised(""), Clock(0.0, 0.0));
  }

  /** The request has come nearer to the end of its batch, or the batch is over. */
  predicate Nearer(cfg: Config, s: System, s1: System, i: nat, r: Req) {
    r in s1.retired
    || (IsAt(s1, i, r) && i < |s.replicas| && Steps(cfg, s1.replicas[i], r) < Steps(cfg, s.replicas[i], r))
  }

  lemma TakeNearer(cfg: Config, s: System, e: Event, i: nat, r: Req)
    requires Safe(cfg, s) && IsAt(s, i, r) && Enabled(cfg, s, e) && (e == TakeFirst(i) || e == TakeNext(i))
    ensures Nearer(cfg, s, Apply(cfg, s, e), i, r)
  {
    var queue, batch := s.replicas[i].queue, BatchOf(s.replicas[i].stage);
    var head, one := queue[0], OneBatch(cfg);
    OnePlace(s, i, r);
    assert Fits(cfg, s.replicas[i]);
    assert queue == [head] + queue[1..];
    assert head in batch + [head] && forall q | q in batch :: q in batch + [head];
    assert r in queue ==> QueueSteps(queue, r, one) == one + if head == r then 0 else QueueSteps(queue[1..], r, one);
  }

  lemma ReturnNearer(cfg: Config, s: System, e: Event, i: nat, r: Req)
    requires Safe(cfg, s) && IsAt(s, i, r) && Enabled(cfg, s, e) && e.CallReturned? && e.i == i
    ensures Nearer(cfg, s, Apply(cfg, s, e), i, r)
  {
    assert Fits(cfg, s.replicas[i]);
    var batch := s.replicas[i].stage.batch;
    assert forall q | q in batch :: q in s.retired + batch;
  }

  /** Every event of its own replica brings a request nearer. */
  lemma OwnEventNearer(cfg: Config, s: System, e: Event, i: nat, r: Req)
    requires Safe(cfg, s) && IsAt(s, i, r) && Enabled(cfg, s, e) && IsOwn(e, i)
    ensures Nearer(cfg, s, Apply(cfg, s, e), i, r)
  {
    match e
    case TakeFirst(_) => TakeNearer(cfg, s, e, i, r);
    case TakeNext(_) => TakeNearer(cfg, s, e, i, r);
    case CloseWindow(_) => assert Fits(cfg, s.replicas[i]);
    case LoadFailed(_, _) =>
      var batch := s.replicas[i].stage.batch;
      assert forall q | q in batch :: q in s.retired + batch;
    case Loaded(_) => KeysBounded(s.replicas[i].stage.batch);
    case CallReturned(_, _, _) => ReturnNearer(cfg, s, e, i, r);
  }

  /** No other event takes it away or puts it back. */
  lemma OtherEventKeeps(cfg: Config, s: System, e: Event, i: nat, r: Req)
    requires Safe(cfg, s) && IsAt(s, i, r) && Enabled(cfg, s, e) && !IsOwn(e, i)
    ensures IsAt(Apply(cfg, s, e), i, r) && Steps(cfg, Apply(cfg, s, e).replicas[i], r) == Steps(cfg, s.replicas[i], r)
  {
    HeldIsAccepted(s, i);
    OtherEventKeepsReplica(cfg, s, e, i);
    if s.replicas[i].queue != Apply(cfg, s, e).replicas[i].queue && r in s.replicas[i].queue {
      QueueAppends(s.replicas[i].queue, e.r, r, OneBatch(cfg));
    }
  }

  /** All that others do to a replica is to append a new request to its queue. */
  lemma OtherEventKeepsReplica(cfg: Config, s: System, e: Event, i: nat)
    requires Enabled(cfg, s, e) && i < |s.replicas| && !IsOwn(e, i)
    ensures
      var rep, rep1 := s.replicas[i], Apply(cfg, s, e).replicas[i];
      && rep1.stage == rep.stage
      && (rep1.queue == rep.queue || (e.Submit? && e.r !in s.futures && rep1.queue == rep.queue + [e.r]))
  {
  }

  /** How many of the steps from `k` to before `n` are its own. */
  function CountOwn(own: nat -> bool, k: nat, n: nat): nat
    requires k <= n
  {
    if k == n then 0 else CountOwn(own, k, n - 1) + if own(n - 1) then 1 else 0
  }

  /** What every step keeps, with the count of own steps, holds in the end. */
  lemma {:induction false} StepByStep(good: (nat, nat) -> bool, own: nat -> bool, k: nat, n: nat)
    requires k <= n && good(k, 0)
    requires forall j: nat, c: nat | k <= j < n && good(j, c) :: good(j + 1, c + if own(j) then 1 else 0)
    ensures good(n, CountOwn(own, k, n))
    decreases n
  {
    if k < n {
      StepByStep(good, own, k, n - 1);
    }
  }

  /** The batch of `r` is over, or it is still with replica `i`, and `n` events more make at most `bound`. */
  predicate IsWithin(cfg: Config, s: System, i: nat, r: Req, n: nat, bound: nat) {
    r in s.retired || (IsAt(s, i, r) && Steps(cfg, s.replicas[i], r) + n <= bound)
  }

  /** One event of a run. */
  lemma StepNearer(cfg: Config, s: System, e: Event, i: nat, r: Req, n: nat, bound: nat)
    requires Safe(cfg, s) && Enabled(cfg, s, e) && IsWithin(cfg, s, i, r, n, bound)
    ensures IsWithin(cfg, Apply(cfg, s, e), i, r, n + if IsOwn(e, i) then 1 else 0, bound)
  {
    if r in s.retired {
      RetiredStays(cfg, s, e, r);
    } else if IsOwn(e, i) {
      OwnEventNearer(cfg, s, e, i, r);
    } else {
      OtherEventKeeps(cfg, s, e, i, r);
    }
  }

  /** The events of a run that are those of replica `i`. */
  function OwnEvents(es: seq<Event>, i: nat): nat -> bool {
    (j: nat) => j < |es| && IsOwn(es[j], i)
  }

  function WithinAt(cfg: Config, ss: seq<System>, i: nat, r: Req, bound: nat): (nat, nat) -> bool {
    (j: nat, c: nat) => j < |ss| && IsWithin(cfg, ss[j], i, r, c, bound)
  }

  lemma RunStepNearer(cfg: Config, ss: seq<System>, es: seq<Event>, k: nat, i: nat, r: Req, n: nat, bound: nat)
    requires IsRun(cfg, ss, es) && k < |es| && IsWithin(cfg, ss[k], i, r, n, bound)
    ensures IsWithin(cfg, ss[k + 1], i, r, n + if IsOwn(es[k], i) then 1 else 0, bound)
  {
    RunsAreSafe(cfg, ss, es, k);
    StepNearer(cfg, ss[k], es[k], i, r, n, bound);
  }

  /** Either the batch of `r` is over, or each event of its replica since `k` has brought it nearer. */
  lemma NearerAndNearer(cfg: Config, ss: seq<System>, es: seq<Event>, i: nat, r: Req, k: nat, n: nat, bound: nat)
    requires IsRun(cfg, ss, es) && k <= n <= |es| && IsWithin(cfg, ss[k], i, r, 0, bound)
    ensures IsWithin(cfg, ss[n], i, r, CountOwn(OwnEvents(es, i), k, n), bound)
  {
    var good, own := WithinAt(cfg, ss, i, r, bound), OwnEvents(es, i);
    forall j: nat, c: nat | k <= j < n && good(j, c) ensures good(j + 1, c + if own(j) then 1 else 0) {
      RunStepNearer(cfg, ss, es, j, i, r, c, bound);
    }
    StepByStep(good, own, k, n);
  }

  lemma RetiredStays(cfg: Config, s: System, e: Event, r: Req)
    requires Enabled(cfg, s, e) && r in s.retired
    ensures r in Apply(cfg, s, e).retired
  {
  }

  /**
   Every accepted request is completed: its replica can always move while it waits, and after a bounded number of moves
   of that replica, whatever all others do in between, it is done.
   */
  lemma CompletesInBoundedSteps(cfg: Config, ss: seq<System>, es: seq<Event>, i: nat, r: Req, k: nat, n: nat)
    requires IsRun(cfg, ss, es) && k <= n <= |es| && IsAt(ss[k], i, r)
    requires CountOwn(OwnEvents(es, i), k, n) > (cfg.perReplicaQueue + 1) * OneBatch(cfg)
    ensures Done(ss[n], r)
  {
    RunsAreSafe(cfg, ss, es, k);
    RunsAreSafe(cfg, ss, es, n);
    NearerAndNearer(cfg, ss, es, i, r, k, n, Steps(cfg, ss[k].replicas[i], r));
    StepsBounded(cfg, ss[k].replicas[i], r);
  }

  lemma StepsBounded(cfg: Config, rep: Replica, r: Req)
    requires Fits(cfg, rep)
    ensures Steps(cfg, rep, r) <= (cfg.perReplicaQueue + 1) * OneBatch(cfg)
  {
    var one := OneBatch(cfg);
    QueueBounded(rep.queue, r, one);
    KeysBounded(BatchOf(rep.stage));
    TimesOrder(|rep.queue|, cfg.perReplicaQueue, one);
    OneMore(cfg.perReplicaQueue, one);
  }

  /** An accepted request is with some replica until its batch is over. */
  lemma AcceptedIsSomewhere(cfg: Config, s: System, r: Req) returns (i: nat)
    requires Safe(cfg, s) && r in s.futures && r !in s.retired
    ensures IsAt(s, i, r)
  {
    assert Conserved(s, r);
    CountIsMembership(s.retired, r);
    i := HolderOf(s.replicas, r);
    CountIsMembership(s.replicas[i].queue, r);
    CountIsMembership(BatchOf(s.replicas[i].stage), r);
  }

  lemma {:induction false} HolderOf(reps: seq<Replica>, r: Req) returns (i: nat)
    requires Held(reps, r) > 0
    ensures i < |reps| && HeldBy(reps[i], r) > 0
  {
    var n := |reps| - 1;
    if HeldBy(reps[n], r) > 0 {
      i := n;
    } else {
      i := HolderOf(reps[..n], r);
    }
  }

  // ---- The events and the specification of a submission ------------------------------------------------------------

  /** A submission in a run is the routing step on the queue depths. */
  lemma SubmitIsRouting(cfg: Config, s: System, r: Req)
    requires Safe(cfg, s) && Enabled(cfg, s, Submit(r))
    ensures
      var s1, q := Apply(cfg, s, Submit(r)), Routing.Queues(Depths(s), s.rr);
      && Routing.Queues(Depths(s1), s1.rr) == Routing.Submit(q, cfg.perReplicaQueue)
      && (r in s1.futures <==> !Routing.Rejects(q, cfg.perReplicaQueue))
  {
    var s1, q := Apply(cfg, s, Submit(r)), Routing.Queues(Depths(s), s.rr);
    assert Depths(s1) == Routing.Submit(q, cfg.perReplicaQueue).depths;
  }

  // ---- The events and the specification of a batch -----------------------------------------------------------------

  /** The futures of some requests. */
  function Part(fs: Futures<Req>, batch: seq<Req>): Futures<Req> {
    map r | r in batch && r in fs :: fs[r]
  }

  /** The part of a world that concerns some requests. */
  function Restrict(w: World<Req>, batch: seq<Req>): World<Req> {
    w.(futures := Part(w.futures, batch))
  }

  lemma {:induction false} SettleRestricts(w: World<Req>, batch: seq<Req>, rs: seq<Req>,
                                           results: seq<Option<seq<RawEntity>>>, clock: Clock, n: nat)
    requires n <= |rs| && (forall r | r in rs :: r in batch && r in w.futures)
    ensures Restrict(SettleUpTo(w, rs, Self, results, clock, n), batch)
            == SettleUpTo(Restrict(w, batch), rs, Self, results, clock, n)
  {
    if n > 0 {
      var w1 := SettleUpTo(w, rs, Self, results, clock, n - 1);
      SettleRestricts(w, batch, rs, results, clock, n - 1);
      assert rs[n - 1] in rs && rs[n - 1] in w1.futures;
      SettleOneRestricts(w1, batch, rs[n - 1], n - 1, |rs|, results, clock);
    }
  }

  lemma SettleOneRestricts(w: World<Req>, batch: seq<Req>, r: Req, i: nat, size: nat,
                           results: seq<Option<seq<RawEntity>>>, clock: Clock)
    requires r in batch && r in w.futures
    ensures Restrict(SettleOne(w, r, r, i, size, results, clock), batch)
            == SettleOne(Restrict(w, batch), r, r, i, size, results, clock)
  {
    var f := SettleOne(w, r, r, i, size, results, clock).futures[r];
    RestrictOne(w.futures, batch, r, f);
    assert Restrict(w, batch).futures[r] == w.futures[r];
  }

  lemma RestrictOne(fs: Futures<Req>, batch: seq<Req>, r: Req, f: Future)
    requires r in batch && r in fs
    ensures Part(fs[r := f], batch) == Part(fs, batch)[r := f]
  {
  }

  lemma OutcomeRestricts(w: World<Req>, batch: seq<Req>, rs: seq<Req>, outcome: ModelOutcome, clock: Clock)
    requires forall r | r in rs :: r in batch && r in w.futures
    ensures Restrict(OnOutcome(w, rs, Self, outcome, clock), batch)
            == OnOutcome(Restrict(w, batch), rs, Self, outcome, clock)
  {
    match outcome
    case Raised(message) =>
      assert Restrict(OnOutcome(w, rs, Self, outcome, clock), batch).futures
             == OnOutcome(Restrict(w, batch), rs, Self, outcome, clock).futures;
    case Returned(results) =>
      SettleRestricts(w.(counters := RecordBatch(w.counters, |rs|)), batch, rs, results, clock, |rs|);
  }

  /** What the loop of replica `i` sees of the system while it is in its batch. */
  function Seen(s: System, i: nat): World<Req>
    requires i < |s.replicas|
  {
    Restrict(World(s.futures, s.counters, false), BatchOf(s.replicas[i].stage))
  }

  /** What an event of others amounts to for a batch that is awaiting. */
  function Others(s: System, s1: System, batch: seq<Req>): Meanwhile<Req> {
    Meanwhile(set r | r in batch && r in s.futures && r in s1.futures && s.futures[r] != s1.futures[r],
              (c: Counters) => s1.counters)
  }

  /** For a batch that awaits its model, all that others do is to give up and to use the counters. */
  lemma OtherEventIsMeanwhile(cfg: Config, s: System, e: Event, i: nat)
    requires Safe(cfg, s) && Enabled(cfg, s, e) && i < |s.replicas| && !s.replicas[i].stage.Idle? && !IsOwn(e, i)
    ensures
      var s1 := Apply(cfg, s, e);
      && s1.replicas[i].stage == s.replicas[i].stage
      && Seen(s1, i) == Elapse(Seen(s, i), Others(s, s1, BatchOf(s.replicas[i].stage)))
  {
    var s1, batch := Apply(cfg, s, e), BatchOf(s.replicas[i].stage);
    HeldIsAccepted(s, i);
    forall r | r in batch ensures r in s1.futures && OnlyGivesUp(s.futures[r], s1.futures[r]) {
      OtherEventSpares(cfg, s, e, i, r);
    }
    MeanwhileMatches(s, s1, batch);
    OtherEventKeepsReplica(cfg, s, e, i);
  }

  predicate OnlyGivesUp(f: Future, f1: Future) {
    f1 != f ==> f.Pending? && f1 == Cancelled
  }

  lemma MeanwhileMatches(s: System, s1: System, batch: seq<Req>)
    requires forall r | r in batch :: r in s.futures && r in s1.futures && OnlyGivesUp(s.futures[r], s1.futures[r])
    ensures Restrict(World(s1.futures, s1.counters, false), batch)
            == Elapse(Restrict(World(s.futures, s.counters, false), batch), Others(s, s1, batch))
  {
    var w := Restrict(World(s.futures, s.counters, false), batch);
    var w1 := Restrict(World(s1.futures, s1.counters, false), batch);
    forall r | r in batch ensures w1.futures[r] == Elapse(w, Others(s, s1, batch)).futures[r] {
      assert OnlyGivesUp(s.futures[r], s1.futures[r]);
    }
    assert w1.futures == Elapse(w, Others(s, s1, batch)).futures;
  }

  /** A request in the hands of replica `i` can only be given up by its caller, as far as others are concerned. */
  lemma OtherEventSpares(cfg: Config, s: System, e: Event, i: nat, r: Req)
    requires Safe(cfg, s) && Enabled(cfg, s, e) && i < |s.replicas| && r in BatchOf(s.replicas[i].stage) && !IsOwn(e, i)
    requires r in s.futures
    ensures
      var s1 := Apply(cfg, s, e);
      r in s1.futures && OnlyGivesUp(s.futures[r], s1.futures[r])
  {
    if e.LoadFailed? || e.CallReturned? {
      HeldOnce(s, e.i, i, r);
      if e.CallReturned? {
        var batch, n := s.replicas[e.i].stage.batch, s.replicas[e.i].stage.next;
        ReturnedStays(s, e.i, e.outcome, e.clock, r);
        MembersOf(batch, Self, Keys(batch, Self)[n]);
      }
    }
  }

  /** No two replicas have the same request in their batches. */
  lemma HeldOnce(s: System, i: nat, j: nat, r: Req)
    requires Conserved(s, r) && i < |s.replicas| && j < |s.replicas| && i != j && r in BatchOf(s.replicas[j].stage)
    ensures r !in BatchOf(s.replicas[i].stage)
  {
    CountIsMembership(BatchOf(s.replicas[i].stage), r);
    CountIsMembership(BatchOf(s.replicas[j].stage), r);
    HeldByBoth(s.replicas, if i < j then i else j, if i < j then j else i, r);
  }

  lemma HeldLast(reps: seq<Replica>, r: Req)
    requires reps != []
    ensures Held(reps, r) == Held(reps[..|reps| - 1], r) + HeldBy(reps[|reps| - 1], r)
  {
  }

  lemma {:induction false} HeldByBoth(reps: seq<Replica>, i: nat, j: nat, r: Req)
    requires i < j < |reps|
    ensures HeldBy(reps[i], r) + HeldBy(reps[j], r) <= Held(reps, r)
  {
    if j < |reps| - 1 {
      HeldByBoth(reps[..|reps| - 1], i, j, r);
    } else {
      HeldAtLeast(reps[..j], i, r);
      HeldLast(reps, r);
    }
  }

  /** The return of a model call does to the batch what the specification of a batch says of that group. */
  lemma CallIsGroup(cfg: Config, s: System, i: nat, outcome: ModelOutcome, clock: Clock)
    requires Safe(cfg, s) && Enabled(cfg, s, CallReturned(i, outcome, clock))
    ensures
      var batch, n := s.replicas[i].stage.batch, s.replicas[i].stage.next;
      && (forall r | r in GroupOf(batch, n) :: r in Seen(s, i).futures)
      && Restrict(ServiceRuns.Returned(s, i, outcome, clock), batch)
         == OnOutcome(Seen(s, i), GroupOf(batch, n), Self, outcome, clock)
  {
    var batch, n := s.replicas[i].stage.batch, s.replicas[i].stage.next;
    MembersOf(batch, Self, Keys(batch, Self)[n]);
    OutcomeRestricts(World(s.futures, s.counters, false), batch, GroupOf(batch, n), outcome, clock);
  }

  /**
   One await of the batch loop, seen from both sides: if the surroundings of the specification do to the batch what
   others did to it between the states `s0` and `s`, then the event that ends the await is the specified handling of
   the group.
   */
  lemma EventRefinesGroup(cfg: Config, s0: System, s: System, i: nat, outcome: ModelOutcome, clock: Clock, model: Model,
                          around: Surroundings<Req>)
    requires Safe(cfg, s) && Enabled(cfg, s, CallReturned(i, outcome, clock)) && i < |s0.replicas|
    requires s0.replicas[i].stage == s.replicas[i].stage
    requires Seen(s, i) == Elapse(Seen(s0, i), around.calls(s.replicas[i].stage.next))
    requires clock == Clock(around.batchStart, around.now(s.replicas[i].stage.next))
    requires
      var batch, n := s.replicas[i].stage.batch, s.replicas[i].stage.next;
      GroupOf(batch, n) != [] ==> outcome == Call(model, n, GroupOf(batch, n), Self, Keys(batch, Self)[n])
    ensures
      var batch, n := s.replicas[i].stage.batch, s.replicas[i].stage.next;
      && (forall r | r in batch :: r in Seen(s0, i).futures)
      && Restrict(ServiceRuns.Returned(s, i, outcome, clock), batch)
         == OnGroup(Seen(s0, i), batch, Self, model, around, n)
  {
    var batch, n := s.replicas[i].stage.batch, s.replicas[i].stage.next;
    HeldIsAccepted(s, i);
    KeyHasMembers(batch, Self, Keys(batch, Self)[n]);
    CallIsGroup(cfg, s, i, outcome, clock);
    assert Seen(s0, i).futures.Keys == Seen(s, i).futures.Keys;
  }
}
