/**
 The batcher as a whole (dlp_service/server.py): callers submit and give up, replicas collect, load, call the model and
 complete futures, all interleaved.  Each event is one stretch of code between two awaits.
 */
module ServiceRuns {
  import opened Options
  import opened Batching
  import opened BatchingLaws
  import Routing

  datatype Config = Config(replicas: nat, perReplicaQueue: nat, maxBatch: int)

  /**
   Where a replica's loop is: waiting for a first request, filling the batch, loading the model, or awaiting the model
   call of the group with index `next`.
   */
  datatype Stage = Idle | Collecting(batch: seq<Req>) | Loading(batch: seq<Req>) | Calling(batch: seq<Req>, next: nat)

  datatype Replica = Replica(queue: seq<Req>, stage: Stage)

  /** `retired` lists the requests whose batch iteration is over, `awaiting` those whose submitter still waits. */
  datatype System = System(replicas: seq<Replica>, rr: nat, futures: Futures<Req>, counters: Counters,
                           retired: seq<Req>, awaiting: set<Req>)

  datatype Event =
    | Submit(r: Req)
    | GiveUp(r: Req)
    | Resume(r: Req)
    | TakeFirst(i: nat)
    | TakeNext(i: nat)
    | CloseWindow(i: nat)
    | LoadFailed(i: nat, message: string)
    | Loaded(i: nat)
    | CallReturned(i: nat, outcome: ModelOutcome, clock: Clock)

  const Self := (r: Req) => r

  function Start(cfg: Config): System {
    System(seq(cfg.replicas, _ => Replica([], Idle)), 0, map[], Counters(0, 0, 0, 0, 0, []), [], {})
  }

  function Depths(s: System): seq<nat> {
    seq(|s.replicas|, i requires 0 <= i < |s.replicas| => |s.replicas[i].queue|)
  }

  function BatchOf(stage: Stage): seq<Req> {
    if stage.Idle? then [] else stage.batch
  }

  predicate Enabled(cfg: Config, s: System, e: Event) {
    match e
    case Submit(r) => r !in s.futures && s.replicas != []
    case GiveUp(r) => r in s.futures
    case Resume(r) => r in s.awaiting && r in s.futures && !s.futures[r].Pending?
    case TakeFirst(i) => i < |s.replicas| && s.replicas[i].stage.Idle? && s.replicas[i].queue != []
    case TakeNext(i) =>
      && i < |s.replicas| && s.replicas[i].stage.Collecting? && s.replicas[i].queue != []
      && |s.replicas[i].stage.batch| < cfg.maxBatch
    case CloseWindow(i) => i < |s.replicas| && s.replicas[i].stage.Collecting?
    case LoadFailed(i, _) => i < |s.replicas| && s.replicas[i].stage.Loading?
    case Loaded(i) => i < |s.replicas| && s.replicas[i].stage.Loading?
    case CallReturned(i, _, _) =>
      && i < |s.replicas| && s.replicas[i].stage.Calling?
      && s.replicas[i].stage.next < |Keys(s.replicas[i].stage.batch, Self)|
      && forall r | r in s.replicas[i].stage.batch :: r in s.futures
  }

  function SetStage(s: System, i: nat, stage: Stage): System
    requires i < |s.replicas|
  {
    s.(replicas := s.replicas[i := s.replicas[i].(stage := stage)])
  }

  /** The head of the queue moves to the batch. */
  function Take(s: System, i: nat): System
    requires i < |s.replicas| && s.replicas[i].queue != []
  {
    var rep := s.replicas[i];
    s.(replicas := s.replicas[i := Replica(rep.queue[1..], Collecting(BatchOf(rep.stage) + [rep.queue[0]]))])
  }

  /** The iteration on `batch` ends with these futures. */
  function Retire(s: System, i: nat, batch: seq<Req>, futures: Futures<Req>): System
    requires i < |s.replicas|
  {
    SetStage(s, i, Idle).(futures := futures, retired := s.retired + batch)
  }

  function GroupOf(batch: seq<Req>, n: nat): seq<Req>
    requires n < |Keys(batch, Self)|
  {
    Members(batch, Self, Keys(batch, Self)[n])
  }

  function Returned(s: System, i: nat, outcome: ModelOutcome, clock: Clock): World<Req>
    requires i < |s.replicas| && s.replicas[i].stage.Calling?
    requires s.replicas[i].stage.next < |Keys(s.replicas[i].stage.batch, Self)|
    requires forall r | r in s.replicas[i].stage.batch :: r in s.futures
  {
    var batch, n := s.replicas[i].stage.batch, s.replicas[i].stage.next;
    MembersOf(batch, Self, Keys(batch, Self)[n]);
    OnOutcome(World(s.futures, s.counters, false), GroupOf(batch, n), Self, outcome, clock)
  }

  /** The replica goes on with `w`: to its next group, or to its next iteration. */
  function GoOn(s: System, i: nat, w: World<Req>): System
    requires i < |s.replicas| && s.replicas[i].stage.Calling?
  {
    var batch, n := s.replicas[i].stage.batch, s.replicas[i].stage.next;
    var s1 := s.(counters := w.counters);
    if w.broken then Retire(s1, i, batch, FailPending(w.futures, batch, BatchFailed))
    else if n + 1 == |Keys(batch, Self)| then Retire(s1, i, batch, w.futures)
    else SetStage(s1, i, Calling(batch, n + 1)).(futures := w.futures)
  }

  function Apply(cfg: Config, s: System, e: Event): System
    requires Enabled(cfg, s, e)
  {
    match e
    case Submit(r) =>
      var p, rr := Routing.Pick(Depths(s), s.rr), Routing.NextTurn(Depths(s), s.rr);
      var rep := s.replicas[p];
      if |rep.queue| < cfg.perReplicaQueue then
        s.(rr := rr, replicas := s.replicas[p := rep.(queue := rep.queue + [r])], futures := s.futures[r := Pending],
           counters := s.counters.(inflight := s.counters.inflight + 1), awaiting := s.awaiting + {r})
      else
        s.(rr := rr, counters := s.counters.(rejected := s.counters.rejected + 1))
    case GiveUp(r) => s.(futures := CancelPending(s.futures, {r}))
    case Resume(r) =>
      s.(awaiting := s.awaiting - {r},
         counters := s.counters.(inflight := if s.counters.inflight > 0 then s.counters.inflight - 1 else 0))
    case TakeFirst(i) => Take(s, i)
    case TakeNext(i) => Take(s, i)
    case CloseWindow(i) => SetStage(s, i, Loading(s.replicas[i].stage.batch))
    case LoadFailed(i, message) =>
      var batch := s.replicas[i].stage.batch;
      Retire(s, i, batch, FailPending(s.futures, batch, LoadError(message)))
    case Loaded(i) => SetStage(s, i, Calling(s.replicas[i].stage.batch, 0))
    case CallReturned(i, outcome, clock) =>
      GoOn(s, i, Returned(s, i, outcome, clock))
  }

  /** A run: the states `ss` before, between and after the events `es`, from the start. */
  ghost predicate IsRun(cfg: Config, ss: seq<System>, es: seq<Event>) {
    && |ss| == |es| + 1
    && ss[0] == Start(cfg)
    && forall k | 0 <= k < |es| :: Enabled(cfg, ss[k], es[k]) && ss[k + 1] == Apply(cfg, ss[k], es[k])
  }

  // ---- Conservation ------------------------------------------------------------------------------------------------

  function Count(s: seq<Req>, r: Req): nat {
    multiset(s)[r]
  }

  lemma CountConcat(a: seq<Req>, b: seq<Req>, r: Req)
    ensures Count(a + b, r) == Count(a, r) + Count(b, r)
  {
    assert multiset(a + b) == multiset(a) + multiset(b);
  }

  function HeldBy(rep: Replica, r: Req): nat {
    Count(rep.queue, r) + Count(BatchOf(rep.stage), r)
  }

  /** How often `r` waits in a queue or is in the hands of a batch loop. */
  function Held(reps: seq<Replica>, r: Req): nat {
    if reps == [] then 0 else Held(reps[..|reps| - 1], r) + HeldBy(reps[|reps| - 1], r)
  }

  lemma {:induction false} HeldUpdate(reps: seq<Replica>, i: nat, rep: Replica, r: Req)
    requires i < |reps|
    ensures Held(reps[i := rep], r) + HeldBy(reps[i], r) == Held(reps, r) + HeldBy(rep, r)
  {
    var n := |reps| - 1;
    if i < n {
      assert reps[i := rep][..n] == reps[..n][i := rep];
      HeldUpdate(reps[..n], i, rep, r);
    } else {
      assert reps[i := rep][..n] == reps[..n];
    }
  }

  /** An accepted request is in exactly one place: some replica's queue, its batch, or among the retired, once. */
  ghost predicate Conserved(s: System, r: Req) {
    Held(s.replicas, r) + Count(s.retired, r) == if r in s.futures then 1 else 0
  }

  lemma {:induction false} NothingHeld(n: nat, r: Req)
    ensures Held(seq(n, _ => Replica([], Idle)), r) == 0
  {
    if n > 0 {
      NothingHeld(n - 1, r);
      assert seq(n, _ => Replica([], Idle))[..n - 1] == seq(n - 1, _ => Replica([], Idle));
    }
  }

  lemma TakeConserves(s: System, i: nat, r: Req)
    requires Conserved(s, r) && i < |s.replicas| && s.replicas[i].queue != []
    ensures Conserved(Take(s, i), r)
  {
    var rep := s.replicas[i];
    var head, rest, batch := rep.queue[0], rep.queue[1..], BatchOf(rep.stage);
    assert rep.queue == [head] + rest;
    CountConcat([head], rest, r);
    CountConcat(batch, [head], r);
    HeldUpdate(s.replicas, i, Replica(rest, Collecting(batch + [head])), r);
  }

  lemma RetireConserves(s: System, i: nat, futures: Futures<Req>, r: Req)
    requires Conserved(s, r) && i < |s.replicas| && futures.Keys == s.futures.Keys
    ensures Conserved(Retire(s, i, BatchOf(s.replicas[i].stage), futures), r)
  {
    HeldUpdate(s.replicas, i, s.replicas[i].(stage := Idle), r);
    CountConcat(s.retired, BatchOf(s.replicas[i].stage), r);
  }

  lemma StageConserves(s: System, i: nat, stage: Stage, r: Req)
    requires Conserved(s, r) && i < |s.replicas| && BatchOf(stage) == BatchOf(s.replicas[i].stage)
    ensures Conserved(SetStage(s, i, stage), r)
  {
    HeldUpdate(s.replicas, i, s.replicas[i].(stage := stage), r);
  }

  lemma SubmitConserves(cfg: Config, s: System, q: Req, r: Req)
    requires Conserved(s, r) && Enabled(cfg, s, Submit(q))
    ensures Conserved(Apply(cfg, s, Submit(q)), r)
  {
    var p := Routing.Pick(Depths(s), s.rr);
    var rep := s.replicas[p];
    CountConcat(rep.queue, [q], r);
    HeldUpdate(s.replicas, p, rep.(queue := rep.queue + [q]), r);
  }

  /** Whether a replica goes on or retires its batch, what it held is still there. */
  lemma MoveConserves(s: System, s1: System, i: nat, rep: Replica, batch: seq<Req>, r: Req)
    requires Conserved(s, r) && i < |s.replicas| && s1.futures.Keys == s.futures.Keys
    requires s1.replicas == s.replicas[i := rep] && s1.retired == s.retired + batch && rep.queue == s.replicas[i].queue
    requires BatchOf(s.replicas[i].stage) == BatchOf(rep.stage) + batch
    ensures Conserved(s1, r)
  {
    HeldUpdate(s.replicas, i, rep, r);
    CountConcat(s.retired, batch, r);
    CountConcat(BatchOf(rep.stage), batch, r);
  }

  lemma GoOnConserves(s: System, i: nat, w: World<Req>, r: Req)
    requires Conserved(s, r) && i < |s.replicas| && s.replicas[i].stage.Calling? && w.futures.Keys == s.futures.Keys
    ensures Conserved(GoOn(s, i, w), r)
  {
    var s1, batch := GoOn(s, i, w), s.replicas[i].stage.batch;
    if s1.replicas[i].stage.Idle? {
      assert BatchOf(Idle) + batch == batch;
      MoveConserves(s, s1, i, s1.replicas[i], batch, r);
    } else {
      assert batch + [] == batch && s.retired + [] == s.retired;
      MoveConserves(s, s1, i, s1.replicas[i], [], r);
    }
  }

  lemma ConservedStep(cfg: Config, s: System, e: Event, r: Req)
    requires Conserved(s, r) && Enabled(cfg, s, e)
    ensures Conserved(Apply(cfg, s, e), r)
  {
    match e
    case Submit(q) => SubmitConserves(cfg, s, q, r);
    case GiveUp(_) =>
    case Resume(_) =>
    case TakeFirst(i) => TakeConserves(s, i, r);
    case TakeNext(i) => TakeConserves(s, i, r);
    case CloseWindow(i) => StageConserves(s, i, Loading(s.replicas[i].stage.batch), r);
    case LoadFailed(i, message) =>
      RetireConserves(s, i, FailPending(s.futures, s.replicas[i].stage.batch, LoadError(message)), r);
    case Loaded(i) => StageConserves(s, i, Calling(s.replicas[i].stage.batch, 0), r);
    case CallReturned(i, outcome, clock) => GoOnConserves(s, i, Returned(s, i, outcome, clock), r);
  }

  lemma {:induction false} HeldAtLeast(reps: seq<Replica>, i: nat, r: Req)
    requires i < |reps|
    ensures HeldBy(reps[i], r) <= Held(reps, r)
  {
    if i < |reps| - 1 {
      HeldAtLeast(reps[..|reps| - 1], i, r);
    }
  }

  lemma CountIsMembership(s: seq<Req>, r: Req)
    ensures Count(s, r) > 0 <==> r in s
  {
  }

  lemma {:induction false} TwiceCounted(s: seq<Req>, i: nat, j: nat)
    requires i < j < |s| && s[i] == s[j]
    ensures Count(s, s[i]) >= 2
  {
    CountConcat(s[..j], s[j..], s[i]);
    assert s == s[..j] + s[j..];
    CountIsMembership(s[..j], s[i]);
    assert s[..j][i] == s[i] && s[j..][0] == s[i];
    CountIsMembership(s[j..], s[i]);
  }

  /** What a batch loop holds was accepted, once, and is not retired yet. */
  lemma HeldIsAccepted(s: System, i: nat)
    requires (forall r :: Conserved(s, r)) && i < |s.replicas|
    ensures forall r | r in BatchOf(s.replicas[i].stage) || r in s.replicas[i].queue ::
              r in s.futures && r !in s.retired
    ensures Distinct(BatchOf(s.replicas[i].stage))
  {
    var batch := BatchOf(s.replicas[i].stage);
    forall r | r in batch || r in s.replicas[i].queue ensures r in s.futures && r !in s.retired {
      assert Conserved(s, r);
      HeldAtLeast(s.replicas, i, r);
      CountIsMembership(batch, r);
      CountIsMembership(s.replicas[i].queue, r);
      CountIsMembership(s.retired, r);
    }
    forall a, b | 0 <= a < b < |batch| ensures batch[a] != batch[b] {
      if batch[a] == batch[b] {
        TwiceCounted(batch, a, b);
        assert Conserved(s, batch[a]);
        HeldAtLeast(s.replicas, i, batch[a]);
      }
    }
  }

  // ---- Shape -------------------------------------------------------------------------------------------------------

  function BatchLimit(cfg: Config): nat {
    if cfg.maxBatch > 1 then cfg.maxBatch else 1
  }

  ghost predicate Fits(cfg: Config, rep: Replica) {
    && |rep.queue| <= cfg.perReplicaQueue
    && (!rep.stage.Idle? ==> 1 <= |rep.stage.batch| <= BatchLimit(cfg))
    && (rep.stage.Calling? ==> rep.stage.next < |Keys(rep.stage.batch, Self)|)
  }

  ghost predicate Shaped(cfg: Config, s: System) {
    |s.replicas| == cfg.replicas && forall i | 0 <= i < |s.replicas| :: Fits(cfg, s.replicas[i])
  }

  lemma ShapedWith(cfg: Config, s: System, s1: System, i: nat, rep: Replica)
    requires Shaped(cfg, s) && i < |s.replicas| && s1.replicas == s.replicas[i := rep] && Fits(cfg, rep)
    ensures Shaped(cfg, s1)
  {
  }

  lemma LoadedFits(cfg: Config, s: System, i: nat)
    requires Shaped(cfg, s) && Enabled(cfg, s, Loaded(i))
    ensures Shaped(cfg, Apply(cfg, s, Loaded(i)))
  {
    var rep := s.replicas[i];
    assert Fits(cfg, rep);
    KeysOf(rep.stage.batch, Self);
    assert rep.stage.batch[0] in rep.stage.batch;
    ShapedWith(cfg, s, Apply(cfg, s, Loaded(i)), i, rep.(stage := Calling(rep.stage.batch, 0)));
  }

  lemma TakeFits(cfg: Config, s: System, e: Event, i: nat)
    requires Shaped(cfg, s) && Enabled(cfg, s, e) && (e == TakeFirst(i) || e == TakeNext(i))
    ensures Shaped(cfg, Apply(cfg, s, e))
  {
    var rep := s.replicas[i];
    assert Fits(cfg, rep);
    ShapedWith(cfg, s, Apply(cfg, s, e), i, Replica(rep.queue[1..], Collecting(BatchOf(rep.stage) + [rep.queue[0]])));
  }

  lemma ShapedStep(cfg: Config, s: System, e: Event)
    requires Shaped(cfg, s) && Enabled(cfg, s, e)
    ensures Shaped(cfg, Apply(cfg, s, e))
  {
    match e
    case Loaded(i) => LoadedFits(cfg, s, i);
    case TakeFirst(i) => TakeFits(cfg, s, e, i);
    case TakeNext(i) => TakeFits(cfg, s, e, i);
    case _ =>
  }

  // ---- Completion --------------------------------------------------------------------------------------------------

  ghost predicate Done(s: System, r: Req) {
    r in s.futures && !s.futures[r].Pending?
  }

  /** The groups a replica has been through are done. */
  ghost predicate GroupsDone(s: System, rep: Replica) {
    rep.stage.Calling? ==>
      forall k, r | 0 <= k < rep.stage.next && k < |Keys(rep.stage.batch, Self)|
                    && r in rep.stage.batch && KeyOf(r) == Keys(rep.stage.batch, Self)[k] :: Done(s, r)
  }

  ghost predicate Completing(s: System) {
    && (forall r | r in s.retired :: Done(s, r))
    && (forall i | 0 <= i < |s.replicas| :: GroupsDone(s, s.replicas[i]))
  }

  /** Futures completed stay as they are. */
  ghost predicate Stays(s: System, s1: System) {
    forall r | Done(s, r) :: r in s1.futures && s1.futures[r] == s.futures[r]
  }

  lemma ReturnedStays(s: System, i: nat, outcome: ModelOutcome, clock: Clock, r: Req)
    requires (forall q :: Conserved(s, q)) && i < |s.replicas| && s.replicas[i].stage.Calling?
    requires s.replicas[i].stage.next < |Keys(s.replicas[i].stage.batch, Self)|
    requires forall q | q in s.replicas[i].stage.batch :: q in s.futures
    requires r in s.futures
    ensures
      var w, rs := Returned(s, i, outcome, clock), GroupOf(s.replicas[i].stage.batch, s.replicas[i].stage.next);
      && (w.futures[r] != s.futures[r] ==> s.futures[r].Pending? && r in rs)
      && (r in rs && !w.broken ==> !w.futures[r].Pending?)
  {
    var batch, n := s.replicas[i].stage.batch, s.replicas[i].stage.next;
    var key := Keys(batch, Self)[n];
    HeldIsAccepted(s, i);
    MembersOf(batch, Self, key);
    MembersDistinct(batch, Self, key);
    OutcomeLaw(World(s.futures, s.counters, false), GroupOf(batch, n), Self, outcome, clock, r);
  }

  lemma DoneStays(cfg: Config, s: System, e: Event)
    requires (forall q :: Conserved(s, q)) && Enabled(cfg, s, e)
    ensures Stays(s, Apply(cfg, s, e))
  {
    if e.CallReturned? {
      forall r | Done(s, r) ensures Apply(cfg, s, e).futures[r] == s.futures[r] {
        ReturnedStays(s, e.i, e.outcome, e.clock, r);
      }
    }
  }

  /** A replica left alone keeps its groups done. */
  lemma OthersDone(s: System, s1: System, i: nat)
    requires Completing(s) && Stays(s, s1) && |s1.replicas| == |s.replicas|
    requires forall j | 0 <= j < |s.replicas| && j != i :: s1.replicas[j].stage == s.replicas[j].stage
    ensures forall j | 0 <= j < |s1.replicas| && j != i :: GroupsDone(s1, s1.replicas[j])
    ensures forall r | r in s.retired :: Done(s1, r)
  {
    forall j | 0 <= j < |s1.replicas| && j != i ensures GroupsDone(s1, s1.replicas[j]) {
      assert GroupsDone(s, s.replicas[j]);
    }
  }

  /** After a call that did not break down, every group up to this one is done. */
  lemma GroupsAnswered(cfg: Config, s: System, i: nat, outcome: ModelOutcome, clock: Clock, k: nat, r: Req)
    requires (forall q :: Conserved(s, q)) && Completing(s) && Enabled(cfg, s, CallReturned(i, outcome, clock))
    requires !Returned(s, i, outcome, clock).broken && r in s.replicas[i].stage.batch
    requires k <= s.replicas[i].stage.next && KeyOf(r) == Keys(s.replicas[i].stage.batch, Self)[k]
    ensures r in s.futures && !Returned(s, i, outcome, clock).futures[r].Pending?
  {
    var batch, n := s.replicas[i].stage.batch, s.replicas[i].stage.next;
    HeldIsAccepted(s, i);
    MembersOf(batch, Self, Keys(batch, Self)[n]);
    ReturnedStays(s, i, outcome, clock, r);
    assert GroupsDone(s, s.replicas[i]);
    assert k < n ==> Done(s, r);
  }

  lemma ReturnCompletes(cfg: Config, s: System, e: Event)
    requires (forall q :: Conserved(s, q)) && Completing(s) && Enabled(cfg, s, e) && e.CallReturned?
    ensures Completing(Apply(cfg, s, e))
  {
    var i, s1 := e.i, Apply(cfg, s, e);
    var batch, n := s.replicas[i].stage.batch, s.replicas[i].stage.next;
    DoneStays(cfg, s, e);
    OthersDone(s, s1, i);
    HeldIsAccepted(s, i);
    if !Returned(s, i, e.outcome, e.clock).broken {
      KeysOf(batch, Self);
      forall k, r | 0 <= k < n + 1 && r in batch && KeyOf(r) == Keys(batch, Self)[k] ensures Done(s1, r) {
        GroupsAnswered(cfg, s, i, e.outcome, e.clock, k, r);
      }
      forall r | r in batch && n + 1 == |Keys(batch, Self)| ensures Done(s1, r) {
        var k :| 0 <= k < n + 1 && Keys(batch, Self)[k] == KeyOf(r);
      }
    }
  }

  lemma CompletingStep(cfg: Config, s: System, e: Event)
    requires (forall q :: Conserved(s, q)) && Completing(s) && Enabled(cfg, s, e)
    ensures Completing(Apply(cfg, s, e))
  {
    if e.CallReturned? {
      ReturnCompletes(cfg, s, e);
    } else {
      var s1 := Apply(cfg, s, e);
      DoneStays(cfg, s, e);
      if e.LoadFailed? {
        HeldIsAccepted(s, e.i);
        OthersDone(s, s1, e.i);
      } else {
        OthersDone(s, s1, if e.Submit? || e.GiveUp? || e.Resume? then |s.replicas| else e.i);
      }
    }
  }

  // ---- Counters ----------------------------------------------------------------------------------------------------

  ghost function Results(futures: Futures<Req>): set<Req> {
    set r | r in futures && futures[r].Result?
  }

  ghost predicate AddsUp(c: Counters, futures: Futures<Req>, limit: nat) {
    c.scans == |Results(futures)| && c.scans <= c.batchSizes <= limit * c.batches
  }

  ghost predicate Counted(cfg: Config, s: System) {
    && AddsUp(s.counters, s.futures, BatchLimit(cfg))
    && s.awaiting <= s.futures.Keys
    && s.counters.inflight == |s.awaiting|
  }

  lemma ResultsOfFail(futures: Futures<Req>, rs: seq<Req>, error: Error)
    ensures Results(FailPending(futures, rs, error)) == Results(futures)
  {
  }

  lemma {:induction false} SettleCounts(w: World<Req>, rs: seq<Req>, results: seq<Option<seq<RawEntity>>>, clock: Clock,
                                        n: nat)
    requires n <= |rs| && forall r | r in rs :: r in w.futures
    ensures
      var w1 := SettleUpTo(w, rs, Self, results, clock, n);
      && w1.counters.scans + |Results(w.futures)| == w.counters.scans + |Results(w1.futures)|
      && w1.counters.scans <= w.counters.scans + n
      && w1.counters.(scans := 0, latencies := []) == w.counters.(scans := 0, latencies := [])
  {
    if n > 0 {
      SettleCounts(w, rs, results, clock, n - 1);
      var w0 := SettleUpTo(w, rs, Self, results, clock, n - 1);
      SettleOneCounts(w0, rs[n - 1], n - 1, |rs|, results, clock);
    }
  }

  lemma SettleOneCounts(w: World<Req>, r: Req, i: nat, size: nat, results: seq<Option<seq<RawEntity>>>, clock: Clock)
    requires r in w.futures
    ensures
      var w1 := SettleOne(w, r, r, i, size, results, clock);
      && w1.counters.scans + |Results(w.futures)| == w.counters.scans + |Results(w1.futures)|
      && w1.counters.scans <= w.counters.scans + 1
      && w1.counters.(scans := 0, latencies := []) == w.counters.(scans := 0, latencies := [])
  {
    var w1 := SettleOne(w, r, r, i, size, results, clock);
    if w1.counters != w.counters {
      assert Results(w1.futures) == Results(w.futures) + {r};
    } else {
      assert Results(w1.futures) == Results(w.futures);
    }
  }

  lemma {:induction false} FewerMembers(batch: seq<Req>, key: Key)
    ensures |Members(batch, Self, key)| <= |batch|
  {
    if batch != [] {
      FewerMembers(batch[..|batch| - 1], key);
    }
  }

  lemma OutcomeCounts(w: World<Req>, rs: seq<Req>, outcome: ModelOutcome, clock: Clock, limit: nat)
    requires (forall r | r in rs :: r in w.futures) && |rs| <= limit && AddsUp(w.counters, w.futures, limit)
    ensures
      var w1 := OnOutcome(w, rs, Self, outcome, clock);
      AddsUp(w1.counters, w1.futures, limit) && w1.counters.inflight == w.counters.inflight
  {
    if outcome.Returned? {
      var c := RecordBatch(w.counters, |rs|);
      SettleCounts(w.(counters := c), rs, outcome.results, clock, |rs|);
      assert limit * (w.counters.batches + 1) == limit * w.counters.batches + limit;
    } else {
      ResultsOfFail(w.futures, rs, PredictError(outcome.message));
    }
  }

  lemma GoOnCounts(cfg: Config, s: System, i: nat, w: World<Req>)
    requires Counted(cfg, s) && i < |s.replicas| && s.replicas[i].stage.Calling?
    requires AddsUp(w.counters, w.futures, BatchLimit(cfg)) && w.futures.Keys == s.futures.Keys
    requires w.counters.inflight == s.counters.inflight
    ensures Counted(cfg, GoOn(s, i, w))
  {
    ResultsOfFail(w.futures, s.replicas[i].stage.batch, BatchFailed);
  }

  lemma ReturnCounts(cfg: Config, s: System, i: nat, outcome: ModelOutcome, clock: Clock)
    requires Counted(cfg, s) && Shaped(cfg, s) && Enabled(cfg, s, CallReturned(i, outcome, clock))
    ensures Counted(cfg, GoOn(s, i, Returned(s, i, outcome, clock)))
  {
    var batch, n := s.replicas[i].stage.batch, s.replicas[i].stage.next;
    MembersOf(batch, Self, Keys(batch, Self)[n]);
    FewerMembers(batch, Keys(batch, Self)[n]);
    assert Fits(cfg, s.replicas[i]);
    OutcomeCounts(World(s.futures, s.counters, false), GroupOf(batch, n), outcome, clock, BatchLimit(cfg));
    GoOnCounts(cfg, s, i, Returned(s, i, outcome, clock));
  }

  lemma SubmitCounts(cfg: Config, s: System, r: Req)
    requires Counted(cfg, s) && Enabled(cfg, s, Submit(r))
    ensures Counted(cfg, Apply(cfg, s, Submit(r)))
  {
    assert r !in s.awaiting;
    assert Results(s.futures[r := Pending]) == Results(s.futures);
  }

  lemma CountedStep(cfg: Config, s: System, e: Event)
    requires Counted(cfg, s) && Shaped(cfg, s) && Enabled(cfg, s, e)
    ensures Counted(cfg, Apply(cfg, s, e))
  {
    match e
    case Submit(r) => SubmitCounts(cfg, s, r);
    case GiveUp(r) => assert Results(CancelPending(s.futures, {r})) == Results(s.futures);
    case LoadFailed(i, message) => ResultsOfFail(s.futures, s.replicas[i].stage.batch, LoadError(message));
    case CallReturned(i, outcome, clock) => ReturnCounts(cfg, s, i, outcome, clock);
    case _ =>
  }

  // ---- Every run ---------------------------------------------------------------------------------------------------

  ghost predicate Safe(cfg: Config, s: System) {
    && Shaped(cfg, s)
    && (forall r :: Conserved(s, r))
    && Completing(s)
    && Counted(cfg, s)
  }

  lemma SafeStart(cfg: Config)
    ensures Safe(cfg, Start(cfg))
  {
    forall r ensures Conserved(Start(cfg), r) {
      NothingHeld(cfg.replicas, r);
    }
  }

  lemma SafeStep(cfg: Config, s: System, e: Event)
    requires Safe(cfg, s) && Enabled(cfg, s, e)
    ensures Safe(cfg, Apply(cfg, s, e))
  {
    ShapedStep(cfg, s, e);
    forall r ensures Conserved(Apply(cfg, s, e), r) {
      ConservedStep(cfg, s, e, r);
    }
    CompletingStep(cfg, s, e);
    CountedStep(cfg, s, e);
  }

  /**
   Safety over every run: no request is lost or duplicated; a request whose batch iteration is over is done; queues and
   batches keep their limits; and the counters add up.
   */
  lemma {:induction false} RunsAreSafe(cfg: Config, ss: seq<System>, es: seq<Event>, k: nat)
    requires IsRun(cfg, ss, es) && k <= |es|
    ensures Safe(cfg, ss[k])
  {
    if k == 0 {
      SafeStart(cfg);
    } else {
      RunsAreSafe(cfg, ss, es, k - 1);
      SafeStep(cfg, ss[k - 1], es[k - 1]);
    }
  }

  /** A model call can always come back: nothing a replica still needs has been lost from under it. */
  lemma CallsCanReturn(cfg: Config, ss: seq<System>, es: seq<Event>, k: nat, i: nat, outcome: ModelOutcome,
                       clock: Clock)
    requires IsRun(cfg, ss, es) && k <= |es| && i < |ss[k].replicas| && ss[k].replicas[i].stage.Calling?
    ensures Enabled(cfg, ss[k], CallReturned(i, outcome, clock))
  {
    RunsAreSafe(cfg, ss, es, k);
    HeldIsAccepted(ss[k], i);
  }

  /** A future, once completed, never changes again. */
  lemma {:induction false} DoneForever(cfg: Config, ss: seq<System>, es: seq<Event>, j: nat, k: nat, r: Req)
    requires IsRun(cfg, ss, es) && j <= k <= |es| && Done(ss[j], r)
    ensures Done(ss[k], r) && ss[k].futures[r] == ss[j].futures[r]
    decreases k
  {
    if j < k {
      DoneForever(cfg, ss, es, j, k - 1, r);
      RunsAreSafe(cfg, ss, es, k - 1);
      DoneStays(cfg, ss[k - 1], es[k - 1]);
    }
  }

  /** A submission is turned away exactly when every replica's queue is full. */
  lemma RejectedOnlyAtCapacity(cfg: Config, ss: seq<System>, es: seq<Event>, k: nat, r: Req)
    requires IsRun(cfg, ss, es) && k <= |es| && Enabled(cfg, ss[k], Submit(r))
    ensures r !in Apply(cfg, ss[k], Submit(r)).futures <==>
            forall i | 0 <= i < |ss[k].replicas| :: |ss[k].replicas[i].queue| == cfg.perReplicaQueue
  {
    RunsAreSafe(cfg, ss, es, k);
    Routing.RejectsOnlyAtCapacity(Routing.Queues(Depths(ss[k]), ss[k].rr), cfg.perReplicaQueue);
    assert forall i | 0 <= i < |ss[k].replicas| :: Depths(ss[k])[i] == |ss[k].replicas[i].queue|;
  }

  /** The call that comes back scores each text of its group by itself. */
  ghost predicate PointwiseEvent(s: System, e: Event, score: Score) {
    e.CallReturned? && e.i < |s.replicas| && s.replicas[e.i].stage.Calling?
    && s.replicas[e.i].stage.next < |Keys(s.replicas[e.i].stage.batch, Self)| ==>
      var batch, n := s.replicas[e.i].stage.batch, s.replicas[e.i].stage.next;
      var rs := GroupOf(batch, n);
      rs != [] ==> PointwiseOutcome(e.outcome, Texts(rs, Self), rs[0].labels, Keys(batch, Self)[n].threshold, score)
  }

  lemma ScoredStep(cfg: Config, s: System, e: Event, score: Score, r: Req)
    requires Enabled(cfg, s, e) && PointwiseEvent(s, e, score)
    requires r in s.futures ==> Scored(s.futures[r], r, score)
    ensures r in Apply(cfg, s, e).futures ==> Scored(Apply(cfg, s, e).futures[r], r, score)
  {
    if e.CallReturned? && r in s.futures {
      var batch, n := s.replicas[e.i].stage.batch, s.replicas[e.i].stage.next;
      KeyHasMembers(batch, Self, Keys(batch, Self)[n]);
      OutcomeScored(World(s.futures, s.counters, false), batch, Self, Keys(batch, Self)[n], e.outcome, e.clock, r,
                    score);
    }
  }

  /** In every run of a model that is pointwise, every result ever handed out is the request's own score. */
  lemma {:induction false} RunsAreFaithful(cfg: Config, ss: seq<System>, es: seq<Event>, k: nat, score: Score)
    requires IsRun(cfg, ss, es) && k <= |es|
    requires forall j | 0 <= j < |es| :: PointwiseEvent(ss[j], es[j], score)
    ensures forall r | r in ss[k].futures :: Scored(ss[k].futures[r], r, score)
  {
    if k > 0 {
      RunsAreFaithful(cfg, ss, es, k - 1, score);
      forall r | r in ss[k].futures ensures Scored(ss[k].futures[r], r, score) {
        ScoredStep(cfg, ss[k - 1], es[k - 1], score, r);
      }
    }
  }
}
