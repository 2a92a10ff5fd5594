/**
 The objects of dlp_service/server.py: requests with their futures, the shared counters, a replica with its queue and
 batch loop, and the manager that spreads submissions over the replicas.

 A request and its future are one object here.  Where the source awaits, a parameter says what the rest of the event
 loop does meanwhile.
 */
module Replicas {
  import opened Options
  import opened Sequences
  import opened Batching
  import opened BatchingLaws
  import Routing

  class Request {
    const req: Req
    var queuedMs: real
    var future: Future

    constructor (req: Req)
      ensures this.req == req && future == Pending && queuedMs == 0.0
    {
      this.req, queuedMs, future := req, 0.0, Pending;
    }
  }

  ghost const Data: Request -> Req := (r: Request) => r.req

  class Stats {
    var scansTotal: nat
    var batchesTotal: nat
    var batchSizeSum: nat
    var rejected503: nat
    var inflight: nat
    var latencies: seq<real>

    function View(): Counters
      reads this
    {
      Counters(scansTotal, batchesTotal, batchSizeSum, rejected503, inflight, latencies)
    }

    constructor ()
      ensures View() == Counters(0, 0, 0, 0, 0, [])
    {
      scansTotal, batchesTotal, batchSizeSum, rejected503, inflight, latencies := 0, 0, 0, 0, 0, [];
    }

    /** Others have used the counters. */
    method Become(c: Counters)
      modifies this
      ensures View() == c
    {
      scansTotal, batchesTotal, batchSizeSum, rejected503, inflight :=
        c.scans, c.batches, c.batchSizes, c.rejected, c.inflight;
      latencies := c.latencies;
    }

    method CountSubmission(accepted: bool)
      modifies this
      ensures View() == if accepted then old(View()).(inflight := old(inflight) + 1)
                        else old(View()).(rejected := old(rejected503) + 1)
    {
      if accepted {
        inflight := inflight + 1;
      } else {
        rejected503 := rejected503 + 1;
      }
    }

    method RecordBatch(size: nat)
      modifies this
      ensures View() == Batching.RecordBatch(old(View()), size)
    {
      batchesTotal := batchesTotal + 1;
      batchSizeSum := batchSizeSum + size;
    }

    method RecordScan(latencyMs: real)
      modifies this
      ensures View() == Batching.RecordScan(old(View()), latencyMs)
    {
      scansTotal := scansTotal + 1;
      latencies := latencies + [latencyMs];
      if |latencies| > LATENCY_WINDOW {
        latencies := latencies[|latencies| - LATENCY_WINDOW..];
      }
    }
  }

  /** The futures of some requests. */
  ghost function FuturesOf(rs: set<Request>): Futures<Request>
    reads rs
  {
    map r | r in rs :: r.future
  }

  /** What a replica sees of a batch and of the shared counters. */
  ghost function WorldOf(rs: set<Request>, stats: Stats, broken: bool): World<Request>
    reads rs, stats
  {
    World(FuturesOf(rs), stats.View(), broken)
  }

  function AsSet<T>(s: seq<T>): set<T> {
    set x | x in s
  }

  method SetExceptions(ghost all: set<Request>, rs: seq<Request>, error: Error)
    requires forall r | r in rs :: r in all
    modifies rs
    ensures FuturesOf(all) == FailPending(old(FuturesOf(all)), rs, error)
  {
    for i := 0 to |rs|
      invariant FuturesOf(all) == FailPending(old(FuturesOf(all)), rs[..i], error)
    {
      assert rs[..i + 1] == rs[..i] + [rs[i]];
      if rs[i].future == Pending {
        rs[i].future := Failed(error);
      }
    }
    assert rs[..|rs|] == rs;
  }

  /** The event loop's other business during an await: some callers give up, and others use the shared counters. */
  method Await(ghost all: set<Request>, rs: seq<Request>, stats: Stats, m: Meanwhile<Request>)
    requires all == AsSet(rs)
    modifies rs, stats
    ensures WorldOf(all, stats, false) == Elapse(old(WorldOf(all, stats, false)), m)
    ensures forall r | r in rs :: r.queuedMs == old(r.queuedMs)
  {
    forall r | r in rs && r in m.cancelled && r.future.Pending? {
      r.future := Cancelled;
    }
    stats.Become(m.counters(stats.View()));
  }

  /** The dictionary of groups, with the insertion order of its keys. */
  method GroupRequests(batch: seq<Request>) returns (order: seq<Key>, groups: map<Key, seq<Request>>)
    ensures order == Keys(batch, Data)
    ensures groups.Keys == AsSet(order)
    ensures forall k | k in groups :: groups[k] == Members(batch, Data, k)
  {
    order, groups := [], map[];
    for i := 0 to |batch|
      invariant order == Keys(batch[..i], Data)
      invariant groups.Keys == AsSet(order)
      invariant forall k | k in groups :: groups[k] == Members(batch[..i], Data, k)
    {
      assert batch[..i + 1][..i] == batch[..i];
      var key := KeyOf(batch[i].req);
      if key !in groups {
        KeyHasMembers(batch[..i], Data, key);
        order := order + [key];
        groups := groups[key := []];
      }
      groups := groups[key := groups[key] + [batch[i]]];
    }
    assert batch[..|batch|] == batch;
  }

  /** The items of the dictionary, in insertion order. */
  method GroupItems(batch: seq<Request>) returns (items: seq<(Key, seq<Request>)>)
    ensures |items| == |Keys(batch, Data)|
    ensures forall k | 0 <= k < |items| ::
              items[k] == (Keys(batch, Data)[k], Members(batch, Data, Keys(batch, Data)[k]))
  {
    var order, groups := GroupRequests(batch);
    items := [];
    for i := 0 to |order|
      invariant |items| == i
      invariant forall k | 0 <= k < i :: items[k] == (order[k], Members(batch, Data, order[k]))
    {
      assert order[i] in order;
      items := items + [(order[i], groups[order[i]])];
    }
  }

  method StampQueued(rs: seq<Request>, batchStart: real)
    modifies rs
    ensures forall r | r in rs :: r.queuedMs == (batchStart - r.req.enqueued) * 1000.0
    ensures forall r | r in rs :: r.future == old(r.future)
  {
    for i := 0 to |rs|
      invariant forall r | r in rs :: r.future == old(r.future)
      invariant forall j | 0 <= j < i :: rs[j].queuedMs == (batchStart - rs[j].req.enqueued) * 1000.0
    {
      rs[i].queuedMs := (batchStart - rs[i].req.enqueued) * 1000.0;
    }
  }

  method ResolveOne(ghost all: set<Request>, stats: Stats, r: Request, i: nat, size: nat,
                    results: seq<Option<seq<RawEntity>>>, ghost batchStart: real, now: real)
    returns (broken: bool)
    requires r in all && r.queuedMs == (batchStart - r.req.enqueued) * 1000.0
    modifies r`future, stats
    ensures WorldOf(all, stats, broken)
         == SettleOne(old(WorldOf(all, stats, false)), r, r.req, i, size, results, Clock(batchStart, now))
    ensures broken <==> old(r.future).Pending? && Ruined(results, i)
    ensures old(r.future).Pending? && i < |results| && !broken ==>
              r.future.Result? && HandsOut(r.future.value, r.req, i, size, results, Clock(batchStart, now))
  {
    if r.future == Pending {
      SettleOneMeans(WorldOf(all, stats, false), r, r.req, i, size, results, Clock(batchStart, now));
    }
    broken := false;
    if r.future == Pending {
      if i >= |results| {
        r.future := Failed(FewerResults);
      } else {
        var findings := ToFindings(RawResult(results, i));
        if findings.None? {
          broken := true;
        } else {
          var latencyMs := (now - r.req.enqueued) * 1000.0;
          stats.RecordScan(latencyMs);
          r.future := Result(BatchResult(findings.value, r.queuedMs, latencyMs, size));
        }
      }
    }
  }

  /** The loop over the results of one group, up to the first entity that cannot be converted. */
  method ResolveGroup(ghost all: set<Request>, stats: Stats, rs: seq<Request>,
                      results: seq<Option<seq<RawEntity>>>, ghost batchStart: real, now: real)
    returns (broken: bool)
    requires forall r | r in rs :: r in all
    requires forall r | r in rs :: r.queuedMs == (batchStart - r.req.enqueued) * 1000.0
    modifies rs, stats
    ensures WorldOf(all, stats, broken)
         == SettleUpTo(old(WorldOf(all, stats, false)), rs, Data, results, Clock(batchStart, now), |rs|)
  {
    broken := false;
    ghost var w := WorldOf(all, stats, false);
    var i := 0;
    while i < |rs| && !broken
      invariant i <= |rs|
      invariant forall r | r in rs :: r.queuedMs == (batchStart - r.req.enqueued) * 1000.0
      invariant WorldOf(all, stats, broken) == SettleUpTo(w, rs, Data, results, Clock(batchStart, now), i)
    {
      assert rs[i] in rs;
      broken := ResolveOne(all, stats, rs[i], i, |rs|, results, batchStart, now);
      i := i + 1;
    }
    BrokenStays(w, rs, results, Clock(batchStart, now), i, |rs|);
  }

  lemma {:induction false} BrokenStays(w: World<Request>, rs: seq<Request>, results: seq<Option<seq<RawEntity>>>,
                                       clock: Clock, i: nat, n: nat)
    requires i <= n <= |rs| && forall r | r in rs :: r in w.futures
    requires i == n || SettleUpTo(w, rs, Data, results, clock, i).broken
    ensures SettleUpTo(w, rs, Data, results, clock, n) == SettleUpTo(w, rs, Data, results, clock, i)
    decreases n
  {
    if i < n {
      BrokenStays(w, rs, results, clock, i, n - 1);
    }
  }

  /** What follows the model call of one group. */
  method FinishGroup(ghost all: set<Request>, stats: Stats, rs: seq<Request>, outcome: ModelOutcome,
                     ghost batchStart: real, now: real)
    returns (broken: bool)
    requires forall r | r in rs :: r in all
    requires forall r | r in rs :: r.queuedMs == (batchStart - r.req.enqueued) * 1000.0
    modifies rs, stats
    ensures WorldOf(all, stats, broken)
         == OnOutcome(old(WorldOf(all, stats, false)), rs, Data, outcome, Clock(batchStart, now))
  {
    broken := false;
    match outcome
    case Raised(message) =>
      SetExceptions(all, rs, PredictError(message));
    case Returned(results) =>
      stats.RecordBatch(|rs|);
      broken := ResolveGroup(all, stats, rs, results, batchStart, now);
  }

  /** One group: stamp the waiting times, await the model call, and complete the futures. */
  method RunGroup(ghost all: set<Request>, batch: seq<Request>, stats: Stats, k: nat, rs: seq<Request>, key: Key,
                  model: Model, around: Surroundings<Request>)
    returns (broken: bool)
    requires all == AsSet(batch)
    requires k < |Keys(batch, Data)| && key == Keys(batch, Data)[k] && rs == Members(batch, Data, key)
    modifies batch, stats
    ensures WorldOf(all, stats, broken) == OnGroup(old(WorldOf(all, stats, false)), batch, Data, model, around, k)
  {
    KeyHasMembers(batch, Data, key);
    MembersOf(batch, Data, key);
    assert forall i | 0 <= i < |rs| :: rs[i] in rs && rs[i] in batch;
    StampQueued(rs, around.batchStart);
    var texts := seq(|rs|, i requires 0 <= i < |rs| => rs[i].req.text);
    assert texts == Texts(rs, Data);
    var outcome := model(k, texts, rs[0].req.labels, key.threshold);
    assert outcome == Call(model, k, rs, Data, key);
    assert FuturesOf(all) == old(FuturesOf(all));
    Await(all, batch, stats, around.calls(k));
    ghost var w := WorldOf(all, stats, false);
    broken := FinishGroup(all, stats, rs, outcome, around.batchStart, around.now(k));
    assert WorldOf(all, stats, broken) == OnOutcome(w, rs, Data, outcome, Clock(around.batchStart, around.now(k)));
  }

  /** The same, after the groups before it. */
  method NextGroup(ghost all: set<Request>, batch: seq<Request>, stats: Stats, k: nat, rs: seq<Request>, key: Key,
                   model: Model, around: Surroundings<Request>, ghost w: World<Request>)
    returns (broken: bool)
    requires all == AsSet(batch) && forall r | r in batch :: r in w.futures
    requires k < |Keys(batch, Data)| && key == Keys(batch, Data)[k] && rs == Members(batch, Data, key)
    requires WorldOf(all, stats, false) == OnGroups(w, batch, Data, model, around, k)
    modifies batch, stats
    ensures WorldOf(all, stats, broken) == OnGroups(w, batch, Data, model, around, k + 1)
  {
    OneMoreGroup(w, batch, Data, model, around, k);
    broken := RunGroup(all, batch, stats, k, rs, key, model, around);
  }

  /** `_process_batch` once the model is loaded, when futures and counters are `w`. */
  method ProcessGroups(ghost all: set<Request>, batch: seq<Request>, stats: Stats, model: Model,
                       around: Surroundings<Request>, ghost w: World<Request>)
    returns (broken: bool)
    requires all == AsSet(batch) && (forall r | r in batch :: r in w.futures) && WorldOf(all, stats, false) == w
    modifies batch, stats
    ensures WorldOf(all, stats, broken) == OnGroups(w, batch, Data, model, around, |Keys(batch, Data)|)
  {
    var items := GroupItems(batch);
    broken := false;
    for k := 0 to |items|
      invariant !broken && WorldOf(all, stats, false) == OnGroups(w, batch, Data, model, around, k)
    {
      broken := NextGroup(all, batch, stats, k, items[k].1, items[k].0, model, around, w);
      if broken {
        BreakdownLasts(w, GroupStep(batch, Data, model, around), k + 1, |items|);
        return;
      }
    }
  }

  /** One iteration of the batch loop, after the batch has been collected. */
  method RunBatch(batch: seq<Request>, stats: Stats, load: Option<string>, model: Model, around: Surroundings<Request>)
    modifies batch, stats
    ensures
      var w := OnBatch(old(WorldOf(AsSet(batch), stats, false)), batch, Data, load, model, around);
      FuturesOf(AsSet(batch)) == w.futures && stats.View() == w.counters
    ensures forall r | r in batch && old(r.future) == Pending :: Own(r.future, batch, Data, model, around, r)
  {
    ghost var all := AsSet(batch);
    Await(all, batch, stats, around.loading);
    if load.Some? {
      SetExceptions(all, batch, LoadError(load.value));
    } else {
      var broken := ProcessGroups(all, batch, stats, model, around, WorldOf(all, stats, false));
      if broken {
        SetExceptions(all, batch, BatchFailed);
      }
    }
    forall r | r in batch && old(r.future) == Pending ensures Own(r.future, batch, Data, model, around, r) {
      ghost var w := old(WorldOf(all, stats, false));
      ResultsAreOwn(w, batch, Data, load, model, around, r);
      assert r.future == FuturesOf(all)[r];
    }
  }

  /** One wait of the collecting loop: what arrives in the queue meanwhile, and whether the window is over. */
  datatype Wait = Wait(arrived: seq<Request>, expired: bool)

  /** What arrives during the first `n` waits. */
  function Arrived(waits: nat -> Wait, n: nat): seq<Request> {
    if n == 0 then [] else Arrived(waits, n - 1) + waits(n - 1).arrived
  }

  /** After wait `k` the window is still open and a request is there. */
  predicate GoesOn(waits: nat -> Wait, k: nat, queued: nat) {
    !waits(k).expired && k + 1 < queued + |Arrived(waits, k + 1)|
  }

  class Replica {
    const maxQueue: nat
    const maxBatch: int
    const stats: Stats
    var queue: seq<Request>

    constructor (maxQueue: nat, maxBatch: int, stats: Stats)
      ensures queue == [] && this.maxQueue == maxQueue && this.maxBatch == maxBatch && this.stats == stats
    {
      this.maxQueue, this.maxBatch, this.stats, queue := maxQueue, maxBatch, stats, [];
    }

    /** `put_nowait`: the answer is false when the queue is full. */
    method Enqueue(r: Request) returns (ok: bool)
      modifies this`queue
      ensures ok <==> old(|queue|) < maxQueue
      ensures queue == if ok then old(queue) + [r] else old(queue)
    {
      ok := |queue| < maxQueue;
      if ok {
        queue := queue + [r];
      }
    }

    /**
     Requests are taken in arrival order, at least one and at most `maxBatch`; none is lost and none taken twice. There
     is one wait for each further place in the batch, and only the last of them can have ended the collection.
     */
    method CollectBatch(waits: nat -> Wait) returns (batch: seq<Request>, ghost n: nat)
      requires queue != []
      modifies this`queue
      ensures batch + queue == old(queue) + Arrived(waits, n)
      ensures 1 <= |batch| && (|batch| <= maxBatch || |batch| == 1)
      ensures n == if |batch| < maxBatch then |batch| else |batch| - 1
      ensures forall k | 0 <= k < |batch| - 1 :: GoesOn(waits, k, old(|queue|))
      ensures |batch| < maxBatch ==> !GoesOn(waits, n - 1, old(|queue|)) && (waits(n - 1).expired || queue == [])
    {
      assert [queue[0]] + queue[1..] == queue + [];
      batch, queue, n := [queue[0]], queue[1..], 0;
      while |batch| < maxBatch
        invariant batch + queue == old(queue) + Arrived(waits, n)
        invariant 1 <= |batch| && (|batch| <= maxBatch || |batch| == 1)
        invariant n == |batch| - 1 && forall k | 0 <= k < n :: GoesOn(waits, k, old(|queue|))
      {
        var wait := waits(|batch| - 1);
        Reassociate(batch, queue, wait.arrived);
        Reassociate(old(queue), Arrived(waits, n), wait.arrived);
        queue, n := queue + wait.arrived, n + 1;
        assert |batch + queue| == |old(queue) + Arrived(waits, n)|;
        if wait.expired || queue == [] {
          break;
        }
        assert batch + queue == (batch + [queue[0]]) + queue[1..];
        batch, queue := batch + [queue[0]], queue[1..];
      }
    }
  }

  /** Holds the replicas and spreads submissions over them. */
  lemma SubmitIs(depths: seq<nat>, rr: nat, cap: nat)
    requires depths != []
    ensures
      var q, p := Routing.Queues(depths, rr), Routing.Pick(depths, rr);
      && (Routing.Rejects(q, cap) <==> depths[p] >= cap)
      && Routing.Submit(q, cap).rr == Routing.NextTurn(depths, rr)
      && Routing.Submit(q, cap).depths == if depths[p] < cap then depths[p := depths[p] + 1] else depths
  {
  }

  class ModelManager {
    const replicas: seq<Replica>
    const stats: Stats
    var rr: nat

    constructor (replicas: seq<Replica>, stats: Stats)
      ensures this.replicas == replicas && this.stats == stats && rr == 0
    {
      this.replicas, this.stats, rr := replicas, stats, 0;
    }

    /** The queue depths. */
    ghost predicate Shows(depths: seq<nat>)
      reads replicas
    {
      |depths| == |replicas| && forall i | 0 <= i < |depths| :: depths[i] == |replicas[i].queue|
    }

    /** The smallest queue depth. */
    method MinDepth(ghost depths: seq<nat>) returns (minDepth: nat)
      requires replicas != [] && Shows(depths)
      ensures minDepth == Routing.MinOf(depths)
    {
      minDepth := |replicas[0].queue|;
      for i := 1 to |replicas|
        invariant minDepth == Routing.MinOf(depths[..i])
      {
        assert depths[..i + 1][..i] == depths[..i];
        if |replicas[i].queue| < minDepth {
          minDepth := |replicas[i].queue|;
        }
      }
      assert depths[..|replicas|] == depths;
    }

    /** The replicas with that depth. */
    method WithDepth(ghost depths: seq<nat>, depth: nat) returns (candidates: seq<nat>)
      requires Shows(depths)
      ensures candidates == Routing.Positions(depths, depth)
    {
      candidates := [];
      for i := 0 to |replicas|
        invariant candidates == Routing.Positions(depths[..i], depth)
      {
        assert depths[..i + 1][..i] == depths[..i];
        if |replicas[i].queue| == depth {
          candidates := candidates + [i];
        }
      }
      assert depths[..|replicas|] == depths;
    }

    method PickReplica(ghost depths: seq<nat>) returns (p: nat)
      requires replicas != [] && Shows(depths)
      modifies this`rr
      ensures p == Routing.Pick(depths, old(rr)) && rr == Routing.NextTurn(depths, old(rr))
    {
      var minDepth := MinDepth(depths);
      var candidates := WithDepth(depths, minDepth);
      assert candidates == Routing.Candidates(depths);
      rr := (rr + 1) % |candidates|;
      p := candidates[rr];
    }

    /** `put_nowait` on one replica. */
    method EnqueueAt(ghost depths: seq<nat>, p: nat, r: Request) returns (ok: bool)
      requires p < |replicas| && Shows(depths)
      requires forall i, j | 0 <= i < j < |replicas| :: replicas[i] != replicas[j]
      modifies replicas
      ensures ok <==> depths[p] < replicas[p].maxQueue
      ensures Shows(if ok then depths[p := depths[p] + 1] else depths)
      ensures replicas[p].queue == old(replicas[p].queue) + if ok then [r] else []
      ensures forall i | 0 <= i < |replicas| && i != p :: replicas[i].queue == old(replicas[i].queue)
    {
      ok := replicas[p].Enqueue(r);
    }

    /** The part of `submit` before its await: the answer is false when the submission is turned away with a 503. */
    method Submit(ghost depths: seq<nat>, r: Request) returns (accepted: bool, ghost p: nat)
      requires replicas != [] && Shows(depths)
      requires forall i, j | 0 <= i < j < |replicas| :: replicas[i] != replicas[j]
      requires forall i | 0 <= i < |replicas| :: replicas[i].maxQueue == replicas[0].maxQueue
      modifies this`rr, stats, replicas
      ensures
        var q := Routing.Submit(Routing.Queues(depths, old(rr)), replicas[0].maxQueue);
        Shows(q.depths) && rr == q.rr
      ensures accepted <==> !Routing.Rejects(Routing.Queues(depths, old(rr)), replicas[0].maxQueue)
      ensures p == Routing.Pick(depths, old(rr)) && p < |replicas|
      ensures replicas[p].queue == old(replicas[p].queue) + if accepted then [r] else []
      ensures forall i | 0 <= i < |replicas| && i != p :: replicas[i].queue == old(replicas[i].queue)
      ensures stats.View() == if accepted then old(stats.View()).(inflight := old(stats.inflight) + 1)
                              else old(stats.View()).(rejected := old(stats.rejected503) + 1)
    {
      ghost var after := Routing.Submit(Routing.Queues(depths, rr), replicas[0].maxQueue);
      SubmitIs(depths, rr, replicas[0].maxQueue);
      var q := PickReplica(depths);
      p := q;
      accepted := EnqueueAt(depths, q, r);
      assert Shows(after.depths) && rr == after.rr;
      stats.CountSubmission(accepted);
    }
  }
}
