/**
 What one iteration of a replica's batch loop does (dlp_service/server.py), on values.

 The functions are generic in `R`, the thing a request is known by: the request object in module Replicas, the request's
 own data in module ServiceRuns.  `data` reads the request's fields off an `R`.
 */
module Batching {
  import opened Options

  /** The fields of `_Request` that never change; `id` stands for the identity of its future. */
  datatype Req = Req(id: nat, text: string, labels: seq<string>, threshold: real, enqueued: real)

  /** An entity as the model returns it; converting a `Malformed` one raises. */
  datatype RawEntity =
    | RawEntity(name: Option<string>, text: Option<string>, score: Option<real>, start: Option<int>, end: Option<int>)
    | Malformed

  datatype Finding = Finding(category: string, text: string, confidence: real, start: int, end: int)

  datatype Error = LoadError(message: string) | PredictError(message: string) | FewerResults | BatchFailed

  datatype BatchResult = BatchResult(findings: seq<Finding>, queuedMs: real, latencyMs: real, batchSize: nat)

  datatype Future = Pending | Result(value: BatchResult) | Failed(error: Error) | Cancelled

  /** What a model call comes to; a null list of results is an empty one, and so is a null entry. */
  datatype ModelOutcome = Raised(message: string) | Returned(results: seq<Option<seq<RawEntity>>>)

  datatype Counters = Counters(scans: nat, batches: nat, batchSizes: nat, rejected: nat, inflight: nat,
                               latencies: seq<real>)

  const LATENCY_WINDOW := 4096

  function OrElse<T>(o: Option<T>, d: T): T {
    if o.Some? then o.value else d
  }

  function ToFinding(e: RawEntity): Option<Finding> {
    if e.Malformed? then None
    else Some(Finding(OrElse(e.name, "unknown"), OrElse(e.text, ""), OrElse(e.score, 0.0), OrElse(e.start, 0),
                      OrElse(e.end, 0)))
  }

  /** The conversion of a whole result, or None when some entity cannot be converted. */
  function ToFindings(es: seq<RawEntity>): Option<seq<Finding>> {
    if es == [] then Some([]) else
      var before := ToFindings(es[..|es| - 1]);
      var last := ToFinding(es[|es| - 1]);
      if before.Some? && last.Some? then Some(before.value + [last.value]) else None
  }

  // ---- What a conversion gives -------------------------------------------------------------------------------------

  /** A field of an entity, or what stands in for an absent one. */
  predicate Fills<T(==)>(field: Option<T>, standIn: T, value: T) {
    (field.Some? ==> value == field.value) && (field.None? ==> value == standIn)
  }

  /** The finding carries the entity's own label, text, score and offsets. */
  predicate Describes(e: RawEntity, f: Finding) {
    && e.RawEntity?
    && Fills(e.name, "unknown", f.category) && Fills(e.text, "", f.text) && Fills(e.score, 0.0, f.confidence)
    && Fills(e.start, 0, f.start) && Fills(e.end, 0, f.end)
  }

  /** One finding for each entity, in the order of the entities. */
  predicate Converted(es: seq<RawEntity>, fs: seq<Finding>) {
    |fs| == |es| && forall j | 0 <= j < |es| :: Describes(es[j], fs[j])
  }

  predicate HasMalformed(es: seq<RawEntity>) {
    exists j | 0 <= j < |es| :: es[j].Malformed?
  }

  /**
   The conversion fails if and only if some entity is malformed, and otherwise describes every entity in its place.
   */
  lemma {:induction false} ConversionIs(es: seq<RawEntity>)
    ensures ToFindings(es).None? <==> HasMalformed(es)
    ensures ToFindings(es).Some? ==> Converted(es, ToFindings(es).value)
  {
    if es != [] {
      ConversionIs(es[..|es| - 1]);
      assert es[..|es| - 1] + [es[|es| - 1]] == es;
    }
  }

  lemma ConvertedUnique(es: seq<RawEntity>, fs: seq<Finding>, fs1: seq<Finding>)
    requires Converted(es, fs) && Converted(es, fs1)
    ensures fs == fs1
  {
    forall j | 0 <= j < |es| ensures fs[j] == fs1[j] {
      assert Describes(es[j], fs[j]) && Describes(es[j], fs1[j]);
    }
  }

  /** The entities of one entry of the results; a null entry has none. */
  predicate IsEntry(results: seq<Option<seq<RawEntity>>>, i: nat, es: seq<RawEntity>) {
    i < |results| && (results[i].Some? ==> es == results[i].value) && (results[i].None? ==> es == [])
  }

  /**
   What is handed out for entry `i`: its findings, the two waiting times in milliseconds, and the size of the group.
   */
  ghost predicate HandsOut(v: BatchResult, req: Req, i: nat, size: nat, results: seq<Option<seq<RawEntity>>>,
                           clock: Clock) {
    && (exists es | IsEntry(results, i, es) :: Converted(es, v.findings))
    && v.batchSize == size
    && v.queuedMs == (clock.batchStart - req.enqueued) * 1000.0
    && v.latencyMs == (clock.now - req.enqueued) * 1000.0
  }

  /** Entry `i` holds an entity that cannot be converted. */
  predicate Ruined(results: seq<Option<seq<RawEntity>>>, i: nat) {
    i < |results| && results[i].Some? && HasMalformed(results[i].value)
  }

  /** The turn of a waiting request: it breaks down, or hands out what its entry says, or fails for want of one. */
  lemma SettleOneMeans<R>(w: World<R>, r: R, req: Req, i: nat, size: nat, results: seq<Option<seq<RawEntity>>>,
                          clock: Clock)
    requires r in w.futures && w.futures[r].Pending? && !w.broken
    ensures
      var w1 := SettleOne(w, r, req, i, size, results, clock);
      && (w1.broken <==> Ruined(results, i))
      && (w1.broken ==> w1.futures[r].Pending?)
      && (i >= |results| ==> w1.futures[r] == Failed(FewerResults))
      && (i < |results| && !w1.broken ==>
            w1.futures[r].Result? && HandsOut(w1.futures[r].value, req, i, size, results, clock))
  {
    if i < |results| {
      var es := RawResult(results, i);
      ConversionIs(es);
      assert IsEntry(results, i, es);
    }
  }

  lemma ConvertedIsWellFormed(es: seq<RawEntity>, fs: seq<Finding>)
    requires Converted(es, fs)
    ensures !HasMalformed(es)
  {
    assert forall j | 0 <= j < |es| :: Describes(es[j], fs[j]);
  }

  lemma HandedIsWellFormed(v: BatchResult, req: Req, i: nat, size: nat, results: seq<Option<seq<RawEntity>>>,
                           clock: Clock)
    ensures HandsOut(v, req, i, size, results, clock) ==> !Ruined(results, i)
  {
    if HandsOut(v, req, i, size, results, clock) {
      var es :| IsEntry(results, i, es) && Converted(es, v.findings);
      ConvertedIsWellFormed(es, v.findings);
    }
  }

  // ---- Grouping by (label set, threshold) --------------------------------------------------------------------------

  datatype Key = Key(labels: set<string>, threshold: real)

  function LabelSet(labels: seq<string>): set<string> {
    set l | l in labels
  }

  function KeyOf(r: Req): Key {
    Key(LabelSet(r.labels), r.threshold)
  }

  /** The keys of a batch, in the order in which they first occur. */
  function Keys<R(==)>(batch: seq<R>, data: R -> Req): seq<Key> {
    if batch == [] then [] else
      var before, key := Keys(batch[..|batch| - 1], data), KeyOf(data(batch[|batch| - 1]));
      if key in before then before else before + [key]
  }

  /** The requests of a batch that have key `key`, in batch order. */
  function Members<R(==)>(batch: seq<R>, data: R -> Req, key: Key): seq<R> {
    if batch == [] then [] else
      var before, last := Members(batch[..|batch| - 1], data, key), batch[|batch| - 1];
      if KeyOf(data(last)) == key then before + [last] else before
  }

  // ---- Completing futures ------------------------------------------------------------------------------------------

  type Futures<R> = map<R, Future>

  function FailPending<R(==)>(fs: Futures<R>, rs: seq<R>, error: Error): Futures<R> {
    map r | r in fs :: if r in rs && fs[r].Pending? then Failed(error) else fs[r]
  }

  function CancelPending<R(==)>(fs: Futures<R>, rs: set<R>): Futures<R> {
    map r | r in fs :: if r in rs && fs[r].Pending? then Cancelled else fs[r]
  }

  function RecordBatch(c: Counters, size: nat): Counters {
    c.(batches := c.batches + 1, batchSizes := c.batchSizes + size)
  }

  function RecordScan(c: Counters, latencyMs: real): Counters {
    var all := c.latencies + [latencyMs];
    c.(scans := c.scans + 1,
       latencies := if |all| > LATENCY_WINDOW then all[|all| - LATENCY_WINDOW..] else all)
  }

  /** Futures and counters as seen by one replica; `broken` once an exception has left the loop over results. */
  datatype World<R> = World(futures: Futures<R>, counters: Counters, broken: bool)

  datatype Clock = Clock(batchStart: real, now: real)

  function RawResult(results: seq<Option<seq<RawEntity>>>, i: nat): seq<RawEntity>
    requires i < |results|
  {
    OrElse(results[i], [])
  }

  /** The loop body for the `i`-th of `size` requests of a group. */
  function SettleOne<R(==)>(w: World<R>, r: R, req: Req, i: nat, size: nat, results: seq<Option<seq<RawEntity>>>,
                        clock: Clock): World<R>
    requires r in w.futures
  {
    if w.broken || !w.futures[r].Pending? then w
    else if i >= |results| then w.(futures := w.futures[r := Failed(FewerResults)])
    else
      var findings := ToFindings(RawResult(results, i));
      if findings.None? then w.(broken := true) else
        var latencyMs := (clock.now - req.enqueued) * 1000.0;
        var queuedMs := (clock.batchStart - req.enqueued) * 1000.0;
        w.(futures := w.futures[r := Result(BatchResult(findings.value, queuedMs, latencyMs, size))],
           counters := RecordScan(w.counters, latencyMs))
  }

  function SettleUpTo<R(==)>(w: World<R>, rs: seq<R>, data: R -> Req, results: seq<Option<seq<RawEntity>>>,
                             clock: Clock,
                         n: nat): (w1: World<R>)
    requires n <= |rs| && forall r | r in rs :: r in w.futures
    ensures w1.futures.Keys == w.futures.Keys
  {
    if n == 0 then w
    else
      SettleOne(SettleUpTo(w, rs, data, results, clock, n - 1), rs[n - 1], data(rs[n - 1]), n - 1, |rs|, results, clock)
  }

  /** What happens when the model call for the requests `rs` of one group comes back. */
  function OnOutcome<R(==)>(w: World<R>, rs: seq<R>, data: R -> Req, outcome: ModelOutcome,
                            clock: Clock): (w1: World<R>)
    requires forall r | r in rs :: r in w.futures
    ensures w1.futures.Keys == w.futures.Keys
  {
    match outcome
    case Raised(message) => w.(futures := FailPending(w.futures, rs, PredictError(message)))
    case Returned(results) =>
      SettleUpTo(w.(counters := RecordBatch(w.counters, |rs|)), rs, data, results, clock, |rs|)
  }

  // ---- A whole batch, run by one replica ---------------------------------------------------------------------------

  /** `model(k, texts, labels, threshold)` is the outcome of the k-th call made for the batch. */
  type Model = (nat, seq<string>, seq<string>, real) -> ModelOutcome

  /** What the rest of the event loop does during an await: callers give up, and others use the shared counters. */
  datatype Meanwhile<!R> = Meanwhile(cancelled: set<R>, counters: Counters -> Counters)

  /** What happens while the model is loaded and while the k-th model call is awaited, and the clock. */
  datatype Surroundings<!R> = Surroundings(loading: Meanwhile<R>, calls: nat -> Meanwhile<R>, batchStart: real,
                                           now: nat -> real)

  function Elapse<R(==)>(w: World<R>, m: Meanwhile<R>): World<R> {
    w.(futures := CancelPending(w.futures, m.cancelled), counters := m.counters(w.counters))
  }

  function Texts<R(==)>(rs: seq<R>, data: R -> Req): seq<string> {
    seq(|rs|, i requires 0 <= i < |rs| => data(rs[i]).text)
  }

  /** The outcome of the call for one group: the labels are those of its first request, in that request's order. */
  function Call<R(==)>(model: Model, k: nat, rs: seq<R>, data: R -> Req, key: Key): ModelOutcome
    requires rs != []
  {
    model(k, Texts(rs, data), data(rs[0]).labels, key.threshold)
  }

  lemma {:induction false} MembersOf<R>(batch: seq<R>, data: R -> Req, key: Key)
    ensures forall r | r in batch && KeyOf(data(r)) == key :: r in Members(batch, data, key)
    ensures forall r | r in Members(batch, data, key) :: r in batch && KeyOf(data(r)) == key
  {
    if batch != [] {
      MembersOf(batch[..|batch| - 1], data, key);
      assert batch == batch[..|batch| - 1] + [batch[|batch| - 1]];
    }
  }

  lemma {:induction false} KeyHasMembers<R>(batch: seq<R>, data: R -> Req, key: Key)
    ensures key in Keys(batch, data) <==> Members(batch, data, key) != []
  {
    if batch != [] {
      KeyHasMembers(batch[..|batch| - 1], data, key);
    }
  }

  lemma {:induction false} KeysOf<R>(batch: seq<R>, data: R -> Req)
    ensures forall r | r in batch :: KeyOf(data(r)) in Keys(batch, data)
    ensures forall i, j | 0 <= i < j < |Keys(batch, data)| :: Keys(batch, data)[i] != Keys(batch, data)[j]
  {
    if batch != [] {
      var n := |batch| - 1;
      KeysOf(batch[..n], data);
      assert batch == batch[..n] + [batch[n]];
    }
  }

  /** The group with index `k`: its model call is awaited, while some callers may give up, and comes back. */
  function OnGroup<R(==)>(w: World<R>, batch: seq<R>, data: R -> Req, model: Model, around: Surroundings<R>,
                          k: nat): (w1: World<R>)
    requires k < |Keys(batch, data)| && forall r | r in batch :: r in w.futures
    ensures w1.futures.Keys == w.futures.Keys
  {
    var key := Keys(batch, data)[k];
    KeyHasMembers(batch, data, key);
    MembersOf(batch, data, key);
    var rs := Members(batch, data, key);
    OnOutcome(Elapse(w, around.calls(k)), rs, data, Call(model, k, rs, data, key),
              Clock(around.batchStart, around.now(k)))
  }

  /** Steps 0 to `n - 1`, up to the first that breaks down. */
  function UntilBroken<R>(w: World<R>, next: (World<R>, nat) -> World<R>, n: nat): World<R> {
    if n == 0 then w else
      var w1 := UntilBroken(w, next, n - 1);
      if w1.broken then w1 else next(w1, n - 1)
  }

  lemma {:induction false} BreakdownLasts<R>(w: World<R>, next: (World<R>, nat) -> World<R>, k: nat, n: nat)
    requires k <= n && UntilBroken(w, next, k).broken
    ensures UntilBroken(w, next, n) == UntilBroken(w, next, k)
    decreases n
  {
    if k < n {
      BreakdownLasts(w, next, k, n - 1);
    }
  }

  function GroupStep<R(==)>(batch: seq<R>, data: R -> Req, model: Model, around: Surroundings<R>)
    : (World<R>, nat) -> World<R>
  {
    (w: World<R>, k: nat) =>
      if k < |Keys(batch, data)| && forall r | r in batch :: r in w.futures
      then OnGroup(w, batch, data, model, around, k) else w
  }

  /** The groups with index below `n` have been handled. */
  function OnGroups<R(==)>(w: World<R>, batch: seq<R>, data: R -> Req, model: Model, around: Surroundings<R>,
                           n: nat): World<R> {
    UntilBroken(w, GroupStep(batch, data, model, around), n)
  }

  lemma {:induction false} OnGroupsKeys<R>(w: World<R>, batch: seq<R>, data: R -> Req, model: Model,
                                           around: Surroundings<R>, n: nat)
    ensures OnGroups(w, batch, data, model, around, n).futures.Keys == w.futures.Keys
  {
    if n > 0 {
      OnGroupsKeys(w, batch, data, model, around, n - 1);
    }
  }

  /** One more group, unless it has all broken down. */
  lemma OneMoreGroup<R>(w: World<R>, batch: seq<R>, data: R -> Req, model: Model, around: Surroundings<R>, n: nat)
    requires n < |Keys(batch, data)| && forall r | r in batch :: r in w.futures
    ensures
      var w1 := OnGroups(w, batch, data, model, around, n);
      && (forall r | r in batch :: r in w1.futures)
      && OnGroups(w, batch, data, model, around, n + 1)
         == if w1.broken then w1 else OnGroup(w1, batch, data, model, around, n)
  {
    OnGroupsKeys(w, batch, data, model, around, n);
  }

  /** A whole iteration: load the model, run every group, and fail whatever an unexpected exception left pending. */
  function OnBatch<R(==)>(w: World<R>, batch: seq<R>, data: R -> Req, load: Option<string>, model: Model,
                      around: Surroundings<R>): (w1: World<R>)
    requires forall r | r in batch :: r in w.futures
    ensures w1.futures.Keys == w.futures.Keys
  {
    var w0 := Elapse(w.(broken := false), around.loading);
    if load.Some? then w0.(futures := FailPending(w0.futures, batch, LoadError(load.value)))
    else
      var w1 := OnGroups(w0, batch, data, model, around, |Keys(batch, data)|);
      OnGroupsKeys(w0, batch, data, model, around, |Keys(batch, data)|);
      if w1.broken then w1.(futures := FailPending(w1.futures, batch, BatchFailed)) else w1
  }
}
