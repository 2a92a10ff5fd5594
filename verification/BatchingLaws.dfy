/**
 What a batch iteration guarantees: every future is completed, each by its own group's call alone, and a result is what
 the request would have got in a batch of its own.
 */
module BatchingLaws {
  import opened Options
  import opened Batching

  // ---- One group ---------------------------------------------------------------------------------------------------

  /** What a pending future becomes when the call of its group came back and it is the `i`-th of `size` requests. */
  function Answer(req: Req, i: nat, size: nat, outcome: ModelOutcome, clock: Clock): Future {
    match outcome
    case Raised(message) => Failed(PredictError(message))
    case Returned(results) =>
      if i >= |results| then Failed(FewerResults)
      else
        Result(BatchResult(OrElse(ToFindings(RawResult(results, i)), []), (clock.batchStart - req.enqueued) * 1000.0,
                           (clock.now - req.enqueued) * 1000.0, size))
  }

  predicate Distinct<R(==)>(rs: seq<R>) {
    forall i, j | 0 <= i < j < |rs| :: rs[i] != rs[j]
  }

  /**
   Only pending futures of the group change; each of them is completed by its own position, or the loop has broken down
   before.
   */
  lemma {:induction false} SettleLaw<R>(w: World<R>, rs: seq<R>, data: R -> Req, results: seq<Option<seq<RawEntity>>>,
                                        clock: Clock, n: nat, r: R)
    requires n <= |rs| && (forall x | x in rs :: x in w.futures) && r in w.futures && !w.broken && Distinct(rs)
    ensures
      var w1 := SettleUpTo(w, rs, data, results, clock, n);
      && (w1.futures[r] != w.futures[r] ==> w.futures[r].Pending? && !w1.futures[r].Pending?)
      && (forall i | 0 <= i < n && rs[i] == r && w.futures[r].Pending? ::
            w1.futures[r] == Answer(data(r), i, |rs|, Returned(results), clock)
            || (w1.broken && w1.futures[r].Pending?))
      && (r !in rs[..n] ==> w1.futures[r] == w.futures[r])
  {
    if n > 0 {
      SettleLaw(w, rs, data, results, clock, n - 1, r);
      assert rs[..n] == rs[..n - 1] + [rs[n - 1]];
      if rs[n - 1] == r {
        assert r !in rs[..n - 1];
      }
    }
  }

  lemma OutcomeLaw<R>(w: World<R>, rs: seq<R>, data: R -> Req, outcome: ModelOutcome, clock: Clock, r: R)
    requires (forall x | x in rs :: x in w.futures) && r in w.futures && !w.broken && Distinct(rs)
    ensures
      var w1 := OnOutcome(w, rs, data, outcome, clock);
      && (w1.futures[r] != w.futures[r] ==> w.futures[r].Pending? && !w1.futures[r].Pending?)
      && (forall i | 0 <= i < |rs| && rs[i] == r && w.futures[r].Pending? ::
            w1.futures[r] == Answer(data(r), i, |rs|, outcome, clock) || (w1.broken && w1.futures[r].Pending?))
      && (r !in rs ==> w1.futures[r] == w.futures[r])
  {
    if outcome.Returned? {
      SettleLaw(w.(counters := RecordBatch(w.counters, |rs|)), rs, data, outcome.results, clock, |rs|, r);
      assert rs[..|rs|] == rs;
    }
  }

  // ---- A whole batch -----------------------------------------------------------------------------------------------

  lemma {:induction false} MembersDistinct<R>(batch: seq<R>, data: R -> Req, key: Key)
    requires Distinct(batch)
    ensures Distinct(Members(batch, data, key))
  {
    if batch != [] {
      var n := |batch| - 1;
      MembersDistinct(batch[..n], data, key);
      MembersOf(batch[..n], data, key);
      assert forall i | 0 <= i < n :: batch[..n][i] == batch[i] && batch[i] != batch[n];
      var ms := Members(batch[..n], data, key);
      assert forall i | 0 <= i < |ms| :: ms[i] in ms && ms[i] in batch[..n];
    }
  }

  /** Request `r` gives up while one of the calls with index below `n` is awaited. */
  ghost predicate GaveUp<R>(around: Surroundings<R>, r: R, n: nat) {
    exists j: nat | j < n :: r in around.calls(j).cancelled
  }

  lemma GaveUpOneMore<R>(around: Surroundings<R>, r: R, n: nat)
    ensures GaveUp(around, r, n + 1) <==> GaveUp(around, r, n) || r in around.calls(n).cancelled
  {
    if r in around.calls(n).cancelled {
      assert n < n + 1;
    }
    if j: nat :| j < n + 1 && r in around.calls(j).cancelled {
      assert j < n || j == n;
    }
  }

  /** Where request `r` stands: it is the `m`-th member of the `k`-th group. */
  ghost predicate StandsAt<R>(batch: seq<R>, data: R -> Req, r: R, k: nat, m: nat) {
    && r in batch
    && k < |Keys(batch, data)| && Keys(batch, data)[k] == KeyOf(data(r))
    && m < |Members(batch, data, KeyOf(data(r)))| && Members(batch, data, KeyOf(data(r)))[m] == r
  }

  lemma StandsSomewhere<R>(batch: seq<R>, data: R -> Req, r: R) returns (k: nat, m: nat)
    requires r in batch
    ensures StandsAt(batch, data, r, k, m)
  {
    KeysOf(batch, data);
    k :| 0 <= k < |Keys(batch, data)| && Keys(batch, data)[k] == KeyOf(data(r));
    MembersOf(batch, data, KeyOf(data(r)));
    m :| 0 <= m < |Members(batch, data, KeyOf(data(r)))| && Members(batch, data, KeyOf(data(r)))[m] == r;
  }

  ghost function AnswerOf<R>(batch: seq<R>, data: R -> Req, model: Model, around: Surroundings<R>, r: R, k: nat,
                             m: nat): Future
    requires StandsAt(batch, data, r, k, m)
  {
    var rs := Members(batch, data, KeyOf(data(r)));
    Answer(data(r), m, |rs|, Call(model, k, rs, data, KeyOf(data(r))), Clock(around.batchStart, around.now(k)))
  }

  /** The future a request is owed: cancelled if its caller gave up in time, else the answer of its own group's call. */
  ghost function Owed<R>(batch: seq<R>, data: R -> Req, model: Model, around: Surroundings<R>, r: R, k: nat,
                         m: nat): Future
    requires StandsAt(batch, data, r, k, m)
  {
    if GaveUp(around, r, k + 1) then Cancelled else AnswerOf(batch, data, model, around, r, k, m)
  }

  /** The future of a request that was pending, once `n` groups have been handled. */
  ghost function Standing<R>(batch: seq<R>, data: R -> Req, model: Model, around: Surroundings<R>, r: R, k: nat, m: nat,
                             n: nat): Future
    requires StandsAt(batch, data, r, k, m)
  {
    if k < n then Owed(batch, data, model, around, r, k, m)
    else if GaveUp(around, r, n) then Cancelled else Pending
  }

  /** What the call of group `g` does to a request that is still waiting. */
  ghost function Turn<R>(batch: seq<R>, data: R -> Req, model: Model, around: Surroundings<R>, r: R, k: nat, m: nat,
                         g: nat): Future
    requires StandsAt(batch, data, r, k, m)
  {
    if r in around.calls(g).cancelled then Cancelled
    else if g != k then Pending
    else AnswerOf(batch, data, model, around, r, k, m)
  }

  /**
   A future goes from `f` to `f1`: done stays done, and what was waiting is now `want`, or still waits in a breakdown.
   */
  predicate Grants(f: Future, f1: Future, broken: bool, want: Future) {
    && (f1 != f ==> f.Pending? && !f1.Pending?)
    && (if f.Pending? then f1 == want || (broken && f1.Pending?) else f1 == f)
  }

  lemma GrantsBoth(f: Future, f1: Future, f2: Future, broken: bool, want: Future, want1: Future)
    requires Grants(f, f1, false, want) && Grants(f1, f2, broken, want1)
    ensures Grants(f, f2, broken, if want.Pending? then want1 else want)
  {
  }

  lemma StandingStep<R>(batch: seq<R>, data: R -> Req, model: Model, around: Surroundings<R>, r: R, k: nat, m: nat,
                        n: nat)
    requires StandsAt(batch, data, r, k, m)
    ensures
      var f := Standing(batch, data, model, around, r, k, m, n);
      Standing(batch, data, model, around, r, k, m, n + 1)
        == if f.Pending? then Turn(batch, data, model, around, r, k, m, n) else f
  {
    GaveUpOneMore(around, r, n);
  }

  lemma GroupLaw<R>(w: World<R>, batch: seq<R>, data: R -> Req, model: Model, around: Surroundings<R>, g: nat, r: R,
                    k: nat, m: nat)
    requires (forall x | x in batch :: x in w.futures) && !w.broken && Distinct(batch)
    requires g < |Keys(batch, data)| && StandsAt(batch, data, r, k, m)
    ensures
      var w1 := OnGroup(w, batch, data, model, around, g);
      Grants(w.futures[r], w1.futures[r], w1.broken, Turn(batch, data, model, around, r, k, m, g))
  {
    var key := Keys(batch, data)[g];
    KeyHasMembers(batch, data, key);
    MembersOf(batch, data, key);
    MembersDistinct(batch, data, key);
    KeysOf(batch, data);
    var rs := Members(batch, data, key);
    OutcomeLaw(Elapse(w, around.calls(g)), rs, data, Call(model, g, rs, data, key),
               Clock(around.batchStart, around.now(g)), r);
    assert r in rs <==> g == k;
  }

  lemma {:induction false} GroupsLaw<R>(w: World<R>, batch: seq<R>, data: R -> Req, model: Model,
                                        around: Surroundings<R>, n: nat, r: R, k: nat, m: nat)
    requires (forall x | x in batch :: x in w.futures) && !w.broken && Distinct(batch)
    requires n <= |Keys(batch, data)| && StandsAt(batch, data, r, k, m)
    ensures
      var w1 := OnGroups(w, batch, data, model, around, n);
      r in w1.futures
      && Grants(w.futures[r], w1.futures[r], w1.broken, Standing(batch, data, model, around, r, k, m, n))
  {
    if n > 0 {
      GroupsLaw(w, batch, data, model, around, n - 1, r, k, m);
      OneMoreGroup(w, batch, data, model, around, n - 1);
      var w1 := OnGroups(w, batch, data, model, around, n - 1);
      StandingStep(batch, data, model, around, r, k, m, n - 1);
      if !w1.broken {
        var w2 := OnGroups(w, batch, data, model, around, n);
        GroupLaw(w1, batch, data, model, around, n - 1, r, k, m);
        GrantsBoth(w.futures[r], w1.futures[r], w2.futures[r], w2.broken,
                   Standing(batch, data, model, around, r, k, m, n - 1),
                   Turn(batch, data, model, around, r, k, m, n - 1));
      }
    }
  }

  /**
   The outcome of a whole iteration for one request.  Nothing that was done is touched; everything that was pending is
   done afterwards, whether or not the model loads, raises, returns too little or returns rubbish; a result describes
   the entities returned at the request's own position, field by field; and what a request gets depends on its own
   group's call and nothing else, unless the iteration breaks down before that.
   */
  lemma BatchLaw<R>(w: World<R>, batch: seq<R>, data: R -> Req, load: Option<string>, model: Model,
                    around: Surroundings<R>, r: R, k: nat, m: nat)
    requires (forall x | x in batch :: x in w.futures) && !w.broken && Distinct(batch) && StandsAt(batch, data, r, k, m)
    ensures
      var f, f1 := w.futures[r], OnBatch(w, batch, data, load, model, around).futures[r];
      && (!f.Pending? ==> f1 == f)
      && !f1.Pending?
      && (f.Pending? && r in around.loading.cancelled ==> f1 == Cancelled)
      && (f.Pending? && r !in around.loading.cancelled && load.Some? ==> f1 == Failed(LoadError(load.value)))
      && (f.Pending? && r !in around.loading.cancelled && load.None? ==>
            || f1 == Owed(batch, data, model, around, r, k, m)
            || (OnBatch(w, batch, data, load, model, around).broken && f1 == Failed(BatchFailed)))
      && (f.Pending? && f1.Result? ==> OwnAt(f1.value, batch, data, model, around, r, k, m))
  {
    if w.futures[r].Pending? {
      ResultIsOwnAt(w, batch, data, load, model, around, r, k, m);
    }
    if load.None? {
      GroupsLaw(Elapse(w, around.loading), batch, data, model, around, |Keys(batch, data)|, r, k, m);
    }
  }

  /** A batch iteration leaves no request of its batch pending, whatever the model and the callers do. */
  lemma BatchCompletes<R>(w: World<R>, batch: seq<R>, data: R -> Req, load: Option<string>, model: Model,
                          around: Surroundings<R>, r: R)
    requires (forall x | x in batch :: x in w.futures) && !w.broken && Distinct(batch) && r in batch
    ensures !OnBatch(w, batch, data, load, model, around).futures[r].Pending?
    ensures !w.futures[r].Pending? ==> OnBatch(w, batch, data, load, model, around).futures[r] == w.futures[r]
  {
    var k, m := StandsSomewhere(batch, data, r);
    BatchLaw(w, batch, data, load, model, around, r, k, m);
  }

  // ---- Counters ----------------------------------------------------------------------------------------------------

  /** A scan is counted, and of all latencies the newest are kept, in order, up to the size of the window. */
  lemma ScanKeepsNewest(c: Counters, latencyMs: real)
    ensures
      var c1 := RecordScan(c, latencyMs);
      var n, n1 := |c.latencies|, |c1.latencies|;
      && c1.scans == c.scans + 1 && c1 == c.(scans := c1.scans, latencies := c1.latencies)
      && n1 == (if n < 4096 then n + 1 else 4096) && c1.latencies[n1 - 1] == latencyMs
      && forall i | 0 <= i < n1 - 1 :: c1.latencies[i] == c.latencies[n - (n1 - 1) + i]
  {
  }

  // ---- What a result holds -----------------------------------------------------------------------------------------

  /** The result is what the call of the request's group returned for its position. */
  ghost predicate FromCall(v: BatchResult, req: Req, i: nat, size: nat, outcome: ModelOutcome, clock: Clock) {
    outcome.Returned? && HandsOut(v, req, i, size, outcome.results, clock)
  }

  lemma {:induction false} SettleHands<R>(w: World<R>, rs: seq<R>, data: R -> Req, results: seq<Option<seq<RawEntity>>>,
                                          clock: Clock, n: nat, r: R)
    requires n <= |rs| && (forall x | x in rs :: x in w.futures) && r in w.futures
    ensures
      var f1 := SettleUpTo(w, rs, data, results, clock, n).futures[r];
      f1.Result? && f1 != w.futures[r] ==>
        exists i | 0 <= i < n && rs[i] == r :: HandsOut(f1.value, data(r), i, |rs|, results, clock)
  {
    if n > 0 {
      SettleHands(w, rs, data, results, clock, n - 1, r);
      var w1 := SettleUpTo(w, rs, data, results, clock, n - 1);
      if rs[n - 1] == r && w1.futures[r].Pending? && !w1.broken {
        SettleOneMeans(w1, r, data(r), n - 1, |rs|, results, clock);
      }
    }
  }

  lemma OutcomeHands<R>(w: World<R>, rs: seq<R>, data: R -> Req, outcome: ModelOutcome, clock: Clock, r: R)
    requires (forall x | x in rs :: x in w.futures) && r in w.futures
    ensures
      var f1 := OnOutcome(w, rs, data, outcome, clock).futures[r];
      f1.Result? && f1 != w.futures[r] ==>
        exists i | 0 <= i < |rs| && rs[i] == r :: FromCall(f1.value, data(r), i, |rs|, outcome, clock)
  {
    if outcome.Returned? {
      SettleHands(w.(counters := RecordBatch(w.counters, |rs|)), rs, data, outcome.results, clock, |rs|, r);
      var f1 := OnOutcome(w, rs, data, outcome, clock).futures[r];
      if f1.Result? && f1 != w.futures[r] {
        var i :| 0 <= i < |rs| && rs[i] == r && HandsOut(f1.value, data(r), i, |rs|, outcome.results, clock);
        assert FromCall(f1.value, data(r), i, |rs|, outcome, clock);
      }
    }
  }

  /** The result is what the call of group `k`, where the request is the `m`-th member, returned for it. */
  ghost predicate OwnAt<R>(v: BatchResult, batch: seq<R>, data: R -> Req, model: Model, around: Surroundings<R>, r: R,
                           k: nat, m: nat) {
    && StandsAt(batch, data, r, k, m)
    && var rs := Members(batch, data, KeyOf(data(r)));
       FromCall(v, data(r), m, |rs|, Call(model, k, rs, data, KeyOf(data(r))), Clock(around.batchStart, around.now(k)))
  }

  /** If the future holds a result, it is the request's own. */
  ghost predicate Own<R>(f: Future, batch: seq<R>, data: R -> Req, model: Model, around: Surroundings<R>, r: R) {
    f.Result? ==> exists k: nat, m: nat :: OwnAt(f.value, batch, data, model, around, r, k, m)
  }

  lemma GroupHands<R>(w: World<R>, batch: seq<R>, data: R -> Req, model: Model, around: Surroundings<R>, g: nat, r: R)
    requires (forall x | x in batch :: x in w.futures) && r in batch && g < |Keys(batch, data)|
    requires Own(w.futures[r], batch, data, model, around, r)
    ensures Own(OnGroup(w, batch, data, model, around, g).futures[r], batch, data, model, around, r)
  {
    var key := Keys(batch, data)[g];
    KeyHasMembers(batch, data, key);
    MembersOf(batch, data, key);
    var rs, w0 := Members(batch, data, key), Elapse(w, around.calls(g));
    var outcome, clock := Call(model, g, rs, data, key), Clock(around.batchStart, around.now(g));
    var f1 := OnOutcome(w0, rs, data, outcome, clock).futures[r];
    OutcomeHands(w0, rs, data, outcome, clock, r);
    if f1.Result? && f1 != w0.futures[r] {
      var i :| 0 <= i < |rs| && rs[i] == r && FromCall(f1.value, data(r), i, |rs|, outcome, clock);
      assert rs[i] in rs;
      assert OwnAt(f1.value, batch, data, model, around, r, g, i);
    }
  }

  lemma {:induction false} GroupsHand<R>(w: World<R>, batch: seq<R>, data: R -> Req, model: Model,
                                         around: Surroundings<R>, n: nat, r: R)
    requires (forall x | x in batch :: x in w.futures) && r in batch && n <= |Keys(batch, data)|
    requires Own(w.futures[r], batch, data, model, around, r)
    ensures r in OnGroups(w, batch, data, model, around, n).futures
    ensures Own(OnGroups(w, batch, data, model, around, n).futures[r], batch, data, model, around, r)
  {
    if n > 0 {
      GroupsHand(w, batch, data, model, around, n - 1, r);
      OneMoreGroup(w, batch, data, model, around, n - 1);
      var w1 := OnGroups(w, batch, data, model, around, n - 1);
      if !w1.broken {
        GroupHands(w1, batch, data, model, around, n - 1, r);
      }
    }
  }

  /**
   However a batch is mixed and however the iteration ends, a result that a request gets in it holds one finding for
   each entity that the call of its own group returned for its own position, field by field.
   */
  lemma ResultsAreOwn<R>(w: World<R>, batch: seq<R>, data: R -> Req, load: Option<string>, model: Model,
                         around: Surroundings<R>, r: R)
    requires (forall x | x in batch :: x in w.futures) && r in batch && w.futures[r].Pending?
    ensures Own(OnBatch(w, batch, data, load, model, around).futures[r], batch, data, model, around, r)
  {
    if load.None? {
      GroupsHand(Elapse(w.(broken := false), around.loading), batch, data, model, around, |Keys(batch, data)|, r);
    }
  }

  lemma StandsOnce<R>(batch: seq<R>, data: R -> Req, r: R, k: nat, m: nat, k1: nat, m1: nat)
    requires Distinct(batch) && StandsAt(batch, data, r, k, m) && StandsAt(batch, data, r, k1, m1)
    ensures k == k1 && m == m1
  {
    KeysOf(batch, data);
    MembersDistinct(batch, data, KeyOf(data(r)));
  }

  lemma ResultIsOwnAt<R>(w: World<R>, batch: seq<R>, data: R -> Req, load: Option<string>, model: Model,
                         around: Surroundings<R>, r: R, k: nat, m: nat)
    requires (forall x | x in batch :: x in w.futures) && Distinct(batch) && StandsAt(batch, data, r, k, m)
    requires w.futures[r].Pending?
    ensures
      var f1 := OnBatch(w, batch, data, load, model, around).futures[r];
      f1.Result? ==> OwnAt(f1.value, batch, data, model, around, r, k, m)
  {
    ResultsAreOwn(w, batch, data, load, model, around, r);
    var f1 := OnBatch(w, batch, data, load, model, around).futures[r];
    if f1.Result? {
      var k1: nat, m1: nat :| OwnAt(f1.value, batch, data, model, around, r, k1, m1);
      StandsOnce(batch, data, r, k, m, k1, m1);
    }
  }

  // ---- When an iteration breaks down -------------------------------------------------------------------------------

  lemma {:induction false} SettleBreaks<R>(w: World<R>, rs: seq<R>, data: R -> Req,
                                           results: seq<Option<seq<RawEntity>>>, clock: Clock, n: nat)
    requires n <= |rs| && (forall x | x in rs :: x in w.futures) && !w.broken && Distinct(rs)
    ensures SettleUpTo(w, rs, data, results, clock, n).broken
            <==> exists i | 0 <= i < n :: w.futures[rs[i]].Pending? && Ruined(results, i)
  {
    if n > 0 {
      SettleBreaks(w, rs, data, results, clock, n - 1);
      var w1, r := SettleUpTo(w, rs, data, results, clock, n - 1), rs[n - 1];
      if !w1.broken {
        SettleLaw(w, rs, data, results, clock, n - 1, r);
        assert r !in rs[..n - 1];
        if w1.futures[r].Pending? {
          SettleOneMeans(w1, r, data(r), n - 1, |rs|, results, clock);
        }
      }
    }
  }

  /** The call of group `k` returns, for a request that still waits for it, an entity that cannot be converted. */
  ghost predicate Ruins<R>(w: World<R>, batch: seq<R>, data: R -> Req, model: Model, around: Surroundings<R>, r: R,
                           k: nat, m: nat) {
    && StandsAt(batch, data, r, k, m)
    && r in w.futures && w.futures[r].Pending? && !GaveUp(around, r, k + 1)
    && var outcome := Call(model, k, Members(batch, data, KeyOf(data(r))), data, KeyOf(data(r)));
       outcome.Returned? && Ruined(outcome.results, m)
  }

  lemma GroupBreaks<R>(w: World<R>, batch: seq<R>, data: R -> Req, model: Model, around: Surroundings<R>, g: nat)
    requires (forall x | x in batch :: x in w.futures) && !w.broken && Distinct(batch) && g < |Keys(batch, data)|
    ensures
      var rs := Members(batch, data, Keys(batch, data)[g]);
      && rs != []
      && (OnGroup(w, batch, data, model, around, g).broken
          <==> var outcome := Call(model, g, rs, data, Keys(batch, data)[g]);
               outcome.Returned? && exists m | 0 <= m < |rs| ::
                 rs[m] in w.futures && w.futures[rs[m]].Pending? && rs[m] !in around.calls(g).cancelled
                 && Ruined(outcome.results, m))
  {
    var key := Keys(batch, data)[g];
    KeyHasMembers(batch, data, key);
    MembersOf(batch, data, key);
    MembersDistinct(batch, data, key);
    var rs, w0 := Members(batch, data, key), Elapse(w, around.calls(g));
    var outcome := Call(model, g, rs, data, key);
    assert forall m | 0 <= m < |rs| :: rs[m] in rs;
    if outcome.Returned? {
      SettleBreaks(w0.(counters := RecordBatch(w0.counters, |rs|)), rs, data, outcome.results,
                   Clock(around.batchStart, around.now(g)), |rs|);
    }
  }

  /** Whether a request still waits when the call of its group comes back, seen from the state before the group. */
  lemma StillWaits<R>(w: World<R>, w1: World<R>, batch: seq<R>, data: R -> Req, model: Model, around: Surroundings<R>,
                      r: R, k: nat, m: nat)
    requires StandsAt(batch, data, r, k, m) && r in w.futures && r in w1.futures
    requires Grants(w.futures[r], w1.futures[r], false, Standing(batch, data, model, around, r, k, m, k))
    ensures w1.futures[r].Pending? && r !in around.calls(k).cancelled
            <==> w.futures[r].Pending? && !GaveUp(around, r, k + 1)
  {
    GaveUpOneMore(around, r, k);
  }

  lemma OneMoreBreaks<R>(w: World<R>, batch: seq<R>, data: R -> Req, model: Model, around: Surroundings<R>, g: nat)
    requires (forall x | x in batch :: x in w.futures) && !w.broken && Distinct(batch) && g < |Keys(batch, data)|
    requires !OnGroups(w, batch, data, model, around, g).broken
    ensures OnGroups(w, batch, data, model, around, g + 1).broken
            <==> exists r, m: nat :: Ruins(w, batch, data, model, around, r, g, m)
  {
    OneMoreGroup(w, batch, data, model, around, g);
    var w1, key := OnGroups(w, batch, data, model, around, g), Keys(batch, data)[g];
    var rs := Members(batch, data, key);
    GroupBreaks(w1, batch, data, model, around, g);
    MembersOf(batch, data, key);
    forall m | 0 <= m < |rs|
      ensures
        StandsAt(batch, data, rs[m], g, m) && rs[m] in w.futures && rs[m] in w1.futures
        && (w1.futures[rs[m]].Pending? && rs[m] !in around.calls(g).cancelled
            <==> w.futures[rs[m]].Pending? && !GaveUp(around, rs[m], g + 1))
    {
      assert rs[m] in rs;
      GroupsLaw(w, batch, data, model, around, g, rs[m], g, m);
      StillWaits(w, w1, batch, data, model, around, rs[m], g, m);
    }
    if OnGroups(w, batch, data, model, around, g + 1).broken {
      var outcome := Call(model, g, rs, data, key);
      var m :| 0 <= m < |rs| && rs[m] in w1.futures && w1.futures[rs[m]].Pending?
               && rs[m] !in around.calls(g).cancelled && Ruined(outcome.results, m);
      assert Ruins(w, batch, data, model, around, rs[m], g, m);
    }
  }

  /** One of the calls with index below `n` does that. */
  ghost predicate RuinedBefore<R>(w: World<R>, batch: seq<R>, data: R -> Req, model: Model, around: Surroundings<R>,
                                  n: nat) {
    exists r, k: nat, m: nat | r in batch && k < n :: Ruins(w, batch, data, model, around, r, k, m)
  }

  lemma RuinedOneMore<R>(w: World<R>, batch: seq<R>, data: R -> Req, model: Model, around: Surroundings<R>, n: nat)
    ensures RuinedBefore(w, batch, data, model, around, n + 1)
            <==> RuinedBefore(w, batch, data, model, around, n)
                 || exists r, m: nat :: Ruins(w, batch, data, model, around, r, n, m)
  {
    if r, m: nat :| Ruins(w, batch, data, model, around, r, n, m) {
      assert n < n + 1;
    }
    if r, k: nat, m: nat :| k < n + 1 && Ruins(w, batch, data, model, around, r, k, m) {
      assert k < n || k == n;
    }
  }

  lemma {:induction false} GroupsBreak<R>(w: World<R>, batch: seq<R>, data: R -> Req, model: Model,
                                          around: Surroundings<R>, n: nat)
    requires (forall x | x in batch :: x in w.futures) && !w.broken && Distinct(batch) && n <= |Keys(batch, data)|
    ensures OnGroups(w, batch, data, model, around, n).broken
            <==> RuinedBefore(w, batch, data, model, around, n)
  {
    if n > 0 {
      GroupsBreak(w, batch, data, model, around, n - 1);
      RuinedOneMore(w, batch, data, model, around, n - 1);
      OneMoreGroup(w, batch, data, model, around, n - 1);
      if !OnGroups(w, batch, data, model, around, n - 1).broken {
        OneMoreBreaks(w, batch, data, model, around, n - 1);
      }
    }
  }

  /**
   An iteration breaks down if and only if the model is loaded and some call returns an entity that cannot be converted,
   in the entry of a request that still waits.
   */
  lemma BreakdownMeans<R>(w: World<R>, batch: seq<R>, data: R -> Req, load: Option<string>, model: Model,
                          around: Surroundings<R>)
    requires (forall x | x in batch :: x in w.futures) && Distinct(batch)
    ensures OnBatch(w, batch, data, load, model, around).broken
            <==> load.None?
                 && exists r, k: nat, m: nat ::
                   r !in around.loading.cancelled && Ruins(w, batch, data, model, around, r, k, m)
  {
    var w0 := Elapse(w.(broken := false), around.loading);
    if load.None? {
      GroupsBreak(w0, batch, data, model, around, |Keys(batch, data)|);
      forall r, k: nat, m: nat
        ensures Ruins(w0, batch, data, model, around, r, k, m)
                <==> r !in around.loading.cancelled && Ruins(w, batch, data, model, around, r, k, m)
      {
      }
      if r, k: nat, m: nat :| r !in around.loading.cancelled && Ruins(w, batch, data, model, around, r, k, m) {
        assert Ruins(w0, batch, data, model, around, r, k, m);
      }
      if r, k: nat, m: nat :| Ruins(w0, batch, data, model, around, r, k, m) {
        assert Ruins(w, batch, data, model, around, r, k, m);
      }
    }
  }

  /** A request whose own entry cannot be converted does not get a result, whatever else the model returned. */
  lemma RuinedFails<R>(w: World<R>, batch: seq<R>, data: R -> Req, model: Model, around: Surroundings<R>, r: R, k: nat,
                       m: nat)
    requires (forall x | x in batch :: x in w.futures) && !w.broken && Distinct(batch)
    requires r !in around.loading.cancelled && Ruins(w, batch, data, model, around, r, k, m)
    ensures OnBatch(w, batch, data, None, model, around).broken
    ensures OnBatch(w, batch, data, None, model, around).futures[r] == Failed(BatchFailed)
  {
    BreakdownMeans(w, batch, data, None, model, around);
    BatchLaw(w, batch, data, None, model, around, r, k, m);
    var outcome := Call(model, k, Members(batch, data, KeyOf(data(r))), data, KeyOf(data(r)));
    var f1 := OnBatch(w, batch, data, None, model, around).futures[r];
    if f1.Result? {
      HandedIsWellFormed(f1.value, data(r), m, |Members(batch, data, KeyOf(data(r)))|, outcome.results,
                         Clock(around.batchStart, around.now(k)));
    }
  }

  // ---- Results are those of a scan alone ---------------------------------------------------------------------------

  type Score = (string, set<string>, real) -> seq<RawEntity>

  /** The model scores each text by itself, and looks at the labels as a set. */
  ghost predicate Pointwise(model: Model, score: Score) {
    forall k, texts, labels, threshold ::
             PointwiseOutcome(model(k, texts, labels, threshold), texts, labels, threshold, score)
  }

  ghost predicate PointwiseOutcome(outcome: ModelOutcome, texts: seq<string>, labels: seq<string>, threshold: real,
                                   score: Score) {
    outcome.Returned? ==>
      forall i | 0 <= i < |outcome.results| && i < |texts| ::
        IsEntry(outcome.results, i, score(texts[i], LabelSet(labels), threshold))
  }

  /** If the future holds a result, it describes the request's own score, entity by entity. */
  ghost predicate Scored(f: Future, req: Req, score: Score) {
    f.Result? ==> Converted(score(req.text, LabelSet(req.labels), req.threshold), f.value.findings)
  }

  /** A result of a pointwise call is the score of the request at that position. */
  lemma CallScored<R>(v: BatchResult, rs: seq<R>, data: R -> Req, key: Key, outcome: ModelOutcome, clock: Clock, i: nat,
                      score: Score)
    requires i < |rs| && KeyOf(data(rs[0])) == key && KeyOf(data(rs[i])) == key
    requires PointwiseOutcome(outcome, Texts(rs, data), data(rs[0]).labels, key.threshold, score)
    requires FromCall(v, data(rs[i]), i, |rs|, outcome, clock)
    ensures Scored(Result(v), data(rs[i]), score)
  {
    var es :| IsEntry(outcome.results, i, es) && Converted(es, v.findings);
    assert Texts(rs, data)[i] == data(rs[i]).text;
    assert IsEntry(outcome.results, i, score(Texts(rs, data)[i], LabelSet(data(rs[0]).labels), key.threshold));
  }

  lemma OutcomeScored<R>(w: World<R>, batch: seq<R>, data: R -> Req, key: Key, outcome: ModelOutcome, clock: Clock,
                         r: R, score: Score)
    requires (forall x | x in batch :: x in w.futures) && r in w.futures && Members(batch, data, key) != []
    requires
      var rs := Members(batch, data, key);
      PointwiseOutcome(outcome, Texts(rs, data), data(rs[0]).labels, key.threshold, score)
    requires Scored(w.futures[r], data(r), score)
    ensures forall x | x in Members(batch, data, key) :: x in w.futures
    ensures Scored(OnOutcome(w, Members(batch, data, key), data, outcome, clock).futures[r], data(r), score)
  {
    var rs := Members(batch, data, key);
    MembersOf(batch, data, key);
    assert forall i | 0 <= i < |rs| :: rs[i] in rs && KeyOf(data(rs[i])) == key;
    OutcomeHands(w, rs, data, outcome, clock, r);
    var f1 := OnOutcome(w, rs, data, outcome, clock).futures[r];
    if f1.Result? && f1 != w.futures[r] {
      var i :| 0 <= i < |rs| && rs[i] == r && FromCall(f1.value, data(r), i, |rs|, outcome, clock);
      CallScored(f1.value, rs, data, key, outcome, clock, i, score);
    }
  }

  /** However a batch is mixed, a result in it describes the request's own score. */
  lemma ResultsAreScores<R>(w: World<R>, batch: seq<R>, data: R -> Req, load: Option<string>, model: Model,
                            around: Surroundings<R>, r: R, score: Score)
    requires (forall x | x in batch :: x in w.futures) && r in batch && w.futures[r].Pending? && Pointwise(model, score)
    ensures Scored(OnBatch(w, batch, data, load, model, around).futures[r], data(r), score)
  {
    ResultsAreOwn(w, batch, data, load, model, around, r);
    var f := OnBatch(w, batch, data, load, model, around).futures[r];
    if f.Result? {
      var k: nat, m: nat :| OwnAt(f.value, batch, data, model, around, r, k, m);
      var key := KeyOf(data(r));
      var rs := Members(batch, data, key);
      MembersOf(batch, data, key);
      assert rs[0] in rs && rs[m] == r;
      var outcome := Call(model, k, rs, data, key);
      assert PointwiseOutcome(outcome, Texts(rs, data), data(rs[0]).labels, key.threshold, score);
      CallScored(f.value, rs, data, key, outcome, Clock(around.batchStart, around.now(k)), m, score);
    }
  }

  /** The model answers the call for this request alone. */
  predicate AnswersAlone(model: Model, req: Req) {
    var outcome := model(0, [req.text], req.labels, req.threshold);
    outcome.Returned? && |outcome.results| >= 1
  }

  /** While a batch of `r` alone is loaded and called, its caller does not give up. */
  predicate Patient<R(==)>(around: Surroundings<R>, r: R) {
    r !in around.loading.cancelled && r !in around.calls(0).cancelled
  }

  lemma AloneStands<R>(data: R -> Req, r: R)
    ensures Keys([r], data) == [KeyOf(data(r))] && Members([r], data, KeyOf(data(r))) == [r]
    ensures StandsAt([r], data, r, 0, 0)
  {
    assert [r][..0] == [];
  }

  lemma Alone<R>(w: World<R>, data: R -> Req, model: Model, quiet: Surroundings<R>, r: R, outcome: ModelOutcome)
    requires r in w.futures && w.futures[r].Pending? && Patient(quiet, r)
    requires outcome == model(0, [data(r).text], data(r).labels, data(r).threshold)
    requires outcome.Returned? && |outcome.results| >= 1 && !Ruined(outcome.results, 0)
    ensures
      var f := OnBatch(w, [r], data, None, model, quiet).futures[r];
      f.Result? && HandsOut(f.value, data(r), 0, 1, outcome.results, Clock(quiet.batchStart, quiet.now(0)))
  {
    AloneStands(data, r);
    assert Texts([r], data) == [data(r).text];
    var w0 := Elapse(w.(broken := false), quiet.loading);
    assert OnGroups(w0, [r], data, model, quiet, 0) == w0;
    assert OnGroups(w0, [r], data, model, quiet, 1) == OnGroup(w0, [r], data, model, quiet, 0);
    var w1, clock := Elapse(w0, quiet.calls(0)), Clock(quiet.batchStart, quiet.now(0));
    var w2 := w1.(counters := RecordBatch(w1.counters, 1));
    assert SettleUpTo(w2, [r], data, outcome.results, clock, 0) == w2;
    SettleOneMeans(w2, r, data(r), 0, 1, outcome.results, clock);
  }

  /**
   Batching refines scanning alone: a request that gets a result in some batch gets the same findings in a batch that
   holds nothing else, with its own labels in its own order and its own threshold.
   */
  lemma BatchingRefinesAlone<R>(w: World<R>, batch: seq<R>, data: R -> Req, load: Option<string>, model: Model,
                                around: Surroundings<R>, quiet: Surroundings<R>, r: R, score: Score)
    requires (forall x | x in batch :: x in w.futures) && !w.broken && r in batch && w.futures[r].Pending?
    requires Pointwise(model, score) && AnswersAlone(model, data(r)) && Patient(quiet, r)
    requires OnBatch(w, batch, data, load, model, around).futures[r].Result?
    ensures
      var mixed := OnBatch(w, batch, data, load, model, around).futures[r];
      var alone := OnBatch(w, [r], data, None, model, quiet).futures[r];
      && alone.Result? && alone.value.findings == mixed.value.findings && alone.value.batchSize == 1
      && Converted(score(data(r).text, LabelSet(data(r).labels), data(r).threshold), alone.value.findings)
  {
    ResultsAreScores(w, batch, data, load, model, around, r, score);
    var req := data(r);
    var outcome := model(0, [req.text], req.labels, req.threshold);
    assert PointwiseOutcome(outcome, [req.text], req.labels, req.threshold, score);
    var es := score(req.text, LabelSet(req.labels), req.threshold);
    assert IsEntry(outcome.results, 0, score([req.text][0], LabelSet(req.labels), req.threshold));
    var mixed := OnBatch(w, batch, data, load, model, around).futures[r];
    ConvertedIsWellFormed(es, mixed.value.findings);
    Alone(w, data, model, quiet, r, outcome);
    var alone := OnBatch(w, [r], data, None, model, quiet).futures[r];
    ConvertedUnique(es, mixed.value.findings, alone.value.findings);
  }
}
