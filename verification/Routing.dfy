/**
 Least-queue-depth routing with round-robin tie-break (`pick_replica` and the enqueue of `submit`,
 dlp_service/server.py), on the sequence of queue depths.
 */
module Routing {
  import opened Arithmetic

  function MinOf(depths: seq<nat>): (m: nat)
    requires depths != []
    ensures m in depths
    ensures forall i | 0 <= i < |depths| :: m <= depths[i]
  {
    var last := depths[|depths| - 1];
    if |depths| == 1 then last else
      var before := MinOf(depths[..|depths| - 1]);
      if last < before then last else before
  }

  /** The positions that hold `depth`, in ascending order. */
  function Positions(depths: seq<nat>, depth: nat): (ps: seq<nat>)
    ensures forall i :: i in ps <==> 0 <= i < |depths| && depths[i] == depth
  {
    if depths == [] then [] else
      var n := |depths| - 1;
      var before := Positions(depths[..n], depth);
      assert forall i | 0 <= i < n :: depths[..n][i] == depths[i];
      if depths[n] == depth then before + [n] else before
  }

  function Candidates(depths: seq<nat>): (ps: seq<nat>)
    requires depths != []
    ensures ps != []
  {
    var ps := Positions(depths, MinOf(depths));
    var i :| 0 <= i < |depths| && depths[i] == MinOf(depths);
    assert i in ps;
    ps
  }

  function NextTurn(depths: seq<nat>, rr: nat): nat
    requires depths != []
  {
    (rr + 1) % |Candidates(depths)|
  }

  function Pick(depths: seq<nat>, rr: nat): (p: nat)
    requires depths != []
    ensures p < |depths| && forall i | 0 <= i < |depths| :: depths[p] <= depths[i]
  {
    var ps := Candidates(depths);
    assert ps[NextTurn(depths, rr)] in ps;
    ps[NextTurn(depths, rr)]
  }

  datatype Queues = Queues(depths: seq<nat>, rr: nat)

  /** A submission is turned away when the picked queue is full. */
  predicate Rejects(q: Queues, cap: nat)
    requires q.depths != []
  {
    q.depths[Pick(q.depths, q.rr)] >= cap
  }

  function Submit(q: Queues, cap: nat): Queues
    requires q.depths != []
  {
    var p := Pick(q.depths, q.rr);
    Queues(if Rejects(q, cap) then q.depths else q.depths[p := q.depths[p] + 1], NextTurn(q.depths, q.rr))
  }

  function SubmitTimes(q: Queues, cap: nat, k: nat): (r: Queues)
    requires q.depths != []
    ensures |r.depths| == |q.depths|
  {
    if k == 0 then q else Submit(SubmitTimes(q, cap, k - 1), cap)
  }

  function Sum(s: seq<nat>): nat {
    if s == [] then 0 else Sum(s[..|s| - 1]) + s[|s| - 1]
  }

  /** A submission is turned away exactly when every queue is full. */
  lemma RejectsOnlyAtCapacity(q: Queues, cap: nat)
    requires q.depths != []
    ensures Rejects(q, cap) <==> forall i | 0 <= i < |q.depths| :: q.depths[i] >= cap
  {
    var p := Pick(q.depths, q.rr);
    assert q.depths[p] >= cap ==> forall i | 0 <= i < |q.depths| :: q.depths[i] >= cap;
  }

  lemma {:induction false} SumUpdate(s: seq<nat>, p: nat, x: nat)
    requires p < |s|
    ensures Sum(s[p := x]) == Sum(s) - s[p] + x
  {
    var n := |s| - 1;
    if p < n {
      assert s[p := x][..n] == s[..n][p := x];
      SumUpdate(s[..n], p, x);
    } else {
      assert s[p := x][..n] == s[..n];
    }
  }

  /** All depths are `low` or one more, and not all of them one more. */
  ghost predicate Level(depths: seq<nat>, low: nat) {
    (exists i | 0 <= i < |depths| :: depths[i] == low) &&
    forall i | 0 <= i < |depths| :: low <= depths[i] <= low + 1
  }

  lemma {:induction false} SumBounds(s: seq<nat>, low: nat)
    requires forall i | 0 <= i < |s| :: low <= s[i] <= low + 1
    ensures low * |s| <= Sum(s) <= low * |s| + |s|
    ensures (exists i | 0 <= i < |s| :: s[i] == low) ==> Sum(s) < low * |s| + |s|
    ensures (exists i | 0 <= i < |s| :: s[i] > low) ==> Sum(s) > low * |s|
  {
    if s != [] {
      var n := |s| - 1;
      SumBounds(s[..n], low);
      assert low * |s| == low * n + low;
      if i :| 0 <= i < |s| && s[i] == low {
        assert i < n ==> s[..n][i] == low;
      }
      if i :| 0 <= i < |s| && s[i] > low {
        assert i < n ==> s[..n][i] > low;
      }
    }
  }

  lemma {:induction false} AllEqual(s: seq<nat>, v: nat)
    requires forall i | 0 <= i < |s| :: s[i] == v
    ensures Sum(s) == v * |s|
  {
    if s != [] {
      AllEqual(s[..|s| - 1], v);
      assert v * |s| == v * (|s| - 1) + v;
    }
  }

  lemma DivisionIs(sum: nat, low: nat, n: nat)
    requires n > 0 && low * n <= sum < low * n + n
    ensures sum / n == low
    ensures sum % n == sum - low * n
  {
    var q := sum / n;
    assert sum == q * n + sum % n;
    TimesOrder(q + 1, low, n);
    TimesOrder(low + 1, q, n);
  }

  /** `waiting` requests wait in queues of capacity `cap` whose depths differ by at most one. */
  ghost predicate Steady(depths: seq<nat>, cap: nat, waiting: nat, low: nat) {
    && depths != []
    && Level(depths, low)
    && Sum(depths) == waiting
    && forall i | 0 <= i < |depths| :: depths[i] <= cap
  }

  lemma SteadyMeans(depths: seq<nat>, cap: nat, waiting: nat, low: nat)
    requires Steady(depths, cap, waiting, low)
    ensures waiting / |depths| == low <= cap
    ensures waiting % |depths| == 0 ==> forall i | 0 <= i < |depths| :: depths[i] == low
    ensures waiting <= |depths| * cap
    ensures waiting == |depths| * cap <==> low == cap
  {
    SumBounds(depths, low);
    DivisionIs(waiting, low, |depths|);
    if low == cap {
      assert forall i | 0 <= i < |depths| :: depths[i] == low;
      AllEqual(depths, low);
    } else {
      TimesOrder(low + 1, cap, |depths|);
      assert (low + 1) * |depths| == low * |depths| + |depths|;
    }
  }

  lemma SteadyStep(q: Queues, cap: nat, waiting: nat, low: nat) returns (low1: nat)
    requires Steady(q.depths, cap, waiting, low)
    ensures Rejects(q, cap) <==> waiting == |q.depths| * cap
    ensures Steady(Submit(q, cap).depths, cap, if Rejects(q, cap) then waiting else waiting + 1, low1)
  {
    SteadyMeans(q.depths, cap, waiting, low);
    var p := Pick(q.depths, q.rr);
    var i :| 0 <= i < |q.depths| && q.depths[i] == low;
    assert q.depths[p] == low;
    SumUpdate(q.depths, p, low + 1);
    var after := Submit(q, cap).depths;
    low1 := low;
    if !Rejects(q, cap) && forall j | 0 <= j < |after| :: after[j] != low {
      low1 := low + 1;
      assert after[p] == low1;
    }
  }

  lemma {:induction false} SteadyRun(replicas: nat, cap: nat, rr: nat, k: nat) returns (low: nat)
    requires replicas > 0
    ensures Steady(SubmitTimes(Queues(seq(replicas, _ => 0), rr), cap, k).depths, cap,
                   if k <= replicas * cap then k else replicas * cap, low)
  {
    var start := Queues(seq(replicas, _ => 0), rr);
    if k == 0 {
      low := 0;
      assert start.depths[0] == 0;
      AllEqual(start.depths, 0);
    } else {
      var low0 := SteadyRun(replicas, cap, rr, k - 1);
      low := SteadyStep(SubmitTimes(start, cap, k - 1), cap,
                        if k - 1 <= replicas * cap then k - 1 else replicas * cap, low0);
    }
  }

  /**
   k submissions into empty queues, with none taken out: all of them wait until the total capacity is reached and no
   more than that ever do; every queue holds the floor or the ceiling of the average; the next submission is turned away
   exactly when the total capacity is used up.
   */
  lemma Balanced(replicas: nat, cap: nat, rr: nat, k: nat)
    requires replicas > 0
    ensures
      var q := SubmitTimes(Queues(seq(replicas, _ => 0), rr), cap, k);
      var waiting := if k <= replicas * cap then k else replicas * cap;
      var floor := waiting / replicas;
      var ceiling := if waiting % replicas == 0 then floor else floor + 1;
      && Sum(q.depths) == waiting
      && (forall i | 0 <= i < replicas :: floor <= q.depths[i] <= ceiling)
      && (Rejects(q, cap) <==> k >= replicas * cap)
  {
    var q := SubmitTimes(Queues(seq(replicas, _ => 0), rr), cap, k);
    var waiting := if k <= replicas * cap then k else replicas * cap;
    var low := SteadyRun(replicas, cap, rr, k);
    SteadyMeans(q.depths, cap, waiting, low);
    var _ := SteadyStep(q, cap, waiting, low);
  }

  // ---- The tie-break -----------------------------------------------------------------------------------------------

  /** The turn after `j` picks at the same depths. */
  function TurnAfter(depths: seq<nat>, rr: nat, j: nat): nat
    requires depths != []
  {
    if j == 0 then rr else NextTurn(depths, TurnAfter(depths, rr, j - 1))
  }

  lemma NextRemainder(a: nat, n: nat)
    requires n > 0
    ensures (a % n + 1) % n == (a + 1) % n
  {
    var q, r := a / n, a % n;
    assert a == q * n + r;
    if r + 1 < n {
      DivisionIs(a + 1, q, n);
    } else {
      assert (q + 1) * n == q * n + n;
      DivisionIs(a + 1, q + 1, n);
    }
  }

  lemma RemaindersDiffer(a: nat, d: nat, n: nat)
    requires 0 < d < n
    ensures (a + d) % n != a % n
  {
    var q, r := a / n, a % n;
    assert a == q * n + r;
    if r + d < n {
      DivisionIs(a + d, q, n);
    } else {
      assert (q + 1) * n == q * n + n;
      DivisionIs(a + d, q + 1, n);
    }
  }

  lemma {:induction false} TurnIs(depths: seq<nat>, rr: nat, j: nat)
    requires depths != [] && j > 0
    ensures TurnAfter(depths, rr, j) == (rr + j) % |Candidates(depths)|
  {
    if j > 1 {
      TurnIs(depths, rr, j - 1);
      NextRemainder(rr + j - 1, |Candidates(depths)|);
    } else {
      assert TurnAfter(depths, rr, 0) == rr;
    }
  }

  lemma {:induction false} PositionsDistinct(depths: seq<nat>, depth: nat)
    ensures forall i, j | 0 <= i < j < |Positions(depths, depth)| ::
              Positions(depths, depth)[i] != Positions(depths, depth)[j]
  {
    if depths != [] {
      var n := |depths| - 1;
      PositionsDistinct(depths[..n], depth);
      var before := Positions(depths[..n], depth);
      forall i | 0 <= i < |before| ensures before[i] < n {
        assert before[i] in before;
      }
    }
  }

  /** Among equally short queues the picks go round: none is picked twice before all have been picked. */
  lemma TiesGoRound(depths: seq<nat>, rr: nat, j: nat, k: nat)
    requires depths != [] && j < k < j + |Candidates(depths)|
    ensures Pick(depths, TurnAfter(depths, rr, j)) != Pick(depths, TurnAfter(depths, rr, k))
  {
    var c := Candidates(depths);
    TurnIs(depths, rr, j + 1);
    TurnIs(depths, rr, k + 1);
    RemaindersDiffer(rr + j + 1, k - j, |c|);
    PositionsDistinct(depths, MinOf(depths));
    var x, y := (rr + j + 1) % |c|, (rr + k + 1) % |c|;
    assert Pick(depths, TurnAfter(depths, rr, j)) == c[x] && Pick(depths, TurnAfter(depths, rr, k)) == c[y];
    assert x != y;
  }
}
