/**
 Waiting until the alert count stops moving (`_drain_async` in dlp_harness/e2e.py, `measure_drain` in
 dlp_harness/load.py). The database answers and the clock readings are arbitrary, except that the clock passes the
 timeout at some time.
 */
module Drain {
  import opened Options

  /** From reading `late` on, the timeout has passed. */
  ghost predicate TimesOut(clock: nat -> real, start: real, timeout: real, late: nat) {
    forall n: nat | n >= late :: clock(n) - start >= timeout
  }

  // ---- Which clock reading follows which poll ----------------------------------------------------------------------

  /** How often the answer has moved up to poll `n`. */
  function Moves(count: nat -> int, n: nat): nat {
    if n == 0 then 0 else Moves(count, n - 1) + if count(n) != count(n - 1) then 1 else 0
  }

  /** The poll since which the answer is what it is at poll `n`. */
  function FirstOf(count: nat -> int, n: nat): (first: nat)
    ensures first <= n
  {
    if n == 0 || count(n) != count(n - 1) then n else FirstOf(count, n - 1)
  }

  /**
   The reading that is taken right after the poll since which the answer is what it is at poll `n`. There is one reading
   for each check and one for each move; `reading` is the first of all, taken after poll 0.
   */
  function Since(count: nat -> int, reading: nat, n: nat): nat {
    reading + FirstOf(count, n) + Moves(count, FirstOf(count, n))
  }

  /** The reading that is checked after poll `n`. */
  function Now(count: nat -> int, reading: nat, n: nat): nat {
    reading + 1 + n + Moves(count, n)
  }

  /** After poll `n`, the answer has not moved for the settling time. */
  predicate Settles(count: nat -> int, clock: nat -> real, reading: nat, settle: real, n: nat) {
    clock(Now(count, reading, n)) - clock(Since(count, reading, n)) >= settle
  }

  /** After poll `n`, the timeout has passed. */
  predicate Late(count: nat -> int, clock: nat -> real, reading: nat, start: real, timeout: real, n: nat) {
    clock(Now(count, reading, n)) - start >= timeout
  }

  /** Poll `last` is the first after which the answer has settled or the timeout has passed; settling counts first. */
  predicate IsEnd(last: nat, settled: bool, count: nat -> int, clock: nat -> real, reading: nat, start: real,
                  timeout: real, settle: real) {
    && (forall n | 0 <= n < last ::
          !Settles(count, clock, reading, settle, n) && !Late(count, clock, reading, start, timeout, n))
    && (settled <==> Settles(count, clock, reading, settle, last))
    && (settled || Late(count, clock, reading, start, timeout, last))
  }

  // ---- What that means ---------------------------------------------------------------------------------------------

  /** From that poll on the answers are the same, and the one before is another. */
  lemma {:induction false} FirstOfIsFirst(count: nat -> int, n: nat)
    ensures forall k | FirstOf(count, n) <= k <= n :: count(k) == count(n)
    ensures FirstOf(count, n) > 0 ==> count(FirstOf(count, n) - 1) != count(FirstOf(count, n))
    ensures Moves(count, n) == Moves(count, FirstOf(count, n))
  {
    if n > 0 && count(n) == count(n - 1) {
      FirstOfIsFirst(count, n - 1);
    }
  }

  /**
   A drain that has settled has seen one and the same answer in every poll of a stretch that ends with the last one; the
   stretch is as long as it can be, and between the readings after its first and its last poll lies the settling time.
   */
  lemma SettledMeansStill(last: nat, count: nat -> int, clock: nat -> real, reading: nat, start: real, timeout: real,
                          settle: real)
    requires IsEnd(last, true, count, clock, reading, start, timeout, settle)
    ensures
      var first := FirstOf(count, last);
      && (forall k | first <= k <= last :: count(k) == count(last))
      && (first > 0 ==> count(first - 1) != count(first))
      && Now(count, reading, last) == Since(count, reading, last) + (last - first) + 1
      && clock(Now(count, reading, last)) - clock(Since(count, reading, last)) >= settle
  {
    FirstOfIsFirst(count, last);
  }

  /** At a poll that moves the answer the settling starts again: only the reading right before the check counts. */
  lemma MoveRestartsSettling(n: nat, count: nat -> int, clock: nat -> real, reading: nat, settle: real)
    requires n > 0 && count(n) != count(n - 1)
    ensures Settles(count, clock, reading, settle, n)
            <==> clock(Now(count, reading, n)) - clock(Now(count, reading, n) - 1) >= settle
  {
    assert FirstOf(count, n) == n;
    assert Now(count, reading, n) == Since(count, reading, n) + 1;
  }

  /** Answers and readings decide how a drain ends. */
  lemma EndUnique(a: nat, settledA: bool, b: nat, settledB: bool, count: nat -> int, clock: nat -> real, reading: nat,
                  start: real, timeout: real, settle: real)
    requires IsEnd(a, settledA, count, clock, reading, start, timeout, settle)
    requires IsEnd(b, settledB, count, clock, reading, start, timeout, settle)
    ensures a == b && settledA == settledB
  {
    assert a < b ==> !Settles(count, clock, reading, settle, a) && !Late(count, clock, reading, start, timeout, a);
    assert b < a ==> !Settles(count, clock, reading, settle, b) && !Late(count, clock, reading, start, timeout, b);
  }

  // ---- The loops ---------------------------------------------------------------------------------------------------

  /** The polling loop of both functions; `reading` clock readings have been taken before it. */
  method Watch(count: nat -> int, clock: nat -> real, reading: nat, start: real, timeout: real, settle: real,
               ghost late: nat)
    returns (settled: bool, last: nat, lastCount: int, lastChange: real, now: real, readings: nat)
    requires TimesOut(clock, start, timeout, late)
    ensures IsEnd(last, settled, count, clock, reading, start, timeout, settle)
    ensures lastCount == count(last) && lastChange == clock(Since(count, reading, last))
    ensures now == clock(Now(count, reading, last)) && readings == Now(count, reading, last) + 1
  {
    last, lastCount, lastChange := 0, count(0), clock(reading);
    readings, settled, now := reading + 1, false, lastChange;
    while true
      invariant !settled && readings == Now(count, reading, last)
      invariant lastCount == count(last) && lastChange == clock(Since(count, reading, last))
      invariant forall n | 0 <= n < last ::
                  !Settles(count, clock, reading, settle, n) && !Late(count, clock, reading, start, timeout, n)
      decreases if late >= readings then late - readings + 1 else 0
    {
      now := clock(readings);
      readings := readings + 1;
      if now - lastChange >= settle {
        settled := true;
        return;
      }
      if now - start >= timeout {
        return;
      }
      last := last + 1;
      var current := count(last);
      if current != lastCount {
        lastCount, lastChange := current, clock(readings);
        readings := readings + 1;
      }
    }
  }

  /** The time of the last send, or the drain's own first reading. */
  function StartOf(clock: nat -> real, started: Option<real>): real {
    if started.Some? then started.value else clock(0)
  }

  /** How many readings have been taken before the polling. */
  function FirstReading(started: Option<real>): nat {
    if started.Some? then 0 else 1
  }

  /** `_drain_async`: without requests there is nothing to wait for. */
  method DrainAlerts(ids: seq<int>, count: nat -> int, clock: nat -> real, started: Option<real>, timeout: real,
                     settle: real, ghost late: nat)
    returns (elapsed: real, settled: bool)
    requires TimesOut(clock, StartOf(clock, started), timeout, late)
    ensures ids == [] ==> settled && elapsed == clock(FirstReading(started)) - StartOf(clock, started)
    ensures ids != [] ==>
              var reading, start := FirstReading(started), StartOf(clock, started);
              exists last | IsEnd(last, settled, count, clock, reading, start, timeout, settle) ::
                elapsed == clock(Now(count, reading, last) + 1) - start
  {
    var start, reading := StartOf(clock, started), FirstReading(started);
    if ids == [] {
      return clock(reading) - start, true;
    }
    var last, lastCount, lastChange, now, readings;
    settled, last, lastCount, lastChange, now, readings := Watch(count, clock, reading, start, timeout, settle, late);
    elapsed := clock(readings) - start;
  }

  /** `measure_drain`: the time to the last change; the settling time itself is not billed. */
  method MeasureDrain(count: nat -> int, clock: nat -> real, started: Option<real>, timeout: real, settle: real,
                      ghost late: nat)
    returns (elapsed: real, settled: bool, lastCount: int)
    requires TimesOut(clock, StartOf(clock, started), timeout, late)
    ensures
      var reading, start := FirstReading(started), StartOf(clock, started);
      exists last | IsEnd(last, settled, count, clock, reading, start, timeout, settle) ::
        var change, end := clock(Since(count, reading, last)) - start, clock(Now(count, reading, last)) - start;
        && lastCount == count(last)
        && (!settled ==> elapsed == end)
        && (settled ==> elapsed == (if change >= 0.0 then change else 0.0) && change + settle <= end)
  {
    var start, reading := StartOf(clock, started), FirstReading(started);
    var last, lastChange, now, readings;
    settled, last, lastCount, lastChange, now, readings := Watch(count, clock, reading, start, timeout, settle, late);
    if settled {
      elapsed := if lastChange - start >= 0.0 then lastChange - start else 0.0;
    } else {
      elapsed := now - start;
    }
  }
}
