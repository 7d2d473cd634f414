/** The "due" schedules of src/runtime/DaemonRuntime.cpp: health checks, heartbeats and beacons. */
module Schedule {

  /** Whether the task has ever been due, and the logical time at which it last was. */
  datatype Timer = Timer(wasDue: bool, lastDueMs: int)

  const IDLE := Timer(false, 0)

  predicate Due(t: Timer, elapsedMs: int, intervalMs: int) {
    !t.wasDue || elapsedMs - t.lastDueMs >= intervalMs
  }

  function Tick(t: Timer, elapsedMs: int, intervalMs: int): Timer {
    if Due(t, elapsedMs, intervalMs) then Timer(true, elapsedMs) else t
  }

  /** The timer before iteration `k` of a run whose clock advances by `stepMs` per iteration. */
  function TimerAt(intervalMs: int, stepMs: int, k: nat): Timer {
    if k == 0 then IDLE else Tick(TimerAt(intervalMs, stepMs, k - 1), (k - 1) * stepMs, intervalMs)
  }

  function CeilDiv(a: int, b: int): (q: int)
    requires a > 0 && b > 0
  {
    (a + b - 1) / b
  }

  /** `CeilDiv(a, b)` steps of `b` are the fewest that reach `a`. */
  lemma CeilDivIsLeast(a: int, b: int, n: int)
    requires a > 0 && b > 0
    ensures CeilDiv(a, b) >= 1
    ensures n * b >= a <==> n >= CeilDiv(a, b)
  {
    var q := CeilDiv(a, b);
    assert q * b >= a > (q - 1) * b;
    if n >= q { assert n * b >= q * b; } else { assert n * b <= (q - 1) * b; }
  }

  /** The timer last fired at the latest multiple of the period before iteration `k`. */
  lemma {:induction false} LastFiring(intervalMs: int, stepMs: int, k: nat) returns (last: nat)
    requires intervalMs > 0 && stepMs > 0 && k > 0
    ensures TimerAt(intervalMs, stepMs, k) == Timer(true, last * stepMs)
    ensures last < k <= last + CeilDiv(intervalMs, stepMs)
    ensures last % CeilDiv(intervalMs, stepMs) == 0
  {
    var period := CeilDiv(intervalMs, stepMs);
    CeilDivIsLeast(intervalMs, stepMs, 1);
    if k == 1 {
      last := 0;
    } else {
      var before := LastFiring(intervalMs, stepMs, k - 1);
      CeilDivIsLeast(intervalMs, stepMs, k - 1 - before);
      Elapsed(k - 1, before, stepMs);
      if k - 1 - before >= period {
        last := k - 1;
        NextMultiple(before, period);
      } else {
        last := before;
      }
    }
  }

  lemma NonzeroMultipleIsLarge(m: int, d: int)
    requires m > 0 && d != 0
    ensures m * d >= m || m * d <= -m
  {
    if d >= 1 { assert m * d >= m * 1; } else { assert m * d <= m * -1; }
  }

  lemma DivModUnique(a: int, m: int, q: int, r: int)
    requires m > 0 && a == m * q + r && 0 <= r < m
    ensures a % m == r && a / m == q
  {
    var d := q - a / m;
    assert a == m * (a / m) + a % m;
    assert m * d == a % m - r;
    if d != 0 { NonzeroMultipleIsLarge(m, d); }
  }

  lemma NextMultiple(a: int, m: int)
    requires m > 0 && a % m == 0
    ensures (a + m) % m == 0
  {
    assert a + m == m * (a / m + 1);
    DivModUnique(a + m, m, a / m + 1, 0);
  }

  lemma NoMultipleInBetween(a: int, k: int, m: int)
    requires m > 0 && a % m == 0 && a < k < a + m
    ensures k % m != 0
  {
    DivModUnique(k, m, a / m, k - a);
  }

  lemma Elapsed(k: int, last: int, stepMs: int)
    ensures k * stepMs - last * stepMs == (k - last) * stepMs
  {
  }

  lemma DueIffPeriodPassed(intervalMs: int, stepMs: int, k: nat, last: nat, period: int)
    requires intervalMs > 0 && stepMs > 0 && period == CeilDiv(intervalMs, stepMs)
    requires last < k <= last + period && last % period == 0
    ensures period >= 1 && (k * stepMs - last * stepMs >= intervalMs <==> k % period == 0)
  {
    CeilDivIsLeast(intervalMs, stepMs, k - last);
    Elapsed(k, last, stepMs);
    if k == last + period { NextMultiple(last, period); } else { NoMultipleInBetween(last, k, period); }
  }

  /** Which iterations are due: every ceil(interval / step)-th, or only the first when the clock stands still. */
  predicate DueInIteration(intervalMs: int, stepMs: nat, k: nat)
    requires intervalMs > 0
  {
    if stepMs == 0 then k == 0 else CeilDiv(intervalMs, stepMs) > 0 && k % CeilDiv(intervalMs, stepMs) == 0
  }

  /** Closed form: with a running clock, iteration `k` is due iff `k` is a multiple of ceil(interval / step). */
  lemma DueIffMultipleOfPeriod(intervalMs: int, stepMs: int, k: nat)
    requires intervalMs > 0 && stepMs > 0
    ensures CeilDiv(intervalMs, stepMs) >= 1
    ensures Due(TimerAt(intervalMs, stepMs, k), k * stepMs, intervalMs) <==> k % CeilDiv(intervalMs, stepMs) == 0
  {
    CeilDivIsLeast(intervalMs, stepMs, 1);
    if k > 0 {
      var last := LastFiring(intervalMs, stepMs, k);
      DueIffPeriodPassed(intervalMs, stepMs, k, last, CeilDiv(intervalMs, stepMs));
    }
  }

  /** With a stopped clock only the first iteration is ever due. */
  lemma {:induction false} StoppedClockIsDueOnce(intervalMs: int, k: nat)
    requires intervalMs > 0
    ensures k > 0 ==> TimerAt(intervalMs, 0, k) == Timer(true, 0)
    ensures Due(TimerAt(intervalMs, 0, k), 0, intervalMs) <==> k == 0
  {
    if k > 0 { StoppedClockIsDueOnce(intervalMs, k - 1); }
  }

  lemma DueInClosedForm(intervalMs: int, stepMs: nat, k: nat)
    requires intervalMs > 0
    ensures Due(TimerAt(intervalMs, stepMs, k), k * stepMs, intervalMs) <==> DueInIteration(intervalMs, stepMs, k)
  {
    if stepMs > 0 { DueIffMultipleOfPeriod(intervalMs, stepMs, k); } else { StoppedClockIsDueOnce(intervalMs, k); }
  }
}
