/** Bounded retry with clamped, jittered exponential backoff (ssh/retry.go).  The global
    in-flight limiter in front of it is the module Inflight. */
module RetryBackoff {
  datatype Policy = Policy(attempts: int, baseBackoff: int, maxBackoff: int)

  const DEFAULT_ATTEMPTS := 3
  const DEFAULT_BASE := 200_000_000        // 200 ms in nanoseconds
  const DEFAULT_MAX := 1_200_000_000

  function Normalize(p: Policy): Policy {
    Policy(
      if p.attempts <= 0 then DEFAULT_ATTEMPTS else p.attempts,
      if p.baseBackoff <= 0 then DEFAULT_BASE else p.baseBackoff,
      if p.maxBackoff <= 0 then DEFAULT_MAX else p.maxBackoff)
  }

  // ---------------------------------------------------- 64-bit shift and clamp

  const TWO_63 := 0x8000_0000_0000_0000
  const TWO_64 := 0x1_0000_0000_0000_0000

  function Pow2(n: nat): (r: nat)
    ensures r >= 1
  {
    if n == 0 then 1 else 2 * Pow2(n - 1)
  }

  /** Two's-complement reduction to 64 bits. */
  function Wrap(x: int): int { (x + TWO_63) % TWO_64 - TWO_63 }

  /** `<<` on a 64-bit integer: bits fall off the top, and a shift by 64 or more gives zero. */
  function ShiftLeft(x: int, n: nat): int {
    if n >= 64 then 0 else Wrap(x * Pow2(n))
  }

  /** jitteredBackoff before the jitter. */
  function Clamped(p: Policy, attempt: nat): int {
    var exp := ShiftLeft(p.baseBackoff, attempt);
    if exp <= 0 || exp > p.maxBackoff then p.maxBackoff else exp
  }

  function Min(a: int, b: int): int { if a <= b then a else b }

  lemma {:induction false} Pow2Splits(a: nat, b: nat)
    ensures Pow2(a) * Pow2(b) == Pow2(a + b)
  {
    if a > 0 {
      Pow2Splits(a - 1, b);
      assert Pow2(a) * Pow2(b) == 2 * (Pow2(a - 1) * Pow2(b));
    }
  }

  lemma Pow2Of64()
    ensures Pow2(64) == TWO_64
  {
    assert Pow2(8) == 256;
    Pow2Splits(8, 8);
    assert Pow2(16) == 0x1_0000;
    Pow2Splits(16, 16);
    assert Pow2(32) == 0x1_0000_0000;
    Pow2Splits(32, 32);
  }

  lemma Factor(x: int, q: int, s: int, t: int)
    ensures x * t - q * (t * s) == (x - q * s) * t
  {
  }

  lemma PositiveMultiple(f: int, t: int)
    requires t >= 1 && f * t > 0
    ensures f * t >= t
  {
    assert f > 0;
  }

  lemma MulMonotone(a: int, b: int, c: int)
    requires a <= b && 0 <= c
    ensures a * c <= b * c
  {
  }

  /** A shifted value that comes out positive is at least the shift's own power of two. */
  lemma PositiveShiftIsLarge(x: int, n: nat)
    requires n < 64 && ShiftLeft(x, n) > 0
    ensures ShiftLeft(x, n) >= Pow2(n)
  {
    var t, s, y := Pow2(n), Pow2(64 - n), x * Pow2(n);
    var q := (y + TWO_63) / TWO_64;
    assert Wrap(y) == y - q * TWO_64;
    assert t * s == TWO_64 by { Pow2Of64(); Pow2Splits(n, 64 - n); }
    Factor(x, q, s, t);
    PositiveMultiple(x - q * s, t);
  }

  /** Without overflow the shift is plain multiplication. */
  lemma ShiftFits(x: int, n: nat)
    requires 0 < x && n < 64 && x * Pow2(n) < TWO_63
    ensures ShiftLeft(x, n) == x * Pow2(n) > 0
  {
    assert 0 < x * Pow2(n);
  }

  lemma HugePow2(n: nat)
    requires n >= 64
    ensures Pow2(n) >= TWO_64
  {
    Pow2Of64();
    Pow2Splits(n - 64, 64);
    MulMonotone(1, Pow2(n - 64), TWO_64);
  }

  /** When base * max stays below 2^63, as it does for any two bounds below 2^31, the
      clamped delay is min(base * 2^attempt, max) for every attempt number: whatever
      overflows is caught by the clamp. */
  lemma ClampIsExact(p: Policy, attempt: nat)
    requires 0 < p.baseBackoff && 0 < p.maxBackoff && p.baseBackoff * p.maxBackoff < TWO_63
    ensures Clamped(p, attempt) == Min(p.baseBackoff * Pow2(attempt), p.maxBackoff)
  {
    var b, m, t := p.baseBackoff, p.maxBackoff, Pow2(attempt);
    if attempt < 64 && b * t < TWO_63 {
      ShiftFits(b, attempt);
    } else {
      OverflowExceedsCap(b, m, attempt);
      MulMonotone(1, b, t);
      if attempt < 64 && ShiftLeft(b, attempt) > 0 { PositiveShiftIsLarge(b, attempt); }
    }
  }

  lemma OverflowExceedsCap(b: int, m: int, attempt: nat)
    requires 0 < b && 0 < m && b * m < TWO_63
    requires attempt >= 64 || b * Pow2(attempt) >= TWO_63
    ensures Pow2(attempt) > m
  {
    if attempt >= 64 {
      HugePow2(attempt);
      MulMonotone(1, b, m);
    } else if Pow2(attempt) <= m {
      MulMonotone(Pow2(attempt), m, b);
    }
  }

  lemma SmallBoundsSuffice(p: Policy)
    requires 0 < p.baseBackoff < 0x8000_0000 && 0 < p.maxBackoff < 0x8000_0000
    ensures p.baseBackoff * p.maxBackoff < TWO_63
  {
    MulMonotone(p.baseBackoff, 0x8000_0000, p.maxBackoff);
  }

  /** In general the clamp misses exactly when the product exceeds the cap and wraps
      around to a positive value below it. */
  lemma ClampIsExactIff(p: Policy, attempt: nat)
    requires 0 < p.baseBackoff < TWO_63 && 0 < p.maxBackoff < TWO_63
    ensures var product, shifted := p.baseBackoff * Pow2(attempt), ShiftLeft(p.baseBackoff, attempt);
            Clamped(p, attempt) == Min(product, p.maxBackoff)
            <==> !(product > p.maxBackoff && 0 < shifted < p.maxBackoff)
  {
    var b, m, t := p.baseBackoff, p.maxBackoff, Pow2(attempt);
    if attempt >= 64 {
      HugePow2(attempt);
      MulMonotone(1, b, t);
    } else if b * t <= m {
      ShiftFits(b, attempt);
    }
    ClampCases(p, attempt, b * t);
  }

  lemma ClampCases(p: Policy, attempt: nat, product: int)
    requires 0 < p.maxBackoff
    requires product <= p.maxBackoff ==> ShiftLeft(p.baseBackoff, attempt) == product && product > 0
    ensures Clamped(p, attempt) == Min(product, p.maxBackoff)
            <==> !(product > p.maxBackoff && 0 < ShiftLeft(p.baseBackoff, attempt) < p.maxBackoff)
  {
  }

  /** Such a policy: an odd base beyond 2^62 and a cap close to the top. */
  lemma ClampCanMiss()
    ensures var p := Policy(3, 0x4000_0000_0000_0001, 0x7fff_ffff_ffff_ffff);
            Clamped(p, 2) == 4 && Min(p.baseBackoff * Pow2(2), p.maxBackoff) == p.maxBackoff
  {
    assert Pow2(2) == 4;
  }

  // ------------------------------------------------------------------- jitter

  predicate Int64(x: int) { -TWO_63 <= x < TWO_63 }

  /** time.Duration(scaled) on a non-negative number: truncation, except that beyond 64 bits the
      machine gives some 64-bit value `wild`. */
  function Convert(scaled: real, wild: int): int { if scaled < TWO_63 as real then scaled.Floor else wild }

  function Scaled(exp: int, f: real, wild: int): int {
    var scaled := exp as real * f;
    Convert(if scaled < 0.0 then 0.0 else scaled, wild)
  }

  /** The delay for a random number r in [0, 1), over the reals.  The jitter comes after the clamp. */
  function Jittered(p: Policy, attempt: nat, r: real, wild: int): int {
    Scaled(Clamped(p, attempt), 1.0 + (r * 0.4 - 0.2), wild)
  }

  predicate Policy64(p: Policy) { p.maxBackoff < TWO_63 }

  /** Whatever the machine makes of an overflow, the delay is never above 6/5 of the clamped one, so
      the true ceiling is 6/5 of MaxBackoff. */
  lemma JitterCeiling(p: Policy, attempt: nat, r: real, wild: int)
    requires 0.0 <= r < 1.0 && Int64(wild) && 0 < p.maxBackoff && Policy64(p)
    ensures var exp := Clamped(p, attempt);
            && 0 < exp <= p.maxBackoff
            && 5 * Jittered(p, attempt, r, wild) <= 6 * exp <= 6 * p.maxBackoff
  {
    Scaling(Clamped(p, attempt), 1.0 + (r * 0.4 - 0.2), wild);
  }

  /** No random number and no overflow brings the delay below 4/5 of the clamped one. */
  ghost predicate FloorHolds(p: Policy, attempt: nat) {
    forall r, wild :: 0.0 <= r < 1.0 && Int64(wild) ==>
      5 * (Jittered(p, attempt, r, wild) + 1) > 4 * Clamped(p, attempt)
  }

  /** That holds exactly when 6/5 of the clamped delay fits in 64 bits. */
  lemma FloorHoldsIff(p: Policy, attempt: nat)
    requires 0 < p.maxBackoff && Policy64(p)
    ensures FloorHolds(p, attempt) <==> 6 * Clamped(p, attempt) <= 5 * TWO_63
  {
    var exp := Clamped(p, attempt);
    if 6 * exp <= 5 * TWO_63 {
      forall r, wild | 0.0 <= r < 1.0 && Int64(wild)
        ensures 5 * (Jittered(p, attempt, r, wild) + 1) > 4 * exp
      {
        Scaling(exp, 1.0 + (r * 0.4 - 0.2), wild);
      }
    } else {
      var r := HitTarget(exp, TWO_63);
      assert Jittered(p, attempt, r, 0) == 0;
    }
  }

  /** A policy whose delay the conversion destroys. */
  lemma FloorCanFail()
    ensures var p := Policy(3, TWO_63 - 1, TWO_63 - 1);
            Clamped(p, 0) == TWO_63 - 1 && Jittered(p, 0, 0.75, -TWO_63) == -TWO_63
  {
    var p := Policy(3, TWO_63 - 1, TWO_63 - 1);
    assert Pow2(0) == 1;
    assert Clamped(p, 0) == TWO_63 - 1;
    assert (TWO_63 - 1) as real * 1.1 >= TWO_63 as real;
  }

  /** No random number brings the delay above MaxBackoff. */
  ghost predicate CapHolds(p: Policy, attempt: nat) {
    forall r, wild :: 0.0 <= r < 1.0 && Int64(wild) ==> Jittered(p, attempt, r, wild) <= p.maxBackoff
  }

  /** The documented clamp at MaxBackoff holds exactly when the clamped delay leaves room for the
      jitter, or the cap is the largest 64-bit value. */
  lemma CapHoldsIff(p: Policy, attempt: nat)
    requires 0 < p.maxBackoff && Policy64(p)
    ensures CapHolds(p, attempt) <==> 6 * Clamped(p, attempt) <= 5 * (p.maxBackoff + 1) || p.maxBackoff == TWO_63 - 1
  {
    var exp, m := Clamped(p, attempt), p.maxBackoff;
    if 6 * exp <= 5 * (m + 1) || m == TWO_63 - 1 {
      forall r, wild | 0.0 <= r < 1.0 && Int64(wild) ensures Jittered(p, attempt, r, wild) <= m {
        BelowCap(exp, 1.0 + (r * 0.4 - 0.2), m, wild);
      }
    } else {
      var r := HitTarget(exp, m + 1);
      assert Jittered(p, attempt, r, 0) == m + 1;
    }
  }

  /** The default backoff bounds at a clamped attempt, with a random number above one half. */
  lemma CapCanBeExceeded()
    ensures var p := Policy(5, DEFAULT_BASE, DEFAULT_MAX);
            Clamped(p, 3) == DEFAULT_MAX && Jittered(p, 3, 0.75, 0) == 1_320_000_000
  {
    assert Pow2(3) == 8;
  }

  /** The default policy never reaches such an attempt: both of its delays stay under the cap. */
  lemma DefaultPolicyKeepsItsCap(attempt: nat)
    requires attempt < DEFAULT_ATTEMPTS - 1
    ensures CapHolds(Policy(DEFAULT_ATTEMPTS, DEFAULT_BASE, DEFAULT_MAX), attempt)
  {
    assert Pow2(0) == 1 && Pow2(1) == 2;
    CapHoldsIff(Policy(DEFAULT_ATTEMPTS, DEFAULT_BASE, DEFAULT_MAX), attempt);
  }

  /** A random number that scales exp to exactly `target`. */
  lemma HitTarget(exp: int, target: int) returns (r: real)
    requires 0 < exp <= target && 5 * target < 6 * exp
    ensures 0.0 <= r < 1.0 && exp as real * (1.0 + (r * 0.4 - 0.2)) == target as real
  {
    var e, t := exp as real, target as real;
    var q := t / e;
    assert e * q == t;
    assert 1.0 <= q < 1.2 by { Quotient(e, q, t); }
    r := 2.5 * q - 2.0;
    assert 1.0 + (r * 0.4 - 0.2) == q;
  }

  lemma Quotient(e: real, q: real, t: real)
    requires e > 0.0 && e * q == t && e <= t && 5.0 * t < 6.0 * e
    ensures 1.0 <= q < 1.2
  {
    if q < 1.0 { RealMonotone(e, q, 1.0); }
    if q > 1.2 { RealMonotone(e, 1.2, q); }
  }

  lemma RealMonotone(e: real, a: real, b: real)
    requires e > 0.0 && a < b
    ensures e * a < e * b
  {
    if e * (b - a) <= 0.0 { ZeroFactor(e, b - a); }
  }

  lemma ZeroFactor(a: real, b: real)
    requires a > 0.0 && b >= 0.0 && a * b <= 0.0
    ensures b == 0.0
  {
  }

  lemma Scaling(exp: int, f: real, wild: int)
    requires 0 < exp && 0.8 <= f < 1.2 && Int64(wild)
    ensures 5 * Scaled(exp, f, wild) <= 6 * exp
    ensures 6 * exp <= 5 * TWO_63 ==> 5 * (Scaled(exp, f, wild) + 1) > 4 * exp
  {
    var scaled := exp as real * f;
    Within(exp, f, scaled);
    ConvertWithin(scaled, exp, wild);
  }

  lemma ConvertWithin(scaled: real, exp: int, wild: int)
    requires 0 < exp && 0.8 * exp as real <= scaled < 1.2 * exp as real && Int64(wild)
    ensures 5 * Convert(scaled, wild) <= 6 * exp
    ensures 6 * exp <= 5 * TWO_63 ==> 5 * (Convert(scaled, wild) + 1) > 4 * exp
  {
    if scaled < TWO_63 as real { FloorWithin(scaled, exp); } else { assert (6 * exp) as real > (5 * TWO_63) as real; }
  }

  lemma Within(exp: int, f: real, scaled: real)
    requires 0 < exp && 0.8 <= f < 1.2 && scaled == exp as real * f
    ensures 0.8 * exp as real <= scaled < 1.2 * exp as real
  {
    var e := exp as real;
    assert scaled - 0.8 * e == e * (f - 0.8) >= 0.0 by { RealProduct(e, f - 0.8); }
    assert 1.2 * e - scaled == e * (1.2 - f);
    if e * (1.2 - f) <= 0.0 { ZeroFactor(e, 1.2 - f); }
  }

  lemma BelowCap(exp: int, f: real, m: int, wild: int)
    requires 0 < exp && 0.8 <= f < 1.2 && Int64(wild) && m < TWO_63
    requires 6 * exp <= 5 * (m + 1) || m == TWO_63 - 1
    ensures Scaled(exp, f, wild) <= m
  {
    var scaled := exp as real * f;
    Within(exp, f, scaled);
    ConvertBelow(scaled, exp, m, wild);
  }

  lemma ConvertBelow(scaled: real, exp: int, m: int, wild: int)
    requires 0 < exp && 0.0 <= scaled < 1.2 * exp as real && Int64(wild) && m < TWO_63
    requires 6 * exp <= 5 * (m + 1) || m == TWO_63 - 1
    ensures Convert(scaled, wild) <= m
  {
    assert 6 * exp <= 5 * (m + 1) ==> (6 * exp) as real <= (5 * (m + 1)) as real;
    assert scaled < TWO_63 as real ==> scaled < (m + 1) as real;
  }

  lemma FloorWithin(scaled: real, exp: int)
    requires exp > 0 && 0.8 * exp as real <= scaled <= 1.2 * exp as real
    ensures scaled >= 0.0 && 5 * scaled.Floor <= 6 * exp && 5 * (scaled.Floor + 1) > 4 * exp
  {
    var d := scaled.Floor;
    assert d as real <= scaled < d as real + 1.0;
    assert (5 * d) as real <= (6 * exp) as real;
    assert (5 * (d + 1)) as real > (4 * exp) as real;
  }

  lemma RealProduct(a: real, b: real)
    requires a >= 0.0 && b >= 0.0
    ensures a * b >= 0.0
  {
  }

  // --------------------------------------------------------------- the retry loop

  datatype ExecOutcome = Success | PoolBusy | Terminal

  /** What the world answers at each attempt. */
  datatype World = World(
    ctxDone: nat -> bool, exec: nat -> ExecOutcome, sleepAborted: nat -> bool, rand: nat -> real, wild: nat -> int)

  /** Random numbers are in [0, 1) and durations have 64 bits. */
  ghost predicate Machine(w: World) { forall i :: 0.0 <= w.rand(i) < 1.0 && Int64(w.wild(i)) }

  datatype Final = Succeeded | Exhausted | TerminalError | CtxDone | SleepAborted | FellThrough

  /** The metrics, the number of exec calls, and the total backoff asked for. */
  datatype Tally = Tally(calls: nat, acquires: nat, busyHits: nat, retries: nat, terminalErrors: nat, slept: int)

  const ZERO := Tally(0, 0, 0, 0, 0, 0)

  /** How one attempt ends: another one follows, or the loop returns. */
  datatype Turn = Again(t: Tally) | Stop(final: Final, t: Tally)

  function Attempt(p: Policy, w: World, i: nat, t: Tally): Turn {
    if w.ctxDone(i) then Stop(CtxDone, t)
    else
      var t1 := t.(calls := t.calls + 1);
      match w.exec(i)
      case Success => Stop(Succeeded, t1.(acquires := t.acquires + 1))
      case Terminal => Stop(TerminalError, t1.(terminalErrors := t.terminalErrors + 1))
      case PoolBusy =>
        var t2 := t1.(busyHits := t.busyHits + 1);
        if i == p.attempts - 1 then Stop(Exhausted, t2)
        else
          var t3 := t2.(retries := t.retries + 1, slept := t.slept + Jittered(p, i, w.rand(i), w.wild(i)));
          if w.sleepAborted(i) then Stop(SleepAborted, t3) else Again(t3)
  }

  /** The loop of ExecWithRetryLimited from attempt i on. */
  function RetryFrom(p: Policy, w: World, i: nat, t: Tally): (Final, Tally)
    requires i <= p.attempts
    decreases p.attempts - i
  {
    if i == p.attempts then (FellThrough, t)
    else
      match Attempt(p, w, i, t)
      case Stop(final, t') => (final, t')
      case Again(t') => RetryFrom(p, w, i + 1, t')
  }

  method RunLoop(p: Policy, w: World) returns (final: Final, t: Tally)
    requires p.attempts > 0
    ensures (final, t) == RetryFrom(p, w, 0, ZERO)
  {
    t := ZERO;
    for i := 0 to p.attempts
      invariant RetryFrom(p, w, 0, ZERO) == RetryFrom(p, w, i, t)
    {
      if w.ctxDone(i) { return CtxDone, t; }
      var outcome := w.exec(i);
      t := t.(calls := t.calls + 1);
      match outcome {
        case Success =>
          t := t.(acquires := t.acquires + 1);
          return Succeeded, t;
        case Terminal =>
          t := t.(terminalErrors := t.terminalErrors + 1);
          return TerminalError, t;
        case PoolBusy =>
          t := t.(busyHits := t.busyHits + 1);
          if i == p.attempts - 1 { return Exhausted, t; }
          var backoff := Jittered(p, i, w.rand(i), w.wild(i));
          t := t.(retries := t.retries + 1, slept := t.slept + backoff);
          if w.sleepAborted(i) { return SleepAborted, t; }
      }
    }
    final := FellThrough;
  }

  /** Counter conservation, for every behaviour of the pool, the context and the sleeper:
      calls = successes + busy hits + terminal errors, never more than Attempts, at most one
      of them not busy, each but possibly the last followed by a counted retry; the
      fall-through return is never reached; and the whole call asks to sleep at most
      6/5 * (Attempts - 1) * MaxBackoff. */
  lemma RetryConservation(policy: Policy, w: World)
    requires Machine(w) && Policy64(policy)
    ensures var p := Normalize(policy);
            var (final, t) := RetryFrom(p, w, 0, ZERO);
            && t.calls == t.acquires + t.busyHits + t.terminalErrors <= p.attempts
            && t.acquires + t.terminalErrors <= 1
            && (t.calls == t.retries || t.calls == t.retries + 1)
            && final != FellThrough
            && (final == Succeeded <==> t.acquires == 1)
            && (final == TerminalError <==> t.terminalErrors == 1)
            && (final == Exhausted ==> t.busyHits == p.attempts)
            && 5 * t.slept <= 6 * (p.attempts - 1) * p.maxBackoff
  {
    var p := Normalize(policy);
    RetryInvariant(p, w, 0, ZERO);
    RetrySleeps(p, w, 0, ZERO);
    var t := RetryFrom(p, w, 0, ZERO).1;
    MulMonotone(6 * t.retries, 6 * (p.attempts - 1), p.maxBackoff);
  }

  /** The counters after i busy attempts. */
  predicate AllBusy(t: Tally, i: nat) { t.calls == t.busyHits == t.retries == i && t.acquires == t.terminalErrors == 0 }

  /** How the counters of a finished loop relate. */
  predicate Counted(p: Policy, final: Final, u: Tally) {
    && final != FellThrough
    && u.calls == u.acquires + u.busyHits + u.terminalErrors <= p.attempts
    && (final == Succeeded <==> u.acquires == 1)
    && (final == TerminalError <==> u.terminalErrors == 1)
    && u.acquires + u.terminalErrors <= 1
    && (final == Exhausted ==> u.busyHits == p.attempts)
    && (u.calls == u.retries || u.calls == u.retries + 1)
    && u.retries <= p.attempts - 1
  }

  lemma AttemptCounts(p: Policy, w: World, i: nat, t: Tally)
    requires i < p.attempts && AllBusy(t, i)
    ensures match Attempt(p, w, i, t)
            case Again(u) => AllBusy(u, i + 1) && i + 1 < p.attempts && w.exec(i) == PoolBusy
            case Stop(final, u) => Counted(p, final, u) && i <= u.calls <= i + 1
  {
  }

  // ------------------------------------------------------------ how long a call sleeps

  /** The undisturbed delay before retry j. */
  function Delay(p: Policy, j: nat): int { Min(p.baseBackoff * Pow2(j), p.maxBackoff) }

  function TotalDelay(p: Policy, n: nat): int { if n == 0 then 0 else TotalDelay(p, n - 1) + Delay(p, n - 1) }

  /** Bounds under which neither the shift nor the conversion overflows. */
  predicate Moderate(p: Policy) {
    0 < p.baseBackoff && 0 < p.maxBackoff && p.baseBackoff * p.maxBackoff < TWO_63 && 6 * p.maxBackoff <= 5 * TWO_63
  }

  /** The sleep after attempt i is the i-th delay, within a fifth either way: the delays double. */
  lemma AttemptSleeps(p: Policy, w: World, i: nat, t: Tally)
    requires Moderate(p) && Policy64(p) && Machine(w)
    ensures var turn := Attempt(p, w, i, t);
            var d := turn.t.slept - t.slept;
            if turn.t.retries == t.retries then d == 0
            else turn.t.retries == t.retries + 1 && 5 * d <= 6 * Delay(p, i) && 5 * (d + 1) > 4 * Delay(p, i)
  {
    ClampIsExact(p, i);
    JitterCeiling(p, i, w.rand(i), w.wild(i));
    FloorHoldsIff(p, i);
    assert 5 * (Jittered(p, i, w.rand(i), w.wild(i)) + 1) > 4 * Clamped(p, i);
  }

  /** A whole call sleeps between 4/5 and 6/5 of the sum of its delays, less a nanosecond a sleep:
      base, 2 * base, 4 * base and so on, each cut at the maximum, one for every retry counted. */
  lemma {:induction false} CallSleeps(p: Policy, w: World, i: nat, t: Tally)
    requires Moderate(p) && Policy64(p) && Machine(w) && i <= p.attempts && t.retries == i
    requires 5 * t.slept <= 6 * TotalDelay(p, i) && 5 * (t.slept + i) >= 4 * TotalDelay(p, i)
    ensures var u := RetryFrom(p, w, i, t).1;
            5 * u.slept <= 6 * TotalDelay(p, u.retries) && 5 * (u.slept + u.retries) >= 4 * TotalDelay(p, u.retries)
    decreases p.attempts - i
  {
    if i < p.attempts {
      var turn := TurnSleeps(p, w, i, t);
      if turn.Again? { CallSleeps(p, w, i + 1, turn.t); }
    }
  }

  /** The running bounds after one more attempt. */
  lemma TurnSleeps(p: Policy, w: World, i: nat, t: Tally) returns (turn: Turn)
    requires Moderate(p) && Policy64(p) && Machine(w) && i < p.attempts && t.retries == i
    requires 5 * t.slept <= 6 * TotalDelay(p, i) && 5 * (t.slept + i) >= 4 * TotalDelay(p, i)
    ensures turn == Attempt(p, w, i, t) && (turn.Again? ==> turn.t.retries == i + 1) && turn.t.retries in {i, i + 1}
    ensures var n := turn.t.retries;
            5 * turn.t.slept <= 6 * TotalDelay(p, n) && 5 * (turn.t.slept + n) >= 4 * TotalDelay(p, n)
  {
    turn := Attempt(p, w, i, t);
    AttemptSleeps(p, w, i, t);
    assert TotalDelay(p, i + 1) == TotalDelay(p, i) + Delay(p, i);
  }

  /** With the default policy and every attempt busy, a call sleeps about 200 and then 400 ms. */
  lemma DefaultCallSleeps(w: World)
    requires Machine(w) && forall i :: !w.ctxDone(i) && w.exec(i) == PoolBusy && !w.sleepAborted(i)
    ensures var (final, t) := RetryFrom(Normalize(Policy(0, 0, 0)), w, 0, ZERO);
            final == Exhausted && t.retries == 2 && 480_000_000 - 2 <= t.slept <= 720_000_000
  {
    var p := Normalize(Policy(0, 0, 0));
    CallSleeps(p, w, 0, ZERO);
    var t1 := Attempt(p, w, 0, ZERO).t;
    var t2 := Attempt(p, w, 1, t1).t;
    assert RetryFrom(p, w, 2, t2) == (Exhausted, Attempt(p, w, 2, t2).t);
    assert RetryFrom(p, w, 1, t1) == RetryFrom(p, w, 2, t2);
    assert Pow2(0) == 1 && Pow2(1) == 2;
    assert TotalDelay(p, 1) == 200_000_000;
    assert TotalDelay(p, 2) == 600_000_000;
  }

  /** Values given are kept; missing ones become 3 attempts, 200 ms and 1.2 s. */
  lemma DefaultsFillIn(p: Policy)
    ensures Normalize(p).attempts == if p.attempts > 0 then p.attempts else 3
    ensures Normalize(p).baseBackoff == if p.baseBackoff > 0 then p.baseBackoff else 200 * 1_000_000
    ensures Normalize(p).maxBackoff == if p.maxBackoff > 0 then p.maxBackoff else 1200 * 1_000_000
  {
  }

  /** The ending names what happened last: the context at the attempt not made, the answer to the last
      call, or the sleep cut short. */
  predicate Explained(p: Policy, w: World, final: Final, u: Tally) {
    match final
    case CtxDone => u.calls < p.attempts && w.ctxDone(u.calls)
    case Succeeded => u.calls > 0 && w.exec(u.calls - 1) == Success
    case TerminalError => u.calls > 0 && w.exec(u.calls - 1) == Terminal
    case SleepAborted => u.calls > 0 && w.exec(u.calls - 1) == PoolBusy && w.sleepAborted(u.calls - 1)
    case Exhausted => u.calls > 0 && u.calls == p.attempts && w.exec(u.calls - 1) == PoolBusy
    case FellThrough => false
  }

  lemma AttemptExplains(p: Policy, w: World, i: nat, t: Tally) returns (turn: Turn)
    requires i < p.attempts && AllBusy(t, i)
    ensures turn == Attempt(p, w, i, t)
    ensures turn.Again? ==> AllBusy(turn.t, i + 1) && i + 1 < p.attempts
                            && !w.ctxDone(i) && w.exec(i) == PoolBusy && !w.sleepAborted(i)
    ensures turn.Stop? ==> Explained(p, w, turn.final, turn.t) && i <= turn.t.calls <= i + 1
                           && (turn.t.calls == i + 1 ==> !w.ctxDone(i))
  {
    turn := Attempt(p, w, i, t);
  }

  /** How a call ends says why, and before that every attempt was let through, busy, and slept off. */
  lemma {:induction false} EndingSaysWhy(p: Policy, w: World, i: nat, t: Tally)
    requires i < p.attempts && AllBusy(t, i)
    ensures var (final, u) := RetryFrom(p, w, i, t);
            && Explained(p, w, final, u) && u.calls >= i
            && (forall j :: i <= j < u.calls ==> !w.ctxDone(j))
            && (forall j :: i <= j < u.calls - 1 ==> w.exec(j) == PoolBusy && !w.sleepAborted(j))
    decreases p.attempts - i
  {
    var turn := AttemptExplains(p, w, i, t);
    if turn.Again? { EndingSaysWhy(p, w, i + 1, turn.t); }
  }

  /** Busy is the only reason to go on: everything before the last call was busy. */
  lemma {:induction false} RetryInvariant(p: Policy, w: World, i: nat, t: Tally)
    requires i < p.attempts && AllBusy(t, i)
    ensures var (final, u) := RetryFrom(p, w, i, t);
            Counted(p, final, u) && u.calls >= i && forall j :: i <= j < u.calls - 1 ==> w.exec(j) == PoolBusy
    decreases p.attempts - i
  {
    AttemptCounts(p, w, i, t);
    var turn := Attempt(p, w, i, t);
    if turn.Again? { RetryInvariant(p, w, i + 1, turn.t); }
  }

  lemma {:induction false} RetrySleeps(p: Policy, w: World, i: nat, t: Tally)
    requires p.attempts > 0 && p.maxBackoff > 0 && i <= p.attempts && Policy64(p) && Machine(w)
    requires 5 * t.slept <= 6 * t.retries * p.maxBackoff
    ensures var u := RetryFrom(p, w, i, t).1; 5 * u.slept <= 6 * u.retries * p.maxBackoff
    decreases p.attempts - i
  {
    if i < p.attempts - 1 && !w.ctxDone(i) && w.exec(i).PoolBusy? {
      JitterCeiling(p, i, w.rand(i), w.wild(i));
      OneMore(6 * t.retries, p.maxBackoff);
      var t' := t.(calls := t.calls + 1, busyHits := t.busyHits + 1, retries := t.retries + 1,
                   slept := t.slept + Jittered(p, i, w.rand(i), w.wild(i)));
      if !w.sleepAborted(i) { RetrySleeps(p, w, i + 1, t'); }
    }
  }

  lemma OneMore(k: int, m: int)
    ensures (k + 6) * m == k * m + 6 * m
  {
  }
}
