/** The exponential lockout of the administrator PIN. Instants are integers in nanoseconds; the verdict of the PIN hash is a
    parameter of each attempt. Every attempt reads the clock when it checks the lock and again when it counts a failure. */
module Lockout {
  import opened Common

  const SECOND: int := 1_000_000_000
  const BASE_LOCK_SECS := 5
  const MAX_FAILURES_BEFORE_LOCK := 3
  const U64_LIMIT: nat := 0x1_0000_0000_0000_0000

  /** An `Instant` holds signed 64-bit seconds; a sum beyond them panics. */
  const INSTANT_SECS: int := 0x8000_0000_0000_0000

  function Pow2(k: nat): (p: nat)
    ensures p >= 1
  {
    if k == 0 then 1 else 2 * Pow2(k - 1)
  }

  /** `2u64.saturating_pow(k)` */
  function SaturatingPow2(k: nat): nat {
    if k < 64 then Pow2(k) else U64_LIMIT - 1
  }

  /** `next_lockout` in seconds, before the product is cut to 64 bits. */
  function NextLockout(failures: nat): nat {
    BASE_LOCK_SECS * SaturatingPow2(if failures > MAX_FAILURES_BEFORE_LOCK then failures - MAX_FAILURES_BEFORE_LOCK else 0)
  }

  /** `LockoutState`, with whether a PIN is configured at all, and whether the service was halted by a panic: the lock around
      it is poisoned then, and every later call panics too. */
  datatype Guard = Guard(hasPin: bool, failures: nat, lockedUntil: Option<int>, halted: bool)

  datatype Verdict = Accepted | WrongPin | NoPin | LockedOut(secs: int) | Panicked

  /** Does the end of a lock that begins now lie beyond what an instant holds? */
  predicate TooFar(now: int, failures: nat) {
    failures > MAX_FAILURES_BEFORE_LOCK && now / SECOND + NextLockout(failures) >= INSTANT_SECS
  }

  /** An attempt: when it checks the lock, when it would count a failure, and whether the PIN is right.
      `SetPin` carries the strength of the new PIN and the verdict on the current PIN, if one is given. */
  datatype Attempt =
    | Login(checked: int, counted: int, correct: bool)
    | SetPin(checked: int, counted: int, strong: bool, current: Option<bool>)
    | Destroy(checked: int, counted: int, correct: bool)

  function CountFailure(g: Guard, counted: int): Guard {
    var failures := g.failures + 1;
    if TooFar(counted, failures) then g.(failures := failures, halted := true)
    else if failures > MAX_FAILURES_BEFORE_LOCK
    then g.(failures := failures, lockedUntil := Some(counted + NextLockout(failures) * SECOND))
    else g.(failures := failures)
  }

  predicate Locked(g: Guard, now: int) {
    g.lockedUntil.Some? && now < g.lockedUntil.value
  }

  /** Does the attempt reach the PIN hash, and fail there? */
  predicate Fails(g: Guard, a: Attempt) {
    !g.halted && g.hasPin && !Locked(g, a.checked)
    && match a
       case Login(_, _, correct) => !correct
       case SetPin(_, _, strong, current) => strong && current == Some(false)
       case Destroy(_, _, correct) => !correct
  }

  /** Only login and destroy reset the count; setting a PIN with the right current PIN does not. */
  predicate Resets(g: Guard, a: Attempt) {
    !g.halted && g.hasPin && !Locked(g, a.checked) && !a.SetPin? && a.correct
  }

  function Next(g: Guard, a: Attempt): Guard {
    if Fails(g, a) then CountFailure(g, a.counted)
    else if Resets(g, a) then g.(failures := 0)
    else if !g.halted && a.SetPin? && a.strong && !g.hasPin then g.(hasPin := true)
    else g
  }

  /** The guard as `AdminService` keeps it. */
  class PinGuard {
    var hasPin: bool
    var failures: nat
    var lockedUntil: Option<int>
    var halted: bool

    ghost function State(): Guard
      reads this
    {
      Guard(hasPin, failures, lockedUntil, halted)
    }

    constructor ()
      ensures State() == Guard(false, 0, None, false)
    {
      hasPin, failures, lockedUntil, halted := false, 0, None, false;
    }

    /** `check_lockout`; the seconds it names are enough to wait, and one less is not more than enough. */
    method CheckLockout(now: int) returns (r: Verdict)
      ensures r == if Locked(State(), now) then LockedOut((lockedUntil.value - now) / SECOND + 1) else Accepted
      ensures r.LockedOut? ==> now + (r.secs - 1) * SECOND <= lockedUntil.value < now + r.secs * SECOND
    {
      if lockedUntil.Some? && now < lockedUntil.value {
        return LockedOut((lockedUntil.value - now) / SECOND + 1);
      }
      return Accepted;
    }

    /** `register_failure`; the sum that does not fit an instant panics after the failure was counted. */
    method RegisterFailure(now: int) returns (ok: bool)
      requires !halted
      modifies this`failures, this`lockedUntil, this`halted
      ensures State() == CountFailure(old(State()), now)
      ensures ok <==> !halted
    {
      failures := failures + 1;
      if failures > MAX_FAILURES_BEFORE_LOCK {
        if now / SECOND + NextLockout(failures) >= INSTANT_SECS {
          halted := true;
          return false;
        }
        lockedUntil := Some(now + NextLockout(failures) * SECOND);
      }
      return true;
    }

    /** The PIN part of `login`, and the whole of `verify_admin_pin`. */
    method Verify(a: Attempt) returns (r: Verdict)
      requires !a.SetPin?
      modifies this
      ensures State() == Next(old(State()), a)
      ensures r.NoPin? <==> !old(halted) && !old(hasPin)
      ensures r.LockedOut? <==> !old(halted) && old(hasPin) && Locked(old(State()), a.checked)
      ensures r.WrongPin? <==> Fails(old(State()), a) && !TooFar(a.counted, old(failures) + 1)
      ensures r.Accepted? <==> Resets(old(State()), a)
      ensures r.Panicked? <==> halted
    {
      if halted { return Panicked; }
      if !hasPin { return NoPin; }
      r := CheckLockout(a.checked);
      if r.LockedOut? { return; }
      if !a.correct {
        var ok := RegisterFailure(a.counted);
        return if ok then WrongPin else Panicked;
      }
      failures := 0;
    }

    /** The PIN part of `set_admin_pin`. */
    method SetAdminPin(a: Attempt) returns (r: Verdict)
      requires a.SetPin?
      modifies this
      ensures State() == Next(old(State()), a)
      ensures r.Accepted? <==> !old(halted) && a.strong
                               && (!old(hasPin) || (a.current == Some(true) && !Locked(old(State()), a.checked)))
      ensures r.LockedOut? <==> !old(halted) && a.strong && old(hasPin) && a.current.Some? && Locked(old(State()), a.checked)
      ensures r.Panicked? <==> halted
      ensures !r.NoPin?
    {
      if halted { return Panicked; }
      if !a.strong { return WrongPin; }
      if hasPin {
        if a.current.None? { return WrongPin; }
        r := CheckLockout(a.checked);
        if r.LockedOut? { return; }
        if !a.current.value {
          var ok := RegisterFailure(a.counted);
          return if ok then WrongPin else Panicked;
        }
      }
      hasPin := true;
      return Accepted;
    }
  }

  // ---------- runs ----------

  function Run(attempts: seq<Attempt>): Guard {
    if attempts == [] then Guard(false, 0, None, false)
    else Next(Run(attempts[..|attempts| - 1]), attempts[|attempts| - 1])
  }

  /** When the failures counted since the last reset were counted. */
  function FailureTimes(attempts: seq<Attempt>): seq<int> {
    if attempts == [] then []
    else
      var before := attempts[..|attempts| - 1];
      var a := attempts[|attempts| - 1];
      if Fails(Run(before), a) then FailureTimes(before) + [a.counted]
      else if Resets(Run(before), a) then []
      else FailureTimes(before)
  }

  /** The clock is monotone, and an instant is never negative. */
  predicate Monotone(attempts: seq<Attempt>) {
    && (forall i :: 0 <= i < |attempts| ==> 0 <= attempts[i].checked <= attempts[i].counted)
    && (forall i :: 0 < i < |attempts| ==> attempts[i - 1].counted <= attempts[i].checked)
  }

  /** From the fifth on, each counted failure waits out the lock of the one before. */
  predicate Spaced(times: seq<int>) {
    forall n :: 4 <= n < |times| ==> times[n] >= times[n - 1] + NextLockout(n) * SECOND
  }

  /** Every lock but perhaps the last has an end that an instant holds. */
  predicate Fitting(times: seq<int>) {
    && (forall k :: 0 <= k < |times| ==> times[k] >= 0)
    && (forall k :: 0 <= k < |times| - 1 ==> !TooFar(times[k], k + 1))
  }

  /** The lock in force dates from the last counted failure, and the service is halted exactly when that lock does not fit. */
  ghost predicate Dated(g: Guard, times: seq<int>) {
    && |times| == g.failures && Spaced(times) && Fitting(times)
    && (g.halted <==> times != [] && TooFar(times[|times| - 1], |times|))
    && (|times| >= 4 && !g.halted ==> g.lockedUntil == Some(times[|times| - 1] + NextLockout(|times|) * SECOND))
  }

  /** A failure that is counted waited out the lock. */
  lemma FailureIsDated(g: Guard, times: seq<int>, a: Attempt)
    requires Dated(g, times) && Fails(g, a) && 0 <= a.checked <= a.counted
    ensures Dated(CountFailure(g, a.counted), times + [a.counted])
  {
    hide NextLockout, TooFar;
    var ts := times + [a.counted];
    assert g.failures + 1 == |ts|;
    assert forall k :: 0 <= k < |times| ==> ts[k] == times[k];
  }

  lemma OtherIsDated(g: Guard, times: seq<int>, a: Attempt)
    requires Dated(g, times) && !Fails(g, a)
    ensures Dated(Next(g, a), if Resets(g, a) then [] else times)
  {
    hide NextLockout, TooFar;
  }

  lemma {:induction false} RunInvariant(attempts: seq<Attempt>)
    requires Monotone(attempts)
    ensures Dated(Run(attempts), FailureTimes(attempts))
  {
    if attempts != [] {
      var before := attempts[..|attempts| - 1];
      RunInvariant(before);
      hide Dated, Fails, Resets, CountFailure;
      var g, a := Run(before), attempts[|attempts| - 1];
      if Fails(g, a) {
        FailureIsDated(g, FailureTimes(before), a);
      } else {
        OtherIsDated(g, FailureTimes(before), a);
      }
    }
  }

  // ---------- when an attempt is refused, and when it counts ----------

  /** A lock that is left over from before the last reset had ended when that attempt was made. */
  ghost predicate Stale(g: Guard, attempts: seq<Attempt>) {
    g.failures < 4 && g.lockedUntil.Some? ==>
      attempts != [] && g.lockedUntil.value <= attempts[|attempts| - 1].counted
  }

  lemma NextIsStale(g: Guard, before: seq<Attempt>, a: Attempt)
    requires Stale(g, before) && 0 <= a.checked <= a.counted
    requires before != [] ==> before[|before| - 1].counted <= a.checked
    ensures Stale(Next(g, a), before + [a])
  {
    hide NextLockout, TooFar;
    assert (before + [a])[|before|] == a;
  }

  lemma {:induction false} OldLocksAreStale(attempts: seq<Attempt>)
    requires Monotone(attempts)
    ensures Stale(Run(attempts), attempts)
  {
    if attempts != [] {
      var n := |attempts| - 1;
      var before := attempts[..n];
      OldLocksAreStale(before);
      assert before + [attempts[n]] == attempts;
      assert before != [] ==> before[|before| - 1] == attempts[n - 1];
      hide Stale, Next, Monotone;
      NextIsStale(Run(before), before, attempts[n]);
    }
  }

  /** Was a PIN ever set? Only its strength matters for the first one. */
  predicate EverSet(attempts: seq<Attempt>) {
    exists i :: 0 <= i < |attempts| && attempts[i].SetPin? && attempts[i].strong
  }

  lemma {:induction false} PinIsEverSet(attempts: seq<Attempt>)
    ensures Run(attempts).hasPin <==> EverSet(attempts)
    ensures !Run(attempts).hasPin ==> !Run(attempts).halted
  {
    hide CountFailure;
    if attempts != [] {
      var n := |attempts| - 1;
      var before := attempts[..n];
      PinIsEverSet(before);
      CountingKeepsPin(Run(before), attempts[n].counted);
      EverSetSnoc(before, attempts[n]);
      assert before + [attempts[n]] == attempts;
    }
  }

  lemma CountingKeepsPin(g: Guard, counted: int)
    ensures CountFailure(g, counted).hasPin == g.hasPin
  {}

  lemma EverSetSnoc(attempts: seq<Attempt>, a: Attempt)
    ensures EverSet(attempts + [a]) <==> EverSet(attempts) || (a.SetPin? && a.strong)
  {
    var after := attempts + [a];
    if EverSet(attempts) {
      var i :| 0 <= i < |attempts| && attempts[i].SetPin? && attempts[i].strong;
      assert after[i] == attempts[i];
    }
    assert after[|attempts|] == a;
  }

  /** The lock that `n` failures in a row bring, the last of them counted at `last`, is in force: from the fourth on it lasts
      5 * 2^(n-3) seconds. */
  predicate InForce(times: seq<int>, now: int) {
    |times| >= 4 && now < times[|times| - 1] + 5 * Pow2(|times| - 3) * SECOND
  }

  /** In a run that is not halted the service is locked exactly while the lock of the failures in a row is in force. */
  lemma LockedExactly(attempts: seq<Attempt>, now: int)
    requires Monotone(attempts) && !Run(attempts).halted
    requires attempts != [] ==> attempts[|attempts| - 1].counted <= now
    ensures Locked(Run(attempts), now) <==> InForce(FailureTimes(attempts), now)
  {
    hide Run, FailureTimes, Monotone, NextLockout, Pow2, Spaced, Fitting, TooFar;
    RunInvariant(attempts);
    OldLocksAreStale(attempts);
    AtMost63Failures(attempts);
    var n := |FailureTimes(attempts)|;
    if n >= 4 { LockoutIsGeometric(n); }
  }

  /** What the next attempt of a run that is not halted is answered, and what it does to the failures in a row, from the
      history alone: without a PIN nothing is checked; while the lock is in force everything that needs the PIN is refused;
      then a wrong PIN counts, whether for a login, a destruction or a strong new PIN, and the right PIN clears the count,
      but for a new PIN. */
  lemma AttemptsAreJudged(attempts: seq<Attempt>, a: Attempt)
    requires Monotone(attempts + [a]) && !Run(attempts).halted
    ensures var times := FailureTimes(attempts);
            var tried := EverSet(attempts) && !InForce(times, a.checked);
            var wrong := match a
                         case Login(_, _, correct) => !correct
                         case SetPin(_, _, strong, current) => strong && current == Some(false)
                         case Destroy(_, _, correct) => !correct;
            FailureTimes(attempts + [a]) == if tried && wrong then times + [a.counted]
                                            else if tried && !a.SetPin? then []
                                            else times
  {
    MonotoneInit(attempts, a);
    LockedExactly(attempts, a.checked);
    PinIsEverSet(attempts);
    assert (attempts + [a])[..|attempts|] == attempts;
    hide Run, Monotone, InForce, EverSet, Locked;
  }

  lemma MonotoneInit(attempts: seq<Attempt>, a: Attempt)
    requires Monotone(attempts + [a])
    ensures Monotone(attempts) && 0 <= a.checked <= a.counted
    ensures attempts != [] ==> attempts[|attempts| - 1].counted <= a.checked
  {
    var after := attempts + [a];
    assert forall i :: 0 <= i < |attempts| ==> after[i] == attempts[i];
    assert after[|attempts|] == a;
    if attempts != [] { assert after[|attempts| - 1].counted <= after[|attempts|].checked; }
  }

  /** Once the lock is over, the right PIN is accepted, and the count starts again. */
  method LoginAfterLock(guard: PinGuard, ghost attempts: seq<Attempt>, a: Attempt) returns (r: Verdict)
    requires guard.State() == Run(attempts) && Monotone(attempts + [a]) && !guard.halted && EverSet(attempts)
    requires a.Login? && a.correct
    modifies guard
    ensures guard.State() == Run(attempts + [a])
    ensures r.Accepted? <==> !InForce(FailureTimes(attempts), a.checked)
    ensures r.LockedOut? <==> InForce(FailureTimes(attempts), a.checked)
    ensures r.Accepted? ==> FailureTimes(attempts + [a]) == []
  {
    MonotoneInit(attempts, a);
    LockedExactly(attempts, a.checked);
    PinIsEverSet(attempts);
    AttemptsAreJudged(attempts, a);
    assert (attempts + [a])[..|attempts|] == attempts;
    r := guard.Verify(a);
    hide InForce, FailureTimes, EverSet, Monotone;
  }

  lemma LockoutIsGeometric(n: nat)
    requires 4 <= n < 67
    ensures NextLockout(n) == 5 * Pow2(n - 3)
  {}

  lemma {:induction false} Pow2Monotone(j: nat, k: nat)
    requires j <= k
    ensures Pow2(j) <= Pow2(k)
  {
    if j < k { Pow2Monotone(j, k - 1); }
  }

  lemma Pow2Values()
    ensures Pow2(61) == 0x2000_0000_0000_0000 && Pow2(64) == U64_LIMIT
    ensures Pow2(59) == 0x0800_0000_0000_0000 && Pow2(60) == 0x1000_0000_0000_0000
  {
    assert Pow2(8) == 0x100;
    assert Pow2(5) == 32 && Pow2(3) == 8 && Pow2(1) == 2;
    hide Pow2;
    Pow2Add(8, 8);
    Pow2Add(16, 16);
    Pow2Add(32, 16);
    Pow2Add(48, 8);
    Pow2Add(56, 5);
    Pow2Add(61, 3);
    Pow2Add(56, 3);
    Pow2Add(59, 1);
  }

  lemma {:induction false} Pow2Add(j: nat, k: nat)
    ensures Pow2(j + k) == Pow2(j) * Pow2(k)
  {
    if k > 0 {
      Pow2Add(j, k - 1);
      assert Pow2(j + k) == 2 * Pow2(j + (k - 1));
    }
  }

  lemma {:induction false} SpacedSum(times: seq<int>, n: nat)
    requires Spaced(times) && 4 <= n <= |times|
    requires n <= 66
    ensures times[n - 1] - times[3] >= 10 * (Pow2(n - 4) - 1) * SECOND
  {
    if n > 4 {
      SpacedSum(times, n - 1);
      LockoutIsGeometric(n - 1);
      assert Pow2(n - 4) == 2 * Pow2(n - 5);
    }
  }

  lemma {:induction false} SpacedIsSorted(times: seq<int>, m: nat, n: nat)
    requires Spaced(times) && 3 <= m <= n < |times|
    ensures times[m] <= times[n]
  {
    if m < n {
      SpacedIsSorted(times, m, n - 1);
      assert NextLockout(n) >= 0;
    }
  }

  /** The product of `next_lockout` fits 64 bits exactly up to the 64th failure. */
  lemma OverflowsFrom65(failures: nat)
    ensures NextLockout(failures) < U64_LIMIT <==> failures <= 64
  {
    Pow2Values();
    var k := if failures > 3 then failures - 3 else 0;
    if k <= 61 {
      Pow2Monotone(k, 61);
    } else if k < 64 {
      Pow2Monotone(62, k);
    }
  }

  /** Whatever is tried and however often, the n-th counted failure since the last reset comes at least
      10 * (2^(n-4) - 1) seconds after the fourth. */
  lemma FailuresAreSpaced(attempts: seq<Attempt>, n: nat)
    requires Monotone(attempts)
    requires 5 <= n <= |FailureTimes(attempts)|
    ensures FailureTimes(attempts)[n - 1] - FailureTimes(attempts)[3] >= 10 * (Pow2(n - 4) - 1) * SECOND
  {
    AtMost63Failures(attempts);
    hide Run, FailureTimes, NextLockout, Monotone, Spaced, Fitting;
    RunInvariant(attempts);
    SpacedSum(FailureTimes(attempts), n);
  }

  /** The locks of the failures before it alone take the clock so far that the lock of the 63rd does not fit. */
  lemma The63rdDoesNotFit(times: seq<int>)
    requires Spaced(times) && Fitting(times) && |times| >= 63
    ensures TooFar(times[62], 63)
  {
    SpacedSum(times, 63);
    Pow2Values();
    LockoutIsGeometric(63);
    hide NextLockout, Pow2;
    assert times[3] >= 0;
    assert times[62] / SECOND >= 10 * (0x0800_0000_0000_0000 - 1);
  }

  /** No more than 63 failures are ever counted in a row, and the 63rd halts the service, if it was not halted before. */
  lemma AtMost63Failures(attempts: seq<Attempt>)
    requires Monotone(attempts)
    ensures |FailureTimes(attempts)| == Run(attempts).failures <= 63
    ensures Run(attempts).failures == 63 ==> Run(attempts).halted
  {
    hide Run, FailureTimes, NextLockout, Monotone, Spaced;
    RunInvariant(attempts);
    var times := FailureTimes(attempts);
    if |times| >= 63 {
      The63rdDoesNotFit(times);
      assert times[62] >= 0;
    }
  }

  /** So the product of `next_lockout` fits 64 bits in every run: the instant gives way first. */
  lemma ProductNeverOverflows(attempts: seq<Attempt>)
    requires Monotone(attempts)
    ensures NextLockout(Run(attempts).failures) < U64_LIMIT
  {
    hide Run, FailureTimes, NextLockout, Monotone;
    AtMost63Failures(attempts);
    OverflowsFrom65(Run(attempts).failures);
  }

  /** A halt takes the clock to more than half of what an instant holds: no run that ends before 2^62 - 5 seconds halts. */
  lemma HaltTakesAges(attempts: seq<Attempt>)
    requires Monotone(attempts) && Run(attempts).halted
    ensures var times := FailureTimes(attempts);
            |times| >= 4 && times[|times| - 1] >= (0x4000_0000_0000_0000 - 5) * SECOND
  {
    hide Run, FailureTimes, NextLockout, Monotone, Pow2;
    AtMost63Failures(attempts);
    RunInvariant(attempts);
    var times := FailureTimes(attempts);
    var n := |times|;
    SpacedSum(times, n);
    LockoutIsGeometric(n);
    DoublePow2(n - 4);
    assert times[3] >= 0;
    assert times[n - 1] / SECOND >= 10 * (Pow2(n - 4) - 1);
  }

  lemma DoublePow2(k: nat)
    ensures Pow2(k + 1) == 2 * Pow2(k)
  {}
}
