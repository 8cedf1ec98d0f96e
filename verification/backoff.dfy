/** Respawn backoff of the pi subprocess (daemon/pi.go, awaitExit): an int64 shift
    that may wrap, a guard, and the streak that drives it. */
module Backoff {

  const TWO63: int := 0x8000_0000_0000_0000
  const TWO64: int := 0x1_0000_0000_0000_0000

  function Pow2(k: nat): (p: nat)
    ensures p >= 1
  {
    if k == 0 then 1 else 2 * Pow2(k - 1)
  }

  /** Two's-complement truncation to 64 bits. */
  function Wrap64(x: int): int {
    var m := x % TWO64;
    if m >= TWO63 then m - TWO64 else m
  }

  /** d << k on an int64: counts of 64 and more give 0. */
  function Shl(d: int, k: nat): int {
    if k >= 64 then 0 else Wrap64(d * Pow2(k))
  }

  /** The delay for a streak of n rapid exits, with the cap and the overflow guard. */
  function Delay(initial: int, max: int, n: nat): int
    requires n >= 1
  {
    var d := Shl(initial, n - 1);
    if d > max || d <= 0 then max else d
  }

  /** What it stands for: doubling from initial, capped at max, over the integers. */
  function Capped(initial: int, max: int, n: nat): int
    requires n >= 1
  {
    var d := initial * Pow2(n - 1);
    if d > max then max else d
  }

  ghost predicate Exact(initial: int, max: int) {
    forall n: nat :: n >= 1 ==> Delay(initial, max, n) == Capped(initial, max, n)
  }

  predicate Int64Positive(d: int) {
    0 < d < TWO63
  }

  // ---- arithmetic ----

  lemma {:induction false} Pow2Add(a: nat, b: nat)
    ensures Pow2(a + b) == Pow2(a) * Pow2(b)
  {
    if a > 0 {
      Pow2Add(a - 1, b);
    }
  }

  lemma Pow2Of64()
    ensures Pow2(64) == TWO64
  {
    hide Pow2;
    Pow2Of8();
    Pow2Add(8, 8);
    assert Pow2(16) == 0x1_0000;
    Pow2Add(16, 16);
    assert Pow2(32) == 0x1_0000_0000;
    Pow2Add(32, 32);
  }

  lemma Pow2Of8()
    ensures Pow2(8) == 256
  {}

  lemma {:induction false} Pow2Grows(a: nat, b: nat)
    requires a <= b
    ensures Pow2(a) <= Pow2(b)
    decreases b - a
  {
    if a < b {
      Pow2Grows(a, b - 1);
    }
  }

  lemma MulAssoc(a: int, b: int, c: int)
    ensures (a * b) * c == a * (b * c)
  {}

  lemma MulGrows(a: nat, b: nat)
    requires a >= 1
    ensures a * b >= b
  {}

  lemma MulMonotone(a: nat, b: nat, c: nat)
    requires b <= c
    ensures a * b <= a * c
  {}

  lemma MultipleOfTwo64(z: int)
    ensures Wrap64(z * TWO64) == 0
  {}

  /** A positive wrapped value differs from the true one by a multiple of 2^64. */
  lemma WrapIsCongruent(x: nat) returns (t: int)
    ensures Wrap64(x) > 0 ==> Wrap64(x) == x - t * TWO64
  {
    t := x / TWO64;
  }

  /** A wrapped multiple of 2^s is 0 from s = 64 on, and never a positive number
      below 2^s. */
  lemma WrappedIsLarge(odd: nat, s: nat)
    ensures var w := Wrap64(odd * Pow2(s));
            (s >= 64 ==> w == 0) && (w > 0 ==> w >= Pow2(s))
  {
    hide Wrap64, Pow2;
    Pow2Of64();
    var p := Pow2(s);
    if s >= 64 {
      var r := Pow2(s - 64);
      Pow2Add(s - 64, 64);
      MulAssoc(odd, r, TWO64);
      MultipleOfTwo64(odd * r);
    } else {
      var q := Pow2(64 - s);
      Pow2Add(64 - s, s);
      var t := WrapIsCongruent(odd * p);
      WrappedFactor(odd, p, q, t);
    }
  }

  /** odd * p - t * (q * p) is a multiple of p. */
  lemma WrappedFactor(odd: nat, p: nat, q: nat, t: int)
    requires p >= 1
    ensures odd * p - t * (q * p) > 0 ==> odd * p - t * (q * p) >= p
  {
    MulAssoc(t, q, p);
    var c := odd - t * q;
    assert odd * p - t * (q * p) == c * p;
    if c >= 1 {
      MulGrows(c, p);
    } else {
      MulMonotone(p, 0, -c);
    }
  }

  // ---- when the schedule is exact ----

  /** One streak is exact if the true value fits, or the guard catches the wrap. */
  lemma OneStreak(initial: int, max: int, n: nat)
    requires Int64Positive(initial) && Int64Positive(max) && n >= 1
    ensures Delay(initial, max, n) == Capped(initial, max, n) <==>
            || initial * Pow2(n - 1) < TWO63
            || !(0 < Shl(initial, n - 1) < max)
  {
    hide Pow2, Wrap64, Shl;
    var k := n - 1;
    assert initial * Pow2(k) >= 1 by { MulGrows(initial, Pow2(k)); }
    if initial * Pow2(k) < TWO63 {
      ShlFits(initial, k);
    }
  }

  /** A shift whose true value fits is exact. */
  lemma ShlFits(d: int, k: nat)
    requires d > 0 && d * Pow2(k) < TWO63
    ensures Shl(d, k) == d * Pow2(k)
  {
    hide Pow2, Wrap64;
    MulGrows(d, Pow2(k));
    if k >= 64 {
      Pow2Of64();
      Pow2Grows(64, k);
      assert false;
    } else {
      WrapFits(d * Pow2(k));
    }
  }

  lemma WrapFits(x: int)
    requires 0 <= x < TWO63
    ensures Wrap64(x) == x
  {}

  /** The schedule is the capped doubling for every streak length, for any positive
      initial and max with initial * max < 2^(63 + v), where 2^v divides initial. */
  lemma ExactWhenSmall(initial: int, max: int, odd: nat, v: nat)
    requires Int64Positive(initial) && Int64Positive(max)
    requires initial == odd * Pow2(v) && odd * max < TWO63
    ensures Exact(initial, max)
  {
    forall n: nat | n >= 1
      ensures Delay(initial, max, n) == Capped(initial, max, n)
    {
      var k := n - 1;
      var s := v + k;
      Pow2Add(v, k);
      assert initial * Pow2(k) == odd * Pow2(s) by { MulAssoc(odd, Pow2(v), Pow2(k)); }
      OneStreak(initial, max, n);
      if initial * Pow2(k) >= TWO63 {
        WrappedIsLarge(odd, s);
        if Pow2(s) <= max {
          MulMonotone(odd, Pow2(s), max);
        }
      }
    }
  }

  /** The compiled defaults, one second and thirty, in nanoseconds. */
  lemma DefaultsAreExact()
    ensures Exact(1_000_000_000, 30_000_000_000)
  {
    assert Pow2(9) == 512;
    ExactWhenSmall(1_000_000_000, 30_000_000_000, 1_953_125, 9);
  }

  /** A positive policy for which no true value that left the int64 range slips
      through the guard, within the first sixty-four streak lengths. */
  predicate GuardHolds(initial: int, max: int) {
    forall k :: 0 <= k < 64 ==> initial * Pow2(k) < TWO63 || !(0 < Shl(initial, k) < max)
  }

  /** Checking sixty-four shifts decides the schedule for every streak length. */
  lemma ExactIff(initial: int, max: int)
    requires Int64Positive(initial) && Int64Positive(max)
    ensures Exact(initial, max) <==> GuardHolds(initial, max)
  {
    if GuardHolds(initial, max) {
      forall n: nat | n >= 1
        ensures Delay(initial, max, n) == Capped(initial, max, n)
      {
        OneStreak(initial, max, n);
        assert n - 1 < 64 ==> initial * Pow2(n - 1) < TWO63 || !(0 < Shl(initial, n - 1) < max);
      }
    }
    if Exact(initial, max) {
      forall k | 0 <= k < 64
        ensures initial * Pow2(k) < TWO63 || !(0 < Shl(initial, k) < max)
      {
        var n := k + 1;
        assert Delay(initial, max, n) == Capped(initial, max, n);
        OneStreak(initial, max, n);
      }
    }
  }

  /** The guard is not enough for every policy: the third rapid exit can wrap to a
      small positive delay below the second. */
  lemma WrapCanSlipThrough()
    ensures var initial, max := 0x4000_0000_0000_0001, 10;
            Delay(initial, max, 2) == 10 && Delay(initial, max, 3) == 4 && Capped(initial, max, 3) == 10
  {
    assert Pow2(1) == 2 && Pow2(2) == 4;
  }

  // ---- the subprocess manager ----

  datatype Policy = Policy(rapidWindow: int, initial: int, max: int, stableReset: int)

  const DEFAULTS := Policy(5_000_000_000, 1_000_000_000, 30_000_000_000, 60_000_000_000)

  /** The crash-ownership fields. live is the generation p.cmd points at. */
  datatype State = State(running: bool, live: nat, generation: nat, restarts: nat, lastStart: int,
                         exitCode: int, unexpected: bool, intentional: bool, backoff: int, streak: nat)

  const BORN := State(false, 0, 0, 0, 0, 0, false, false, 0, 0)

  /** Launched: the part of Start after the backoff sleep. Kill: the flag that Kill and
      Shutdown set. Exited: awaitExit for one generation's process. */
  datatype Step = Launched(now: int, ok: bool) | Kill | Exited(gen: nat, code: int, now: int)

  predicate Rapid(pol: Policy, uptime: int) {
    uptime < pol.rapidWindow
  }

  predicate Stable(pol: Policy, uptime: int) {
    !Rapid(pol, uptime) && uptime >= pol.stableReset
  }

  function Launch(s: State, now: int, ok: bool): State {
    if s.running then s
    else
      var cleared := s.(unexpected := false, intentional := false);
      if !ok then cleared
      else cleared.(running := true, live := s.generation + 1, generation := s.generation + 1,
                    restarts := if s.generation > 0 then s.restarts + 1 else s.restarts, lastStart := now)
  }

  function Exit(pol: Policy, s: State, gen: nat, code: int, now: int): State {
    var seen := s.(exitCode := code, running := s.running && s.live != gen);
    var uptime := now - s.lastStart;
    if s.intentional then seen
    else if Rapid(pol, uptime) then
      seen.(unexpected := true, streak := s.streak + 1, backoff := Delay(pol.initial, pol.max, s.streak + 1))
    else if Stable(pol, uptime) then seen.(unexpected := true, streak := 0, backoff := 0)
    else seen.(unexpected := true)
  }

  function Next(pol: Policy, s: State, step: Step): State {
    match step
    case Launched(now, ok) => Launch(s, now, ok)
    case Kill => s.(intentional := true)
    case Exited(gen, code, now) => Exit(pol, s, gen, code, now)
  }

  function Run(pol: Policy, steps: seq<Step>): State {
    if steps == [] then BORN else Next(pol, Run(pol, steps[..|steps| - 1]), steps[|steps| - 1])
  }

  predicate Positive(pol: Policy) {
    Int64Positive(pol.initial) && Int64Positive(pol.max)
  }

  lemma {:induction false} RunInv(pol: Policy, steps: seq<Step>)
    ensures var s := Run(pol, steps);
            && s.backoff == (if s.streak == 0 then 0 else Delay(pol.initial, pol.max, s.streak))
            && s.restarts == (if s.generation == 0 then 0 else s.generation - 1)
  {
    hide Delay;
    if steps != [] {
      RunInv(pol, steps[..|steps| - 1]);
    }
  }

  /** After every run the backoff is the capped doubling for the current streak, and
      every generation after the first is one restart. */
  lemma {:induction false} BackoffIsCappedDoubling(pol: Policy, steps: seq<Step>)
    requires Positive(pol) && Exact(pol.initial, pol.max)
    ensures var s := Run(pol, steps);
            && s.backoff == (if s.streak == 0 then 0 else Capped(pol.initial, pol.max, s.streak))
            && 0 <= s.backoff <= pol.max
            && (s.backoff == 0 <==> s.streak == 0)
            && s.restarts == (if s.generation == 0 then 0 else s.generation - 1)
  {
    RunInv(pol, steps);
    var s := Run(pol, steps);
    if s.streak > 0 {
      assert Delay(pol.initial, pol.max, s.streak) == Capped(pol.initial, pol.max, s.streak);
      MulGrows(pol.initial, Pow2(s.streak - 1));
    }
  }

  lemma CappedGrows(initial: int, max: int, n: nat)
    requires initial > 0 && n >= 1
    ensures Capped(initial, max, n) <= Capped(initial, max, n + 1)
  {
    MulMonotone(initial, Pow2(n - 1), Pow2(n));
  }

  // ---- what each step does to the streak ----

  /** An exit the daemon did not ask for, sooner than the rapid window, adds one to the
      streak and sets its delay; one after a run of at least the stable bound clears both;
      one in between, and one that was asked for, change neither. */
  lemma ExitStep(pol: Policy, s: State, gen: nat, code: int, now: int)
    ensures var t := Next(pol, s, Exited(gen, code, now));
            && t.exitCode == code && t.running == (s.running && s.live != gen)
            && t.unexpected == (s.unexpected || !s.intentional) && t.intentional == s.intentional
            && t.lastStart == s.lastStart && t.generation == s.generation && t.restarts == s.restarts
            && (!s.intentional && now - s.lastStart < pol.rapidWindow ==>
                  t.streak == s.streak + 1 && t.backoff == Delay(pol.initial, pol.max, s.streak + 1))
            && (!s.intentional && now - s.lastStart >= pol.rapidWindow && now - s.lastStart >= pol.stableReset ==>
                  t.streak == 0 && t.backoff == 0)
            && (s.intentional || pol.rapidWindow <= now - s.lastStart < pol.stableReset ==>
                  t.streak == s.streak && t.backoff == s.backoff)
  {}

  /** Under an exact policy the delay of a rapid exit is the capped doubling. */
  lemma RapidExitBacksOff(pol: Policy, s: State, gen: nat, code: int, now: int)
    requires Exact(pol.initial, pol.max) && !s.intentional && now - s.lastStart < pol.rapidWindow
    ensures var t := Next(pol, s, Exited(gen, code, now));
            t.streak == s.streak + 1 && t.unexpected && t.backoff == Capped(pol.initial, pol.max, t.streak)
  {
    hide Delay, Capped;
    ExitStep(pol, s, gen, code, now);
    assert Delay(pol.initial, pol.max, s.streak + 1) == Capped(pol.initial, pol.max, s.streak + 1);
  }

  /** A launch that finds a live process changes nothing; any other clears the exit flags,
      and one that starts a process makes it the live generation, started now; no launch
      and no kill touches streak or backoff. */
  lemma LaunchStep(pol: Policy, s: State, now: int, ok: bool)
    ensures var t, k := Next(pol, s, Launched(now, ok)), Next(pol, s, Kill);
            && (s.running ==> t == s)
            && (!s.running ==> !t.unexpected && !t.intentional)
            && (!s.running && ok ==>
                  && t.running && t.live == t.generation == s.generation + 1 && t.lastStart == now
                  && t.restarts == s.restarts + if s.generation > 0 then 1 else 0)
            && (!s.running && !ok ==> !t.running && t.generation == s.generation && t.lastStart == s.lastStart)
            && t.streak == s.streak && t.backoff == s.backoff && t.exitCode == s.exitCode
            && k == s.(intentional := true)
  {}

  /** Step i of the run is an exit that was not asked for, after a run shorter than the
      rapid window, or not shorter and at least as long as the stable bound. */
  predicate RapidAt(pol: Policy, steps: seq<Step>, i: nat)
    requires i < |steps|
  {
    var s := Run(pol, steps[..i]);
    steps[i].Exited? && !s.intentional && steps[i].now - s.lastStart < pol.rapidWindow
  }

  predicate StableAt(pol: Policy, steps: seq<Step>, i: nat)
    requires i < |steps|
  {
    var s := Run(pol, steps[..i]);
    && steps[i].Exited? && !s.intentional
    && steps[i].now - s.lastStart >= pol.rapidWindow && steps[i].now - s.lastStart >= pol.stableReset
  }

  /** How many of the steps from j up to n are rapid exits. */
  function RapidExits(pol: Policy, steps: seq<Step>, j: nat, n: nat): nat
    requires j <= n <= |steps|
    decreases n
  {
    if j == n then 0
    else RapidExits(pol, steps, j, n - 1) + if RapidAt(pol, steps, n - 1) then 1 else 0
  }

  /** The streak is the number of unexpected rapid exits since the last unexpected stable
      one, in every run. */
  lemma {:induction false} StreakCounts(pol: Policy, steps: seq<Step>, j: nat, n: nat)
    requires j <= n <= |steps| && (j == 0 || StableAt(pol, steps, j - 1))
    requires forall i :: j <= i < n ==> !StableAt(pol, steps, i)
    ensures Run(pol, steps[..n]).streak == RapidExits(pol, steps, j, n)
    decreases n
  {
    hide Delay, Next, Exit, Launch;
    if n == 0 {
      assert steps[..0] == [];
    } else {
      var s, step := Run(pol, steps[..n - 1]), steps[n - 1];
      assert steps[..n][..n - 1] == steps[..n - 1];
      assert Run(pol, steps[..n]) == Next(pol, s, step);
      match step {
        case Exited(gen, code, now) => ExitStep(pol, s, gen, code, now);
        case Launched(now, ok) => LaunchStep(pol, s, now, ok);
        case Kill => LaunchStep(pol, s, 0, true);
      }
      if j < n {
        StreakCounts(pol, steps, j, n - 1);
        assert !StableAt(pol, steps, n - 1);
      }
    }
  }

  /** The one step that lowers the backoff is an unexpected exit after a stable run, and
      it lowers it to 0. */
  lemma {:induction false} OnlyStableRunsReset(pol: Policy, steps: seq<Step>, step: Step)
    requires Positive(pol) && Exact(pol.initial, pol.max)
    ensures var s, t := Run(pol, steps), Run(pol, steps + [step]);
            t.backoff < s.backoff ==>
              && t.backoff == 0
              && step.Exited? && !s.intentional && Stable(pol, step.now - s.lastStart)
  {
    hide Delay, Capped, Exact;
    assert (steps + [step])[..|steps|] == steps;
    BackoffIsCappedDoubling(pol, steps);
    BackoffIsCappedDoubling(pol, steps + [step]);
    var s := Run(pol, steps);
    if s.streak > 0 {
      CappedGrows(pol.initial, pol.max, s.streak);
    }
  }

  lemma {:induction false} DefaultBackoff(steps: seq<Step>)
    ensures var s := Run(DEFAULTS, steps);
            && s.backoff == (if s.streak == 0 then 0 else Capped(1_000_000_000, 30_000_000_000, s.streak))
            && 0 <= s.backoff <= 30_000_000_000
  {
    DefaultsAreExact();
    BackoffIsCappedDoubling(DEFAULTS, steps);
  }

  /** The manager itself. */
  class Pi {
    const policy: Policy
    var running: bool
    var live: nat
    var generation: nat
    var restarts: nat
    var lastStart: int
    var lastExitCode: int
    var lastExitUnexpected: bool
    var intentional: bool
    var backoff: int
    var rapidStreak: nat

    function Value(): State
      reads this
    {
      State(running, live, generation, restarts, lastStart, lastExitCode, lastExitUnexpected, intentional,
            backoff, rapidStreak)
    }

    constructor (policy: Policy)
      ensures this.policy == policy && Value() == BORN
    {
      this.policy := policy;
      running, live, generation, restarts := false, 0, 0, 0;
      lastStart, lastExitCode, lastExitUnexpected, intentional := 0, 0, false, false;
      backoff, rapidStreak := 0, 0;
    }

    /** The hold before a launch; the sleep itself happens with the lock released. */
    method RespawnDelay() returns (delay: int)
      ensures delay > 0 ==> lastExitUnexpected && delay == backoff
      ensures delay == 0 <==> !lastExitUnexpected || backoff <= 0
      ensures delay >= 0
    {
      delay := if lastExitUnexpected && backoff > 0 then backoff else 0;
    }

    method LaunchAfterDelay(now: int, ok: bool)
      modifies this
      ensures Value() == Next(policy, old(Value()), Launched(now, ok))
    {
      if running {
        return;
      }
      lastExitUnexpected, intentional := false, false;
      if !ok {
        return;
      }
      if generation > 0 {
        restarts := restarts + 1;
      }
      generation := generation + 1;
      lastStart := now;
      live, running := generation, true;
    }

    method MarkIntentional()
      modifies this
      ensures Value() == Next(policy, old(Value()), Kill)
    {
      intentional := true;
    }

    method AwaitExit(gen: nat, code: int, now: int)
      modifies this
      ensures Value() == Next(policy, old(Value()), Exited(gen, code, now))
    {
      if live == gen {
        running := false;
      }
      lastExitCode := code;
      if !intentional {
        lastExitUnexpected := true;
        var uptime := now - lastStart;
        if uptime < policy.rapidWindow {
          rapidStreak := rapidStreak + 1;
          var d := Shl(policy.initial, rapidStreak - 1);
          if d > policy.max || d <= 0 {
            d := policy.max;
          }
          backoff := d;
        } else if uptime >= policy.stableReset {
          rapidStreak := 0;
          backoff := 0;
        }
      }
    }
  }
}
