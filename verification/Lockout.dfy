/** Login with progressive lockout. Times are in microseconds. */
module Lockout {
  import opened Wrappers

  const SECOND := 1_000_000

  /** The three settings, in attempts and seconds. */
  datatype Config = Config(maxAttempts: nat, baseSeconds: nat, capSeconds: nat)

  const DEFAULTS := Config(5, 60, 30 * 60)

  datatype AuthError = InvalidCredentials | AccountLocked(until: int)

  function Pow2(n: nat): (p: nat)
    ensures p >= 1
  {
    if n == 0 then 1 else 2 * Pow2(n - 1)
  }

  function Min(a: nat, b: nat): nat { if a < b then a else b }

  function LockoutSeconds(c: Config, failures: nat): nat {
    if failures < c.maxAttempts then 0
    else Min(c.baseSeconds * Pow2(failures - c.maxAttempts), c.capSeconds)
  }

  datatype Account = Account(failures: nat, lockedUntil: Option<int>)

  /** What a user looks like after a successful login, or when created. */
  const FRESH := Account(0, None)

  predicate Locked(a: Account, now: int) { a.lockedUntil.Some? && a.lockedUntil.value > now }

  function AfterFailure(c: Config, a: Account, now: int): Account {
    var lockout := LockoutSeconds(c, a.failures + 1);
    Account(a.failures + 1, if lockout > 0 then Some(now + lockout * SECOND) else a.lockedUntil)
  }

  class User {
    var failedLoginAttempts: nat
    var lockedUntil: Option<int>
    var deactivated: bool

    function Value(): Account
      reads this
    {
      Account(failedLoginAttempts, lockedUntil)
    }

    /** A locked or deactivated account does not move, even for the right password. */
    method Authenticate(c: Config, passwordOk: bool, now: int) returns (r: Result<(), AuthError>)
      modifies this
      ensures deactivated == old(deactivated)
      ensures Value() == if deactivated then old(Value()) else Next(c, old(Value()), Attempt(passwordOk, now))
      ensures old(deactivated) ==> r == Err(InvalidCredentials) && Value() == old(Value())
      ensures !old(deactivated) && Locked(old(Value()), now) ==>
                r == Err(AccountLocked(old(lockedUntil).value)) && Value() == old(Value())
      ensures !old(deactivated) && !Locked(old(Value()), now) ==>
                if passwordOk then r == Ok(()) && failedLoginAttempts == 0 && lockedUntil == None
                else r == Err(InvalidCredentials) && Value() == AfterFailure(c, old(Value()), now)
    {
      if deactivated {
        return Err(InvalidCredentials);
      }
      if lockedUntil.Some? && lockedUntil.value > now {
        return Err(AccountLocked(lockedUntil.value));
      }
      if !passwordOk {
        failedLoginAttempts := failedLoginAttempts + 1;
        var lockout := LockoutSeconds(c, failedLoginAttempts);
        if lockout != 0 {
          lockedUntil := Some(now + lockout * SECOND);
        }
        return Err(InvalidCredentials);
      }
      failedLoginAttempts := 0;
      lockedUntil := None;
      return Ok(());
    }
  }

  // ---- the lockout's length ----

  lemma Pow2Monotone(m: nat, n: nat)
    requires m <= n
    ensures Pow2(m) <= Pow2(n)
    decreases n
  {
    if m < n { Pow2Monotone(m, n - 1); }
  }

  lemma {:induction false} ScaleMonotone(k: nat, a: nat, b: nat)
    requires a <= b
    ensures k * a <= k * b
  {
    assert k * b == k * a + k * (b - a);
  }

  /** More failures never lock for less, and never for longer than the cap. */
  lemma {:induction false} LockoutGrowsToCap(c: Config, m: nat, n: nat)
    requires m <= n
    ensures LockoutSeconds(c, m) <= LockoutSeconds(c, n) <= c.capSeconds
  {
    if m >= c.maxAttempts {
      Pow2Monotone(m - c.maxAttempts, n - c.maxAttempts);
      ScaleMonotone(c.baseSeconds, Pow2(m - c.maxAttempts), Pow2(n - c.maxAttempts));
    }
  }

  /** No lockout below the allowed number of failures; then the base, doubled with every further failure, up to the
      cap. */
  lemma {:induction false} LockoutDoubles(c: Config, n: nat)
    ensures n < c.maxAttempts ==> LockoutSeconds(c, n) == 0
    ensures LockoutSeconds(c, c.maxAttempts) == if c.baseSeconds < c.capSeconds then c.baseSeconds else c.capSeconds
    ensures n >= c.maxAttempts && 2 * LockoutSeconds(c, n) < c.capSeconds ==>
              LockoutSeconds(c, n + 1) == 2 * LockoutSeconds(c, n)
    ensures n >= c.maxAttempts && 2 * LockoutSeconds(c, n) >= c.capSeconds ==> LockoutSeconds(c, n + 1) == c.capSeconds
  {
    assert Pow2(0) == 1;
    if n >= c.maxAttempts {
      var k := n - c.maxAttempts;
      assert c.maxAttempts + k + 1 - c.maxAttempts == k + 1;
      TimesDouble(c.baseSeconds, Pow2(k));
    }
  }

  lemma TimesDouble(a: nat, b: nat)
    ensures a * (2 * b) == 2 * (a * b)
  {
  }

  /** A failure that counts is counted; it locks the account from now for the lockout, if there is one, and an account
      is locked exactly until the moment its lock names. */
  lemma {:induction false} FailureWrites(c: Config, a: Account, now: int)
    ensures var after := AfterFailure(c, a, now);
            && after.failures == a.failures + 1
            && (LockoutSeconds(c, after.failures) == 0 ==> after.lockedUntil == a.lockedUntil)
            && (LockoutSeconds(c, after.failures) > 0 ==>
                  after.lockedUntil == Some(now + LockoutSeconds(c, after.failures) * 1_000_000))
    ensures Locked(a, now) <==> a.lockedUntil.Some? && now < a.lockedUntil.value
  {
  }

  // ---- runs without a successful login ----

  datatype Attempt = Attempt(passwordOk: bool, now: int)

  predicate Counted(a: Account, t: Attempt) { !Locked(a, t.now) && !t.passwordOk }

  predicate Succeeds(a: Account, t: Attempt) { !Locked(a, t.now) && t.passwordOk }

  function Next(c: Config, a: Account, t: Attempt): Account {
    if Locked(a, t.now) then a else if t.passwordOk then FRESH else AfterFailure(c, a, t.now)
  }

  /** The account after the attempts, and the times of the failures that counted. */
  function Play(c: Config, ts: seq<Attempt>): (Account, seq<int>) {
    if ts == [] then (FRESH, [])
    else
      var (a, times) := Play(c, ts[..|ts| - 1]);
      var t := ts[|ts| - 1];
      (Next(c, a, t), if Counted(a, t) then times + [t.now] else times)
  }

  /** One more attempt: refused without a trace while locked, and else a login, which forgets all failures, or one more
      failure. */
  lemma {:induction false} LastAttemptDecides(c: Config, ts: seq<Attempt>, t: Attempt)
    ensures var (a, times) := Play(c, ts);
            var (after, later) := Play(c, ts + [t]);
            if a.lockedUntil.Some? && t.now < a.lockedUntil.value then after == a && later == times
            else if t.passwordOk then after == Account(0, None) && later == times
            else after.failures == a.failures + 1 && later == times + [t.now]
  {
    assert (ts + [t])[..|ts|] == ts;
  }

  /** Wrong passwords that each wait out the longest lockout all count. */
  lemma {:induction false} SlowGuessesAllCount(c: Config, ts: seq<Attempt>)
    requires forall i :: 0 <= i < |ts| ==> !ts[i].passwordOk
    requires forall i :: 0 < i < |ts| ==> ts[i].now >= ts[i - 1].now + c.capSeconds * 1_000_000
    ensures Play(c, ts).0.failures == |ts| == |Play(c, ts).1|
    ensures Play(c, ts).0.lockedUntil.Some? ==>
              ts != [] && Play(c, ts).0.lockedUntil.value <= ts[|ts| - 1].now + c.capSeconds * 1_000_000
  {
    if ts != [] {
      var n := |ts| - 1;
      SlowGuessesAllCount(c, ts[..n]);
      assert Play(c, ts[..n]).0.lockedUntil.Some? ==> n > 0 && ts[..n][|ts[..n]| - 1] == ts[n - 1];
    }
  }

  ghost predicate NoSuccess(c: Config, ts: seq<Attempt>) {
    forall n :: 0 <= n < |ts| ==> !Succeeds(Play(c, ts[..n]).0, ts[n])
  }

  /** The account's columns in terms of the counted failures; while locked out, exactly the last one's lockout. */
  ghost predicate Consistent(c: Config, a: Account, times: seq<int>) {
    && a.failures == |times|
    && (LockoutSeconds(c, |times|) > 0 ==>
          times != [] && a.lockedUntil == Some(times[|times| - 1] + LockoutSeconds(c, |times|) * SECOND))
    && forall k :: 0 < k < |times| && LockoutSeconds(c, k) > 0 ==> Spaced(c, times, k)
  }

  /** The failure after the k-th waited out the k-th's lockout. */
  predicate Spaced(c: Config, times: seq<int>, k: nat)
    requires 0 < k < |times|
  {
    times[k] >= times[k - 1] + LockoutSeconds(c, k) * SECOND
  }

  lemma CountedKeepsConsistent(c: Config, a: Account, times: seq<int>, now: int)
    requires Consistent(c, a, times) && !Locked(a, now)
    ensures Consistent(c, AfterFailure(c, a, now), times + [now])
  {
    hide LockoutSeconds;
    var grown := times + [now];
    forall k | 0 < k < |grown| && LockoutSeconds(c, k) > 0 ensures Spaced(c, grown, k) {
      if k < |times| { assert Spaced(c, times, k); }
    }
  }

  lemma {:induction false} PlayIsConsistent(c: Config, ts: seq<Attempt>)
    requires c.maxAttempts > 0 && NoSuccess(c, ts)
    ensures Consistent(c, Play(c, ts).0, Play(c, ts).1)
  {
    assert Consistent(c, FRESH, []);
    hide LockoutSeconds, Consistent, AfterFailure;
    if ts != [] {
      var n := |ts| - 1;
      var before := ts[..n];
      assert forall k :: 0 <= k <= n ==> before[..k] == ts[..k];
      assert NoSuccess(c, before) by {
        forall k | 0 <= k < |before| ensures !Succeeds(Play(c, before[..k]).0, before[k]) {
          assert !Succeeds(Play(c, ts[..k]).0, ts[k]);
        }
      }
      PlayIsConsistent(c, before);
      var (a, times) := Play(c, before);
      assert !Succeeds(Play(c, ts[..n]).0, ts[n]);
      if Counted(a, ts[n]) { CountedKeepsConsistent(c, a, times, ts[n].now); }
    }
  }

  /** Total lockout, in seconds, of the failures numbered from..to-1. */
  function TotalLockout(c: Config, from: nat, to: nat): nat
    decreases to - from
  {
    if to <= from then 0 else LockoutSeconds(c, to - 1) + TotalLockout(c, from, to - 1)
  }

  lemma LockoutIsPositive(c: Config, k: nat)
    requires c.baseSeconds > 0 && c.capSeconds > 0 && k >= c.maxAttempts
    ensures LockoutSeconds(c, k) > 0
  {
    ScaleMonotone(c.baseSeconds, 1, Pow2(k - c.maxAttempts));
  }

  /** In a run without a successful login, the n-th counted failure comes at least the lockouts of the failures
      m..n-1 after the m-th, for any m from the allowed maximum on. */
  lemma {:induction false} FailuresAreSpacedByLockouts(c: Config, ts: seq<Attempt>, m: nat, n: nat)
    requires c.maxAttempts > 0 && c.baseSeconds > 0 && c.capSeconds > 0
    requires NoSuccess(c, ts)
    requires c.maxAttempts <= m <= n <= |Play(c, ts).1|
    ensures Play(c, ts).1[n - 1] >= Play(c, ts).1[m - 1] + TotalLockout(c, m, n) * SECOND
    decreases n - m
  {
    if m < n {
      FailuresAreSpacedByLockouts(c, ts, m, n - 1);
      PlayIsConsistent(c, ts);
      LockoutIsPositive(c, n - 1);
      assert Spaced(c, Play(c, ts).1, n - 1);
    }
  }

  lemma DefaultLockouts()
    ensures TotalLockout(DEFAULTS, 5, 10) == 60 + 120 + 240 + 480 + 960
    ensures LockoutSeconds(DEFAULTS, 10) == 1800
  {
    assert Pow2(2) == 4 && Pow2(3) == 8 && Pow2(4) == 16 && Pow2(5) == 32;
    assert TotalLockout(DEFAULTS, 5, 6) == 60;
    assert TotalLockout(DEFAULTS, 5, 7) == 180;
    assert TotalLockout(DEFAULTS, 5, 8) == 420;
    assert TotalLockout(DEFAULTS, 5, 9) == 900;
  }

  lemma {:induction false} DefaultTotal(n: nat)
    requires n >= 10
    ensures TotalLockout(DEFAULTS, 5, n) == 1860 + 1800 * (n - 10)
  {
    DefaultLockouts();
    if n > 10 {
      DefaultTotal(n - 1);
      LockoutGrowsToCap(DEFAULTS, 10, n - 1);
    }
  }

  /** With the default settings the n-th counted failure comes at least 31 minutes, and half an hour more for every
      failure past the tenth, after the fifth. */
  lemma {:induction false} DefaultGuessesAreSlow(ts: seq<Attempt>, n: nat)
    requires NoSuccess(DEFAULTS, ts) && 10 <= n <= |Play(DEFAULTS, ts).1|
    ensures Play(DEFAULTS, ts).1[n - 1] >= Play(DEFAULTS, ts).1[4] + (1860 + 1800 * (n - 10)) * SECOND
  {
    DefaultTotal(n);
    FailuresAreSpacedByLockouts(DEFAULTS, ts, 5, n);
  }
}
