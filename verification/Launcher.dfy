/** The desktop launcher's start-up flow: runtime check, compose, and health polling with a deadline. */
module Launcher {
  import opened WhiteSpace
  import opened Wrappers

  /** How a command ended: it could not be run at all, or it ran with an exit status and output. */
  datatype CommandResult = NotFound | IoError(error: string) | Ran(success: bool, stdout: string, stderr: string)

  datatype HealthStatus = Healthy | Degraded(detail: string) | Unreachable(detail: string)

  datatype Failure =
    | DaemonDown(stderr: string)
    | NotInstalled
    | CheckFailed(error: string)
    | ComposeFailed(stderr: string)
    | ComposeNotRun

  datatype LauncherState =
    | CheckingRuntime
    | RuntimeUnavailable(reason: Failure)
    | StackAlreadyRunning
    | StartingStack
    | StartupFailed(reason: Failure)
    | WaitingForHealth(attempt: nat, detail: string)
    | Ready
    | HealthTimedOut(lastStatus: string)
  {
    predicate IsTerminal() { RuntimeUnavailable? || StartupFailed? || Ready? || HealthTimedOut? }
  }

  datatype Command = DockerInfo | ComposePs | ComposeUp

  function Detail(h: HealthStatus): string
    requires !h.Healthy?
  {
    h.detail
  }

  function RuntimeFailure(r: CommandResult): Option<Failure> {
    match r
    case Ran(success, _, stderr) => if success then None else Some(DaemonDown(stderr))
    case NotFound => Some(NotInstalled)
    case IoError(error) => Some(CheckFailed(error))
  }

  function ComposeFailure(r: CommandResult): Option<Failure> {
    match r
    case Ran(success, _, stderr) => if success then None else Some(ComposeFailed(stderr))
    case _ => Some(ComposeNotRun)
  }

  predicate Blank(s: string) { forall i :: 0 <= i < |s| ==> IsWhiteSpace(s[i]) }

  predicate ListsContainers(r: CommandResult) { r.Ran? && r.success && !Blank(r.stdout) }

  function CeilDiv(a: nat, b: nat): nat
    requires b > 0
  {
    (a + b - 1) / b
  }

  /** What the operator is told: a command that could not be run, or that ran and failed, with what it said. */
  lemma FailuresTell(r: CommandResult)
    ensures RuntimeFailure(r).None? <==> r.Ran? && r.success
    ensures RuntimeFailure(r) == Some(NotInstalled) <==> r.NotFound?
    ensures r.IoError? ==> RuntimeFailure(r) == Some(CheckFailed(r.error))
    ensures r.Ran? && !r.success ==>
              RuntimeFailure(r) == Some(DaemonDown(r.stderr)) && ComposeFailure(r) == Some(ComposeFailed(r.stderr))
    ensures ComposeFailure(r).None? <==> r.Ran? && r.success
    ensures !r.Ran? ==> ComposeFailure(r) == Some(ComposeNotRun)
    ensures ListsContainers(r) <==>
              r.Ran? && r.success && exists i :: 0 <= i < |r.stdout| && !IsWhiteSpace(r.stdout[i])
  {
  }

  /** The bound on the polls is the least number of intervals that cover the timeout. */
  lemma {:induction false} CeilDivIsLeast(a: nat, b: nat)
    requires b > 0
    ensures CeilDiv(a, b) * b >= a && (a > 0 ==> (CeilDiv(a, b) - 1) * b < a)
  {
    var q, r := (a + b - 1) / b, (a + b - 1) % b;
    assert a + b - 1 == q * b + r;
    assert (q - 1) * b == q * b - b;
  }

  /** The waiting announcements of polls 1..n. */
  function Waits(health: nat -> HealthStatus, n: nat): seq<LauncherState> {
    if n == 0 then [] else Waits(health, n - 1) + [Waiting(health, n)]
  }

  function Waiting(health: nat -> HealthStatus, k: nat): LauncherState {
    WaitingForHealth(k, if health(k).Healthy? then "" else Detail(health(k)))
  }

  /** Each sleep lasts at least the poll interval. Reading 0 is taken when polling starts, reading k after poll k. */
  ghost predicate Ticks(clock: nat -> int, interval: nat) {
    clock(0) <= clock(1) && forall k: nat :: k > 0 ==> clock(k) + interval <= clock(k + 1)
  }

  /** The first poll that answers healthy, or at which the deadline has passed. */
  predicate Stops(health: nat -> HealthStatus, clock: nat -> int, timeout: nat, k: nat) {
    health(k).Healthy? || clock(k) >= clock(0) + timeout
  }

  ghost predicate StopsAt(health: nat -> HealthStatus, clock: nat -> int, timeout: nat, polls: nat) {
    polls > 0 && Stops(health, clock, timeout, polls) && forall k :: 0 < k < polls ==> !Stops(health, clock, timeout, k)
  }

  lemma {:induction false} ClockAfterPolls(clock: nat -> int, interval: nat, k: nat)
    requires Ticks(clock, interval) && k > 0
    ensures clock(k) >= clock(0) + (k - 1) * interval
  {
    if k > 1 {
      ClockAfterPolls(clock, interval, k - 1);
      assert clock(k - 1) + interval <= clock(k - 1 + 1);
      assert (k - 1) * interval == (k - 2) * interval + interval;
    }
  }

  /** At the poll number of the bound the deadline has passed. */
  lemma {:induction false} DeadlinePasses(clock: nat -> int, timeout: nat, interval: nat)
    requires interval > 0 && Ticks(clock, interval)
    ensures clock(CeilDiv(timeout, interval) + 1) >= clock(0) + timeout
  {
    var q := CeilDiv(timeout, interval);
    ClockAfterPolls(clock, interval, q + 1);
    var a := timeout + interval - 1;
    assert a == q * interval + a % interval;
    assert a % interval < interval;
  }

  /** The flow, for any command results, health answers and clock with positive poll interval. */
  method StartStack(info: CommandResult, ps: CommandResult, up: CommandResult,
                    health: nat -> HealthStatus, clock: nat -> int, timeout: nat, interval: nat)
    returns (result: LauncherState, states: seq<LauncherState>, commands: seq<Command>, polls: nat)
    requires interval > 0 && Ticks(clock, interval)
    // exactly one terminal state is announced, last, and returned
    ensures states != [] && states[|states| - 1] == result && result.IsTerminal()
    ensures forall i :: 0 <= i < |states| - 1 ==> !states[i].IsTerminal()
    // nothing runs, and nothing is polled, after a failed step
    ensures RuntimeFailure(info).Some? ==>
              && states == [CheckingRuntime, RuntimeUnavailable(RuntimeFailure(info).value)]
              && commands == [DockerInfo] && polls == 0
    ensures RuntimeFailure(info).None? ==> commands == [DockerInfo, ComposePs, ComposeUp]
    ensures RuntimeFailure(info).None? && ComposeFailure(up).Some? ==>
              && states == [CheckingRuntime, if ListsContainers(ps) then StackAlreadyRunning else StartingStack,
                            StartupFailed(ComposeFailure(up).value)]
              && polls == 0
    // otherwise polling ends within the bound, at the first healthy answer or passed deadline
    ensures RuntimeFailure(info).None? && ComposeFailure(up).None? ==>
              && StopsAt(health, clock, timeout, polls) && polls <= CeilDiv(timeout, interval) + 1
              && states == [CheckingRuntime, if ListsContainers(ps) then StackAlreadyRunning else StartingStack]
                           + (if health(polls).Healthy? then Waits(health, polls - 1) + [Ready]
                              else Waits(health, polls) + [HealthTimedOut(Detail(health(polls)))])
  {
    hide Ticks, ListsContainers, CeilDiv;
    states, commands, polls := [CheckingRuntime], [DockerInfo], 0;
    var failure := RuntimeFailure(info);
    if failure.Some? {
      result := RuntimeUnavailable(failure.value);
      states := states + [result];
      return;
    }
    commands := commands + [ComposePs];
    var alreadyRunning := ListsContainers(ps);
    states := states + [if alreadyRunning then StackAlreadyRunning else StartingStack];
    commands := commands + [ComposeUp];
    failure := ComposeFailure(up);
    if failure.Some? {
      result := StartupFailed(failure.value);
      states := states + [result];
      return;
    }
    var deadline := clock(0) + timeout;
    var attempt: nat := 0;
    ghost var opening := states;
    DeadlinePasses(clock, timeout, interval);
    while true
      invariant attempt <= CeilDiv(timeout, interval)
      invariant polls == attempt
      invariant forall k :: 0 < k <= attempt ==> !Stops(health, clock, timeout, k)
      invariant states == opening + Waits(health, attempt)
      invariant forall i :: 0 <= i < |states| ==> !states[i].IsTerminal()
      decreases CeilDiv(timeout, interval) + 1 - attempt
    {
      attempt := attempt + 1;
      polls := attempt;
      var answer := health(attempt);
      if answer.Healthy? {
        states := states + [Ready];
        return Ready, states, commands, polls;
      }
      var detail := Detail(answer);
      states := states + [WaitingForHealth(attempt, detail)];
      assert states == opening + Waits(health, attempt);
      if clock(attempt) >= deadline {
        result := HealthTimedOut(detail);
        states := states + [result];
        return;
      }
    }
  }

  /** The waiting announcements are numbered 1, 2, 3, ... */
  lemma {:induction false} WaitsAreNumbered(health: nat -> HealthStatus, n: nat, k: nat)
    requires k < n
    ensures |Waits(health, n)| == n
    ensures Waits(health, n)[k]
         == WaitingForHealth(k + 1, if health(k + 1).Healthy? then "" else health(k + 1).detail)
  {
    if n == 1 {
      assert Waits(health, 0) == [];
    } else if k < n - 1 {
      WaitsAreNumbered(health, n - 1, k);
    } else {
      WaitsAreNumbered(health, n - 1, 0);
    }
  }

  /** The launcher reports ready exactly when some poll made before the deadline, or the first one made past it,
      answers healthy. */
  lemma {:induction false} ReadyExactlyWhen(health: nat -> HealthStatus, clock: nat -> int, timeout: nat,
                                            interval: nat, polls: nat)
    requires interval > 0 && Ticks(clock, interval) && StopsAt(health, clock, timeout, polls)
    ensures health(polls).Healthy? <==>
              exists k: nat :: k > 0 && health(k).Healthy? && (k == 1 || clock(k - 1) < clock(0) + timeout)
  {
    if health(polls).Healthy? {
      assert polls == 1 || !Stops(health, clock, timeout, polls - 1);
    } else if k: nat :| k > 0 && health(k).Healthy? && (k == 1 || clock(k - 1) < clock(0) + timeout) {
      assert Stops(health, clock, timeout, k) && polls < k;
      ClockGrows(clock, interval, polls, k - 1);
    }
  }

  lemma {:induction false} ClockGrows(clock: nat -> int, interval: nat, a: nat, b: nat)
    requires Ticks(clock, interval) && a <= b
    ensures clock(a) <= clock(b)
    decreases b - a
  {
    if a < b {
      ClockGrows(clock, interval, a, b - 1);
      if b > 1 {
        assert clock(b - 1) + interval <= clock(b - 1 + 1);
      }
    }
  }
}
