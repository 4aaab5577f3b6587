/** One BVT run: pytest through uv, a sync and a second try, pytest from a pip directory, all on one time budget. */
module LaunchLadder {
  import opened Basics

  datatype Kind = UvPytest | UvSync | UvRetry | PipPytest

  /** One subprocess: when the budget was checked, when the timeout was read off it, when the process began, the
      timeout it began with, and how it ended. */
  datatype Launch =
    Launch(kind: Kind, checked: real, granted: real, begun: real, timeout: Option<real>, exit: int)

  datatype Reason =
    | LastLaunch  // the exit code of the last pytest launch
    | JunitKept  // pytest could not finish, but a readable JUnit file exists
    | BudgetSpent  // a phase was due but no time was left
    | SyncTimedOut
    | PipTimedOut
    | PipFailed  // the exit code of pip
    | NoResources  // the cluster library cannot be imported

  /** What the pip fallback tries before its launch: an import, an installation (None when it ran out of time), and
      another import. */
  datatype Check = Imports(ok: bool) | Installs(exit: Option<int>) | FindsResources(ok: bool)

  const TIMED_OUT := 124

  /** Exit codes that mean that pytest could not run its tests. */
  predicate IsInfra(exit: int) {
    2 <= exit <= 5
  }

  predicate IsPytest(kind: Kind) {
    !kind.UvSync?
  }

  function Rank(kind: Kind): nat {
    match kind
    case UvPytest => 0
    case UvSync => 1
    case UvRetry => 2
    case PipPytest => 3
  }

  /** `later` may directly follow `earlier`. */
  predicate MayFollow(earlier: Launch, later: Launch) {
    match later.kind
    case UvPytest => false
    case UvSync => earlier.kind.UvPytest? && IsInfra(earlier.exit)
    case UvRetry => earlier.kind.UvSync? && earlier.exit != TIMED_OUT
    case PipPytest => earlier.kind.UvRetry? && IsInfra(earlier.exit)
  }

  predicate IsLadder(log: seq<Launch>, uvPresent: bool) {
    && (log != [] ==> log[0].kind == if uvPresent then UvPytest else PipPytest)
    && (forall i :: 0 <= i < |log| - 1 ==> MayFollow(log[i], log[i + 1]))
  }

  function PytestLaunches(log: seq<Launch>): nat {
    if log == [] then 0
    else PytestLaunches(log[..|log| - 1]) + if IsPytest(log[|log| - 1].kind) then 1 else 0
  }

  lemma {:induction false} RanksRise(log: seq<Launch>, uvPresent: bool)
    requires IsLadder(log, uvPresent) && log != []
    ensures |log| <= Rank(log[|log| - 1].kind) + 1
    ensures PytestLaunches(log) <= 3 && (Rank(log[|log| - 1].kind) < 3 ==> PytestLaunches(log) <= 2)
    ensures Rank(log[|log| - 1].kind) <= 1 ==> PytestLaunches(log) <= 1
  {
    if |log| > 1 {
      var front := log[..|log| - 1];
      forall i | 0 <= i < |front| - 1 ensures MayFollow(front[i], front[i + 1]) {
        assert MayFollow(log[i], log[i + 1]);
      }
      RanksRise(front, uvPresent);
      assert MayFollow(log[|log| - 2], log[|log| - 1]);
    } else {
      assert log[..0] == [];
    }
  }

  /** At most three pytest launches, and none after one that passed, failed its tests or timed out. */
  lemma LadderLimitsPytest(log: seq<Launch>, uvPresent: bool, i: nat, j: nat)
    requires IsLadder(log, uvPresent) && i < j < |log|
    requires IsPytest(log[i].kind) && IsPytest(log[j].kind)
    ensures PytestLaunches(log) <= 3
    ensures log[i].exit in {2, 3, 4, 5}
  {
    RanksRise(log, uvPresent);
    assert MayFollow(log[i], log[i + 1]);
  }

  /* ---------- the budget ---------- */

  /** What is left of a budget at this moment, never negative. */
  function Rest(total: real, started: real, now: real): real {
    if total - (now - started) > 0.0 then total - (now - started) else 0.0
  }

  /** The limit a subprocess is given: a timeout of zero counts as none. */
  function Limit(timeout: Option<real>): Option<real> {
    if timeout.Some? && timeout.value > 0.0 then timeout else None
  }

  /** Cleared while something was left, then given the rest of a later reading as its timeout. */
  predicate Budgeted(launch: Launch, started: real, total: real) {
    && launch.checked <= launch.granted <= launch.begun
    && Rest(total, started, launch.checked) > 0.0
    && launch.timeout == Limit(Some(Rest(total, started, launch.granted)))
  }

  /**
   What a budget is worth to one launch. It is cleared before the budget ends. It may run forever if and only if the
   clock passed the end between the check and the reading of its timeout; otherwise it is stopped behind the end by
   no more than the time between that reading and its beginning.
   */
  predicate KeepsBudget(launch: Launch, end: real) {
    && launch.checked < end
    && (launch.timeout.None? <==> launch.granted >= end)
    && (launch.timeout.Some? ==> launch.begun + launch.timeout.value == end + (launch.begun - launch.granted))
  }

  lemma BudgetedKeepsBudget(launch: Launch, started: real, total: real)
    requires Budgeted(launch, started, total)
    ensures KeepsBudget(launch, started + total)
  {
  }

  class Runner {
    const total: Option<real>
    const started: real
    var clock: real
    ghost var log: seq<Launch>
    ghost var junitRead: Option<bool>  // the last answer to the question whether a readable JUnit file exists
    ghost var checks: seq<Check>

    ghost predicate Valid()
      reads this
    {
      && started <= clock
      && (total.Some? ==> forall launch :: launch in log ==> Budgeted(launch, started, total.value))
      && (total.None? ==> forall launch :: launch in log ==> launch.timeout.None?)
    }

    constructor (total: Option<real>, now: real)
      ensures Valid() && log == [] && junitRead == None && checks == [] && this.total == total && started == now
    {
      this.total, started, clock, log, junitRead, checks := total, now, now, [], None, [];
    }

    method Now() returns (now: real)
      modifies this`clock
      ensures now == clock && clock >= old(clock)
    {
      var tick: real := *;
      clock := if tick > 0.0 then clock + tick else clock;
      now := clock;
    }

    /** What is left of the budget, never negative. */
    method Remaining() returns (left: Option<real>)
      modifies this`clock
      ensures clock >= old(clock)
      ensures left == if total.None? then None else Some(Rest(total.value, started, clock))
    {
      if total.None? {
        return None;
      }
      var now := Now();
      var left_ := total.value - (now - started);
      return Some(if left_ > 0.0 then left_ else 0.0);
    }

    /** Start a subprocess. A timeout of zero counts as none; without any, the environment's is used, which is the
        budget's and hence absent too. */
    method RunWithTee(kind: Kind, ghost checked: real, timeout: Option<real>) returns (exit: int)
      requires Valid() && checked <= clock
      requires total.None? ==> timeout.None?
      requires total.Some? ==> Rest(total.value, started, checked) > 0.0
      requires total.Some? ==> timeout == Some(Rest(total.value, started, clock))
      modifies this`clock, this`log
      ensures Valid() && Launched(old(log), kind, exit) && clock >= old(clock)
      ensures var launch := log[|log| - 1];
        launch.checked == checked && launch.granted == old(clock) && launch.timeout == Limit(timeout)
    {
      ghost var granted := clock;
      var limit := if timeout.Some? && timeout.value > 0.0 then timeout else None;
      var begun := Now();
      exit := *;
      log := log + [Launch(kind, checked, granted, begun, limit, exit)];
      var _ := Now();
    }

    /** The log grew by one launch of this kind that ended with this code. */
    ghost predicate Launched(before: seq<Launch>, kind: Kind, exit: int)
      reads this
    {
      |log| > 0 && log[..|log| - 1] == before && log[|log| - 1].kind == kind && log[|log| - 1].exit == exit
    }

    /** Every launch made keeps the budget there is. */
    ghost predicate InTime()
      reads this
    {
      if total.Some? then forall launch :: launch in log ==> KeepsBudget(launch, started + total.value)
      else forall launch :: launch in log ==> launch.timeout.None?
    }

    lemma ValidIsInTime()
      requires Valid()
      ensures InTime()
    {
      if total.Some? {
        forall launch | launch in log ensures KeepsBudget(launch, started + total.value) {
          BudgetedKeepsBudget(launch, started, total.value);
        }
      }
    }

    /** Nothing is left of the budget. */
    ghost predicate Spent()
      reads this
    {
      total.Some? && clock >= started + total.value
    }

    /** A phase on the shared budget: it is started unless nothing is left, and not once nothing is left. */
    method RunPhase(kind: Kind) returns (exit: int, ghost ran: bool)
      requires Valid()
      modifies this`clock, this`log
      ensures Valid() && InTime()
      ensures old(Spent()) ==> !ran
      ensures !ran ==> Spent()
      ensures if ran then Launched(old(log), kind, exit) else exit == TIMED_OUT && log == old(log)
      ensures clock >= old(clock)
    {
      var left := Remaining();
      if left.Some? && left.value <= 0.0 {
        ValidIsInTime();
        return TIMED_OUT, false;
      }
      ghost var checked := clock;
      left := Remaining();
      exit := RunWithTee(kind, checked, left);
      ran := true;
      ValidIsInTime();
    }

    method ReadableJunit() returns (yes: bool)
      modifies this`junitRead
      ensures junitRead == Some(yes)
    {
      yes := *;
      junitRead := Some(yes);
    }

    /* ---------- the ladder ---------- */

    ghost predicate LastIs(kind: Kind, exit: int)
      reads this
    {
      |log| > 0 && log[|log| - 1].kind == kind && log[|log| - 1].exit == exit
    }

    /** How each reason to stop fits the launches made. */
    ghost predicate Explains(reason: Reason, exit: int, uvPresent: bool)
      reads this
    {
      match reason
      case LastLaunch =>
        && |log| > 0 && IsPytest(log[|log| - 1].kind) && log[|log| - 1].exit == exit
        && (if log[|log| - 1].kind.PipPytest? then ReadyForPip() else exit !in {2, 3, 4, 5})
      case JunitKept =>
        && junitRead == Some(true) && exit >= 2
        && (if log == [] then !uvPresent && exit == 2
            else IsPytest(log[|log| - 1].kind) && log[|log| - 1].exit == exit
                 && (exit in {2, 3, 4, 5} ==> log[|log| - 1].kind.UvRetry?))
      case BudgetSpent => exit == TIMED_OUT && Spent()
      case SyncTimedOut => exit == TIMED_OUT && LastIs(UvSync, TIMED_OUT)
      case _ =>
        && junitRead == Some(false) && AtFallback(uvPresent)
        && (reason.PipTimedOut? ==> exit == TIMED_OUT && checks == [Imports(false), Installs(None)])
        && (reason.PipFailed? ==> exit != 0 && checks == [Imports(false), Installs(Some(exit))])
        && (reason.NoResources? ==>
              && exit == LastExit()
              && (checks == [Imports(true), FindsResources(false)]
                  || checks == [Imports(false), Installs(Some(0)), FindsResources(false)]))
    }

    /** The exit code of the last launch; 2 without one. */
    ghost function LastExit(): int
      reads this
    {
      if log == [] then 2 else log[|log| - 1].exit
    }

    /** The import went well, at once or after an installation, and the cluster library is there. */
    ghost predicate ReadyForPip()
      reads this
    {
      || checks == [Imports(true), FindsResources(true)]
      || checks == [Imports(false), Installs(Some(0)), FindsResources(true)]
    }

    /** The pip fallback is due: uv is missing, or its second try could not run the tests either. */
    ghost predicate AtFallback(uvPresent: bool)
      reads this
    {
      if uvPresent then |log| == 3 && log[2].kind.UvRetry? && IsInfra(log[2].exit) else log == []
    }

    /** The uv rungs that did not settle the run: one try that was no infrastructure failure, or all three. */
    ghost predicate Unsettled(exit: int)
      reads this
    {
      && IsLadder(log, true) && exit != TIMED_OUT
      && (|| (|log| == 1 && LastIs(UvPytest, exit) && !IsInfra(exit))
          || (|log| == 3 && LastIs(UvRetry, exit)))
    }

    method UvPhases() returns (exit: int, done: bool, ghost reason: Reason)
      requires Valid() && log == [] && checks == []
      modifies this`clock, this`log
      ensures Valid() && IsLadder(log, true)
      ensures if done then Explains(reason, exit, true) && !(|log| > 0 && log[|log| - 1].kind.PipPytest?)
              else Unsettled(exit)
    {
      ghost var ran: bool;
      exit, ran := RunPhase(UvPytest);
      if exit == TIMED_OUT {
        return exit, true, if ran then LastLaunch else BudgetSpent;
      }
      if exit >= 2 && IsInfra(exit) {
        var sync;
        sync, ran := RunPhase(UvSync);
        if sync == TIMED_OUT {
          return sync, true, if ran then SyncTimedOut else BudgetSpent;
        }
        exit, ran := RunPhase(UvRetry);
        if exit == TIMED_OUT {
          return exit, true, if ran then LastLaunch else BudgetSpent;
        }
      }
      return exit, false, LastLaunch;
    }

    method PipFallback(before: int, uvPresent: bool) returns (exit: int, ghost reason: Reason)
      requires Valid() && IsLadder(log, uvPresent) && AtFallback(uvPresent)
      requires junitRead == Some(false) && before == LastExit() && checks == []
      modifies this`clock, this`log, this`checks
      ensures Valid() && IsLadder(log, uvPresent) && Explains(reason, exit, uvPresent)
      ensures |log| > 0 && log[|log| - 1].kind.PipPytest? ==> reason.LastLaunch?
    {
      var left := Remaining();
      if left.Some? && left.value <= 0.0 {
        return TIMED_OUT, BudgetSpent;
      }
      var importable: bool := *;
      checks := [Imports(importable)];
      if !importable {
        var timedOut: bool := *;
        if timedOut {
          checks := checks + [Installs(None)];
          return TIMED_OUT, PipTimedOut;
        }
        exit := *;
        checks := checks + [Installs(Some(exit))];
        if exit != 0 {
          return exit, PipFailed;
        }
      }
      var resources: bool := *;
      checks := checks + [FindsResources(resources)];
      if !resources {
        return if before >= 2 then before else 2, NoResources;
      }
      ghost var ran: bool;
      exit, ran := RunPhase(PipPytest);
      reason := if ran then LastLaunch else BudgetSpent;
    }

    /** One run: at most three pytest launches, each further one only after a code that means that no tests ran,
        the pip launch only without a readable JUnit file, and every launch within the rules of the budget. */
    method RunSingle(uvPresent: bool) returns (exit: int, ghost reason: Reason)
      requires Valid() && log == [] && checks == []
      modifies this
      ensures Valid() && IsLadder(log, uvPresent) && Explains(reason, exit, uvPresent)
      ensures PytestLaunches(log) <= 3 && InTime()
      ensures |log| > 0 && log[|log| - 1].kind.PipPytest? ==> junitRead == Some(false) && reason.LastLaunch?
    {
      exit, reason := Climb(uvPresent);
      ValidIsInTime();
      if log != [] {
        RanksRise(log, uvPresent);
      }
    }

    method Climb(uvPresent: bool) returns (exit: int, ghost reason: Reason)
      requires Valid() && log == [] && checks == []
      modifies this
      ensures Valid() && IsLadder(log, uvPresent) && Explains(reason, exit, uvPresent)
      ensures |log| > 0 && log[|log| - 1].kind.PipPytest? ==> junitRead == Some(false) && reason.LastLaunch?
    {
      exit := 1;
      if uvPresent {
        var done: bool;
        exit, done, reason := UvPhases();
        if done {
          return;
        }
      } else {
        exit := 2;
      }
      if exit < 2 {
        return exit, LastLaunch;
      }
      var junit := ReadableJunit();
      if junit {
        return exit, JunitKept;
      }
      if !IsInfra(exit) && uvPresent {
        return exit, LastLaunch;
      }
      exit, reason := PipFallback(exit, uvPresent);
    }
  }
}
