/** Waiting for a shared external cluster to become idle, against a Konflux API that may answer anything. */
module IdleWait {
  import opened Basics
  import opened ClusterLock

  datatype Verdict = Admitted | NoNamespace | QueryFailed | Busy | TimedOut

  const DEFAULT_POLL_SEC := 60

  function PollSeconds(requested: int): int {
    Max(5, if requested == 0 then DEFAULT_POLL_SEC else requested)
  }

  /** A listing that keeps the run waiting. */
  predicate Occupied(listing: Option<seq<string>>) {
    listing.Some? && listing.value != []
  }

  /** What `n` sleeps between polls add up to. */
  function Slept(poll: int, n: nat): int {
    if n == 0 then 0 else Slept(poll, n - 1) + poll
  }

  lemma {:induction false} SleptIs(poll: int, n: nat)
    ensures Slept(poll, n) == poll * n
  {
    if n > 0 {
      SleptIs(poll, n - 1);
    }
  }

  class Waiter {
    var clock: real
    ghost var polls: seq<Option<seq<string>>>

    constructor (now: real)
      ensures clock == now && polls == []
    {
      clock := now;
      polls := [];
    }

    /** One listing: any answer, after any time. A reply that could not be decoded is answered by the empty list. */
    method List() returns (active: Option<seq<string>>)
      modifies this
      ensures clock >= old(clock) && polls == old(polls) + [active]
    {
      active := *;
      var wait: real := *;
      clock := if wait > 0.0 then clock + wait else clock;
      polls := polls + [active];
    }

    method Sleep(seconds: int)
      modifies this`clock
      ensures clock >= old(clock) + seconds as real
    {
      var extra: real := *;
      clock := clock + seconds as real + (if extra > 0.0 then extra else 0.0);
    }

    /** A run is let in by exactly one thing: a listing that was answered and named nobody. */
    method WaitForExternalClusterIdle(konfluxNamespace: string, source: string, force: bool, timeoutSec: int,
                                      pollSec: int) returns (verdict: Verdict)
      requires polls == []
      modifies this
      ensures !IsExternal(source) || force ==> verdict == Admitted && polls == []
      ensures IsExternal(source) && !force && Strip(konfluxNamespace) == "" ==> verdict == NoNamespace && polls == []
      ensures IsExternal(source) && !force && Strip(konfluxNamespace) != "" ==>
                && |polls| > 0
                && (forall i :: 0 <= i < |polls| - 1 ==> Occupied(polls[i]))
                && var last := polls[|polls| - 1];
                   verdict == if last.None? then QueryFailed
                              else if last.value == [] then Admitted
                              else if timeoutSec <= 0 then Busy
                              else TimedOut
      ensures verdict == TimedOut ==> clock >= old(clock) + timeoutSec as real
      ensures |polls| > 1 ==> PollSeconds(pollSec) * (|polls| - 2) < timeoutSec
    {
      if !IsExternal(source) || force {
        return Admitted;
      }
      if Strip(konfluxNamespace) == "" {
        return NoNamespace;
      }
      var poll := PollSeconds(pollSec);
      var deadline := clock + Max(0, timeoutSec) as real;
      while true
        invariant forall i :: 0 <= i < |polls| ==> Occupied(polls[i])
        invariant clock >= old(clock) + Slept(poll, |polls|) as real
        invariant |polls| > 0 ==> Slept(poll, |polls| - 1) < timeoutSec
        decreases deadline - clock
      {
        if |polls| > 0 {
          SleptIs(poll, |polls| - 1);
        }
        var active := List();
        if active.None? {
          return QueryFailed;
        }
        if active.value == [] {
          return Admitted;
        }
        if timeoutSec <= 0 {
          return Busy;
        }
        if clock >= deadline {
          return TimedOut;
        }
        Sleep(poll);
      }
    }
  }
}
