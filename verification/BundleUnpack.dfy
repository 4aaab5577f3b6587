/**
 The bundle-unpack watchdog itself: a polling loop with three recovery counters and two stall timers.
 The cluster may answer every reading with anything. The ghost field `trace` records the run; the counters
 and timers are proved to agree with what the trace says, so that every step is the one `Next` calls for.
 */
module BundleUnpack {
  import opened Basics
  import opened BundleUnpackTrace
  import opened BundleUnpackLaws
  import opened BundleUnpackDuties

  datatype Outcome = Returned(ok: bool) | ApplyRaised

  datatype Status = GoOn | NextRound | Finished(outcome: Outcome)

  class Watchdog {
    const cfg: Config
    const startedAt: real
    var clock: real
    var failureRecoveries: int
    var stallRecoveries: int
    var noJobKicks: int
    var noJobsSince: Option<real>
    var lastUpdatedSeen: Option<string>
    var stallSince: Option<real>
    ghost var trace: Trace

    constructor (cfg: Config, now: real)
      requires cfg.Valid()
      ensures this.cfg == cfg && trace == Start(now) && Agrees()
    {
      this.cfg := cfg;
      startedAt := now;
      clock := now;
      failureRecoveries, stallRecoveries, noJobKicks := 0, 0, 0;
      noJobsSince, lastUpdatedSeen, stallSince := None, None, None;
      trace := Start(now);
    }

    ghost predicate OnTrack()
      reads this
    {
      cfg.Valid() && Lawful(cfg, trace) && clock == trace.Now() && trace.Began() == startedAt
    }

    ghost predicate CountersAgree()
      reads this
    {
      && failureRecoveries == Used(cfg, DeadlineFailure, trace)
      && stallRecoveries == Used(cfg, Stalled, trace)
      && noJobKicks == Used(cfg, NoJobs, trace)
    }

    ghost predicate TimersAgree()
      reads this
    {
      && noJobsSince == EmptySince(cfg, trace)
      && lastUpdatedSeen == Seen(cfg, trace)
      && stallSince == StillSince(cfg, trace)
    }

    ghost predicate Agrees()
      reads this
    {
      OnTrack() && CountersAgree() && TimersAgree()
    }

    /** The run went on by exactly this act. */
    ghost predicate Did(before: Trace, act: Act)
      reads this
    {
      OnTrack() && trace.Then? && trace.past == before && trace.last.act == act
    }

    /* ---------- contact with the cluster ---------- */

    /** Acts that neither timer nor counter looks at. */
    predicate Neutral(act: Act) {
      !act.Kick? && !act.Recover? && !act.Clock? && !act.Jobs? && !act.Updated?
    }

    /** Carry out one act; any amount of time may pass, a sleep takes at least its length. */
    method Perform(act: Act)
      requires OnTrack() && Fits(Next(cfg, trace), act)
      modifies this`clock, this`trace
      ensures Did(old(trace), act) && trace.last.ended == clock
      ensures trace.Looping() == (act.Head? || old(trace).Looping())
      ensures Neutral(act) && old(Agrees()) ==> Agrees()
    {
      var wait: real := *;
      var work: real := *;
      var begun := if wait > 0.0 then clock + wait else clock;
      var ended := if work > 0.0 then begun + work else begun;
      if act.Sleep? && ended - begun < act.seconds {
        ended := begun + act.seconds;
      }
      trace := Then(trace, Event(act, begun, ended));
      clock := ended;
    }

    method IsInProgress() returns (busy: bool)
      requires OnTrack() && Next(cfg, trace) == Read(AnInProgress)
      modifies this`clock, this`trace
      ensures Did(old(trace), InProgress(busy))
      ensures trace.Looping() == old(trace).Looping() && (old(Agrees()) ==> Agrees())
    {
      busy := *;
      Perform(InProgress(busy));
    }

    method ReadFailure() returns (failure: Option<string>)
      requires OnTrack() && Next(cfg, trace) == Read(AFailed)
      modifies this`clock, this`trace
      ensures Did(old(trace), Failed(failure))
      ensures trace.Looping() == old(trace).Looping() && (old(Agrees()) ==> Agrees())
    {
      failure := *;
      Perform(Failed(failure));
    }

    method ReadClock() returns (now: real)
      requires OnTrack() && Next(cfg, trace) == Read(AClock)
      modifies this`clock, this`trace
      ensures Did(old(trace), Clock) && now == trace.last.ended
      ensures trace.Looping() == old(trace).Looping()
    {
      Perform(Clock);
      now := clock;
    }

    /* ---------- recovery ---------- */

    method KickSubscription(reason: Cause) returns (applied: bool)
      requires OnTrack() && Next(cfg, trace) == DoKick(reason)
      modifies this`clock, this`trace
      ensures Did(old(trace), Kick(reason, applied))
    {
      applied := *;
      Perform(Kick(reason, applied));
    }

    /** Clear stale Jobs and, with a manifest, re-create the subscription. `recovered` reports whether the
        attempt counts; `raised` that applying the manifest failed. */
    method RecoverAfterUnpackFailure(failure: string, cause: Cause, used: int, limit: int)
      returns (recovered: bool, raised: bool)
      requires OnTrack() && TimersAgree()
      requires !cause.NoJobs? && used == Used(cfg, cause, trace) && limit == cfg.Limit(cause)
      requires HasBudget(cfg, cause, trace) && Recoverable(failure) ==>
                 Next(cfg, trace) == Recovery(cfg, cause, trace)
      modifies this`clock, this`trace, this`noJobsSince, this`lastUpdatedSeen, this`stallSince
      ensures OnTrack() && (!raised ==> TimersAgree())
      ensures !(HasBudget(cfg, cause, old(trace)) && Recoverable(failure)) ==>
                !recovered && !raised && trace == old(trace)
      ensures HasBudget(cfg, cause, old(trace)) && Recoverable(failure) ==>
                Answered(cause, old(trace), recovered, raised)
    {
      if cfg.diagnosticOnly || limit <= 0 {
        return false, false;
      }
      if !Recoverable(failure) || used >= limit {
        return false, false;
      }
      var deleted: nat := *;
      Perform(Recover(cause, cause.Stalled?, cause.Stalled? && used >= 1, deleted));
      if deleted > 0 || cfg.hasManifest {
        if cfg.hasManifest {
          var applied := KickSubscription(cause);
          if !applied {
            return false, true;
          }
        }
        lastUpdatedSeen, stallSince, noJobsSince := None, None, None;
        return true, false;
      }
      return false, false;
    }

    /** The run went on by one recovery and, with a manifest, the kick that completes it. */
    ghost predicate Answered(cause: Cause, before: Trace, recovered: bool, raised: bool)
      reads this
    {
      && trace.Then?
      && (cfg.hasManifest ==> trace.last.act == Kick(cause, !raised) && recovered == !raised && trace.past.Then?)
      && var attempt := if cfg.hasManifest then trace.past else trace;
      && attempt.past == before
      && Fits(Recovery(cfg, cause, before), attempt.last.act)
      && (!cfg.hasManifest ==> !raised && recovered == (attempt.last.act.deleted > 0))
    }

    method TryRecover(failure: string) returns (recovered: bool, raised: bool)
      requires Agrees()
      requires HasBudget(cfg, DeadlineFailure, trace) && Recoverable(failure) ==>
                 Next(cfg, trace) == Recovery(cfg, DeadlineFailure, trace)
      modifies this`clock, this`trace, this`noJobsSince, this`lastUpdatedSeen, this`stallSince,
               this`failureRecoveries
      ensures if raised then OnTrack() else Agrees()
      ensures !(HasBudget(cfg, DeadlineFailure, old(trace)) && Recoverable(failure)) ==>
                !recovered && !raised && trace == old(trace)
      ensures HasBudget(cfg, DeadlineFailure, old(trace)) && Recoverable(failure) ==>
                Answered(DeadlineFailure, old(trace), recovered, raised)
    {
      if failureRecoveries >= cfg.failureLimit {
        return false, false;
      }
      recovered, raised := RecoverAfterUnpackFailure(failure, DeadlineFailure, failureRecoveries, cfg.failureLimit);
      if recovered {
        failureRecoveries := failureRecoveries + 1;
      }
    }

    method TryStallRecover(failure: string) returns (recovered: bool, raised: bool)
      requires Agrees() && Recoverable(failure)
      requires HasBudget(cfg, Stalled, trace) ==> Next(cfg, trace) == Recovery(cfg, Stalled, trace)
      modifies this`clock, this`trace, this`noJobsSince, this`lastUpdatedSeen, this`stallSince,
               this`stallRecoveries
      ensures if raised then OnTrack() else Agrees()
      ensures !HasBudget(cfg, Stalled, old(trace)) ==> !recovered && !raised && trace == old(trace)
      ensures HasBudget(cfg, Stalled, old(trace)) ==> Answered(Stalled, old(trace), recovered, raised)
    {
      if stallRecoveries >= cfg.stallLimit {
        return false, false;
      }
      recovered, raised := RecoverAfterUnpackFailure(failure, Stalled, stallRecoveries, cfg.stallLimit);
      if recovered {
        stallRecoveries := stallRecoveries + 1;
      }
    }

    /* ---------- the wait ---------- */

    /** Everything before the polling loop. */
    method Prelude() returns (outcome: Option<Outcome>)
      requires Agrees() && trace.Start?
      modifies this
      ensures outcome.None? ==> Agrees() && Next(cfg, trace) == Read(AHead)
      ensures outcome.Some? ==> Concludes(outcome.value)
    {
      var found: bool := *;
      Perform(Exists(found));
      if !found {
        return Some(Returned(false));
      }
      Perform(Annotate);
      var failure;
      outcome, failure := FirstReading();
      if outcome.None? {
        outcome := PreludeReadings(failure);
      }
    }

    /** The first look at the failure condition; a failure that can be recovered from is forgotten. */
    method FirstReading() returns (outcome: Option<Outcome>, failure: Option<string>)
      requires Agrees() && !trace.Looping() && Next(cfg, trace) == Read(AFailed)
      requires trace.Then? && trace.last.act == Annotate
      modifies this
      ensures outcome.None? ==>
                && Agrees() && !trace.Looping() && Next(cfg, trace) == Read(AnInProgress)
                && failure.Some? == FailureStands(trace)
      ensures outcome.Some? ==> Concludes(outcome.value)
    {
      failure := ReadFailure();
      if failure.Some? && !cfg.diagnosticOnly {
        var recovered, raised := TryRecover(failure.value);
        if raised {
          return Some(ApplyRaised), None;
        }
        if !recovered {
          return Some(Returned(false)), None;
        }
        failure := None;
      }
      return None, failure;
    }

    method PreludeReadings(failure: Option<string>) returns (outcome: Option<Outcome>)
      requires Agrees() && !trace.Looping() && Next(cfg, trace) == Read(AnInProgress)
      requires failure.Some? == FailureStands(trace)
      modifies this`clock, this`trace
      ensures outcome.None? ==> Agrees() && Next(cfg, trace) == Read(AHead)
      ensures outcome.Some? ==> Concludes(outcome.value)
    {
      var busy := IsInProgress();
      if !busy {
        var waiting: bool := *;
        Perform(Pending(waiting));
        if !waiting && failure.None? {
          var second := ReadFailure();
          if second.None? {
            var hasCsv: bool := *;
            Perform(Resolved(hasCsv));
            if hasCsv {
              return Some(Returned(true));
            }
          }
        }
      }
      return None;
    }

    ghost predicate Concludes(outcome: Outcome)
      reads this
    {
      && OnTrack() && (outcome.Returned? ==> CountersAgree())
      && Next(cfg, trace) == if outcome.ApplyRaised? then Raise else Return(outcome.ok)
    }

    /** Ready to read the next loop head. */
    ghost predicate AtHead()
      reads this
    {
      Agrees() && Next(cfg, trace) == Read(AHead)
    }

    ghost predicate InLoop()
      reads this
    {
      Agrees() && trace.Looping()
    }

    method Pause(seconds: real)
      requires InLoop() && Next(cfg, trace) == DoSleep(seconds) && seconds >= 10.0
      modifies this`clock, this`trace
      ensures AtHead() && InLoop() && clock >= old(clock) + 10.0
    {
      Perform(Sleep(seconds));
    }

    method LookAtJob(job: string) returns (recovered: bool, raised: bool)
      requires InLoop() && Next(cfg, trace) == ScanJob(job) && |Unscanned(trace)| > 0
      modifies this`clock, this`trace, this`noJobsSince, this`lastUpdatedSeen, this`stallSince, this`stallRecoveries
      ensures clock >= old(clock)
      ensures raised ==> !recovered && OnTrack() && Next(cfg, trace) == Raise
      ensures recovered ==> InLoop() && Next(cfg, trace) == DoSleep(15.0)
      ensures !recovered && !raised ==>
                InLoop() && Unscanned(trace) == old(Unscanned(trace))[1..] && Next(cfg, trace) == ScanOn(trace)
    {
      var churning: bool := *;
      Perform(Churn(job, churning));
      if churning {
        var before, after := "bundle unpack job pod ", " on " + job;
        var failure := before + "churn" + after;
        ChurnIsRecoverable(before, after);
        ghost var asked := trace;
        recovered, raised := TryStallRecover(failure);
        if HasBudget(cfg, Stalled, asked) {
          SettleRecovery(asked, recovered, raised);
        }
      } else {
        return false, false;
      }
    }

    /** What follows an answered stall recovery inside the loop. */
    lemma SettleRecovery(asked: Trace, recovered: bool, raised: bool)
      requires asked.Looping() && HasBudget(cfg, Stalled, asked)
      requires Answered(Stalled, asked, recovered, raised) && OnTrack()
      ensures trace.Looping() && clock >= asked.Now()
      ensures raised ==> !recovered && Next(cfg, trace) == Raise
      ensures recovered ==> Next(cfg, trace) == DoSleep(15.0)
      ensures !recovered && !raised ==> Unscanned(trace) == Unscanned(asked)
      ensures !recovered && !raised ==>
                Next(cfg, trace) == if asked.last.act.Churn? then ScanOn(trace) else Read(AnInProgress)
    {
      assert Lawful(cfg, trace.past);
    }

    /** Look at the pods of every unfinished unpack Job; recover from the first one that churns. */
    method ScanJobs() returns (recovered: bool, raised: bool)
      requires InLoop() && Next(cfg, trace) == Read(SomeJobNames)
      modifies this`clock, this`trace, this`noJobsSince, this`lastUpdatedSeen, this`stallSince, this`stallRecoveries
      ensures clock >= old(clock)
      ensures raised ==> !recovered && OnTrack() && Next(cfg, trace) == Raise
      ensures recovered ==> InLoop() && Next(cfg, trace) == DoSleep(15.0)
      ensures !recovered && !raised ==> InLoop() && Next(cfg, trace) == Read(SomeJobs)
    {
      var names: seq<string> := *;
      Perform(JobNames(names));
      var i := 0;
      while i < |names|
        invariant 0 <= i <= |names|
        invariant InLoop() && Unscanned(trace) == names[i..] && Next(cfg, trace) == ScanOn(trace)
        invariant clock >= old(clock)
      {
        recovered, raised := LookAtJob(names[i]);
        if recovered || raised {
          return;
        }
        i := i + 1;
      }
      return false, false;
    }

    method KickForMissingJobs() returns (status: Status)
      requires InLoop() && Next(cfg, trace) == DoKick(NoJobs)
      modifies this`clock, this`trace, this`noJobsSince, this`lastUpdatedSeen, this`stallSince, this`noJobKicks
      ensures Settled(status, AnUpdated, old(clock)) && !status.GoOn?
    {
      noJobKicks := noJobKicks + 1;
      var applied := KickSubscription(NoJobs);
      if !applied {
        return Finished(ApplyRaised);
      }
      lastUpdatedSeen, stallSince, noJobsSince := None, None, None;
      NoJobKickCounts(trace);
      Pause(15.0);
      return NextRound;
    }

    lemma NoJobKickCounts(h: Trace)
      requires h.Then? && h.last.act.Kick? && h.last.act.reason.NoJobs?
      ensures Used(cfg, NoJobs, h) == Used(cfg, NoJobs, h.past) + 1
      ensures Used(cfg, Stalled, h) == Used(cfg, Stalled, h.past)
      ensures Used(cfg, DeadlineFailure, h) == Used(cfg, DeadlineFailure, h.past)
      ensures EmptySince(cfg, h).None? && Seen(cfg, h).None? && StillSince(cfg, h).None?
    {
    }

    /** One half of the loop body: what the number of unpack Jobs calls for. */
    method CheckJobs() returns (status: Status)
      requires InLoop() && Next(cfg, trace) == Read(SomeJobs)
      modifies this`clock, this`trace, this`noJobsSince, this`lastUpdatedSeen, this`stallSince, this`noJobKicks
      ensures Settled(status, AnUpdated, old(clock))
    {
      var count: Option<nat> := *;
      Perform(Jobs(count));
      if count.None? {
        assert Agrees();
        Pause(10.0);
        return NextRound;
      }
      if count.value > 0 {
        noJobsSince := None;
        return GoOn;
      }
      status := CheckEmptyListing();
    }

    method CheckEmptyListing() returns (status: Status)
      requires InLoop() && trace.last.act == Jobs(Some(0))
      modifies this`clock, this`trace, this`noJobsSince, this`lastUpdatedSeen, this`stallSince, this`noJobKicks
      ensures Settled(status, AnUpdated, old(clock))
    {
      if noJobsSince.None? {
        var now := ReadClock();
        noJobsSince := Some(now);
        assert Agrees();
      } else if cfg.hasManifest {
        var now := ReadClock();
        assert Agrees();
        if now - noJobsSince.value >= cfg.noJobKickSec && noJobKicks < cfg.noJobLimit {
          status := KickForMissingJobs();
          return;
        }
      }
      if cfg.noJobLimit > 0 && noJobKicks >= cfg.noJobLimit {
        return Finished(Returned(false));
      }
      return GoOn;
    }

    /** The other half: whether lastUpdated stands still. */
    method CheckStandstill() returns (status: Status)
      requires InLoop() && Next(cfg, trace) == Read(AnUpdated)
      modifies this`clock, this`trace, this`noJobsSince, this`lastUpdatedSeen, this`stallSince, this`stallRecoveries
      ensures Settled(status, AnInProgress, old(clock))
      ensures status.GoOn? ==> TailReading()
    {
      var updated: Option<string> := *;
      Perform(Updated(updated));
      if updated.None? || updated != lastUpdatedSeen {
        lastUpdatedSeen, stallSince := updated, None;
        return GoOn;
      }
      assert Agrees() && Repeated(cfg, trace);
      var now := ReadClock();
      if stallSince.None? {
        stallSince := Some(now);
        assert Agrees();
        return GoOn;
      }
      assert Agrees();
      if now - stallSince.value < cfg.stallSec {
        return GoOn;
      }
      if cfg.diagnosticOnly {
        now := ReadClock();
        stallSince := Some(now);
        assert Agrees();
        Pause(10.0);
        return NextRound;
      }
      status := RecoverFromStandstill();
    }

    method RecoverFromStandstill() returns (status: Status)
      requires InLoop() && trace.last.act.Clock? && !cfg.diagnosticOnly
      requires Next(cfg, trace) == if HasBudget(cfg, Stalled, trace) then Recovery(cfg, Stalled, trace)
                                   else if cfg.stallLimit > 0 then Return(false) else Read(AnInProgress)
      modifies this`clock, this`trace, this`noJobsSince, this`lastUpdatedSeen, this`stallSince, this`stallRecoveries
      ensures Settled(status, AnInProgress, old(clock))
      ensures status.GoOn? ==> TailReading()
    {
      var before, after := "bundle unpacking ", ": subscription status lastUpdated unchanged";
      var failure := before + "stalled" + after;
      StallIsRecoverable(before, after);
      ghost var asked := trace;
      var recovered, raised := TryStallRecover(failure);
      if HasBudget(cfg, Stalled, asked) {
        SettleRecovery(asked, recovered, raised);
      }
      if raised {
        return Finished(ApplyRaised);
      }
      if recovered {
        Pause(15.0);
        return NextRound;
      }
      if cfg.stallLimit > 0 && stallRecoveries >= cfg.stallLimit {
        return Finished(Returned(false));
      }
      return GoOn;
    }

    /** The reading that ends a loop body is not the one that follows the loop head. */
    ghost predicate TailReading()
      reads this
    {
      trace.Then? && !trace.last.act.Head?
    }

    /** How far a part of the loop body got. */
    ghost predicate Settled(status: Status, next: Kind, before: real)
      reads this
    {
      match status
      case GoOn => InLoop() && Next(cfg, trace) == Read(next) && clock >= before
      case NextRound => AtHead() && InLoop() && clock >= before + 10.0
      case Finished(outcome) => Concludes(outcome)
    }

    method EndOfRound() returns (status: Status)
      requires InLoop() && Next(cfg, trace) == Read(AnInProgress) && TailReading()
      modifies this`clock, this`trace, this`noJobsSince, this`lastUpdatedSeen, this`stallSince, this`failureRecoveries
      ensures Settled(status, AHead, old(clock)) && !status.GoOn?
    {
      var busy := IsInProgress();
      if busy {
        Pause(10.0);
        return NextRound;
      }
      var failure := ReadFailure();
      if failure.None? {
        return Finished(Returned(true));
      }
      ghost var asked := trace;
      var recovered, raised := TryRecover(failure.value);
      if raised {
        return Finished(ApplyRaised);
      }
      if recovered {
        assert trace.Looping() && clock >= asked.Now() by { assert Lawful(cfg, trace.past); }
        Pause(15.0);
        return NextRound;
      }
      return Finished(Returned(false));
    }

    method Round() returns (status: Status)
      requires InLoop() && Next(cfg, trace) == Read(AnInProgress) && trace.last.act.Head?
      modifies this
      ensures Settled(status, AHead, old(clock)) && !status.GoOn?
    {
      var busy := IsInProgress();
      if busy {
        var recovered, raised := ScanJobs();
        if raised {
          return Finished(ApplyRaised);
        }
        if recovered {
          Pause(15.0);
          return NextRound;
        }
        status := CheckJobs();
        if !status.GoOn? {
          return;
        }
        status := CheckStandstill();
        if !status.GoOn? {
          return;
        }
      }
      status := EndOfRound();
    }

    /**
     Wait until OLM has unpacked the bundle. For every behaviour of the cluster each act was due when it was done, and
     the run ended exactly when and how its readings say; the counters stay within their limits and account for every
     kick; the number of loop bodies is bounded by the time to the deadline.
     */
    method WaitSubscriptionBundleUnpacked() returns (outcome: Outcome)
      requires Agrees() && trace.Start?
      modifies this
      ensures Lawful(cfg, trace) && trace.Began() == startedAt
      ensures Next(cfg, trace) == if outcome.ApplyRaised? then Raise else Return(outcome.ok)
      ensures Dutiful(cfg, trace)
      ensures outcome == Returned(true) <==> Succeeds(trace)
      ensures outcome == Returned(false) <==> MustGiveUp(cfg, trace)
      ensures outcome == ApplyRaised <==> ApplyFailed(trace)
      ensures outcome.Returned? ==>
                && 0 <= failureRecoveries <= Max(0, cfg.failureLimit)
                && 0 <= stallRecoveries <= Max(0, cfg.stallLimit)
                && 0 <= noJobKicks <= Max(0, cfg.noJobLimit)
      ensures outcome.Returned? && cfg.hasManifest ==>
                && Kicks(trace) == failureRecoveries + stallRecoveries + noJobKicks
                && OperatorRecycles(trace) == Max(0, stallRecoveries - 1)
      ensures !cfg.hasManifest ==> Kicks(trace) == 0
      ensures cfg.diagnosticOnly ==> ReadOnly(trace)
      ensures outcome == Returned(false) ==> GaveUp(cfg, trace)
      ensures Rounds(cfg, trace) > 0 ==>
                10.0 * (Rounds(cfg, trace) - 1) as real < cfg.deadline - trace.Began()
    {
      outcome := Run();
      LawfulIsDutiful(cfg, trace);
      EndsIff(cfg, trace);
      KicksAreCounted(cfg, trace);
      BudgetsHold(cfg, DeadlineFailure, trace);
      BudgetsHold(cfg, Stalled, trace);
      BudgetsHold(cfg, NoJobs, trace);
      if cfg.hasManifest && outcome.Returned? {
        OperatorRecyclesFollowStalls(cfg, trace);
      }
      if cfg.diagnosticOnly {
        DiagnosticRunsOnlyRead(cfg, trace);
      }
      if outcome == Returned(false) {
        FailureHasAReason(cfg, trace);
      }
      if Rounds(cfg, trace) > 0 {
        RoundsAreBounded(cfg, trace);
      }
    }

    method Run() returns (outcome: Outcome)
      requires Agrees() && trace.Start?
      modifies this
      ensures Concludes(outcome)
    {
      var early := Prelude();
      if early.Some? {
        return early.value;
      }
      while true
        invariant AtHead()
        decreases cfg.deadline - clock
      {
        Perform(Head);
        if clock >= cfg.deadline {
          return Returned(false);
        }
        var status := Round();
        if status.Finished? {
          return status.outcome;
        }
      }
    }
  }
}
