/** What every lawful run of the bundle-unpack watchdog satisfies, whatever the cluster answers. */
module BundleUnpackLaws {
  import opened Basics
  import opened BundleUnpackTrace

  /* ---------- budgets ---------- */

  /** A recovery is only ever started with budget left, with the flags its cause and rank call for. */
  lemma RecoveryIsEarned(cfg: Config, p: Trace, e: Event)
    requires Lawful(cfg, Then(p, e)) && e.act.Recover?
    ensures HasBudget(cfg, e.act.cause, p) && !e.act.cause.NoJobs?
    ensures e.act.purgeTerminal == e.act.cause.Stalled?
    ensures e.act.recycleOperator == (e.act.cause.Stalled? && Used(cfg, e.act.cause, p) >= 1)
  {
  }

  /** The clock is read after a Job listing only when that listing was empty. */
  lemma ClockFollowsEmptyListing(cfg: Config, h: Trace)
    requires Lawful(cfg, h) && h.Then? && h.last.act.Clock? && h.past.Then? && h.past.last.act.Jobs?
    ensures h.past.last.act == Jobs(Some(0))
  {
  }

  lemma KickStep(cfg: Config, p: Trace, reason: Cause)
    requires Next(cfg, p) == DoKick(reason)
    ensures p.Then? && cfg.hasManifest
    ensures p.last.act.Recover? || (p.last.act.Clock? && reason.NoJobs?)
    ensures p.last.act.Recover? ==> p.last.act.cause == reason
    ensures p.last.act.Clock? ==>
              && p.past.Then? && p.past.last.act.Jobs?
              && Elapsed(EmptySince(cfg, p.past), cfg.noJobKickSec, p.last.ended)
              && Used(cfg, NoJobs, p) < cfg.noJobLimit
  {
  }

  lemma KickIsCalledFor(cfg: Config, p: Trace, e: Event)
    requires Lawful(cfg, Then(p, e)) && e.act.Kick?
    ensures Lawful(cfg, p) && Next(cfg, p) == DoKick(e.act.reason)
  {
  }

  /** Where a kick comes from: an answered recovery, or a long enough run of empty Job listings. */
  lemma KickIsEarned(cfg: Config, p: Trace, e: Event)
    requires Lawful(cfg, Then(p, e)) && e.act.Kick?
    ensures cfg.hasManifest
    ensures !e.act.reason.NoJobs? ==> p.Then? && p.last.act.Recover? && p.last.act.cause == e.act.reason
    ensures e.act.reason.NoJobs? ==>
              && p.Then? && p.past.Then? && p.last.act.Clock? && p.past.last.act == Jobs(Some(0))
              && Elapsed(EmptySince(cfg, p.past), cfg.noJobKickSec, p.last.ended)
              && Used(cfg, NoJobs, p) < cfg.noJobLimit
  {
    KickIsCalledFor(cfg, p, e);
    KickStep(cfg, p, e.act.reason);
    if p.last.act.Recover? {
      RecoveryIsEarned(cfg, p.past, p.last);
    } else {
      ClockFollowsEmptyListing(cfg, p);
    }
  }

  lemma {:induction false} BudgetsHold(cfg: Config, cause: Cause, h: Trace)
    requires cfg.Valid() && Lawful(cfg, h)
    ensures Used(cfg, cause, h) <= Max(0, cfg.Limit(cause))
  {
    if h.Then? {
      BudgetsHold(cfg, cause, h.past);
      if h.last.act.Kick? {
        KickIsEarned(cfg, h.past, h.last);
        if h.past.last.act.Recover? {
          RecoveryIsEarned(cfg, h.past.past, h.past.last);
        }
      } else if h.last.act.Recover? {
        RecoveryIsEarned(cfg, h.past, h.last);
      }
    }
  }

  function Kicks(h: Trace): nat {
    if h.Start? then 0 else Kicks(h.past) + if h.last.act.Kick? then 1 else 0
  }

  function OperatorRecycles(h: Trace): nat {
    if h.Start? then 0
    else OperatorRecycles(h.past) + if h.last.act.Recover? && h.last.act.recycleOperator then 1 else 0
  }

  /** Did applying the manifest fail? The run is over then. */
  predicate ApplyFailed(h: Trace) {
    h.Then? && h.last.act.Kick? && !h.last.act.applied
  }

  /** Between a recovery and the kick that completes it. */
  predicate MidRecovery(cfg: Config, h: Trace) {
    cfg.hasManifest && h.Then? && h.last.act.Recover?
  }

  /** Every kick is paid for by exactly one counter; without a manifest there are none. */
  lemma {:induction false} KicksAreCounted(cfg: Config, h: Trace)
    requires Lawful(cfg, h)
    ensures !cfg.hasManifest ==> Kicks(h) == 0
    ensures cfg.hasManifest && !ApplyFailed(h) ==>
              Kicks(h) == Used(cfg, DeadlineFailure, h) + Used(cfg, Stalled, h) + Used(cfg, NoJobs, h)
    ensures cfg.hasManifest && ApplyFailed(h) ==>
              Kicks(h) == Used(cfg, DeadlineFailure, h) + Used(cfg, Stalled, h) + Used(cfg, NoJobs, h)
                          + if h.last.act.reason.NoJobs? then 0 else 1
  {
    if h.Then? {
      KicksAreCounted(cfg, h.past);
      if h.last.act.Kick? {
        KickIsEarned(cfg, h.past, h.last);
      }
      assert !ApplyFailed(h.past);
    }
  }

  /** Without a manifest the operator pod can be recycled any number of times; with one, exactly from the second
      stall recovery on. */
  lemma {:induction false} OperatorRecyclesFollowStalls(cfg: Config, h: Trace)
    requires cfg.hasManifest && Lawful(cfg, h) && !ApplyFailed(h)
    ensures !MidRecovery(cfg, h) ==> OperatorRecycles(h) == Max(0, Used(cfg, Stalled, h) - 1)
    ensures MidRecovery(cfg, h) && h.last.act.cause.Stalled? ==> OperatorRecycles(h) == Used(cfg, Stalled, h)
    ensures MidRecovery(cfg, h) && !h.last.act.cause.Stalled? ==>
              OperatorRecycles(h) == Max(0, Used(cfg, Stalled, h) - 1)
  {
    if h.Then? {
      assert !ApplyFailed(h.past);
      OperatorRecyclesFollowStalls(cfg, h.past);
      if h.last.act.Recover? {
        RecoveryIsEarned(cfg, h.past, h.last);
        assert !MidRecovery(cfg, h.past);
      } else if h.last.act.Kick? {
        KickIsEarned(cfg, h.past, h.last);
      } else {
        assert !MidRecovery(cfg, h.past);
      }
    }
  }

  /** The texts the watchdog itself passes on when Jobs churn or stand still are recoverable ones. */
  lemma ChurnIsRecoverable(before: string, after: string)
    ensures Recoverable(before + "churn" + after)
  {
    LowerOfParts(before, "churn", after);
    InfixContains(Lower(before), "churn", Lower(after));
  }

  lemma StallIsRecoverable(before: string, after: string)
    ensures Recoverable(before + "stalled" + after)
  {
    LowerOfParts(before, "stalled", after);
    InfixContains(Lower(before), "stalled", Lower(after));
  }

  lemma LowerOfParts(before: string, middle: string, after: string)
    requires Lower(middle) == middle
    ensures Lower(before + middle + after) == Lower(before) + middle + Lower(after)
  {
  }

  /* ---------- cool-down ---------- */

  function LastKickEnd(h: Trace): Option<real> {
    if h.Start? then None
    else if h.last.act.Kick? then Some(h.last.ended)
    else LastKickEnd(h.past)
  }

  predicate AtLeastAfter(since: Option<real>, kick: Option<real>) {
    since.Some? && kick.Some? ==> since.value >= kick.value
  }

  /** Both timers, when they run, were started after the latest kick. */
  lemma {:induction false} TimersStartAfterKicks(cfg: Config, h: Trace)
    requires Lawful(cfg, h)
    ensures AtLeastAfter(EmptySince(cfg, h), LastKickEnd(h))
    ensures AtLeastAfter(StillSince(cfg, h), LastKickEnd(h))
    ensures AtLeastAfter(Some(h.Now()), LastKickEnd(h))
    ensures AtLeastAfter(Some(h.Now()), EmptySince(cfg, h)) && AtLeastAfter(Some(h.Now()), StillSince(cfg, h))
  {
    if h.Then? {
      TimersStartAfterKicks(cfg, h.past);
    }
  }

  /** Every listing of unpack Jobs taken from `since` on failed or came back empty, and nothing was kicked. */
  predicate NoJobSeenFrom(since: real, h: Trace) {
    h.Then? ==>
      && NoJobSeenFrom(since, h.past)
      && (h.last.begun > since ==>
            && !h.last.act.Kick?
            && (h.last.act.Jobs? && h.last.act.count.Some? ==> h.last.act.count.value == 0))
  }

  lemma {:induction false} NothingBegunLater(since: real, h: Trace, cfg: Config)
    requires Lawful(cfg, h) && h.Now() <= since
    ensures NoJobSeenFrom(since, h) && StampHeldFrom(since, None, h)
  {
    if h.Then? {
      NothingBegunLater(since, h.past, cfg);
    }
  }

  lemma {:induction false} EmptySinceMeansNoJob(cfg: Config, h: Trace)
    requires Lawful(cfg, h) && EmptySince(cfg, h).Some?
    ensures NoJobSeenFrom(EmptySince(cfg, h).value, h)
  {
    if EmptySince(cfg, h.past).None? {
      NothingBegunLater(h.last.ended, h.past, cfg);
    } else {
      EmptySinceMeansNoJob(cfg, h.past);
    }
  }

  /** Every lastUpdated reading taken from `since` on showed `stamp`, and nothing was kicked. */
  predicate StampHeldFrom(since: real, stamp: Option<string>, h: Trace) {
    h.Then? ==>
      && StampHeldFrom(since, stamp, h.past)
      && (h.last.begun > since ==>
            !h.last.act.Kick? && (h.last.act.Updated? ==> h.last.act.stamp == stamp))
  }

  lemma {:induction false} StampRelabel(cfg: Config, since: real, stamp: Option<string>, h: Trace)
    requires Lawful(cfg, h) && h.Now() <= since
    ensures StampHeldFrom(since, stamp, h)
  {
    if h.Then? {
      StampRelabel(cfg, since, stamp, h.past);
    }
  }

  lemma {:induction false} StillSinceMeansNoChange(cfg: Config, h: Trace)
    requires Lawful(cfg, h) && StillSince(cfg, h).Some?
    ensures Seen(cfg, h).Some?
    ensures StampHeldFrom(StillSince(cfg, h).value, Seen(cfg, h), h)
  {
    var p, e := h.past, h.last;
    if e.act.Clock? && StillSince(cfg, h) == Some(e.ended) {
      StampRelabel(cfg, e.ended, Seen(cfg, h), p);
      if StillSince(cfg, p).Some? {
        StillSinceMeansNoChange(cfg, p);
      } else {
        assert Fits(Next(cfg, p), e.act);
      }
    } else {
      StillSinceMeansNoChange(cfg, p);
    }
  }

  /** No-job kicks keep their distance from every earlier kick, and no Job was seen in between. */
  lemma NoJobKickCoolsDown(cfg: Config, p: Trace, e: Event)
    requires Lawful(cfg, Then(p, e)) && e.act.Kick? && e.act.reason.NoJobs?
    ensures LastKickEnd(p).Some? ==> e.begun - LastKickEnd(p).value >= cfg.noJobKickSec
    ensures exists since :: NoJobSeenFrom(since, p) && e.begun - since >= cfg.noJobKickSec
  {
    KickIsEarned(cfg, p, e);
    TimersStartAfterKicks(cfg, p.past);
    var since := EmptySince(cfg, p.past).value;
    assert EmptySince(cfg, p) == Some(since);
    EmptySinceMeansNoJob(cfg, p);
    assert NoJobSeenFrom(since, p) && e.begun - since >= cfg.noJobKickSec;
  }

  /** A recovery is triggered either by pod churn just observed or by a standstill of lastUpdated. */
  lemma StallRecoveryCoolsDown(cfg: Config, p: Trace, e: Event)
    requires Lawful(cfg, Then(p, e)) && e.act.Recover? && e.act.cause.Stalled?
    ensures p.Then?
    ensures !(p.last.act.Churn? && p.last.act.churning) ==>
              && (LastKickEnd(p).Some? ==> e.begun - LastKickEnd(p).value >= cfg.stallSec)
              && Seen(cfg, p).Some?
              && exists since :: StampHeldFrom(since, Seen(cfg, p), p) && e.begun - since >= cfg.stallSec
  {
    RecoveryStep(cfg, p, e.act.purgeTerminal, e.act.recycleOperator);
    if p.last.act.Clock? {
      TimersStartAfterKicks(cfg, p.past);
      var since := StillSince(cfg, p.past).value;
      assert StillSince(cfg, p) == Some(since);
      StillSinceMeansNoChange(cfg, p);
      assert StampHeldFrom(since, Seen(cfg, p), p) && e.begun - since >= cfg.stallSec;
    }
  }

  lemma RecoveryStep(cfg: Config, p: Trace, purge: bool, recycle: bool)
    requires Next(cfg, p) == DoRecover(Stalled, purge, recycle)
    ensures p.Then?
    ensures (p.last.act.Churn? && p.last.act.churning) || p.last.act.Clock?
    ensures p.last.act.Clock? ==>
              && p.past.Then? && p.past.last.act.Updated?
              && Elapsed(StillSince(cfg, p.past), cfg.stallSec, p.last.ended)
  {
  }

  /* ---------- termination and outcome ---------- */

  /** Loop bodies entered: loop heads read before the deadline. */
  function Rounds(cfg: Config, h: Trace): nat {
    if h.Start? then 0
    else Rounds(cfg, h.past) + if h.last.act.Head? && h.last.ended < cfg.deadline then 1 else 0
  }

  /** Every sleep the watchdog asks for lasts at least ten seconds. */
  lemma SleepsAreLong(cfg: Config, p: Trace, e: Event)
    requires Lawful(cfg, Then(p, e)) && e.act.Sleep?
    ensures e.ended - p.Now() >= 10.0
  {
  }

  /** A loop head is the first one or directly follows a sleep. */
  lemma HeadsFollowSleeps(cfg: Config, p: Trace, e: Event)
    requires Lawful(cfg, Then(p, e)) && e.act.Head?
    ensures p.Looping() ==> p.Then? && p.last.act.Sleep?
  {
    if p.Looping() {
      PreludeIsOver(cfg, p);
    }
  }

  /** Once the loop runs, the readings that belong before it no longer occur. */
  lemma {:induction false} PreludeIsOver(cfg: Config, h: Trace)
    requires Lawful(cfg, h) && h.Looping()
    ensures !h.last.act.Pending? && !h.last.act.Resolved? && !h.last.act.Annotate? && !h.last.act.Exists?
    ensures h.last.act.Failed? ==> !h.past.last.act.Annotate? && !h.past.last.act.Pending?
  {
    if h.past.Looping() {
      PreludeIsOver(cfg, h.past);
    }
  }

  lemma {:induction false} NoRoundBeforeLoop(cfg: Config, h: Trace)
    requires !h.Looping()
    ensures Rounds(cfg, h) == 0
  {
    if h.Then? {
      NoRoundBeforeLoop(cfg, h.past);
    }
  }

  lemma {:induction false} RoundsTakeTime(cfg: Config, h: Trace)
    requires Lawful(cfg, h)
    ensures h.Now() >= h.Began()
    ensures Rounds(cfg, h) > 0 ==> h.Now() - h.Began() >= 10.0 * (Rounds(cfg, h) - 1) as real
    ensures h.Then? && h.last.act.Sleep? ==> h.Now() - h.Began() >= 10.0 * Rounds(cfg, h) as real
  {
    if h.Then? {
      RoundsTakeTime(cfg, h.past);
      if h.last.act.Head? {
        HeadsFollowSleeps(cfg, h.past, h.last);
        if !h.past.Looping() {
          NoRoundBeforeLoop(cfg, h.past);
        }
      } else if h.last.act.Sleep? {
        SleepsAreLong(cfg, h.past, h.last);
      }
    }
  }

  /** At most one loop body per started ten seconds before the deadline. */
  lemma {:induction false} RoundsAreBounded(cfg: Config, h: Trace)
    requires Lawful(cfg, h) && Rounds(cfg, h) > 0
    ensures 10.0 * (Rounds(cfg, h) - 1) as real < cfg.deadline - h.Began()
  {
    if h.last.act.Head? && h.last.ended < cfg.deadline {
      RoundsTakeTime(cfg, h);
    } else {
      RoundsAreBounded(cfg, h.past);
    }
  }

  lemma ResolvedFollowsFailed(cfg: Config, p: Trace, e: Event)
    requires Lawful(cfg, Then(p, e)) && e.act.Resolved?
    ensures p.Then? && p.last.act == Failed(None) && p.past.Then? && p.past.last.act.Pending?
  {
  }

  lemma FailedFollows(cfg: Config, p: Trace, e: Event)
    requires Lawful(cfg, Then(p, e)) && e.act.Failed?
    ensures p.Then?
    ensures p.last.act == Annotate || p.last.act == Pending(false) || (p.last.act == InProgress(false) && p.Looping())
  {
  }

  lemma PendingFollowsIdle(cfg: Config, p: Trace, e: Event)
    requires Lawful(cfg, Then(p, e)) && e.act.Pending?
    ensures p.Then? && p.last.act == InProgress(false)
  {
  }

  /** What a successful return is based on. */
  lemma SuccessNeedsACleanReading(cfg: Config, h: Trace)
    requires Lawful(cfg, h) && Next(cfg, h) == Return(true)
    ensures h.Then? && h.past.Then?
    ensures || (h.Looping() && h.last.act == Failed(None) && h.past.last.act == InProgress(false))
            || (&& !h.Looping() && h.last.act == Resolved(true) && h.past.last.act == Failed(None)
                && h.past.past.Then? && h.past.past.last.act == Pending(false)
                && h.past.past.past.Then? && h.past.past.past.last.act == InProgress(false))
  {
    if h.last.act.Failed? {
      FailedFollows(cfg, h.past, h.last);
    } else {
      assert h.last.act.Resolved?;
      ResolvedFollowsFailed(cfg, h.past, h.last);
      FailedFollows(cfg, h.past.past, h.past.last);
      PendingFollowsIdle(cfg, h.past.past.past, h.past.past.last);
      if h.Looping() {
        PreludeIsOver(cfg, h);
      }
    }
  }

  /** Which reasons end a run with failure. */
  ghost predicate GaveUp(cfg: Config, h: Trace) {
    h.Then? &&
    match h.last.act
    case Exists(found) => !found
    case Head => h.last.ended >= cfg.deadline
    case Failed(detail) =>
      detail.Some? && !(HasBudget(cfg, DeadlineFailure, h) && Recoverable(detail.value))
    case Recover(c, _, _, deleted) => c.DeadlineFailure? && !cfg.hasManifest && deleted == 0
    case Jobs(count) => count == Some(0) && cfg.noJobLimit > 0 && Used(cfg, NoJobs, h) == cfg.noJobLimit
    case Clock =>
      || (cfg.noJobLimit > 0 && Used(cfg, NoJobs, h) == cfg.noJobLimit)
      || (cfg.stallLimit > 0 && Used(cfg, Stalled, h) == cfg.stallLimit
          && h.past.Then? && Elapsed(StillSince(cfg, h.past), cfg.stallSec, h.last.ended))
    case _ => false
  }

  lemma FailureHasAReason(cfg: Config, h: Trace)
    requires cfg.Valid() && Lawful(cfg, h) && Next(cfg, h) == Return(false)
    ensures GaveUp(cfg, h)
  {
    BudgetsHold(cfg, NoJobs, h);
    BudgetsHold(cfg, Stalled, h);
  }

  /** In diagnostic mode nothing is deleted, recycled or kicked: the only write is the annotation. */
  predicate ReadOnly(h: Trace) {
    h.Then? ==> ReadOnly(h.past) && !h.last.act.Recover? && !h.last.act.Kick?
  }

  lemma {:induction false} DiagnosticRunsOnlyRead(cfg: Config, h: Trace)
    requires cfg.Valid() && cfg.diagnosticOnly && Lawful(cfg, h)
    ensures ReadOnly(h)
  {
    if h.Then? {
      DiagnosticRunsOnlyRead(cfg, h.past);
      if h.last.act.Kick? {
        KickIsEarned(cfg, h.past, h.last);
      } else if h.last.act.Recover? {
        RecoveryIsEarned(cfg, h.past, h.last);
      }
    }
  }

  predicate CsvSeen(h: Trace) {
    h.Then? && (h.last.act == Resolved(true) || CsvSeen(h.past))
  }

  function Instant(h: Trace, act: Act): Trace {
    Then(h, Event(act, 0.0, 0.0))
  }

  lemma InstantIsLawful(cfg: Config, h: Trace, act: Act)
    requires Lawful(cfg, h) && h.Now() == 0.0 && Fits(Next(cfg, h), act) && !act.Sleep?
    ensures Lawful(cfg, Instant(h, act)) && Instant(h, act).Now() == 0.0
    ensures CsvSeen(Instant(h, act)) <==> act == Resolved(true) || CsvSeen(h)
  {
  }

  /** A resolved CSV ends the run, so any history that goes on has not seen one. */
  lemma {:induction false} SeeingTheCsvIsTheEnd(cfg: Config, h: Trace)
    requires Lawful(cfg, h) && CsvSeen(h)
    ensures h.Then? && h.last.act == Resolved(true) && !h.Looping()
  {
    if CsvSeen(h.past) {
      SeeingTheCsvIsTheEnd(cfg, h.past);
    } else {
      ResolvedFollowsFailed(cfg, h.past, h.last);
      if h.Looping() {
        PreludeIsOver(cfg, h);
      }
    }
  }

  /** A success was given with a resolved CSV seen exactly if it was given before the polling loop. */
  lemma SuccessSawCsvIff(cfg: Config, h: Trace)
    requires Lawful(cfg, h) && Next(cfg, h) == Return(true)
    ensures CsvSeen(h) <==> !h.Looping()
  {
    SuccessNeedsACleanReading(cfg, h);
    if CsvSeen(h) {
      SeeingTheCsvIsTheEnd(cfg, h);
    }
  }

  /** Enter the loop, find no unpacking twice and no failure: success, whatever was read about the CSV before. */
  lemma QuietRound(cfg: Config, h: Trace) returns (end: Trace)
    requires cfg.deadline > 0.0 && Lawful(cfg, h) && h.Now() == 0.0 && !h.Looping() && !CsvSeen(h)
    requires Next(cfg, h) == Read(AHead)
    ensures Lawful(cfg, end) && Next(cfg, end) == Return(true) && !CsvSeen(end)
  {
    end := h;
    InstantIsLawful(cfg, end, Head);              end := Instant(end, Head);
    InstantIsLawful(cfg, end, InProgress(false)); end := Instant(end, InProgress(false));
    InstantIsLawful(cfg, end, InProgress(false)); end := Instant(end, InProgress(false));
    InstantIsLawful(cfg, end, Failed(None));      end := Instant(end, Failed(None));
  }

  /** The wait announced for an unresolved CSV is not kept: a run may succeed although the only reading of
      the CSV said that it was not resolved. */
  lemma SuccessWithoutCsv(cfg: Config) returns (h: Trace)
    requires cfg.deadline > 0.0
    ensures Lawful(cfg, h) && Next(cfg, h) == Return(true) && !CsvSeen(h)
  {
    h := Start(0.0);
    InstantIsLawful(cfg, h, Exists(true));      h := Instant(h, Exists(true));
    InstantIsLawful(cfg, h, Annotate);          h := Instant(h, Annotate);
    InstantIsLawful(cfg, h, Failed(None));      h := Instant(h, Failed(None));
    InstantIsLawful(cfg, h, InProgress(false)); h := Instant(h, InProgress(false));
    InstantIsLawful(cfg, h, Pending(false));    h := Instant(h, Pending(false));
    InstantIsLawful(cfg, h, Failed(None));      h := Instant(h, Failed(None));
    InstantIsLawful(cfg, h, Resolved(false));   h := Instant(h, Resolved(false));
    h := QuietRound(cfg, h);
  }
}
