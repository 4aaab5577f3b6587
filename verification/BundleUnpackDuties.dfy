/**
 What is due is done: for every lawful history of the watchdog, which act has to follow a reading, and when the run has
 to end. Stated in the readings themselves, apart from the rules that drive the loop.
 */
module BundleUnpackDuties {
  import opened Basics
  import opened BundleUnpackTrace
  import opened BundleUnpackLaws

  /* ---------- what has been paid for ---------- */

  /** Kicks of one cause, failed applications left out unless no Job was the cause. */
  function KicksFor(cause: Cause, h: Trace): nat {
    if h.Start? then 0
    else KicksFor(cause, h.past)
         + if h.last.act == Kick(cause, true) || (cause.NoJobs? && h.last.act == Kick(NoJobs, false)) then 1 else 0
  }

  /** Recoveries of one cause that removed a Job. */
  function PayingRecoveries(cause: Cause, h: Trace): nat {
    if h.Start? then 0
    else PayingRecoveries(cause, h.past)
         + if h.last.act.Recover? && h.last.act.cause == cause && h.last.act.deleted > 0 then 1 else 0
  }

  /** Attempts that count against the limit of a cause. */
  function Spent(cfg: Config, cause: Cause, h: Trace): nat {
    if cause.NoJobs? || cfg.hasManifest then KicksFor(cause, h) else PayingRecoveries(cause, h)
  }

  lemma {:induction false} SpentIsUsed(cfg: Config, cause: Cause, h: Trace)
    ensures Used(cfg, cause, h) == Spent(cfg, cause, h)
  {
    if h.Then? {
      SpentIsUsed(cfg, cause, h.past);
    }
  }

  /** May a recovery of this cause be started? */
  predicate MayRecover(cfg: Config, cause: Cause, h: Trace) {
    !cfg.diagnosticOnly && Spent(cfg, cause, h) < cfg.Limit(cause)
  }

  /* ---------- recoverable texts ---------- */

  /** What makes a failure worth recovering from: one of four words, in upper or lower case. */
  predicate WorthRecovering(failure: string) {
    Says(failure, "deadline") || Says(failure, "stalled") || Says(failure, "churn") || Says(failure, "unchanged")
  }

  lemma RecoverableIff(failure: string)
    ensures Recoverable(failure) <==> WorthRecovering(failure)
  {
    SaysIffLowerContains(failure, "deadline");
    SaysIffLowerContains(failure, "stalled");
    SaysIffLowerContains(failure, "churn");
    SaysIffLowerContains(failure, "unchanged");
    if Contains(failure, "DeadlineExceeded") {
      DeadlineIsInside(failure);
    }
  }

  lemma DeadlineIsInside(failure: string)
    requires Contains(failure, "DeadlineExceeded")
    ensures Says(failure, "deadline")
  {
    var i :| 0 <= i <= |failure| - |"DeadlineExceeded"| && OccursAt(failure, "DeadlineExceeded", i);
    assert failure[i..i + 8] == "DeadlineExceeded"[..8] == "Deadline";
    assert Lower("Deadline") == "deadline";
    assert ReadsAt(failure, "deadline", i);
  }

  /* ---------- since when no Job was seen ---------- */

  /** This history ends with a look at the clock right after a listing without Jobs. */
  predicate EmptyReading(q: Trace) {
    q.Then? && q.last.act.Clock? && q.past.Then? && q.past.last.act == Jobs(Some(0))
  }

  predicate StartsOver(act: Act) {
    act.Kick? || (act.Recover? && act.deleted > 0)
  }

  /** Between `q` and `h` no Job was seen, and nothing started the unpacking over. */
  predicate NoJobSince(q: Trace, h: Trace) {
    || h == q
    || (&& h.Then? && !StartsOver(h.last.act)
        && !(h.last.act.Jobs? && h.last.act.count.Some? && h.last.act.count.value > 0)
        && NoJobSince(q, h.past))
  }

  /** For at least `span` seconds, up to `now`, it was known that there is no Job. */
  ghost predicate NoJobsFor(h: Trace, now: real, span: real) {
    exists q :: EmptyReading(q) && NoJobSince(q, h) && now - q.Now() >= span
  }

  lemma {:induction false} EmptyTimerIsOldEnough(cfg: Config, q: Trace, h: Trace)
    requires Lawful(cfg, h) && EmptyReading(q) && NoJobSince(q, h)
    ensures EmptySince(cfg, h).Some? && EmptySince(cfg, h).value <= q.Now()
  {
    if h == q {
      TimersStartAfterKicks(cfg, h);
    } else {
      EmptyTimerIsOldEnough(cfg, q, h.past);
    }
  }

  lemma {:induction false} EmptyTimerHasReading(cfg: Config, h: Trace) returns (q: Trace)
    requires Lawful(cfg, h) && EmptySince(cfg, h).Some? && !MidRecovery(cfg, h)
    ensures EmptyReading(q) && NoJobSince(q, h) && q.Now() == EmptySince(cfg, h).value
  {
    if EmptySince(cfg, h.past).None? {
      q := h;
    } else {
      assert !MidRecovery(cfg, h.past);
      q := EmptyTimerHasReading(cfg, h.past);
    }
  }

  lemma EmptyElapsedIff(cfg: Config, h: Trace, now: real, span: real)
    requires Lawful(cfg, h) && !MidRecovery(cfg, h)
    ensures Elapsed(EmptySince(cfg, h), span, now) <==> NoJobsFor(h, now, span)
  {
    if Elapsed(EmptySince(cfg, h), span, now) {
      var q := EmptyTimerHasReading(cfg, h);
    }
    if NoJobsFor(h, now, span) {
      var q :| EmptyReading(q) && NoJobSince(q, h) && now - q.Now() >= span;
      EmptyTimerIsOldEnough(cfg, q, h);
    }
  }

  /* ---------- whether lastUpdated changed ---------- */

  predicate StampReading(q: Trace, stamp: Option<string>) {
    q.Then? && q.last.act == Updated(stamp)
  }

  /** Between `q` and `h` the stamp was not read, and nothing started the unpacking over. */
  predicate NotReadSince(q: Trace, h: Trace) {
    h == q || (h.Then? && !StartsOver(h.last.act) && !h.last.act.Updated? && NotReadSince(q, h.past))
  }

  /** The latest reading before showed this stamp too. */
  ghost predicate ShownBefore(h: Trace, stamp: string) {
    exists q :: StampReading(q, Some(stamp)) && NotReadSince(q, h)
  }

  lemma {:induction false} SeenIffShownBefore(cfg: Config, h: Trace, stamp: string)
    requires Lawful(cfg, h) && !MidRecovery(cfg, h)
    ensures Seen(cfg, h) == Some(stamp) <==> ShownBefore(h, stamp)
  {
    if Seen(cfg, h) == Some(stamp) {
      var q := SeenHasReading(cfg, h, stamp);
    }
    if ShownBefore(h, stamp) {
      var q :| StampReading(q, Some(stamp)) && NotReadSince(q, h);
      SeenIsReading(cfg, q, h, stamp);
    }
  }

  lemma {:induction false} SeenHasReading(cfg: Config, h: Trace, stamp: string) returns (q: Trace)
    requires Lawful(cfg, h) && !MidRecovery(cfg, h) && Seen(cfg, h) == Some(stamp)
    ensures StampReading(q, Some(stamp)) && NotReadSince(q, h)
  {
    if h.last.act.Updated? {
      q := h;
    } else {
      assert !MidRecovery(cfg, h.past);
      q := SeenHasReading(cfg, h.past, stamp);
    }
  }

  lemma {:induction false} SeenIsReading(cfg: Config, q: Trace, h: Trace, stamp: string)
    requires StampReading(q, Some(stamp)) && NotReadSince(q, h)
    ensures Seen(cfg, h) == Some(stamp)
  {
    if h != q {
      SeenIsReading(cfg, q, h.past, stamp);
    }
  }

  /* ---------- since when it stands still ---------- */

  /** This history ends with a look at the clock after this stamp was shown, or with the second look of a report. */
  predicate StillReading(q: Trace, stamp: string) {
    && q.Then? && q.last.act.Clock? && q.past.Then?
    && (|| q.past.last.act == Updated(Some(stamp))
        || (q.past.last.act.Clock? && q.past.past.Then? && q.past.past.last.act == Updated(Some(stamp))))
  }

  /** Between `q` and `h` every reading showed this stamp, nothing started the unpacking over, nothing was reported. */
  predicate StillSinceReading(q: Trace, h: Trace, stamp: string) {
    || h == q
    || (&& h.Then? && !StartsOver(h.last.act) && (h.last.act.Updated? ==> h.last.act.stamp == Some(stamp))
        && !(h.last.act.Clock? && h.past.Then? && h.past.last.act.Clock?)
        && StillSinceReading(q, h.past, stamp))
  }

  ghost predicate StillFor(h: Trace, stamp: string, now: real, span: real) {
    exists q :: StillReading(q, stamp) && StillSinceReading(q, h, stamp) && now - q.Now() >= span
  }

  lemma StillReadingSeen(cfg: Config, q: Trace, stamp: string)
    requires Lawful(cfg, q) && StillReading(q, stamp)
    ensures Seen(cfg, q) == Some(stamp)
    ensures StillSince(cfg, q).Some? && StillSince(cfg, q).value <= q.Now()
  {
    TimersStartAfterKicks(cfg, q);
  }

  lemma {:induction false} StillTimerIsOldEnough(cfg: Config, q: Trace, h: Trace, stamp: string)
    requires Lawful(cfg, h) && StillReading(q, stamp) && StillSinceReading(q, h, stamp)
    ensures Lawful(cfg, q)
    ensures Seen(cfg, h) == Some(stamp)
    ensures StillSince(cfg, h).Some? && StillSince(cfg, h).value <= q.Now()
  {
    if h == q {
      StillReadingSeen(cfg, q, stamp);
    } else {
      StillTimerIsOldEnough(cfg, q, h.past, stamp);
    }
  }

  lemma {:induction false} StillTimerHasReading(cfg: Config, h: Trace, stamp: string) returns (q: Trace)
    requires Lawful(cfg, h) && StillSince(cfg, h).Some? && Seen(cfg, h) == Some(stamp) && !MidRecovery(cfg, h)
    ensures StillReading(q, stamp) && StillSinceReading(q, h, stamp) && q.Now() == StillSince(cfg, h).value
  {
    if StillReading(h, stamp) && StillSince(cfg, h) == Some(h.Now()) {
      q := h;
    } else {
      assert !MidRecovery(cfg, h.past);
      q := StillTimerHasReading(cfg, h.past, stamp);
    }
  }

  lemma StillElapsedIff(cfg: Config, h: Trace, stamp: string, now: real, span: real)
    requires Lawful(cfg, h) && Seen(cfg, h) == Some(stamp) && !MidRecovery(cfg, h)
    ensures Elapsed(StillSince(cfg, h), span, now) <==> StillFor(h, stamp, now, span)
  {
    if Elapsed(StillSince(cfg, h), span, now) {
      var q := StillTimerHasReading(cfg, h, stamp);
    }
    if StillFor(h, stamp, now, span) {
      var q :| StillReading(q, stamp) && StillSinceReading(q, h, stamp) && now - q.Now() >= span;
      StillTimerIsOldEnough(cfg, q, h, stamp);
    }
  }

  /* ---------- looking at the Jobs ---------- */

  /** The latest listing of Job names. */
  function Listed(h: Trace): seq<string> {
    if h.Start? then [] else if h.last.act.JobNames? then h.last.act.names else Listed(h.past)
  }

  /** The Jobs looked at since, in order. */
  function LookedAt(h: Trace): seq<string> {
    if h.Start? || h.last.act.JobNames? then []
    else LookedAt(h.past) + if h.last.act.Churn? then [h.last.act.job] else []
  }

  /** In the middle of a scan. */
  predicate Scanning(h: Trace) {
    && h.Then?
    && (|| h.last.act.JobNames? || h.last.act.Churn?
        || (h.last.act.Recover? && h.past.Then? && h.past.last.act.Churn?))
  }

  lemma {:induction false} UnscannedIsRest(cfg: Config, h: Trace)
    requires Lawful(cfg, h) && Scanning(h)
    ensures LookedAt(h) + Unscanned(h) == Listed(h)
  {
    var p, e := h.past, h.last;
    if e.act.Recover? {
      UnscannedIsRest(cfg, p);
    } else if e.act.Churn? {
      ChurnIsNext(cfg, p, e);
      UnscannedIsRest(cfg, p);
      assert Unscanned(p) == [e.act.job] + Unscanned(p)[1..];
    }
  }

  lemma ChurnIsNext(cfg: Config, p: Trace, e: Event)
    requires Lawful(cfg, Then(p, e)) && e.act.Churn?
    ensures Scanning(p) && Unscanned(p) != [] && Unscanned(p)[0] == e.act.job
  {
  }

  /** The next Job of the listing is looked at, and once there is none the Jobs are counted. */
  predicate ScanGoesOn(p: Trace, act: Act) {
    if |LookedAt(p)| < |Listed(p)| then act.Churn? && act.job == Listed(p)[|LookedAt(p)|] else act.Jobs?
  }

  lemma ScanOnIs(cfg: Config, p: Trace, act: Act)
    requires Lawful(cfg, p) && Scanning(p)
    ensures Fits(ScanOn(p), act) <==> ScanGoesOn(p, act)
  {
    UnscannedIsRest(cfg, p);
    assert Listed(p)[|LookedAt(p)|..] == Unscanned(p);
  }

  /* ---------- what has to follow ---------- */

  /** A recovery of this cause; the one from a standstill goes further, and from the second on further still. */
  predicate IsRecovery(cfg: Config, cause: Cause, p: Trace, act: Act) {
    && act.Recover? && act.cause == cause
    && (act.purgeTerminal <==> cause.Stalled?)
    && (act.recycleOperator <==> cause.Stalled? && Spent(cfg, cause, p) >= 1)
  }

  /** A kick for missing Jobs is due: a manifest, a kick left, and no Job for long enough. */
  ghost predicate KickIsDue(cfg: Config, p: Trace) {
    p.Then? && cfg.hasManifest && Spent(cfg, NoJobs, p) < cfg.noJobLimit
    && NoJobsFor(p.past, p.Now(), cfg.noJobKickSec)
  }

  /** No Job, and all kicks are used up. */
  ghost predicate KicksAreUsedUp(cfg: Config, p: Trace) {
    !KickIsDue(cfg, p) && cfg.noJobLimit > 0 && Spent(cfg, NoJobs, p) >= cfg.noJobLimit
  }

  ghost predicate AfterJobs(cfg: Config, p: Trace, count: Option<nat>, act: Act) {
    match count
    case None => act == Sleep(10.0)
    case Some(n) => if n == 0 then act.Clock? || (!cfg.hasManifest && act.Updated?) else act.Updated?
  }

  ghost predicate AfterClock(cfg: Config, p: Trace, act: Act)
    requires p.Then? && p.past.Then?
  {
    match p.past.last.act
    case Jobs(_) =>
      if KickIsDue(cfg, p) then act.Kick? && act.reason == NoJobs else !KicksAreUsedUp(cfg, p) && act.Updated?
    case Updated(stamp) =>
      && stamp.Some?
      && if !StillFor(p.past, stamp.value, p.Now(), cfg.stallSec) then act.InProgress?
         else if cfg.diagnosticOnly then act.Clock?
         else if MayRecover(cfg, Stalled, p) then IsRecovery(cfg, Stalled, p, act)
         else cfg.stallLimit <= 0 && act.InProgress?
    case _ => act == Sleep(10.0)
  }

  ghost predicate AfterFailedReading(cfg: Config, p: Trace, detail: Option<string>, act: Act)
    requires p.Then? && p.past.Then?
  {
    if p.past.last.act.Pending? then if detail.None? then act.Resolved? else act.Head?
    else if !p.Looping() && (detail.None? || cfg.diagnosticOnly) then act.InProgress?
    else detail.Some? && MayRecover(cfg, DeadlineFailure, p) && WorthRecovering(detail.value)
         && IsRecovery(cfg, DeadlineFailure, p, act)
  }

  ghost predicate AfterProgressReading(p: Trace, busy: bool, act: Act)
    requires p.Then? && p.past.Then?
  {
    if !p.Looping() then if busy then act.Head? else act.Pending?
    else if p.past.last.act.Head? then if busy then act.JobNames? else act.InProgress?
    else if busy then act == Sleep(10.0) else act.Failed?
  }

  /** A recovery is completed by a kick; without a manifest it counts if it removed a Job. */
  ghost predicate AfterRecovery(cfg: Config, p: Trace, cause: Cause, deleted: nat, act: Act)
    requires p.Then? && p.past.Then?
  {
    if cfg.hasManifest then act.Kick? && act.reason == cause
    else if deleted > 0 then if p.Looping() then act == Sleep(15.0) else act.InProgress?
    else if cause.DeadlineFailure? then false
    else if p.past.last.act.Churn? then ScanGoesOn(p, act)
    else act.InProgress?
  }

  /** What may follow this history, as the readings at its end demand. */
  ghost predicate Due(cfg: Config, p: Trace, act: Act) {
    if p.Start? then act.Exists?
    else
      match p.last.act
      case Exists(found) => found && act.Annotate?
      case Annotate => act.Failed?
      case Failed(detail) => p.past.Then? && AfterFailedReading(cfg, p, detail, act)
      case InProgress(busy) => p.past.Then? && AfterProgressReading(p, busy, act)
      case Pending(waiting) => if waiting || FailureNoted(p) then act.Head? else act.Failed?
      case Resolved(hasCsv) => !hasCsv && act.Head?
      case Head => p.Now() < cfg.deadline && act.InProgress?
      case JobNames(_) => ScanGoesOn(p, act)
      case Churn(_, churning) =>
        if churning && MayRecover(cfg, Stalled, p) then IsRecovery(cfg, Stalled, p, act) else ScanGoesOn(p, act)
      case Jobs(count) => AfterJobs(cfg, p, count, act)
      case Clock => p.past.Then? && AfterClock(cfg, p, act)
      case Updated(stamp) =>
        if stamp.Some? && ShownBefore(p.past, stamp.value) then act.Clock? else act.InProgress?
      case Recover(cause, _, _, deleted) => p.past.Then? && AfterRecovery(cfg, p, cause, deleted, act)
      case Kick(_, applied) => applied && if p.Looping() then act == Sleep(15.0) else act.InProgress?
      case Sleep(_) => act.Head?
  }

  /** Before the loop: the failure read first, which is left standing only in diagnostic mode. */
  predicate FailureNoted(p: Trace) {
    && p.Then? && p.past.Then? && p.past.past.Then?
    && p.past.past.last.act.Failed? && p.past.past.last.act.detail.Some?
  }

  /* ---------- every lawful history does what is due ---------- */

  lemma MayRecoverIff(cfg: Config, cause: Cause, h: Trace)
    ensures MayRecover(cfg, cause, h) <==> HasBudget(cfg, cause, h)
  {
    SpentIsUsed(cfg, cause, h);
  }

  lemma RecoveryFits(cfg: Config, cause: Cause, p: Trace, act: Act)
    ensures Fits(Recovery(cfg, cause, p), act) <==> IsRecovery(cfg, cause, p, act)
  {
    SpentIsUsed(cfg, cause, p);
  }

  lemma KickIsDueIff(cfg: Config, p: Trace)
    requires Lawful(cfg, p) && p.Then? && p.last.act.Clock? && p.past.Then? && p.past.last.act.Jobs?
    ensures KickIsDue(cfg, p) <==>
              && cfg.hasManifest && Elapsed(EmptySince(cfg, p.past), cfg.noJobKickSec, p.last.ended)
              && Used(cfg, NoJobs, p) < cfg.noJobLimit
  {
    SpentIsUsed(cfg, NoJobs, p);
    EmptyElapsedIff(cfg, p.past, p.last.ended, cfg.noJobKickSec);
  }

  lemma ClockFollows(cfg: Config, p: Trace)
    requires Lawful(cfg, p) && p.Then? && p.last.act.Clock?
    ensures p.past.Then?
    ensures p.past.last.act.Updated? ==> Repeated(cfg, p.past) && p.past.last.act.stamp == Seen(cfg, p.past)
  {
  }

  lemma JobsClockIsDue(cfg: Config, p: Trace, act: Act)
    requires Lawful(cfg, p) && p.Then? && p.last.act.Clock? && p.past.Then? && p.past.last.act.Jobs?
    ensures Fits(Next(cfg, p), act) ==> AfterClock(cfg, p, act)
    ensures Next(cfg, p) == Return(false) <==> KicksAreUsedUp(cfg, p)
    ensures Next(cfg, p) != Return(true) && Next(cfg, p) != Raise
  {
    KickIsDueIff(cfg, p);
    SpentIsUsed(cfg, NoJobs, p);
  }

  lemma StampClockIsDue(cfg: Config, p: Trace, act: Act)
    requires Lawful(cfg, p) && p.Then? && p.last.act.Clock? && p.past.Then? && p.past.last.act.Updated?
    ensures Fits(Next(cfg, p), act) ==> AfterClock(cfg, p, act)
    ensures Next(cfg, p) == Return(false) <==> StandsStillForGood(cfg, p)
    ensures Next(cfg, p) != Return(true) && Next(cfg, p) != Raise
  {
    ClockFollows(cfg, p);
    StillElapsedIff(cfg, p.past, p.past.last.act.stamp.value, p.last.ended, cfg.stallSec);
    MayRecoverIff(cfg, Stalled, p);
    RecoveryFits(cfg, Stalled, p, act);
  }

  /** The same stamp for long enough, and all recoveries used up. */
  ghost predicate StandsStillForGood(cfg: Config, p: Trace) {
    && p.Then? && p.past.Then? && p.past.last.act.Updated? && p.past.last.act.stamp.Some?
    && StillFor(p.past, p.past.last.act.stamp.value, p.Now(), cfg.stallSec)
    && !cfg.diagnosticOnly && cfg.stallLimit > 0 && !MayRecover(cfg, Stalled, p)
  }

  lemma ReportClockIsDue(cfg: Config, p: Trace, act: Act)
    requires Lawful(cfg, p) && p.Then? && p.last.act.Clock? && p.past.Then?
    requires !p.past.last.act.Updated? && !p.past.last.act.Jobs?
    ensures Fits(Next(cfg, p), act) ==> AfterClock(cfg, p, act)
    ensures !Next(cfg, p).Return? && Next(cfg, p) != Raise
  {
  }

  lemma FailedIsDue(cfg: Config, p: Trace, act: Act)
    requires Lawful(cfg, p) && p.Then? && p.last.act.Failed?
    ensures Fits(Next(cfg, p), act) ==> Due(cfg, p, act)
    ensures Next(cfg, p) == Return(true) <==> p.last.act == Failed(None) && p.Looping()
    ensures Next(cfg, p) == Return(false) <==> FailureIsFinal(cfg, p)
    ensures Next(cfg, p) != Raise
  {
    FailedFollows(cfg, p.past, p.last);
    if p.Looping() {
      PreludeIsOver(cfg, p);
    }
    if p.last.act.detail.Some? {
      FinalIff(cfg, p, p.last.act.detail.value, act);
    }
  }

  lemma FinalIff(cfg: Config, p: Trace, failure: string, act: Act)
    ensures MayRecover(cfg, DeadlineFailure, p) && WorthRecovering(failure) <==>
            HasBudget(cfg, DeadlineFailure, p) && Recoverable(failure)
    ensures Fits(Recovery(cfg, DeadlineFailure, p), act) <==> IsRecovery(cfg, DeadlineFailure, p, act)
  {
    MayRecoverIff(cfg, DeadlineFailure, p);
    RecoverableIff(failure);
    RecoveryFits(cfg, DeadlineFailure, p, act);
  }

  /** A failure that nothing can be done about: no recovery left, or not worth one. Before the loop it is only looked
      at outside diagnostic mode, and a second time it is not looked at. */
  predicate FailureIsFinal(cfg: Config, p: Trace) {
    && p.Then? && p.past.Then? && p.last.act.Failed? && p.last.act.detail.Some?
    && !p.past.last.act.Pending? && (p.Looping() || !cfg.diagnosticOnly)
    && !(MayRecover(cfg, DeadlineFailure, p) && WorthRecovering(p.last.act.detail.value))
  }

  lemma ProgressFollows(cfg: Config, p: Trace)
    requires Lawful(cfg, p) && p.Then? && p.last.act.InProgress?
    ensures p.past.Then? && (!p.Looping() ==> !p.past.last.act.Head?)
  {
    assert p.past.Then? && p.past.last.act.Head? ==> p.past.Looping();
  }

  /** Some acts belong to the loop. */
  lemma {:induction false} LoopActs(cfg: Config, h: Trace)
    requires Lawful(cfg, h) && h.Then?
    requires h.last.act.JobNames? || h.last.act.Churn? || h.last.act.Jobs? || h.last.act.Clock? || h.last.act.Updated?
    ensures h.Looping()
  {
    var p := h.past;
    assert p.Then?;
    if p.last.act.Recover? {
      assert p.past.last.act.Churn?;
      LoopActs(cfg, p.past);
    } else if !p.last.act.InProgress? {
      LoopActs(cfg, p);
    }
  }

  lemma ProgressIsDue(cfg: Config, p: Trace, act: Act)
    requires Lawful(cfg, p) && p.Then? && p.last.act.InProgress?
    ensures Fits(Next(cfg, p), act) ==> Due(cfg, p, act)
    ensures !Next(cfg, p).Return? && Next(cfg, p) != Raise
  {
    ProgressFollows(cfg, p);
  }

  lemma FailureStandsIff(cfg: Config, p: Trace)
    requires Lawful(cfg, p) && p.Then? && p.last.act.Pending?
    ensures FailureStands(p.past) <==> FailureNoted(p)
  {
    PendingFollowsIdle(cfg, p.past, p.last);
    if p.past.Looping() {
      PreludeIsOver(cfg, p);
    }
    PreludeProgress(cfg, p.past);
  }

  /** The first question about progress comes after the first look at the failure, answered or not. */
  lemma PreludeProgress(cfg: Config, h: Trace)
    requires Lawful(cfg, h) && h.Then? && h.last.act.InProgress? && !h.Looping()
    ensures FailureStands(h) <==> h.past.Then? && h.past.last.act.Failed? && h.past.last.act.detail.Some?
  {
    var p := h.past;
    assert p.Then? && !p.Looping();
    if p.last.act.Failed? {
      FailedFollows(cfg, p.past, p.last);
    } else if p.last.act.Kick? {
      KickIsEarned(cfg, p.past, p.last);
      if p.past.last.act.Clock? {
        LoopActs(cfg, p.past);
      }
      assert !FailureStands(p.past);
    } else if !p.last.act.Recover? {
      LoopActs(cfg, p);
    }
  }

  lemma RecoverIsDue(cfg: Config, p: Trace, act: Act)
    requires Lawful(cfg, p) && p.Then? && p.last.act.Recover?
    ensures Fits(Next(cfg, p), act) ==> Due(cfg, p, act)
    ensures Next(cfg, p) == Return(false) <==>
              p.last.act.cause.DeadlineFailure? && !cfg.hasManifest && p.last.act.deleted == 0
    ensures Next(cfg, p) != Return(true) && Next(cfg, p) != Raise
  {
    assert p.past.Then?;
    if Scanning(p) {
      ScanOnIs(cfg, p, act);
    }
  }

  lemma ScanIsDue(cfg: Config, p: Trace, act: Act)
    requires Lawful(cfg, p) && p.Then? && (p.last.act.JobNames? || p.last.act.Churn?)
    ensures Fits(Next(cfg, p), act) ==> Due(cfg, p, act)
    ensures !Next(cfg, p).Return? && Next(cfg, p) != Raise
  {
    ScanOnIs(cfg, p, act);
    MayRecoverIff(cfg, Stalled, p);
    RecoveryFits(cfg, Stalled, p, act);
  }

  lemma JobsIsDue(cfg: Config, p: Trace, act: Act)
    requires cfg.Valid() && Lawful(cfg, p) && p.Then? && p.last.act.Jobs?
    ensures Fits(Next(cfg, p), act) ==> Due(cfg, p, act)
    ensures !Next(cfg, p).Return? && Next(cfg, p) != Raise
  {
    if !cfg.hasManifest {
      NoKicksSpent(cfg, p);
    }
  }

  lemma NoKicksSpent(cfg: Config, h: Trace)
    requires Lawful(cfg, h) && !cfg.hasManifest
    ensures Used(cfg, NoJobs, h) == 0
  {
    KicksAreCounted(cfg, h);
    UsedAreKicks(cfg, h);
  }

  lemma {:induction false} UsedAreKicks(cfg: Config, h: Trace)
    ensures Used(cfg, NoJobs, h) <= Kicks(h)
  {
    if h.Then? {
      UsedAreKicks(cfg, h.past);
    }
  }

  lemma UpdatedIsDue(cfg: Config, p: Trace, act: Act)
    requires Lawful(cfg, p) && p.Then? && p.last.act.Updated?
    ensures Fits(Next(cfg, p), act) ==> Due(cfg, p, act)
    ensures !Next(cfg, p).Return? && Next(cfg, p) != Raise
  {
    assert !MidRecovery(cfg, p.past);
    if p.last.act.stamp.Some? {
      SeenIffShownBefore(cfg, p.past, p.last.act.stamp.value);
    }
  }

  lemma ClockIsDue(cfg: Config, p: Trace, act: Act)
    requires Lawful(cfg, p) && p.Then? && p.last.act.Clock?
    ensures Fits(Next(cfg, p), act) ==> Due(cfg, p, act)
    ensures Next(cfg, p) == Return(false) <==>
              (p.past.Then? && p.past.last.act.Jobs? && KicksAreUsedUp(cfg, p)) || StandsStillForGood(cfg, p)
    ensures Next(cfg, p) != Return(true) && Next(cfg, p) != Raise
  {
    ClockFollows(cfg, p);
    if p.past.last.act.Jobs? {
      JobsClockIsDue(cfg, p, act);
    } else if p.past.last.act.Updated? {
      StampClockIsDue(cfg, p, act);
    } else {
      ReportClockIsDue(cfg, p, act);
    }
  }

  /** Whatever follows a lawful history is what is due after it. */
  lemma StepIsDue(cfg: Config, p: Trace, e: Event)
    requires cfg.Valid() && Lawful(cfg, Then(p, e))
    ensures Due(cfg, p, e.act)
  {
    if p.Then? {
      match p.last.act {
        case Failed(_) => FailedIsDue(cfg, p, e.act);
        case InProgress(_) => ProgressIsDue(cfg, p, e.act);
        case Pending(_) => FailureStandsIff(cfg, p);
        case JobNames(_) => ScanIsDue(cfg, p, e.act);
        case Churn(_, _) => ScanIsDue(cfg, p, e.act);
        case Jobs(_) => JobsIsDue(cfg, p, e.act);
        case Clock => ClockIsDue(cfg, p, e.act);
        case Updated(_) => UpdatedIsDue(cfg, p, e.act);
        case Recover(_, _, _, _) => RecoverIsDue(cfg, p, e.act);
        case _ =>
      }
    }
  }

  /** Every act of this history was due when it was done. */
  ghost predicate Dutiful(cfg: Config, h: Trace) {
    h.Then? ==> Dutiful(cfg, h.past) && Due(cfg, h.past, h.last.act)
  }

  lemma {:induction false} LawfulIsDutiful(cfg: Config, h: Trace)
    requires cfg.Valid() && Lawful(cfg, h)
    ensures Dutiful(cfg, h)
  {
    if h.Then? {
      LawfulIsDutiful(cfg, h.past);
      StepIsDue(cfg, h.past, h.last);
    }
  }

  /* ---------- when the run ends ---------- */

  predicate Succeeds(h: Trace) {
    h.Then? && (h.last.act == Resolved(true) || (h.last.act == Failed(None) && h.Looping()))
  }

  /** The exact reasons to return False. */
  ghost predicate MustGiveUp(cfg: Config, h: Trace) {
    h.Then? &&
    match h.last.act
    case Exists(found) => !found
    case Head => h.Now() >= cfg.deadline
    case Failed(_) => FailureIsFinal(cfg, h)
    case Recover(cause, _, _, deleted) => cause.DeadlineFailure? && !cfg.hasManifest && deleted == 0
    case Clock => (h.past.Then? && h.past.last.act.Jobs? && KicksAreUsedUp(cfg, h)) || StandsStillForGood(cfg, h)
    case _ => false
  }

  /** A run ends exactly when the readings at its end say so, and as they say. */
  lemma EndsIff(cfg: Config, h: Trace)
    requires cfg.Valid() && Lawful(cfg, h)
    ensures Next(cfg, h) == Return(true) <==> Succeeds(h)
    ensures Next(cfg, h) == Return(false) <==> MustGiveUp(cfg, h)
    ensures Next(cfg, h) == Raise <==> ApplyFailed(h)
  {
    if h.Then? {
      match h.last.act {
        case Failed(_) => FailedIsDue(cfg, h, Head);
        case InProgress(_) => ProgressIsDue(cfg, h, Head);
        case JobNames(_) => ScanIsDue(cfg, h, Head);
        case Churn(_, _) => ScanIsDue(cfg, h, Head);
        case Jobs(_) => JobsIsDue(cfg, h, Head);
        case Clock => ClockIsDue(cfg, h, Head);
        case Updated(_) => UpdatedIsDue(cfg, h, Head);
        case Recover(_, _, _, _) => RecoverIsDue(cfg, h, Head);
        case _ =>
      }
    }
  }
}
