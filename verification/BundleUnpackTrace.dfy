/**
 The OLM bundle-unpack watchdog as a protocol over its own history.

 A `Trace` lists everything the watchdog did or read, each with the time it began and ended.
 `Next` says what the watchdog has to do after a given history, using nothing but that history:
 how often it recovered, since when no unpack Job was seen, since when `lastUpdated` stood still.
 The class `Watchdog` keeps counters and timers instead; that the two agree is proved there.
 This module proves what every lawful trace satisfies, whatever the cluster answers.
 */
module BundleUnpackTrace {
  import opened Basics

  datatype Cause = DeadlineFailure | Stalled | NoJobs

  /** Settings read before the loop. In diagnostic mode the three limits are zero. */
  datatype Config = Config(
    diagnosticOnly: bool,
    hasManifest: bool,
    failureLimit: int,
    stallLimit: int,
    noJobLimit: int,
    noJobKickSec: real,
    stallSec: real,
    deadline: real)
  {
    predicate Valid() {
      diagnosticOnly ==> failureLimit == stallLimit == noJobLimit == 0
    }

    function Limit(cause: Cause): int {
      match cause
      case DeadlineFailure => failureLimit
      case Stalled => stallLimit
      case NoJobs => noJobLimit
    }
  }

  datatype Act =
    | Exists(found: bool)
    | Annotate
    | Failed(detail: Option<string>)
    | InProgress(busy: bool)
    | Pending(waiting: bool)
    | Resolved(hasCsv: bool)
    | Head
    | JobNames(names: seq<string>)
    | Churn(job: string, churning: bool)
    | Jobs(count: Option<nat>)
    | Clock
    | Updated(stamp: Option<string>)
    | Recover(cause: Cause, purgeTerminal: bool, recycleOperator: bool, deleted: nat)
    | Kick(reason: Cause, applied: bool)
    | Sleep(seconds: real)

  datatype Event = Event(act: Act, begun: real, ended: real)

  datatype Trace = Start(at: real) | Then(past: Trace, last: Event)
  {
    function Now(): real {
      if Start? then at else last.ended
    }

    function Began(): real {
      if Start? then at else past.Began()
    }

    /** Has the polling loop been entered? */
    predicate Looping() {
      Then? && (last.act.Head? || past.Looping())
    }
  }

  /* ---------- what a history tells ---------- */

  /** Substring tests of the failure text that decide whether a failure is worth recovering from. */
  predicate Recoverable(failure: string) {
    || Contains(failure, "DeadlineExceeded")
    || Contains(Lower(failure), "deadline")
    || Contains(Lower(failure), "stalled")
    || Contains(Lower(failure), "churn")
    || Contains(Lower(failure), "unchanged")
  }

  /** Events that restart both stall timers: a kick, or a recovery without manifest that removed a Job. */
  predicate Restarts(cfg: Config, act: Act) {
    act.Kick? || (act.Recover? && !cfg.hasManifest && act.deleted > 0)
  }

  /** The moment the present run of empty Job listings was first noticed. */
  function EmptySince(cfg: Config, h: Trace): Option<real> {
    match h
    case Start(_) => None
    case Then(p, e) =>
      if Restarts(cfg, e.act) then None
      else if e.act.Jobs? && e.act.count.Some? && e.act.count.value > 0 then None
      else if e.act.Clock? && p.Then? && p.last.act == Jobs(Some(0)) && EmptySince(cfg, p).None? then Some(e.ended)
      else EmptySince(cfg, p)
  }

  /** The lastUpdated value the next reading is compared with. */
  function Seen(cfg: Config, h: Trace): Option<string> {
    match h
    case Start(_) => None
    case Then(p, e) =>
      if Restarts(cfg, e.act) then None
      else if e.act.Updated? then e.act.stamp
      else Seen(cfg, p)
  }

  /** Is the last event a reading of lastUpdated equal to the one before it? */
  predicate Repeated(cfg: Config, h: Trace) {
    h.Then? && h.last.act.Updated? && h.last.act.stamp.Some? && h.last.act.stamp == Seen(cfg, h.past)
  }

  /** The moment the standstill of lastUpdated was first noticed (or last reported, in diagnostic mode). */
  function StillSince(cfg: Config, h: Trace): Option<real> {
    match h
    case Start(_) => None
    case Then(p, e) =>
      if Restarts(cfg, e.act) then None
      else if e.act.Updated? && !Repeated(cfg, h) then None
      else if e.act.Clock? && p.Then? && p.last.act.Updated? && StillSince(cfg, p).None? then Some(e.ended)
      else if e.act.Clock? && p.Then? && p.last.act.Clock? then Some(e.ended)
      else StillSince(cfg, p)
  }

  /** Recoveries of one cause that count against its budget. */
  function Used(cfg: Config, cause: Cause, h: Trace): nat {
    match h
    case Start(_) => 0
    case Then(p, e) =>
      Used(cfg, cause, p) + if Counts(cfg, cause, e.act) then 1 else 0
  }

  predicate Counts(cfg: Config, cause: Cause, act: Act) {
    if cause.NoJobs? || cfg.hasManifest then act.Kick? && act.reason == cause && (cause.NoJobs? || act.applied)
    else act.Recover? && act.cause == cause && act.deleted > 0
  }

  predicate HasBudget(cfg: Config, cause: Cause, h: Trace) {
    !cfg.diagnosticOnly && Used(cfg, cause, h) < cfg.Limit(cause)
  }

  /** Did the reading before the loop report a failure that no recovery has answered? */
  predicate FailureStands(h: Trace) {
    match h
    case Start(_) => false
    case Then(p, e) =>
      if e.act.Recover? then false
      else if e.act.Failed? && p.Then? && p.last.act.Annotate? then e.act.detail.Some?
      else FailureStands(p)
  }

  /** Names of the present listing whose pods have not been looked at yet. */
  function Unscanned(h: Trace): seq<string> {
    match h
    case Start(_) => []
    case Then(p, e) =>
      if e.act.JobNames? then e.act.names
      else if e.act.Churn? then (if Unscanned(p) == [] then [] else Unscanned(p)[1..])
      else Unscanned(p)
  }

  /* ---------- what has to happen next ---------- */

  datatype Kind = AnExists | AnAnnotate | AFailed | AnInProgress | APending | AResolved | AHead | SomeJobNames
                | SomeJobs | AClock | AnUpdated

  datatype Step =
    | Read(kind: Kind)
    | ScanJob(job: string)
    | DoRecover(cause: Cause, purgeTerminal: bool, recycleOperator: bool)
    | DoKick(reason: Cause)
    | DoSleep(seconds: real)
    | Return(ok: bool)
    | Raise

  function KindOf(act: Act): Option<Kind> {
    match act
    case Exists(_) => Some(AnExists)
    case Annotate => Some(AnAnnotate)
    case Failed(_) => Some(AFailed)
    case InProgress(_) => Some(AnInProgress)
    case Pending(_) => Some(APending)
    case Resolved(_) => Some(AResolved)
    case Head => Some(AHead)
    case JobNames(_) => Some(SomeJobNames)
    case Jobs(_) => Some(SomeJobs)
    case Clock => Some(AClock)
    case Updated(_) => Some(AnUpdated)
    case _ => None
  }

  predicate Fits(step: Step, act: Act) {
    match step
    case Read(kind) => KindOf(act) == Some(kind)
    case ScanJob(job) => act.Churn? && act.job == job
    case DoRecover(c, purge, recycle) =>
      act.Recover? && act.cause == c && act.purgeTerminal == purge && act.recycleOperator == recycle
    case DoKick(c) => act.Kick? && act.reason == c
    case DoSleep(s) => act == Sleep(s)
    case Return(_) => false
    case Raise => false
  }

  function Recovery(cfg: Config, cause: Cause, h: Trace): Step {
    DoRecover(cause, cause.Stalled?, cause.Stalled? && Used(cfg, cause, h) >= 1)
  }

  function ScanOn(h: Trace): Step {
    if Unscanned(h) == [] then Read(SomeJobs) else ScanJob(Unscanned(h)[0])
  }

  /** After an empty listing that did not lead to a kick: give up once the kicks are used up. */
  function AfterEmpty(cfg: Config, h: Trace): Step {
    if cfg.noJobLimit > 0 && Used(cfg, NoJobs, h) >= cfg.noJobLimit then Return(false) else Read(AnUpdated)
  }

  function AfterFailure(cfg: Config, failure: string, h: Trace): Step {
    if HasBudget(cfg, DeadlineFailure, h) && Recoverable(failure) then Recovery(cfg, DeadlineFailure, h)
    else Return(false)
  }

  /** Has the last clock reading, taken after reading `p`, found `since` at least `span` seconds old? */
  predicate Elapsed(since: Option<real>, span: real, now: real) {
    since.Some? && now - since.value >= span
  }

  function Next(cfg: Config, h: Trace): Step {
    match h
    case Start(_) => Read(AnExists)
    case Then(p, e) =>
      match e.act
      case Exists(found) => if found then Read(AnAnnotate) else Return(false)
      case Annotate => Read(AFailed)
      case Failed(detail) =>
        if p.Then? && p.last.act.Annotate? then
          if detail.None? || cfg.diagnosticOnly then Read(AnInProgress) else AfterFailure(cfg, detail.value, h)
        else if p.Then? && p.last.act.Pending? then
          if detail.None? then Read(AResolved) else Read(AHead)
        else if detail.None? then Return(true) else AfterFailure(cfg, detail.value, h)
      case InProgress(busy) =>
        if !p.Looping() then if busy then Read(AHead) else Read(APending)
        else if p.last.act.Head? then if busy then Read(SomeJobNames) else Read(AnInProgress)
        else if busy then DoSleep(10.0) else Read(AFailed)
      case Pending(waiting) => if waiting || FailureStands(p) then Read(AHead) else Read(AFailed)
      case Resolved(hasCsv) => if hasCsv then Return(true) else Read(AHead)
      case Head => if e.ended < cfg.deadline then Read(AnInProgress) else Return(false)
      case JobNames(_) => ScanOn(h)
      case Churn(_, churning) =>
        if churning && HasBudget(cfg, Stalled, h) then Recovery(cfg, Stalled, h) else ScanOn(h)
      case Jobs(count) =>
        if count.None? then DoSleep(10.0)
        else if count.value > 0 then Read(AnUpdated)
        else if EmptySince(cfg, h).None? || cfg.hasManifest then Read(AClock)
        else AfterEmpty(cfg, h)
      case Clock =>
        if p.Then? && p.last.act.Jobs? then
          if cfg.hasManifest && Elapsed(EmptySince(cfg, p), cfg.noJobKickSec, e.ended)
             && Used(cfg, NoJobs, h) < cfg.noJobLimit
          then DoKick(NoJobs) else AfterEmpty(cfg, h)
        else if p.Then? && p.last.act.Updated? then
          if !Elapsed(StillSince(cfg, p), cfg.stallSec, e.ended) then Read(AnInProgress)
          else if cfg.diagnosticOnly then Read(AClock)
          else if HasBudget(cfg, Stalled, h) then Recovery(cfg, Stalled, h)
          else if cfg.stallLimit > 0 then Return(false)
          else Read(AnInProgress)
        else DoSleep(10.0)
      case Updated(_) => if Repeated(cfg, h) then Read(AClock) else Read(AnInProgress)
      case Recover(c, _, _, deleted) =>
        if cfg.hasManifest then DoKick(c)
        else if deleted > 0 then (if h.Looping() then DoSleep(15.0) else Read(AnInProgress))
        else if c.DeadlineFailure? then Return(false)
        else if p.Then? && p.last.act.Churn? then ScanOn(h)
        else Read(AnInProgress)
      case Kick(_, applied) =>
        if !applied then Raise else if h.Looping() then DoSleep(15.0) else Read(AnInProgress)
      case Sleep(_) => Read(AHead)
  }

  /** Time only moves forward, and a sleep lasts at least as long as asked. */
  predicate Timely(h: Trace, e: Event) {
    h.Now() <= e.begun <= e.ended && (e.act.Sleep? ==> e.ended - e.begun >= e.act.seconds)
  }

  ghost predicate Lawful(cfg: Config, h: Trace) {
    match h
    case Start(_) => true
    case Then(p, e) => Lawful(cfg, p) && Fits(Next(cfg, p), e.act) && Timely(p, e)
  }
}
