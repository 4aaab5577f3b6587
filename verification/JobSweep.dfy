/** The two sweeps over OLM bundle-unpack Jobs that a recovery runs one after the other. */
module JobSweep {
  import opened Basics

  datatype Condition = Condition(kind: string, status: string, reason: string)

  /** `unpacks` tells whether the Job's containers look like a bundle unpack; absent counts read as 0. */
  datatype Job = Job(
    name: string,
    unpacks: bool,
    conditions: seq<Condition>,
    active: nat,
    succeeded: nat,
    failed: nat,
    completions: nat)

  predicate SaysFailed(cond: Condition) {
    || (cond.kind == "Failed" && Lower(cond.status) == "true")
    || (&& (cond.kind == "Complete" || cond.kind == "SuccessCriteriaMet") && Lower(cond.status) == "false"
        && Lower(cond.reason) in {"failed", "backofflimitexceeded", "deadlineexceeded"})
  }

  predicate IsFailed(job: Job) {
    (exists i :: 0 <= i < |job.conditions| && SaysFailed(job.conditions[i])) || job.failed > 0
  }

  /** The number of completions asked for; both an absent number and zero count as one. */
  function Goal(job: Job): nat {
    if job.completions == 0 then 1 else job.completions
  }

  predicate IsTerminalSuccess(job: Job) {
    !IsFailed(job) && job.active == 0 && job.succeeded >= Goal(job)
  }

  predicate Named(job: Job) {
    Strip(job.name) != ""
  }

  /** What the first sweep selects when it includes active Jobs. */
  predicate SweptFirst(job: Job) {
    job.unpacks && Named(job) && (IsFailed(job) || job.succeeded == 0)
  }

  predicate SweptSecond(job: Job) {
    job.unpacks && Named(job) && IsTerminalSuccess(job)
  }

  /** The sweeps never claim the same Job, and what they leave is exactly the half-finished ones: succeeded at least
      once, but still active or short of their goal. */
  lemma SweepsPartition(job: Job)
    requires job.unpacks && Named(job)
    ensures !(SweptFirst(job) && SweptSecond(job)) && !(IsFailed(job) && IsTerminalSuccess(job))
    ensures !SweptFirst(job) && !SweptSecond(job) <==>
              !IsFailed(job) && job.succeeded > 0 && (job.active > 0 || job.succeeded < Goal(job))
  {
  }

  predicate Swept(job: Job) {
    SweptFirst(job) || SweptSecond(job)
  }

  /** A Job counts as failed by its number of failures, by its Failed condition, or by a completion that was denied for
      one of three reasons. */
  ghost predicate HasFailed(job: Job) {
    || job.failed > 0
    || (exists cond :: && cond in job.conditions && cond.kind == "Failed" && Lower(cond.status) == "true")
    || (exists cond :: && cond in job.conditions && cond.kind in {"Complete", "SuccessCriteriaMet"}
                       && Lower(cond.status) == "false"
                       && Lower(cond.reason) in {"failed", "backofflimitexceeded", "deadlineexceeded"})
  }

  lemma FailedIff(job: Job)
    ensures IsFailed(job) <==> HasFailed(job)
  {
    if cond :| cond in job.conditions && SaysFailed(cond) {
      var i :| 0 <= i < |job.conditions| && job.conditions[i] == cond;
    }
  }

  /** Both sweeps together take every named unpack Job that has failed, has not succeeded once, or is done: no longer
      active, with as many successes as completions asked for. */
  lemma SweptIff(job: Job)
    ensures Swept(job) <==>
              && job.unpacks && Strip(job.name) != ""
              && (|| HasFailed(job) || job.succeeded == 0
                  || (job.active == 0 && job.succeeded >= job.completions))
    ensures SweptFirst(job) <==>
              job.unpacks && Strip(job.name) != "" && (HasFailed(job) || job.succeeded == 0)
  {
    FailedIff(job);
  }

  /** The names of the Jobs that are swept. */
  function Targets(jobs: seq<Job>, swept: Job -> bool): seq<string> {
    if jobs == [] then []
    else Targets(jobs[..|jobs| - 1], swept) + if swept(jobs[|jobs| - 1]) then [jobs[|jobs| - 1].name] else []
  }

  function Spared(jobs: seq<Job>, swept: Job -> bool): seq<Job> {
    if jobs == [] then []
    else Spared(jobs[..|jobs| - 1], swept) + if swept(jobs[|jobs| - 1]) then [] else [jobs[|jobs| - 1]]
  }

  lemma {:induction false} SparedIsRest(jobs: seq<Job>, swept: Job -> bool)
    ensures forall job :: job in Spared(jobs, swept) <==> job in jobs && !swept(job)
    ensures |Spared(jobs, swept)| + |Targets(jobs, swept)| == |jobs|
  {
    if jobs != [] {
      SparedIsRest(jobs[..|jobs| - 1], swept);
      assert jobs == jobs[..|jobs| - 1] + [jobs[|jobs| - 1]];
    }
  }

  lemma {:induction false} TargetsAreSwept(jobs: seq<Job>, swept: Job -> bool)
    ensures forall name :: name in Targets(jobs, swept) <==> exists job :: job in jobs && swept(job) && job.name == name
  {
    if jobs != [] {
      TargetsAreSwept(jobs[..|jobs| - 1], swept);
      assert jobs == jobs[..|jobs| - 1] + [jobs[|jobs| - 1]];
    }
  }

  /** One sweep after the other removes what either selects. */
  lemma {:induction false} SweepsCompose(jobs: seq<Job>, first: Job -> bool, second: Job -> bool, either: Job -> bool)
    requires forall job :: job in jobs ==> either(job) == (first(job) || second(job))
    ensures Spared(Spared(jobs, first), second) == Spared(jobs, either)
  {
    if jobs != [] {
      var front, last := jobs[..|jobs| - 1], jobs[|jobs| - 1];
      SweepsCompose(front, first, second, either);
      if !first(last) {
        var spared := Spared(front, first);
        assert (spared + [last])[..|spared|] == spared;
        assert last in jobs;
      } else {
        assert Spared(front, first) + [] == Spared(front, first);
      }
    }
  }

  /** What the first sweep takes away, and what it tries in vain, is of no concern to a second one that selects other
      Jobs. */
  lemma {:induction false} SecondSweepsTheSame(jobs: seq<Job>, gone: Job -> bool, second: Job -> bool)
    requires forall job :: job in jobs ==> !(gone(job) && second(job))
    ensures Targets(Spared(jobs, gone), second) == Targets(jobs, second)
  {
    if jobs != [] {
      var front, last := jobs[..|jobs| - 1], jobs[|jobs| - 1];
      SecondSweepsTheSame(front, gone, second);
      assert last in jobs;
      if !gone(last) {
        var spared := Spared(front, gone);
        assert (spared + [last])[..|spared|] == spared;
      } else {
        assert Spared(front, gone) + [] == Spared(front, gone);
      }
    }
  }

  /** Two sweeps that select different Jobs try together as many as one that selects either. */
  lemma {:induction false} SweepsAddUp(jobs: seq<Job>, first: Job -> bool, second: Job -> bool, either: Job -> bool)
    requires forall job :: job in jobs ==> !(first(job) && second(job)) && either(job) == (first(job) || second(job))
    ensures |Targets(jobs, first)| + |Targets(jobs, second)| == |Targets(jobs, either)|
  {
    if jobs != [] {
      SweepsAddUp(jobs[..|jobs| - 1], first, second, either);
      assert jobs[|jobs| - 1] in jobs;
    }
  }

  /* ---------- refusals ---------- */

  function Unless(swept: Job -> bool, refused: set<string>): Job -> bool {
    job => swept(job) && job.name !in refused
  }

  /** Refusals leave Jobs behind that are counted all the same; the balance is even exactly if there are none. */
  lemma {:induction false} RefusalsUpset(jobs: seq<Job>, swept: Job -> bool, refused: set<string>)
    ensures |Spared(jobs, Unless(swept, refused))| + |Targets(jobs, swept)| >= |jobs|
    ensures |Spared(jobs, Unless(swept, refused))| + |Targets(jobs, swept)| == |jobs|
       <==> forall job :: job in jobs && swept(job) ==> job.name !in refused
  {
    if jobs != [] {
      RefusalsUpset(jobs[..|jobs| - 1], swept, refused);
      assert jobs == jobs[..|jobs| - 1] + [jobs[|jobs| - 1]];
    }
  }

  ghost predicate DistinctNames(jobs: seq<Job>) {
    forall i, j :: 0 <= i < j < |jobs| ==> jobs[i].name != jobs[j].name
  }

  ghost predicate NoneTwice(names: seq<string>) {
    forall i, j :: 0 <= i < j < |names| ==> names[i] != names[j]
  }

  lemma {:induction false} TargetsOnce(jobs: seq<Job>, swept: Job -> bool)
    requires DistinctNames(jobs)
    ensures NoneTwice(Targets(jobs, swept))
  {
    if jobs != [] {
      var front, last := jobs[..|jobs| - 1], jobs[|jobs| - 1];
      TargetsOnce(front, swept);
      TargetsAreSwept(front, swept);
      forall i | 0 <= i < |Targets(front, swept)| ensures Targets(front, swept)[i] != last.name {
        assert Targets(front, swept)[i] in Targets(front, swept);
      }
    }
  }

  lemma NamesTell(jobs: seq<Job>, one: Job, other: Job)
    requires DistinctNames(jobs) && one in jobs && other in jobs && one.name == other.name
    ensures one == other
  {
    var i :| 0 <= i < |jobs| && jobs[i] == one;
    var j :| 0 <= j < |jobs| && jobs[j] == other;
  }

  /** Sweeps that select different Jobs never try the same name. */
  lemma TargetsApart(jobs: seq<Job>, first: Job -> bool, second: Job -> bool)
    requires DistinctNames(jobs) && forall job :: job in jobs ==> !(first(job) && second(job))
    ensures NoneTwice(Targets(jobs, first) + Targets(jobs, second))
  {
    var names, more := Targets(jobs, first), Targets(jobs, second);
    TargetsOnce(jobs, first);
    TargetsOnce(jobs, second);
    TargetsAreSwept(jobs, first);
    TargetsAreSwept(jobs, second);
    forall i, j | 0 <= i < |names| && 0 <= j < |more| ensures names[i] != more[j] {
      assert names[i] in names && more[j] in more;
      var one :| one in jobs && first(one) && one.name == names[i];
      var other :| other in jobs && second(other) && other.name == more[j];
      if one.name == other.name {
        NamesTell(jobs, one, other);
        assert false;
      }
    }
  }

  function Without(jobs: seq<Job>, at: nat): seq<Job>
    requires at < |jobs|
  {
    jobs[..at] + jobs[at + 1..]
  }

  lemma OneMore(done: seq<Job>, listing: seq<Job>, i: nat)
    requires i < |listing| && DistinctNames(done + listing[i..])
    ensures (done + listing[i..])[|done|] == listing[i]
    ensures done + listing[i..] == (done + [listing[i]]) + listing[i + 1..]
    ensures Without(done + listing[i..], |done|) == done + listing[i + 1..]
    ensures DistinctNames(done + listing[i + 1..])
  {
    var all, rest := done + listing[i..], done + listing[i + 1..];
    forall j, k | 0 <= j < k < |rest| ensures rest[j].name != rest[k].name {
      assert rest[j] == all[if j < |done| then j else j + 1] && rest[k] == all[if k < |done| then k else k + 1];
    }
  }

  /** What a sweep has left after its first `i` Jobs. */
  predicate Remain(jobs: seq<Job>, listing: seq<Job>, i: nat, swept: Job -> bool)
    requires i <= |listing|
  {
    jobs == Spared(listing[..i], swept) + listing[i..]
  }

  lemma OneMoreJob(jobs: seq<Job>, listing: seq<Job>, i: nat, gone: Job -> bool)
    requires i < |listing| && Remain(jobs, listing, i, gone) && DistinctNames(jobs)
    ensures var at := |Spared(listing[..i], gone)|;
      && at < |jobs| && jobs[at] == listing[i]
      && DistinctNames(Without(jobs, at))
      && Remain(if gone(listing[i]) then Without(jobs, at) else jobs, listing, i + 1, gone)
  {
    assert listing[..i + 1][..i] == listing[..i];
    var done := Spared(listing[..i], gone);
    OneMore(done, listing, i);
    assert done + [] == done;
  }

  /** A sweep in front of its Job `i`. */
  ghost predicate Along(jobs: seq<Job>, tried: seq<string>, listing: seq<Job>, i: nat, swept: Job -> bool,
                        gone: Job -> bool, before: seq<string>)
    requires i <= |listing|
  {
    Remain(jobs, listing, i, gone) && DistinctNames(jobs) && tried == before + Targets(listing[..i], swept)
  }

  lemma Onward(jobs: seq<Job>, tried: seq<string>, listing: seq<Job>, i: nat, swept: Job -> bool, gone: Job -> bool,
               before: seq<string>)
    requires i < |listing| && Along(jobs, tried, listing, i, swept, gone, before)
    ensures var at := |Spared(listing[..i], gone)|;
      && at < |jobs| && jobs[at] == listing[i]
      && Along(if gone(listing[i]) then Without(jobs, at) else jobs,
               if swept(listing[i]) then tried + [listing[i].name] else tried, listing, i + 1, swept, gone, before)
  {
    OneMoreJob(jobs, listing, i, gone);
    OneMoreTarget(listing, i, swept, before, tried);
  }

  lemma OneMoreTarget(listing: seq<Job>, i: nat, swept: Job -> bool, before: seq<string>, tried: seq<string>)
    requires i < |listing| && tried == before + Targets(listing[..i], swept)
    ensures (if swept(listing[i]) then tried + [listing[i].name] else tried) ==
            before + Targets(listing[..i + 1], swept)
  {
    var names := Targets(listing[..i], swept);
    assert listing[..i + 1][..i] == listing[..i];
    assert Targets(listing[..i + 1], swept) == names + if swept(listing[i]) then [listing[i].name] else [];
    assert names + [] == names;
    assert before + names + [listing[i].name] == before + (names + [listing[i].name]);
  }

  lemma AllDone(jobs: seq<Job>, listing: seq<Job>, swept: Job -> bool, gone: Job -> bool)
    requires Remain(jobs, listing, |listing|, gone)
    ensures jobs == Spared(listing, gone) && Targets(listing[..|listing|], swept) == Targets(listing, swept)
  {
    assert listing[..|listing|] == listing;
  }

  /** How the API answers a sweep: whether it lists the Jobs at all, and which of them it will not delete. */
  datatype Answers = Answers(listed: bool, refused: set<string>)

  class Marketplace {
    var jobs: seq<Job>
    ghost var tried: seq<string>  // the deletions asked for

    constructor (jobs: seq<Job>)
      requires DistinctNames(jobs)
      ensures this.jobs == jobs && tried == []
    {
      this.jobs := jobs;
      tried := [];
    }

    method Delete(name: string, refused: set<string>, ghost at: nat)
      requires at < |jobs| && jobs[at].name == name && DistinctNames(jobs)
      modifies this
      ensures jobs == if name in refused then old(jobs) else Without(old(jobs), at)
      ensures tried == old(tried) + [name]
    {
      tried := tried + [name];
      if name in refused {
        return;
      }
      var i := 0;
      while jobs[i].name != name
        invariant 0 <= i <= at
        decreases at - i
      {
        i := i + 1;
      }
      jobs := Without(jobs, i);
    }

    /** A sweep: list the Jobs, then ask for the deletion of each selected one by name. The count is that of the
        attempts, not of the Jobs that went. */
    method Sweep(swept: Job -> bool, answers: Answers) returns (deleted: nat)
      requires DistinctNames(jobs)
      modifies this
      ensures DistinctNames(jobs)
      ensures jobs == if answers.listed then Spared(old(jobs), Unless(swept, answers.refused)) else old(jobs)
      ensures tried == old(tried) + if answers.listed then Targets(old(jobs), swept) else []
      ensures deleted == |tried| - |old(tried)|
    {
      if !answers.listed {
        return 0;
      }
      var listing := jobs;
      ghost var gone, before := Unless(swept, answers.refused), tried;
      deleted := 0;
      for i := 0 to |listing|
        invariant Along(jobs, tried, listing, i, swept, gone, before)
        invariant deleted == |tried| - |before|
      {
        var job := listing[i];
        ghost var at := |Spared(listing[..i], gone)|;
        Onward(jobs, tried, listing, i, swept, gone, before);
        if swept(job) {
          Delete(job.name, answers.refused, at);
          deleted := deleted + 1;
        }
      }
      AllDone(jobs, listing, swept, gone);
    }

    /**
     The Job part of a recovery. Whatever is refused, no Job is tried twice, and with both listings the count is that of
     the Jobs either sweep selects. It is the number of Jobs that went exactly if no selected one was refused.
     */
    method SweepUnpackJobs(purgeTerminal: bool, first: Answers, second: Answers) returns (deleted: nat)
      requires DistinctNames(jobs)
      modifies this
      ensures DistinctNames(jobs)
      ensures var last := if purgeTerminal then second else UNLISTED;
        && Remaining(old(jobs), jobs, first, last)
        && tried == old(tried) + Attempts(old(jobs), first, last)
        && deleted == |Attempts(old(jobs), first, last)|
        && NoneTwice(Attempts(old(jobs), first, last))
        && Balanced(old(jobs), jobs, deleted, first, last)
      ensures purgeTerminal && first.listed && second.listed ==> deleted == |Targets(old(jobs), Swept)|
    {
      ghost var all, before := jobs, tried;
      deleted := Sweep(SweptFirst, first);
      AfterFirst(all, jobs, before, tried, deleted, first);
      if purgeTerminal {
        ghost var left, soFar := jobs, tried;
        var more := Sweep(SweptSecond, second);
        AfterSecond(all, left, jobs, before, soFar, tried, deleted, more, first, second);
        deleted := deleted + more;
      }
    }
  }

  /** The names that both sweeps try. */
  function Attempts(all: seq<Job>, first: Answers, second: Answers): seq<string> {
    (if first.listed then Targets(all, SweptFirst) else [])
    + if second.listed then Targets(all, SweptSecond) else []
  }

  /** Which Jobs are left. */
  ghost predicate Remaining(all: seq<Job>, left: seq<Job>, first: Answers, second: Answers) {
    forall job :: job in left <==>
      && job in all
      && !(first.listed && SweptFirst(job) && job.name !in first.refused)
      && !(second.listed && SweptSecond(job) && job.name !in second.refused)
  }

  /** How Jobs left and Jobs counted compare to all Jobs. */
  ghost predicate Balanced(all: seq<Job>, left: seq<Job>, deleted: nat, first: Answers, second: Answers) {
    && |left| + deleted >= |all|
    && (|left| + deleted == |all| <==>
          && (first.listed ==> forall job :: job in all && SweptFirst(job) ==> job.name !in first.refused)
          && (second.listed ==> forall job :: job in all && SweptSecond(job) ==> job.name !in second.refused))
  }

  const UNLISTED := Answers(false, {})

  lemma AfterFirst(
    all: seq<Job>, left: seq<Job>, before: seq<string>, tried: seq<string>, deleted: nat, first: Answers)
    requires DistinctNames(all)
    requires left == if first.listed then Spared(all, Unless(SweptFirst, first.refused)) else all
    requires tried == before + if first.listed then Targets(all, SweptFirst) else []
    requires deleted == |tried| - |before|
    ensures Remaining(all, left, first, UNLISTED) && Balanced(all, left, deleted, first, UNLISTED)
    ensures tried == before + Attempts(all, first, UNLISTED) && deleted == |Attempts(all, first, UNLISTED)|
    ensures NoneTwice(Attempts(all, first, UNLISTED))
  {
    var names := if first.listed then Targets(all, SweptFirst) else [];
    assert names + [] == names;
    TargetsOnce(all, SweptFirst);
    RefusalsUpset(all, SweptFirst, first.refused);
    SparedIsRest(all, Unless(SweptFirst, first.refused));
  }

  lemma SecondIsApart(all: seq<Job>, left: seq<Job>, first: Answers, second: Answers)
    requires DistinctNames(all)
    requires left == if first.listed then Spared(all, Unless(SweptFirst, first.refused)) else all
    ensures Targets(left, SweptSecond) == Targets(all, SweptSecond)
    ensures NoneTwice(Attempts(all, first, second))
    ensures |Targets(all, SweptFirst)| + |Targets(all, SweptSecond)| == |Targets(all, Swept)|
  {
    TargetsOnce(all, SweptFirst);
    TargetsOnce(all, SweptSecond);
    TargetsApart(all, SweptFirst, SweptSecond);
    SecondSweepsTheSame(all, Unless(SweptFirst, first.refused), SweptSecond);
    SweepsAddUp(all, SweptFirst, SweptSecond, Swept);
  }

  lemma AfterSecond(
    all: seq<Job>, left: seq<Job>, rest: seq<Job>, before: seq<string>, soFar: seq<string>, tried: seq<string>,
    deleted: nat, more: nat, first: Answers, second: Answers)
    requires DistinctNames(all)
    requires left == if first.listed then Spared(all, Unless(SweptFirst, first.refused)) else all
    requires soFar == before + if first.listed then Targets(all, SweptFirst) else []
    requires deleted == |soFar| - |before|
    requires rest == if second.listed then Spared(left, Unless(SweptSecond, second.refused)) else left
    requires tried == soFar + if second.listed then Targets(left, SweptSecond) else []
    requires more == |tried| - |soFar|
    ensures Remaining(all, rest, first, second) && Balanced(all, rest, deleted + more, first, second)
    ensures tried == before + Attempts(all, first, second) && deleted + more == |Attempts(all, first, second)|
    ensures NoneTwice(Attempts(all, first, second))
    ensures first.listed && second.listed ==> deleted + more == |Targets(all, Swept)|
  {
    AfterFirst(all, left, before, soFar, deleted, first);
    SecondIsApart(all, left, first, second);
    AttemptsJoin(all, left, before, soFar, tried, first, second);
    RestIsBalanced(all, left, rest, deleted, more, first, second);
  }

  lemma AttemptsJoin(
    all: seq<Job>, left: seq<Job>, before: seq<string>, soFar: seq<string>, tried: seq<string>, first: Answers,
    second: Answers)
    requires Targets(left, SweptSecond) == Targets(all, SweptSecond)
    requires soFar == before + if first.listed then Targets(all, SweptFirst) else []
    requires tried == soFar + if second.listed then Targets(left, SweptSecond) else []
    ensures tried == before + Attempts(all, first, second)
    ensures |tried| - |before| == |Attempts(all, first, second)|
    ensures first.listed && second.listed ==>
              |Attempts(all, first, second)| == |Targets(all, SweptFirst)| + |Targets(all, SweptSecond)|
  {
  }

  lemma RestIsBalanced(
    all: seq<Job>, left: seq<Job>, rest: seq<Job>, deleted: nat, more: nat, first: Answers, second: Answers)
    requires Remaining(all, left, first, UNLISTED) && Balanced(all, left, deleted, first, UNLISTED)
    requires rest == if second.listed then Spared(left, Unless(SweptSecond, second.refused)) else left
    requires more == if second.listed then |Targets(left, SweptSecond)| else 0
    ensures Remaining(all, rest, first, second) && Balanced(all, rest, deleted + more, first, second)
  {
    RefusalsUpset(left, SweptSecond, second.refused);
    SparedIsRest(left, Unless(SweptSecond, second.refused));
    forall job | SweptSecond(job) ensures job in left <==> job in all {
    }
  }
}
