/** Recovery of the RHCL (Kuadrant) operator on shared clusters: OperatorGroups, stuck CSVs, blocking InstallPlans and
    the subscription. Any read may go unanswered; every delete and apply takes effect, and nothing else acts
    meanwhile. */
module Rhcl {
  import opened Basics

  const GITOPS_GROUP := "kuadrant"
  const RHCL_PREFIX := "rhcl-operator."

  datatype Plan = Plan(name: string, csvs: seq<string>, phase: string, approved: bool)
  datatype Subscription = Subscription(current: string, starting: string)

  /* ---------- selection ---------- */

  /** The part of a CSV name in front of the first dot. */
  function BaseName(csv: string): string {
    if csv == "" || csv[0] == '.' then "" else [csv[0]] + BaseName(csv[1..])
  }

  const STACK: seq<string> := [
    "rhcl-operator", "authorino-operator", "kuadrant-operator", "dns-operator", "limitador-operator", "cert-manager"
  ]

  predicate IsStackCsv(csv: string) {
    exists i :: 0 <= i < |STACK| && Contains(Lower(BaseName(csv)), STACK[i])
  }

  predicate IsRhcl(csv: string) {
    RHCL_PREFIX <= csv
  }

  /** Would this InstallPlan move RHCL away from the pinned version? */
  predicate Blocks(plan: Plan, target: string) {
    exists i :: 0 <= i < |plan.csvs| && IsRhcl(Strip(plan.csvs[i])) && Strip(plan.csvs[i]) != target
  }

  predicate IsStuckPhase(phase: string) {
    phase == "Failed" || phase == "Replacing"
  }

  /** An InstallPlan that was not approved and does not move on. */
  predicate IsStuckPlan(plan: Plan) {
    !plan.approved && (Strip(plan.phase) == "Failed" || Strip(plan.phase) == "RequiresApproval")
  }

  predicate NamesOrphan(plan: Plan, orphans: set<string>) {
    exists i :: 0 <= i < |plan.csvs| && plan.csvs[i] != "" && plan.csvs[i] in orphans
  }

  predicate Named(plan: Plan) {
    Strip(plan.name) != ""
  }

  /** The InstallPlans that survive a recovery: `purged` and `swept` tell whether the listing of either pass was
      answered. */
  predicate Survives(plan: Plan, target: string, orphans: set<string>, purged: bool, swept: bool) {
    || !Named(plan)
    || (&& !(purged && Blocks(plan, target))
        && !(swept && IsStuckPlan(plan) && (NamesOrphan(plan, orphans) || Blocks(plan, target))))
  }

  /** Pinned: whatever RHCL CSV the InstallPlan mentions is the target. */
  predicate PinsTarget(plan: Plan, target: string) {
    forall csv :: csv in plan.csvs && IsRhcl(Strip(csv)) ==> Strip(csv) == target
  }

  lemma PinsIffNotBlocking(plan: Plan, target: string)
    ensures PinsTarget(plan, target) <==> !Blocks(plan, target)
  {
    if !PinsTarget(plan, target) {
      var csv :| csv in plan.csvs && IsRhcl(Strip(csv)) && Strip(csv) != target;
      var i :| 0 <= i < |plan.csvs| && plan.csvs[i] == csv;
    }
  }

  /** Every surviving InstallPlan that can be addressed pins RHCL to the target if and only if the purge was given its
      listing, or each one that did not was a stuck one and the later sweep was given its own. */
  lemma SurvivorsPinTargetIff(plans: seq<Plan>, target: string, orphans: set<string>, purged: bool, swept: bool)
    ensures (forall plan :: plan in plans && Named(plan) && Survives(plan, target, orphans, purged, swept) ==>
               PinsTarget(plan, target))
      <==> purged || forall plan :: plan in plans && Named(plan) && !PinsTarget(plan, target) ==>
                       swept && IsStuckPlan(plan)
  {
    forall plan | plan in plans ensures PinsTarget(plan, target) <==> !Blocks(plan, target) {
      PinsIffNotBlocking(plan, target);
    }
  }

  /** A CSV the recovery deletes: stuck, and either part of the stack or one of the two RHCL CSVs in question. */
  predicate IsStuckCsv(csvs: map<string, string>, current: string, target: string, csv: string) {
    csv in csvs && IsStuckPhase(csvs[csv]) && csv != ""
    && ((IsStackCsv(csv) && Strip(csv) == csv) || ((csv == current || csv == target) && IsRhcl(csv)))
  }

  /** Between two readings of the CSVs, exactly the stuck ones in `named` went. */
  ghost predicate OnlyGone(before: map<string, string>, after: map<string, string>, named: set<string>) {
    && (forall csv :: csv in after <==> csv in before && !(csv in named && IsStuckPhase(before[csv])))
    && (forall csv :: csv in after ==> after[csv] == before[csv])
  }

  lemma MoreGone(
    first: map<string, string>, before: map<string, string>, after: map<string, string>, named: set<string>,
    more: set<string>)
    requires OnlyGone(first, before, named) && OnlyGone(before, after, more)
    ensures OnlyGone(first, after, named + more)
  {
  }

  /* ---------- the subscription ---------- */

  /** The CSV that the subscription names, "" without one. */
  function CurrentOf(subscription: Option<Subscription>): string {
    if subscription.None? then "" else subscription.value.current
  }

  /** Which reads about the subscription were answered: the CSV it names; whether that CSV is missing; whether it is
      there although bad, and its phase; whether there is a subscription to delete; the CSV it starts from. */
  datatype Reads =
    Reads(current: bool, missing: bool, bad: bool, phase: bool, subscription: bool, starting: bool)

  /** The CSV the recovery takes the subscription to name. */
  function Taken(subscription: Option<Subscription>, got: Reads): string {
    if got.current then CurrentOf(subscription) else ""
  }

  /** The decision to start over. A CSV whose existence goes unanswered is missing, and a phase that goes unanswered is
      not Succeeded. */
  predicate NeedsReset(subscription: Option<Subscription>, csvs: map<string, string>, target: string, got: Reads) {
    var current := Taken(subscription, got);
    && current != ""
    && (|| !(got.missing && current in csvs)
        || (got.bad && current in csvs && !(got.phase && csvs[current] == "Succeeded"))
        || current != target)
  }

  /** What becomes of the subscription, with `csvs` the CSVs left by the clean-up. */
  function AfterRecovery(subscription: Option<Subscription>, csvs: map<string, string>, target: string, got: Reads)
    : Option<Subscription>
  {
    if NeedsReset(subscription, csvs, target, got) then
      Some(Subscription(if got.subscription then "" else CurrentOf(subscription), target))
    else if subscription.None? || (target == "" && !got.starting) then subscription
    else Some(Subscription(subscription.value.current, target))
  }

  /** The subscription is where it should be: its CSV is the target, and that one has Succeeded. */
  predicate Settled(subscription: Option<Subscription>, csvs: map<string, string>, target: string) {
    subscription == Some(Subscription(target, target)) && target != "" && target in csvs && csvs[target] == "Succeeded"
  }

  /** A settled subscription is started over exactly if its CSV is read, and then either the question whether it is
      missing goes unanswered, or the one whether it is bad is answered and its phase is not. */
  lemma SettledStaysIff(subscription: Option<Subscription>, csvs: map<string, string>, target: string, got: Reads)
    requires Settled(subscription, csvs, target)
    ensures NeedsReset(subscription, csvs, target, got) <==>
              got.current && (!got.missing || (got.bad && !got.phase))
    ensures AfterRecovery(subscription, csvs, target, got) == subscription <==>
              !(NeedsReset(subscription, csvs, target, got) && got.subscription)
  {
  }

  /** One unanswered read is enough: a settled subscription is deleted and applied afresh, naming no CSV. */
  lemma SettledIsStartedOver(target: string) returns (subscription: Option<Subscription>, csvs: map<string, string>)
    requires target != ""
    ensures Settled(subscription, csvs, target)
    ensures AfterRecovery(subscription, csvs, target, Reads(true, false, true, true, true, true))
         == Some(Subscription("", target)) != subscription
  {
    subscription, csvs := Some(Subscription(target, target)), map[target := "Succeeded"];
    SettledStaysIff(subscription, csvs, target, Reads(true, false, true, true, true, true));
  }

  /** A phantom, a CSV that the subscription names but that is not there, is got rid of exactly if the name and the
      subscription's existence are read. */
  lemma PhantomGoesIff(subscription: Option<Subscription>, csvs: map<string, string>, target: string, got: Reads)
    requires CurrentOf(subscription) != "" && CurrentOf(subscription) !in csvs
    ensures CurrentOf(AfterRecovery(subscription, csvs, target, got)) != CurrentOf(subscription) <==>
              got.current && got.subscription
  {
  }

  /* ---------- what a fully answered recovery comes to ---------- */

  /** The first part of the name, up to a dot, mentions one of the operators of the stack. */
  ghost predicate NamesStack(csv: string) {
    exists n: nat :: IsFirstPart(csv, n)
                     && (|| Says(csv[..n], "rhcl-operator") || Says(csv[..n], "authorino-operator")
                         || Says(csv[..n], "kuadrant-operator") || Says(csv[..n], "dns-operator")
                         || Says(csv[..n], "limitador-operator") || Says(csv[..n], "cert-manager"))
  }

  ghost predicate IsFirstPart(csv: string, n: nat) {
    n <= |csv| && (forall k :: 0 <= k < n ==> csv[k] != '.') && (n == |csv| || csv[n] == '.')
  }

  predicate NamesRhcl(csv: string) {
    |csv| >= 14 && csv[..14] == "rhcl-operator."
  }

  lemma {:induction false} BaseIsFirstPart(csv: string)
    ensures IsFirstPart(csv, |BaseName(csv)|) && csv[..|BaseName(csv)|] == BaseName(csv)
  {
    if csv != "" && csv[0] != '.' {
      BaseIsFirstPart(csv[1..]);
      var n := |BaseName(csv[1..])|;
      assert csv[..n + 1] == [csv[0]] + csv[1..][..n];
      assert forall k :: 1 <= k < n + 1 ==> csv[k] == csv[1..][k - 1];
    }
  }

  lemma OneFirstPart(csv: string, n: nat, m: nat)
    requires IsFirstPart(csv, n) && IsFirstPart(csv, m)
    ensures n == m
  {
  }

  lemma StackIff(csv: string)
    ensures IsStackCsv(csv) <==> NamesStack(csv)
  {
    BaseIsFirstPart(csv);
    var base := BaseName(csv);
    forall n: nat | IsFirstPart(csv, n) ensures n == |base| {
      OneFirstPart(csv, n, |base|);
    }
    StackWords(base);
  }

  lemma StackWords(base: string)
    ensures (exists i :: 0 <= i < |STACK| && Contains(Lower(base), STACK[i])) <==>
              || Says(base, "rhcl-operator") || Says(base, "authorino-operator") || Says(base, "kuadrant-operator")
              || Says(base, "dns-operator") || Says(base, "limitador-operator") || Says(base, "cert-manager")
  {
    SaysIffLowerContains(base, "rhcl-operator");
    SaysIffLowerContains(base, "authorino-operator");
    SaysIffLowerContains(base, "kuadrant-operator");
    SaysIffLowerContains(base, "dns-operator");
    SaysIffLowerContains(base, "limitador-operator");
    SaysIffLowerContains(base, "cert-manager");
    assert STACK[0] == "rhcl-operator" && STACK[1] == "authorino-operator" && STACK[2] == "kuadrant-operator";
    assert STACK[3] == "dns-operator" && STACK[4] == "limitador-operator" && STACK[5] == "cert-manager";
  }

  /** A CSV that has to go: failed or being replaced, and of the stack, or one of the two RHCL CSVs in question. */
  ghost predicate MustGo(csvs: map<string, string>, current: string, target: string, csv: string) {
    && csv in csvs && (csvs[csv] == "Failed" || csvs[csv] == "Replacing") && csv != ""
    && ((NamesStack(csv) && Strip(csv) == csv) || (NamesRhcl(csv) && (csv == current || csv == target)))
  }

  lemma StuckIff(csvs: map<string, string>, current: string, target: string, csv: string)
    ensures IsStuckCsv(csvs, current, target, csv) <==> MustGo(csvs, current, target, csv)
  {
    StackIff(csv);
    assert |RHCL_PREFIX| == 14;
  }

  /** An InstallPlan that has to go: it takes RHCL elsewhere, or it is stuck unapproved and names an orphan. */
  ghost predicate PlanMustGo(plan: Plan, target: string, orphans: set<string>) {
    && Strip(plan.name) != ""
    && (|| (exists csv :: csv in plan.csvs && NamesRhcl(Strip(csv)) && Strip(csv) != target)
        || (&& !plan.approved && (Strip(plan.phase) == "Failed" || Strip(plan.phase) == "RequiresApproval")
            && exists csv :: csv in plan.csvs && csv != "" && csv in orphans))
  }

  lemma SurvivesIff(plan: Plan, target: string, orphans: set<string>)
    ensures Survives(plan, target, orphans, true, true) <==> !PlanMustGo(plan, target, orphans)
  {
    assert |RHCL_PREFIX| == 14;
    PinsIffNotBlocking(plan, target);
    if csv :| csv in plan.csvs && csv != "" && csv in orphans {
      var i :| 0 <= i < |plan.csvs| && plan.csvs[i] == csv;
    }
  }

  /** The subscription has to be started over: the CSV it names is not the target, or not there, or has not
      succeeded. */
  predicate MustStartOver(subscription: Subscription, csvs: map<string, string>, target: string) {
    var current := subscription.current;
    current != "" && !(current == target && current in csvs && csvs[current] == "Succeeded")
  }

  lemma AnsweredRecovery(subscription: Option<Subscription>, csvs: map<string, string>, target: string)
    ensures AfterRecovery(subscription, csvs, target, Reads(true, true, true, true, true, true)) ==
              if subscription.None? then None
              else if MustStartOver(subscription.value, csvs, target) then Some(Subscription("", target))
              else Some(Subscription(subscription.value.current, target))
  {
  }

  /** All of it together, for a recovery of which every read was answered. */
  ghost predicate Recovered(
    csvs: map<string, string>, plans: seq<Plan>, subscription: Option<Subscription>, csvs': map<string, string>,
    plans': seq<Plan>, subscription': Option<Subscription>, target: string)
  {
    var current := CurrentOf(subscription);
    var orphans := if current != "" && current !in csvs then {current} else {};
    && (forall csv :: csv in csvs' <==> csv in csvs && !MustGo(csvs, current, target, csv))
    && (forall csv :: csv in csvs' ==> csvs'[csv] == csvs[csv])
    && (forall plan :: plan in plans' <==> plan in plans && !PlanMustGo(plan, target, orphans))
    && subscription' == if subscription.None? then None
                        else if MustStartOver(subscription.value, csvs', target) then Some(Subscription("", target))
                        else Some(Subscription(subscription.value.current, target))
  }

  lemma AnsweredIsRecovered(
    csvs: map<string, string>, plans: seq<Plan>, subscription: Option<Subscription>, csvs': map<string, string>,
    plans': seq<Plan>, target: string, seen: set<string>, orphans: set<string>)
    requires forall csv :: IsStuckCsv(csvs, CurrentOf(subscription), target, csv) ==> csv in seen
    requires orphans == if CurrentOf(subscription) in {""} + csvs.Keys then {} else {CurrentOf(subscription)}
    requires forall csv :: csv in csvs' <==>
               csv in csvs && !(csv in seen && IsStuckCsv(csvs, CurrentOf(subscription), target, csv))
    requires forall csv :: csv in csvs' ==> csvs'[csv] == csvs[csv]
    requires forall plan :: plan in plans' <==> plan in plans && Survives(plan, target, orphans, true, true)
    ensures Recovered(csvs, plans, subscription, csvs', plans',
                      AfterRecovery(subscription, csvs', target, Reads(true, true, true, true, true, true)), target)
  {
    forall csv ensures IsStuckCsv(csvs, CurrentOf(subscription), target, csv) <==>
                       MustGo(csvs, CurrentOf(subscription), target, csv)
    {
      StuckIff(csvs, CurrentOf(subscription), target, csv);
    }
    forall plan ensures Survives(plan, target, orphans, true, true) <==> !PlanMustGo(plan, target, orphans) {
      SurvivesIff(plan, target, orphans);
    }
    AnsweredRecovery(subscription, csvs', target);
  }

  /* ---------- the namespace ---------- */

  class KuadrantSystem {
    var groups: set<string>
    var csvs: map<string, string>  // phase by name
    var plans: seq<Plan>
    var subscription: Option<Subscription>
    ghost var unanswered: nat  // reads the API did not answer

    constructor (groups: set<string>, csvs: map<string, string>, plans: seq<Plan>, subscription: Option<Subscription>)
      ensures this.groups == groups && this.csvs == csvs && this.plans == plans && this.subscription == subscription
      ensures unanswered == 0
    {
      unanswered := 0;
      this.groups, this.csvs, this.plans, this.subscription := groups, csvs, plans, subscription;
    }

    /* ---------- OperatorGroups ---------- */

    /** `listing` is None when the API did not answer; the code then takes the namespace to have no group. */
    method ReconcileOperatorGroups(listing: Option<seq<string>>)
      requires listing.Some? ==> forall name :: name in listing.value <==> name in groups
      requires listing.Some? ==> forall i, j :: 0 <= i < j < |listing.value| ==> listing.value[i] != listing.value[j]
      modifies this`groups
      ensures listing.Some? ==> exists keep :: groups == {keep} && (keep == GITOPS_GROUP || keep in old(groups))
      ensures listing.Some? && (GITOPS_GROUP in old(groups) || old(groups) == {}) ==> groups == {GITOPS_GROUP}
      ensures listing.Some? && listing.value != [] ==> groups == {GITOPS_GROUP} || groups == {listing.value[0]}
      ensures listing.None? ==> groups == old(groups) + {GITOPS_GROUP}
      ensures listing.None? ==> (|groups| == 1 <==> old(groups) <= {GITOPS_GROUP})
    {
      var names := if listing.Some? then listing.value else [];
      if names == [] {
        OneGroupIff(groups);
        groups := groups + {GITOPS_GROUP};
        if listing.Some? {
          assert groups == {GITOPS_GROUP};
        }
        return;
      }
      var keep := names[0];
      if |names| > 1 {
        keep := if GITOPS_GROUP in names then GITOPS_GROUP else names[0];
        for i := 0 to |names|
          invariant keep in groups && keep in names
          invariant forall name :: name in groups <==> name in names && (name == keep || name !in names[..i])
        {
          assert names[..i + 1] == names[..i] + [names[i]];
          if names[i] != keep {
            groups := groups - {names[i]};
          }
        }
        assert names[..|names|] == names;
      }
      assert groups == {keep};
      var multiple: bool := *;
      if multiple {
        groups := groups - {keep};
        groups := groups + {GITOPS_GROUP};
      }
    }

    /* ---------- CSVs ---------- */

    /** Ask for anything; the answer may stay out. */
    method Ask() returns (answered: bool)
      modifies this`unanswered
      ensures unanswered == old(unanswered) + if answered then 0 else 1
    {
      answered := *;
      if !answered {
        unanswered := unanswered + 1;
      }
    }

    /** Without an answer, a CSV does not exist. */
    method CsvExists(name: string) returns (present: bool, ghost answered: bool)
      modifies this`unanswered
      ensures present == (answered && name != "" && name in csvs)
      ensures unanswered == old(unanswered) + if answered then 0 else 1
    {
      if name == "" {
        return false, true;
      }
      var reply := Ask();
      return reply && name in csvs, reply;
    }

    /** Without an answer, a phase is empty. */
    method CsvPhase(name: string) returns (phase: string, ghost answered: bool)
      modifies this`unanswered
      ensures phase == if answered && name in csvs then csvs[name] else ""
      ensures unanswered == old(unanswered) + if answered then 0 else 1
    {
      var reply := Ask();
      return if reply && name in csvs then csvs[name] else "", reply;
    }

    /** A CSV goes exactly if its existence and its phase were `seen` and it is stuck. */
    method DeleteStuckCsv(name: string) returns (ghost seen: bool)
      modifies this`csvs, this`unanswered
      ensures OnlyGone(old(csvs), csvs, if seen && name != "" then {name} else {})
      ensures old(unanswered) <= unanswered && (unanswered == old(unanswered) ==> seen)
    {
      ghost var answered: bool;
      var present: bool;
      present, answered := CsvExists(name);
      seen := answered;
      if !present {
        return;
      }
      var phase: string;
      phase, answered := CsvPhase(name);
      seen := answered;
      if !IsStuckPhase(phase) {
        return;
      }
      csvs := csvs - {name};
    }

    predicate InStack(csv: string, keep: string) {
      csv != "" && Strip(csv) == csv && csv != keep && IsStackCsv(csv)
    }

    /** Exactly the stuck CSVs of the stack go that were `seen`, other than the one to keep; with every answer that is
        all of them, without the listing none. */
    method DeleteStuckStackCsvs(keep: string) returns (ghost seen: set<string>)
      modifies this`csvs, this`unanswered
      ensures OnlyGone(old(csvs), csvs, seen) && forall csv :: csv in seen ==> InStack(csv, keep)
      ensures old(unanswered) <= unanswered
      ensures unanswered == old(unanswered) ==> forall csv :: csv in old(csvs) && InStack(csv, keep) ==> csv in seen
    {
      seen := {};
      var listed := Ask();
      if !listed {
        return;
      }
      var listing := csvs.Keys;
      ghost var first := csvs;
      var todo := listing;
      while todo != {}
        invariant todo <= listing && old(unanswered) <= unanswered
        invariant OnlyGone(first, csvs, seen) && forall csv :: csv in seen ==> InStack(csv, keep)
        invariant unanswered == old(unanswered) ==>
                    forall csv :: csv in listing - todo && InStack(csv, keep) ==> csv in seen
      {
        var name :| name in todo;
        todo := todo - {name};
        if InStack(name, keep) {
          ghost var before := csvs;
          ghost var both := DeleteStuckCsv(name);
          MoreGone(first, before, csvs, seen, if both then {name} else {});
          if both {
            seen := seen + {name};
          }
        }
      }
    }

    /** The CSV part of the recovery: exactly the stuck CSVs go that were `seen`, with every answer all of them.
        Sparing the target while it has Succeeded makes no difference. */
    method CleanCsvs(current: string, target: string) returns (ghost seen: set<string>)
      modifies this`csvs, this`unanswered
      ensures forall csv :: csv in csvs <==>
                csv in old(csvs) && !(csv in seen && IsStuckCsv(old(csvs), current, target, csv))
      ensures forall csv :: csv in csvs ==> csvs[csv] == old(csvs)[csv]
      ensures old(unanswered) <= unanswered
      ensures unanswered == old(unanswered) ==>
                forall csv :: IsStuckCsv(old(csvs), current, target, csv) ==> csv in seen
    {
      var phase: string;
      ghost var answered: bool;
      phase, answered := CsvPhase(target);
      var keep := if phase == "Succeeded" then target else "";
      ghost var first := csvs;
      ghost var stack := DeleteStuckStackCsvs(keep);
      ghost var before := csvs;
      ghost var rhcl := CleanRhclCsvs(current, target);
      MoreGone(first, before, csvs, stack, rhcl);
      seen := stack + rhcl;
    }

    /** The two RHCL CSVs in question. */
    method CleanRhclCsvs(current: string, target: string) returns (ghost seen: set<string>)
      modifies this`csvs, this`unanswered
      ensures OnlyGone(old(csvs), csvs, seen)
      ensures forall csv :: csv in seen ==> IsRhcl(csv) && (csv == current || csv == target)
      ensures old(unanswered) <= unanswered
      ensures unanswered == old(unanswered) ==>
                forall csv :: IsRhcl(csv) && (csv == current || csv == target) ==> csv in seen
    {
      seen := {};
      ghost var answered: bool;
      ghost var first := csvs;
      if IsRhcl(current) {
        answered := DeleteStuckCsv(current);
        seen := if answered then {current} else {};
      }
      if IsRhcl(target) && target != current {
        ghost var before := csvs;
        answered := DeleteStuckCsv(target);
        MoreGone(first, before, csvs, seen, if answered then {target} else {});
        seen := seen + if answered then {target} else {};
      }
    }

    /* ---------- InstallPlans ---------- */

    /** Two passes, each over a listing of its own. */
    method CleanPlans(target: string, orphans: set<string>) returns (ghost purged: bool, ghost swept: bool)
      modifies this`plans, this`unanswered
      ensures forall plan :: plan in plans <==> plan in old(plans) && Survives(plan, target, orphans, purged, swept)
      ensures old(unanswered) <= unanswered && (unanswered == old(unanswered) ==> purged && swept)
    {
      purged := PurgeBlockingPlans(target);
      swept := DeleteWaitingPlans(target, orphans);
    }

    method PurgeBlockingPlans(target: string) returns (ghost purged: bool)
      modifies this`plans, this`unanswered
      ensures forall plan :: plan in plans <==> plan in old(plans) && !(purged && Named(plan) && Blocks(plan, target))
      ensures unanswered == old(unanswered) + if purged then 0 else 1
    {
      var listed := Ask();
      if !listed {
        return false;
      }
      purged := true;
      var listing := plans;
      var kept: seq<Plan> := [];
      for i := 0 to |listing|
        invariant forall plan :: plan in kept <==> plan in listing[..i] && !(Named(plan) && Blocks(plan, target))
      {
        assert listing[..i + 1] == listing[..i] + [listing[i]];
        if !(Blocks(listing[i], target) && Named(listing[i])) {
          kept := kept + [listing[i]];
        }
      }
      assert listing[..|listing|] == listing;
      plans := kept;
    }

    predicate IsBlocked(plan: Plan, target: string, orphans: set<string>) {
      Named(plan) && IsStuckPlan(plan) && (NamesOrphan(plan, orphans) || Blocks(plan, target))
    }

    method DeleteWaitingPlans(target: string, orphans: set<string>) returns (ghost swept: bool)
      modifies this`plans, this`unanswered
      ensures forall plan :: plan in plans <==> plan in old(plans) && !(swept && IsBlocked(plan, target, orphans))
      ensures unanswered == old(unanswered) + if swept then 0 else 1
    {
      var listed := Ask();
      if !listed {
        return false;
      }
      swept := true;
      var listing := plans;
      var kept: seq<Plan> := [];
      for i := 0 to |listing|
        invariant forall plan :: plan in kept <==> plan in listing[..i] && !IsBlocked(plan, target, orphans)
      {
        assert listing[..i + 1] == listing[..i] + [listing[i]];
        var plan := listing[i];
        var blocked := NamesOrphan(plan, orphans) || Blocks(plan, target);
        if !(IsStuckPlan(plan) && blocked && Named(plan)) {
          kept := kept + [plan];
        }
      }
      assert listing[..|listing|] == listing;
      plans := kept;
    }

    /* ---------- the subscription ---------- */

    /** Does the subscription have to be started over? */
    method Decide(current: string, target: string)
      returns (reset: bool, ghost missing: bool, ghost bad: bool, ghost phase: bool)
      modifies this`unanswered
      ensures reset <==>
                current != "" && (!(missing && current in csvs)
                                  || (bad && current in csvs && !(phase && csvs[current] == "Succeeded"))
                                  || current != target)
      ensures old(unanswered) <= unanswered && (unanswered == old(unanswered) ==> missing && bad && phase)
    {
      var present: bool;
      present, missing := CsvExists(current);
      var isMissing := current != "" && !present;
      present, bad := CsvExists(current);
      phase := true;
      var isBad := false;
      if current != "" && present {
        var text: string;
        text, phase := CsvPhase(current);
        isBad := text != "Succeeded";
      }
      return isMissing || isBad || (current != "" && current != target), missing, bad, phase;
    }

    /** Delete the subscription, if there is seen to be one, and apply its manifest. */
    method StartOver(target: string, listing: Option<seq<string>>) returns (ghost answered: bool)
      requires subscription.Some?
      requires listing.Some? ==> forall name :: name in listing.value <==> name in groups
      requires listing.Some? ==> forall i, j :: 0 <= i < j < |listing.value| ==> listing.value[i] != listing.value[j]
      modifies this`subscription, this`groups, this`unanswered
      ensures subscription == Some(Subscription(if answered then "" else CurrentOf(old(subscription)), target))
      ensures listing.Some? ==> exists keep :: groups == {keep} && (keep == GITOPS_GROUP || keep in old(groups))
      ensures listing.None? ==> groups == old(groups) + {GITOPS_GROUP}
      ensures unanswered == old(unanswered) + if answered then 0 else 1
    {
      var seen := Ask();
      answered := seen;
      if seen {
        subscription := None;
      }
      ReconcileOperatorGroups(listing);
      subscription := Some(Subscription(CurrentOf(subscription), target));
    }

    /**
     Recover: clean CSVs and InstallPlans, then start the subscription over or pin it. The outcome is stated for every
     combination of answers; with all of them, exactly the stuck CSVs go, the orphan is a CSV that is not there, and
     the survivors among the InstallPlans pin the target.
     */
    method ReconcileStuckSubscription(target: string, listing: Option<seq<string>>)
      returns (raised: bool, ghost got: Reads, ghost seen: set<string>, ghost orphans: set<string>,
               ghost purged: bool, ghost swept: bool)
      requires listing.Some? ==> forall name :: name in listing.value <==> name in groups
      requires listing.Some? ==> forall i, j :: 0 <= i < j < |listing.value| ==> listing.value[i] != listing.value[j]
      modifies this
      ensures subscription == AfterRecovery(old(subscription), csvs, target, got)
      ensures raised <==> old(subscription).None? && target != ""
      ensures if NeedsReset(old(subscription), csvs, target, got)
              then (listing.Some? ==> exists keep :: groups == {keep} && (keep == GITOPS_GROUP || keep in old(groups)))
                   && (listing.None? ==> groups == old(groups) + {GITOPS_GROUP})
              else groups == old(groups)
      ensures forall csv :: csv in csvs <==>
                csv in old(csvs) && !(csv in seen && IsStuckCsv(old(csvs), Taken(old(subscription), got), target, csv))
      ensures forall csv :: csv in csvs ==> csvs[csv] == old(csvs)[csv]
      ensures forall plan :: plan in plans <==> plan in old(plans) && Survives(plan, target, orphans, purged, swept)
      ensures orphans <= {Taken(old(subscription), got)}
      ensures unanswered == old(unanswered) ==>
                && got == Reads(true, true, true, true, true, true) && purged && swept
                && (forall csv :: IsStuckCsv(old(csvs), CurrentOf(old(subscription)), target, csv) ==> csv in seen)
                && orphans == if CurrentOf(old(subscription)) in {""} + old(csvs).Keys then {}
                              else {CurrentOf(old(subscription))}
      ensures unanswered == old(unanswered) ==>
                Recovered(old(csvs), old(plans), old(subscription), csvs, plans, subscription, target)
    {
      ghost var was, plansBefore, csvsBefore := subscription, plans, csvs;
      var current: string;
      ghost var named;
      current, named, seen, orphans, purged, swept := CleanUp(target);
      var reset: bool;
      ghost var missing, bad, phase;
      reset, missing, bad, phase := Decide(current, target);
      got := Reads(named, missing, bad, phase, true, true);
      raised := false;
      if reset {
        ghost var existing := StartOver(target, listing);
        got := got.(subscription := existing);
      } else {
        ghost var starting;
        raised, starting := Pin(target);
        got := got.(starting := starting);
      }
      if unanswered == old(unanswered) {
        AnsweredIsRecovered(csvsBefore, plansBefore, was, csvs, plans, target, seen, orphans);
      }
    }

    /** The CSVs and the InstallPlans, for the CSV that the subscription is read to name. */
    method CleanUp(target: string)
      returns (current: string, ghost named: bool, ghost seen: set<string>, ghost orphans: set<string>,
               ghost purged: bool, ghost swept: bool)
      modifies this`csvs, this`plans, this`unanswered
      ensures current == if named then CurrentOf(subscription) else ""
      ensures forall csv :: csv in csvs <==>
                csv in old(csvs) && !(csv in seen && IsStuckCsv(old(csvs), current, target, csv))
      ensures forall csv :: csv in csvs ==> csvs[csv] == old(csvs)[csv]
      ensures forall plan :: plan in plans <==> plan in old(plans) && Survives(plan, target, orphans, purged, swept)
      ensures orphans <= {current} && old(unanswered) <= unanswered
      ensures unanswered == old(unanswered) ==>
                && named && purged && swept
                && (forall csv :: IsStuckCsv(old(csvs), current, target, csv) ==> csv in seen)
                && orphans == if current in {""} + old(csvs).Keys then {} else {current}
    {
      var reply := Ask();
      named := reply;
      current := if reply then CurrentOf(subscription) else "";
      var present: bool;
      ghost var answered: bool;
      present, answered := CsvExists(current);
      var phantom := if current != "" && !present then {current} else {};
      orphans := phantom;
      seen := CleanCsvs(current, target);
      purged, swept := CleanPlans(target, phantom);
    }

    /** Patch the CSV the subscription starts from, unless it is read to be the target; without a subscription there is
        nothing to patch. */
    method Pin(target: string) returns (raised: bool, ghost answered: bool)
      modifies this`subscription, this`unanswered
      ensures raised <==> subscription.None? && target != ""
      ensures subscription == if old(subscription).None? || (target == "" && !answered) then old(subscription)
                              else Some(old(subscription).value.(starting := target))
      ensures unanswered == old(unanswered) + if answered then 0 else 1
    {
      var reply := Ask();
      answered := reply;
      var starting := if reply && subscription.Some? then subscription.value.starting else "";
      if starting == target {
        return false, answered;
      }
      if subscription.None? {
        return true, answered;
      }
      subscription := Some(subscription.value.(starting := target));
      return false, answered;
    }
  }

  lemma OneGroupIff(groups: set<string>)
    ensures |groups + {GITOPS_GROUP}| == 1 <==> groups <= {GITOPS_GROUP}
  {
    var all := groups + {GITOPS_GROUP};
    if |all| == 1 {
      var rest := all - {GITOPS_GROUP};
      assert |rest| == 0;
      forall name | name in groups ensures name == GITOPS_GROUP {
        assert name in rest || name == GITOPS_GROUP;
      }
    }
    if groups <= {GITOPS_GROUP} {
      assert all == {GITOPS_GROUP};
    }
  }
}
