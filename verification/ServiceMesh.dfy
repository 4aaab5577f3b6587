/** The sweep that removes Service Mesh CSVs blocking OLM, over the subscriptions, CSVs and InstallPlans of one
    namespace. */
module ServiceMesh {
  import opened Basics

  datatype Subscription = Subscription(
    name: string,
    currentCsv: string,
    installedCsv: string,
    resolutionFailed: bool,
    planMissing: bool,
    channel: string,
    source: string,
    sourceNamespace: string)

  datatype Csv = Csv(name: string, phase: string)
  datatype InstallPlan = InstallPlan(name: string, phase: string, csvs: seq<string>)

  const PREFIX := "servicemeshoperator"

  predicate IsMesh(name: string) {
    PREFIX <= Lower(name)
  }

  /* ---------- what the sweep selects ---------- */

  /** CSVs that some Service Mesh subscription points at. */
  function TargetsOf(sub: Subscription): set<string> {
    (if Strip(sub.currentCsv) != "" then {Strip(sub.currentCsv)} else {})
    + (if Strip(sub.installedCsv) != "" then {Strip(sub.installedCsv)} else {})
  }

  predicate IsTarget(subs: seq<Subscription>, csv: string) {
    exists i :: 0 <= i < |subs| && IsMesh(subs[i].name) && csv in TargetsOf(subs[i])
  }

  predicate AnyResolutionFailed(subs: seq<Subscription>) {
    exists i :: 0 <= i < |subs| && IsMesh(subs[i].name) && subs[i].resolutionFailed
  }

  predicate IsUpgradeStale(sub: Subscription, csv: string) {
    var current, installed := Strip(sub.currentCsv), Strip(sub.installedCsv);
    current != "" && installed != "" && current != installed && csv == installed
  }

  predicate UpgradeStale(subs: seq<Subscription>, csv: string) {
    exists i :: 0 <= i < |subs| && IsMesh(subs[i].name) && IsUpgradeStale(subs[i], csv)
  }

  predicate Mentions(plan: InstallPlan, csv: string) {
    exists i :: 0 <= i < |plan.csvs| && Strip(plan.csvs[i]) == csv
  }

  /** Named by an InstallPlan that has not failed: an installation in flight. */
  predicate InFlight(plans: seq<InstallPlan>, csv: string) {
    && csv != "" && IsMesh(csv)
    && exists i :: 0 <= i < |plans| && Strip(plans[i].phase) != "Failed" && Mentions(plans[i], csv)
  }

  ghost predicate OnlyTarget(subs: seq<Subscription>, csv: string) {
    forall other :: IsTarget(subs, other) <==> other == csv
  }

  /** What makes a CSV a candidate, before InstallPlans are looked at. */
  ghost predicate IsExpendable(subs: seq<Subscription>, csv: Csv) {
    var name, phase := Strip(csv.name), Strip(csv.phase);
    && IsMesh(name)
    && phase != "Succeeded"
    && !(IsTarget(subs, name) && phase in {"Installing", "Replacing"})
    && (|| (phase in {"Pending", "Failed"} && !IsTarget(subs, name))
        || (phase == "Pending" && UpgradeStale(subs, name))
        || (AnyResolutionFailed(subs) && phase == "Pending" && OnlyTarget(subs, name)))
  }

  /** The selection rule, with `protects` the names found on InstallPlans. */
  ghost predicate IsOrphan(subs: seq<Subscription>, protects: string -> bool, csv: Csv) {
    IsExpendable(subs, csv) && !protects(Strip(csv.name))
  }

  /** What the first InstallPlan listing protects. A listing that failed protects nothing. */
  function Protection(listing: Option<seq<InstallPlan>>): string -> bool {
    if listing.None? then (csv => false) else (csv => InFlight(listing.value, csv))
  }

  ghost predicate OrphanName(subs: seq<Subscription>, protects: string -> bool, csvs: seq<Csv>, name: string) {
    exists csv :: csv in csvs && IsOrphan(subs, protects, csv) && Strip(csv.name) == name
  }

  /** InstallPlans the sweep removes after the CSVs: names are compared as they stand here. */
  ghost predicate IsStalePlan(orphans: set<string>, plan: InstallPlan) {
    && plan.name != ""
    && Strip(plan.phase) in {"Failed", "RequiresApproval"}
    && exists i :: 0 <= i < |plan.csvs| && plan.csvs[i] in orphans
  }

  /* ---------- the selection, phase by phase ---------- */

  /** The name of a Service Mesh operator, in upper or lower case. */
  predicate NamesMesh(name: string) {
    |name| >= 19 && Lower(name[..19]) == "servicemeshoperator"
  }

  /** Either CSV of the subscription. */
  predicate PointsAt(sub: Subscription, name: string) {
    name != "" && (Strip(sub.currentCsv) == name || Strip(sub.installedCsv) == name)
  }

  ghost predicate IsWanted(subs: seq<Subscription>, name: string) {
    exists sub :: sub in subs && NamesMesh(sub.name) && PointsAt(sub, name)
  }

  /** Installed, while another CSV is current. */
  ghost predicate IsLeftBehind(subs: seq<Subscription>, name: string) {
    exists sub :: && sub in subs && NamesMesh(sub.name) && name != "" && Strip(sub.installedCsv) == name
                  && !Blank(sub.currentCsv) && Strip(sub.currentCsv) != name
  }

  /** The resolver has failed for some subscription, and this is the only CSV that any points at. */
  ghost predicate IsDeadEnd(subs: seq<Subscription>, name: string) {
    && (exists sub :: sub in subs && NamesMesh(sub.name) && sub.resolutionFailed)
    && IsWanted(subs, name) && (forall other :: IsWanted(subs, other) ==> other == name)
  }

  /** What becomes of a CSV: a failed one goes unless it is wanted; a pending one goes unless it is wanted and neither
      left behind nor a dead end; none that a known InstallPlan is still installing, and none in another phase. */
  ghost predicate ShouldGo(subs: seq<Subscription>, listing: Option<seq<InstallPlan>>, csv: Csv) {
    var name, phase := Strip(csv.name), Strip(csv.phase);
    && NamesMesh(name)
    && (listing.Some? ==>
          forall plan, i: nat :: plan in listing.value && i < |plan.csvs| && Strip(plan.csvs[i]) == name ==>
            Strip(plan.phase) == "Failed")
    && (|| (phase == "Failed" && !IsWanted(subs, name))
        || (phase == "Pending" && (!IsWanted(subs, name) || IsLeftBehind(subs, name) || IsDeadEnd(subs, name))))
  }

  lemma MeshIff(name: string)
    ensures IsMesh(name) <==> NamesMesh(name)
    ensures IsMesh(name) ==> name != ""
  {
    assert |PREFIX| == 19;
    if |name| >= 19 {
      assert Lower(name[..19]) == Lower(name)[..19];
    }
  }

  lemma WantedIff(subs: seq<Subscription>, name: string)
    ensures IsTarget(subs, name) <==> IsWanted(subs, name)
  {
    forall sub: Subscription ensures IsMesh(sub.name) <==> NamesMesh(sub.name) {
      MeshIff(sub.name);
    }
    if IsTarget(subs, name) {
      var i :| 0 <= i < |subs| && IsMesh(subs[i].name) && name in TargetsOf(subs[i]);
      assert subs[i] in subs && PointsAt(subs[i], name);
    }
    if IsWanted(subs, name) {
      var sub :| sub in subs && NamesMesh(sub.name) && PointsAt(sub, name);
      var i :| 0 <= i < |subs| && subs[i] == sub;
      assert name in TargetsOf(subs[i]);
    }
  }

  lemma LeftBehindIff(subs: seq<Subscription>, name: string)
    requires name != ""
    ensures UpgradeStale(subs, name) <==> IsLeftBehind(subs, name)
  {
    forall sub: Subscription ensures IsMesh(sub.name) <==> NamesMesh(sub.name) {
      MeshIff(sub.name);
    }
    if UpgradeStale(subs, name) {
      var i :| 0 <= i < |subs| && IsMesh(subs[i].name) && IsUpgradeStale(subs[i], name);
      assert subs[i] in subs;
    }
    if IsLeftBehind(subs, name) {
      var sub :| && sub in subs && NamesMesh(sub.name) && Strip(sub.installedCsv) == name
                 && !Blank(sub.currentCsv) && Strip(sub.currentCsv) != name;
      var i :| 0 <= i < |subs| && subs[i] == sub;
      assert IsUpgradeStale(subs[i], name);
    }
  }

  lemma ResolutionFailedIff(subs: seq<Subscription>)
    ensures AnyResolutionFailed(subs) <==> exists sub :: sub in subs && NamesMesh(sub.name) && sub.resolutionFailed
  {
    forall sub: Subscription ensures IsMesh(sub.name) <==> NamesMesh(sub.name) {
      MeshIff(sub.name);
    }
    if sub :| sub in subs && NamesMesh(sub.name) && sub.resolutionFailed {
      var i :| 0 <= i < |subs| && subs[i] == sub;
    }
  }

  lemma DeadEndIff(subs: seq<Subscription>, name: string)
    ensures AnyResolutionFailed(subs) && OnlyTarget(subs, name) <==> IsDeadEnd(subs, name)
  {
    ResolutionFailedIff(subs);
    forall other ensures IsTarget(subs, other) <==> IsWanted(subs, other) {
      WantedIff(subs, other);
    }
  }

  lemma ProtectedIff(listing: Option<seq<InstallPlan>>, name: string)
    requires IsMesh(name) && name != ""
    ensures Protection(listing)(name) <==>
              listing.Some? && exists plan, i: nat :: plan in listing.value && i < |plan.csvs|
                                                      && Strip(plan.csvs[i]) == name && Strip(plan.phase) != "Failed"
  {
    if listing.Some? {
      if InFlight(listing.value, name) {
        var k :| && 0 <= k < |listing.value| && Strip(listing.value[k].phase) != "Failed"
                 && Mentions(listing.value[k], name);
        var i :| 0 <= i < |listing.value[k].csvs| && Strip(listing.value[k].csvs[i]) == name;
        assert listing.value[k] in listing.value;
      }
      if plan, i: nat :| plan in listing.value && i < |plan.csvs| && Strip(plan.csvs[i]) == name
                         && Strip(plan.phase) != "Failed" {
        var k :| 0 <= k < |listing.value| && listing.value[k] == plan;
        assert Mentions(listing.value[k], name);
      }
    }
  }

  /** The rule of the selection comes down to this table. */
  lemma OrphanIff(subs: seq<Subscription>, listing: Option<seq<InstallPlan>>, csv: Csv)
    ensures IsOrphan(subs, Protection(listing), csv) <==> ShouldGo(subs, listing, csv)
  {
    var name := Strip(csv.name);
    MeshIff(name);
    if IsMesh(name) {
      WantedIff(subs, name);
      LeftBehindIff(subs, name);
      DeadEndIff(subs, name);
      ProtectedIff(listing, name);
    }
  }

  /* ---------- safety ---------- */

  /** What the selection never touches. */
  lemma OrphansAreExpendable(subs: seq<Subscription>, plans: seq<InstallPlan>, csv: Csv)
    requires IsOrphan(subs, Protection(Some(plans)), csv)
    ensures IsMesh(Strip(csv.name)) && Strip(csv.phase) in {"Pending", "Failed"}
    ensures forall i :: 0 <= i < |plans| && Mentions(plans[i], Strip(csv.name)) ==> Strip(plans[i].phase) == "Failed"
    ensures Strip(csv.phase) == "Failed" ==> !IsTarget(subs, Strip(csv.name))
  {
    var name := Strip(csv.name);
    assert |PREFIX| > 0;
    assert name != "";
    forall i | 0 <= i < |plans| && Mentions(plans[i], name) ensures Strip(plans[i].phase) == "Failed" {
      assert !InFlight(plans, name);
    }
  }

  /** Selector and protector together: every InstallPlan removed has failed, the RequiresApproval case never arises. */
  lemma StalePlansHaveFailed(subs: seq<Subscription>, csvs: seq<Csv>, plans: seq<InstallPlan>, orphans: set<string>,
                             plan: InstallPlan)
    requires forall name :: name in orphans ==> OrphanName(subs, Protection(Some(plans)), csvs, name)
    requires plan in plans && IsStalePlan(orphans, plan)
    ensures Strip(plan.phase) == "Failed"
  {
    var i :| 0 <= i < |plan.csvs| && plan.csvs[i] in orphans;
    var name := plan.csvs[i];
    var csv :| csv in csvs && IsOrphan(subs, Protection(Some(plans)), csv) && Strip(csv.name) == name;
    OrphansAreExpendable(subs, plans, csv);
    assert Strip(name) == name;
    assert Mentions(plan, name);
  }

  /** After a sweep nothing is left to select: CSVs only disappear, and so do only failed InstallPlans. */
  lemma SecondSweepFindsNothing(subs: seq<Subscription>, csvs: seq<Csv>, plans: seq<InstallPlan>,
                                csvs': seq<Csv>, plans': seq<InstallPlan>)
    requires forall csv :: csv in csvs' ==> csv in csvs && !IsOrphan(subs, Protection(Some(plans)), csv)
    requires forall plan :: plan in plans && Strip(plan.phase) != "Failed" ==> plan in plans'
    ensures forall name :: !OrphanName(subs, Protection(Some(plans')), csvs', name)
  {
    forall csv | csv in csvs' ensures !IsOrphan(subs, Protection(Some(plans')), csv) {
      var name := Strip(csv.name);
      if InFlight(plans, name) {
        var i :| 0 <= i < |plans| && Strip(plans[i].phase) != "Failed" && Mentions(plans[i], name);
        assert plans[i] in plans';
        var j :| 0 <= j < |plans'| && plans'[j] == plans[i];
        assert InFlight(plans', name);
      }
    }
  }

  /** A CSV that is being installed is selected exactly if the first listing of InstallPlans was not answered and
      nothing else speaks for the CSV. */
  lemma InFlightSelectedIff(
    subs: seq<Subscription>, plans: seq<InstallPlan>, listing: Option<seq<InstallPlan>>, csv: Csv)
    requires listing.Some? ==> listing.value == plans
    requires InFlight(plans, Strip(csv.name))
    ensures IsOrphan(subs, Protection(listing), csv) <==> listing.None? && IsExpendable(subs, csv)
  {
  }

  /** Safety rests on the first listing: when it fails, an installation waiting for approval is torn down. */
  lemma FailedListingProtectsNothing() returns (csv: Csv, plan: InstallPlan)
    ensures IsOrphan([], Protection(None), csv) && InFlight([plan], Strip(csv.name))
    ensures IsStalePlan({Strip(csv.name)}, plan) && Strip(plan.phase) == "RequiresApproval"
    ensures !IsOrphan([], Protection(Some([plan])), csv)
  {
    csv := Csv(PREFIX, "Pending");
    plan := InstallPlan("install-x", "RequiresApproval", [PREFIX]);
    assert Lower(PREFIX) == PREFIX && Strip(PREFIX) == PREFIX;
    assert Strip(plan.csvs[0]) == PREFIX;
    assert Mentions(plan, PREFIX);
    assert [plan][0] == plan && Strip(plan.phase) == "RequiresApproval";
    assert InFlight([plan], PREFIX);
    assert plan.csvs[0] in {PREFIX};
  }

  /* ---------- repairing subscriptions ---------- */

  predicate Present(csvs: seq<Csv>, name: string) {
    exists i :: 0 <= i < |csvs| && Strip(csvs[i].name) == name
  }

  predicate NeedsRepair(sub: Subscription, csvs: seq<Csv>) {
    sub.planMissing || exists name :: name in TargetsOf(sub) && !Present(csvs, name)
  }

  predicate Repairable(sub: Subscription, csvs: seq<Csv>) {
    IsMesh(sub.name) && NeedsRepair(sub, csvs) && IsComplete(sub)
  }

  /** Listed among the CSVs. */
  ghost predicate IsThere(csvs: seq<Csv>, name: string) {
    exists csv :: csv in csvs && Strip(csv.name) == name
  }

  /** A subscription is repaired exactly if it is one of the Service Mesh, says all that is needed to apply it afresh,
      and misses its InstallPlan or a CSV it points at. */
  lemma RepairableIff(sub: Subscription, csvs: seq<Csv>)
    ensures Repairable(sub, csvs) <==>
              && NamesMesh(sub.name)
              && !Blank(sub.name) && !Blank(sub.channel) && !Blank(sub.source) && !Blank(sub.sourceNamespace)
              && (sub.planMissing || exists name :: PointsAt(sub, name) && !IsThere(csvs, name))
  {
    MeshIff(sub.name);
    forall name ensures name in TargetsOf(sub) <==> PointsAt(sub, name) {
    }
    forall name ensures Present(csvs, name) <==> IsThere(csvs, name) {
      PresentIsMember(csvs, name);
    }
  }

  /** The subscription applied afresh: its status is empty until OLM resolves it. */
  function Recreated(sub: Subscription): Subscription {
    Subscription(Strip(sub.name), "", "", false, false, Strip(sub.channel), Strip(sub.source),
                 Strip(sub.sourceNamespace))
  }

  /** Repairing is done once: what was recreated needs no repair, whatever the CSVs, and protects no CSV. */
  lemma RecreatedIsRepaired(sub: Subscription, csvs: seq<Csv>, name: string)
    ensures !Repairable(Recreated(sub), csvs) && !IsTarget([Recreated(sub)], name)
  {
  }

  /** How one attempt to delete and re-apply a subscription ends. */
  datatype Outcome = Refused | Gone | Reapplied

  function AfterRepair(sub: Subscription, seen: seq<Csv>, outcome: Outcome): seq<Subscription> {
    if !Repairable(sub, seen) || outcome.Refused? then [sub]
    else if outcome.Gone? then []
    else [Recreated(sub)]
  }

  /** What the repair makes of the subscriptions, `seen` being the CSVs it was shown. */
  function Repaired(subs: seq<Subscription>, seen: seq<Csv>, outcomes: seq<Outcome>): seq<Subscription>
    requires |outcomes| == |subs|
  {
    if subs == [] then []
    else
      var n := |subs| - 1;
      Repaired(subs[..n], seen, outcomes[..n]) + AfterRepair(subs[n], seen, outcomes[n])
  }

  function Reapplications(subs: seq<Subscription>, seen: seq<Csv>, outcomes: seq<Outcome>): nat
    requires |outcomes| == |subs|
  {
    if subs == [] then 0
    else
      var n := |subs| - 1;
      Reapplications(subs[..n], seen, outcomes[..n])
      + (if Repairable(subs[n], seen) && outcomes[n].Reapplied? then 1 else 0)
  }

  lemma OneMoreRepaired(subs: seq<Subscription>, n: nat, seen: seq<Csv>, outcomes: seq<Outcome>, outcome: Outcome)
    requires n < |subs| && |outcomes| == n
    ensures Repaired(subs[..n + 1], seen, outcomes + [outcome])
         == Repaired(subs[..n], seen, outcomes) + AfterRepair(subs[n], seen, outcome)
    ensures Reapplications(subs[..n + 1], seen, outcomes + [outcome])
         == Reapplications(subs[..n], seen, outcomes)
            + (if Repairable(subs[n], seen) && outcome.Reapplied? then 1 else 0)
  {
    assert subs[..n + 1][..n] == subs[..n] && (outcomes + [outcome])[..n] == outcomes;
  }

  /** Subscriptions without need stay, and whatever is new is a re-creation. */
  lemma {:induction false} RepairIsConfined(subs: seq<Subscription>, seen: seq<Csv>, outcomes: seq<Outcome>)
    requires |outcomes| == |subs|
    ensures forall sub :: sub in subs && !Repairable(sub, seen) ==> sub in Repaired(subs, seen, outcomes)
    ensures forall sub :: sub in Repaired(subs, seen, outcomes) ==>
              sub in subs || exists was :: was in subs && Repairable(was, seen) && sub == Recreated(was)
  {
    if subs != [] {
      var n := |subs| - 1;
      RepairIsConfined(subs[..n], seen, outcomes[..n]);
      assert subs == subs[..n] + [subs[n]];
    }
  }

  /** Without need nothing changes. */
  lemma {:induction false} HealthyOnesStay(subs: seq<Subscription>, seen: seq<Csv>, outcomes: seq<Outcome>)
    requires |outcomes| == |subs| && NoneRepairable(subs, seen)
    ensures Repaired(subs, seen, outcomes) == subs && Reapplications(subs, seen, outcomes) == 0
  {
    if subs != [] {
      var n := |subs| - 1;
      FrontIsHealthy(subs, seen);
      HealthyOnesStay(subs[..n], seen, outcomes[..n]);
      LastOneStays(subs, seen, outcomes);
    }
  }

  ghost predicate NoneRepairable(subs: seq<Subscription>, seen: seq<Csv>) {
    forall sub :: sub in subs ==> !Repairable(sub, seen)
  }

  lemma FrontIsHealthy(subs: seq<Subscription>, seen: seq<Csv>)
    requires subs != [] && NoneRepairable(subs, seen)
    ensures NoneRepairable(subs[..|subs| - 1], seen) && !Repairable(subs[|subs| - 1], seen)
  {
  }

  lemma LastOneStays(subs: seq<Subscription>, seen: seq<Csv>, outcomes: seq<Outcome>)
    requires subs != [] && |outcomes| == |subs| && !Repairable(subs[|subs| - 1], seen)
    requires Repaired(subs[..|subs| - 1], seen, outcomes[..|subs| - 1]) == subs[..|subs| - 1]
    requires Reapplications(subs[..|subs| - 1], seen, outcomes[..|subs| - 1]) == 0
    ensures Repaired(subs, seen, outcomes) == subs && Reapplications(subs, seen, outcomes) == 0
  {
    var n := |subs| - 1;
    assert AfterRepair(subs[n], seen, outcomes[n]) == [subs[n]];
    assert subs == subs[..n] + [subs[n]];
  }

  lemma {:induction false} AllGone(subs: seq<Subscription>, seen: seq<Csv>, outcomes: seq<Outcome>)
    requires |outcomes| == |subs| && forall i :: 0 <= i < |outcomes| ==> outcomes[i].Gone?
    ensures forall sub :: sub in Repaired(subs, seen, outcomes) ==> !Repairable(sub, seen)
  {
    if subs != [] {
      var n := |subs| - 1;
      AllGone(subs[..n], seen, outcomes[..n]);
    }
  }

  /** A subscription outlasts every outcome of the deletions exactly if, to the CSVs shown, it needs no repair. */
  lemma StaysIff(subs: seq<Subscription>, seen: seq<Csv>, sub: Subscription)
    requires sub in subs
    ensures (forall outcomes: seq<Outcome> :: |outcomes| == |subs| ==> sub in Repaired(subs, seen, outcomes))
      <==> !Repairable(sub, seen)
  {
    if Repairable(sub, seen) {
      var gone := seq(|subs|, _ => Gone);
      AllGone(subs, seen, gone);
      assert sub !in Repaired(subs, seen, gone);
    } else {
      forall outcomes: seq<Outcome> | |outcomes| == |subs| ensures sub in Repaired(subs, seen, outcomes) {
        RepairIsConfined(subs, seen, outcomes);
      }
    }
  }

  /** Fit to be applied again. */
  predicate IsComplete(sub: Subscription) {
    Strip(sub.name) != "" && Strip(sub.channel) != "" && Strip(sub.source) != "" && Strip(sub.sourceNamespace) != ""
  }

  /** A repair that was refused nothing leaves nothing to repair. */
  lemma {:induction false} NothingLeftToRepair(subs: seq<Subscription>, seen: seq<Csv>, outcomes: seq<Outcome>)
    requires |outcomes| == |subs| && forall i :: 0 <= i < |outcomes| ==> !outcomes[i].Refused?
    ensures forall sub :: sub in Repaired(subs, seen, outcomes) ==> !Repairable(sub, seen)
  {
    if subs != [] {
      var n := |subs| - 1;
      NothingLeftToRepair(subs[..n], seen, outcomes[..n]);
      RecreatedIsRepaired(subs[n], seen, "");
    }
  }

  /** This subscription is fit to be applied again, and the sweep takes away a CSV that it points at. */
  ghost predicate LosesTarget(subs: seq<Subscription>, plans: seq<InstallPlan>, csvs: seq<Csv>, sub: Subscription) {
    IsMesh(sub.name) && IsComplete(sub)
    && exists name :: name in TargetsOf(sub) && OrphanName(subs, Protection(Some(plans)), csvs, name)
  }

  /** What one more call would find nothing to do with. */
  ghost predicate IsIdle(subs: seq<Subscription>, plans: seq<InstallPlan>, csvs: seq<Csv>) {
    && (forall sub :: sub in subs ==> !Repairable(sub, csvs))
    && (forall name :: !OrphanName(subs, Protection(Some(plans)), csvs, name))
  }

  /** A subscription that needed no repair needs one after the sweep exactly if it lost a target. */
  lemma RepairableAfterSweepIff(subs: seq<Subscription>, plans: seq<InstallPlan>, csvs: seq<Csv>, csvs': seq<Csv>,
                                sub: Subscription)
    requires !Repairable(sub, csvs)
    requires forall csv :: csv in csvs' <==>
               csv in csvs && !OrphanName(subs, Protection(Some(plans)), csvs, Strip(csv.name))
    ensures Repairable(sub, csvs') <==> LosesTarget(subs, plans, csvs, sub)
  {
    if IsMesh(sub.name) && IsComplete(sub) {
      forall name | name in TargetsOf(sub)
        ensures Present(csvs', name) <==> !OrphanName(subs, Protection(Some(plans)), csvs, name)
      {
        assert Present(csvs, name);
        PresentAfterSweep(subs, plans, csvs, csvs', name);
      }
    }
  }

  lemma PresentAfterSweep(
    subs: seq<Subscription>, plans: seq<InstallPlan>, csvs: seq<Csv>, csvs': seq<Csv>, name: string)
    requires Present(csvs, name)
    requires forall csv :: csv in csvs' <==>
               csv in csvs && !OrphanName(subs, Protection(Some(plans)), csvs, Strip(csv.name))
    ensures Present(csvs', name) <==> !OrphanName(subs, Protection(Some(plans)), csvs, name)
  {
    PresentIsMember(csvs, name);
    PresentIsMember(csvs', name);
  }

  lemma PresentIsMember(csvs: seq<Csv>, name: string)
    ensures Present(csvs, name) <==> exists csv :: csv in csvs && Strip(csv.name) == name
  {
    if csv :| csv in csvs && Strip(csv.name) == name {
      var i :| 0 <= i < |csvs| && csvs[i] == csv;
    }
  }

  /** After a repair and a sweep that were refused nothing, one more call finds nothing to do if and only if the sweep
      took no CSV from under a subscription: else the next repair recreates that subscription, which then protects no
      CSV at all. */
  lemma NextCallIdleIff(subs: seq<Subscription>, plans: seq<InstallPlan>, csvs: seq<Csv>,
                        plans': seq<InstallPlan>, csvs': seq<Csv>)
    requires forall sub :: sub in subs ==> !Repairable(sub, csvs)
    requires forall csv :: csv in csvs' <==>
               csv in csvs && !OrphanName(subs, Protection(Some(plans)), csvs, Strip(csv.name))
    requires forall plan :: plan in plans && Strip(plan.phase) != "Failed" ==> plan in plans'
    ensures IsIdle(subs, plans', csvs') <==> forall sub :: sub in subs ==> !LosesTarget(subs, plans, csvs, sub)
  {
    forall sub | sub in subs ensures Repairable(sub, csvs') <==> LosesTarget(subs, plans, csvs, sub) {
      RepairableAfterSweepIff(subs, plans, csvs, csvs', sub);
    }
    forall csv | csv in csvs' ensures !IsOrphan(subs, Protection(Some(plans)), csv) {
      if IsOrphan(subs, Protection(Some(plans)), csv) {
        assert OrphanName(subs, Protection(Some(plans)), csvs, Strip(csv.name));
      }
    }
    SecondSweepFindsNothing(subs, csvs, plans, csvs', plans');
  }

  /** What a sweep makes of CSVs and InstallPlans, under the protection there was: exactly the CSVs removed are gone,
      each of them an orphan; every orphan is removed or refused, once it came to a selection; and while the listing
      behind the protection was answered, no InstallPlan goes that has not failed. */
  ghost predicate Swept(subs: seq<Subscription>, csvs: seq<Csv>, plans: seq<InstallPlan>, csvs': seq<Csv>,
                        plans': seq<InstallPlan>, removed: set<string>, refused: set<string>, shielded: bool,
                        selected: bool) {
    var protects := Protection(if shielded then Some(plans) else None);
    && (forall csv :: csv in csvs' <==> csv in csvs && Strip(csv.name) !in removed)
    && (forall plan :: plan in plans' ==> plan in plans)
    && (forall name :: name in removed ==> OrphanName(subs, protects, csvs, name))
    && (selected ==> forall name :: OrphanName(subs, protects, csvs, name) ==> name in removed || name in refused)
    && (!selected ==> removed == {})
    && (shielded ==> forall plan :: plan in plans && Strip(plan.phase) != "Failed" ==> plan in plans')
  }

  lemma SweptLeavesNoOrphan(subs: seq<Subscription>, csvs: seq<Csv>, plans: seq<InstallPlan>, csvs': seq<Csv>,
                            plans': seq<InstallPlan>, removed: set<string>)
    requires Swept(subs, csvs, plans, csvs', plans', removed, {}, true, true)
    ensures forall name :: !OrphanName(subs, Protection(Some(plans')), csvs', name)
  {
    forall csv | csv in csvs' ensures !IsOrphan(subs, Protection(Some(plans)), csv) {
      if IsOrphan(subs, Protection(Some(plans)), csv) {
        assert OrphanName(subs, Protection(Some(plans)), csvs, Strip(csv.name));
      }
    }
    SecondSweepFindsNothing(subs, csvs, plans, csvs', plans');
  }

  ghost predicate NoneRefused(outcomes: seq<Outcome>) {
    forall i :: 0 <= i < |outcomes| ==> !outcomes[i].Refused?
  }

  /** The same with the repair in front, and with the names that were removed. */
  lemma WholeCallIdleIff(before: seq<Subscription>, outcomes: seq<Outcome>, subs: seq<Subscription>,
                         plans: seq<InstallPlan>, csvs: seq<Csv>, plans': seq<InstallPlan>, csvs': seq<Csv>,
                         removed: set<string>, refused: set<string>)
    requires |outcomes| == |before| && NoneRefused(outcomes) && subs == Repaired(before, csvs, outcomes)
    requires Swept(subs, csvs, plans, csvs', plans', removed, refused, true, true) && refused == {}
    ensures IsIdle(subs, plans', csvs') <==> forall sub :: sub in subs ==> !LosesTarget(subs, plans, csvs, sub)
  {
    NothingLeftToRepair(before, csvs, outcomes);
    NextCallIdleIff(subs, plans, csvs, plans', csvs');
  }

  const NEXT := "servicemeshoperator2"

  /** An upgrade that is undone: the first call takes the old CSV and keeps the new one; the second recreates the
      subscription, since the old CSV is missing, and takes the new CSV, to which nothing points any more. */
  lemma UpgradeIsUndone() returns (sub: Subscription, a: Csv, b: Csv)
    ensures sub.currentCsv == a.name && sub.installedCsv == b.name && a.phase == b.phase == "Pending"
    ensures !Repairable(sub, [a, b])
    ensures IsOrphan([sub], Protection(Some([])), b) && !IsOrphan([sub], Protection(Some([])), a)
    ensures Repairable(sub, [a])
    ensures IsOrphan([Recreated(sub)], Protection(Some([])), a)
  {
    a, b := Csv(NEXT, "Pending"), Csv(PREFIX, "Pending");
    sub := Subscription(PREFIX, NEXT, PREFIX, false, false, "c", "s", "n");
    NamesOfUpgrade();
    assert TargetsOf(sub) == {NEXT, PREFIX};
    PairIsPresent(a, b);
    assert [sub][0] == sub;
    UpgradeSelects(sub, a, b);
  }

  lemma PairIsPresent(a: Csv, b: Csv)
    requires Strip(a.name) != Strip(b.name)
    ensures Present([a, b], Strip(a.name)) && Present([a, b], Strip(b.name)) && !Present([a], Strip(b.name))
  {
    assert [a, b][0] == a && [a, b][1] == b;
  }

  lemma NamesOfUpgrade()
    ensures Strip(NEXT) == NEXT && Strip(PREFIX) == PREFIX && NEXT != PREFIX && IsMesh(NEXT) && IsMesh(PREFIX)
    ensures Strip("c") == "c" && Strip("s") == "s" && Strip("n") == "n" && Strip("Pending") == "Pending"
  {
    assert |NEXT| == |PREFIX| + 1;
    NextIsMesh();
  }

  lemma NextIsMesh()
    ensures IsMesh(NEXT) && IsMesh(PREFIX)
  {
    assert Lower(PREFIX) == PREFIX && Lower(NEXT) == NEXT;
    assert NEXT[..|PREFIX|] == PREFIX;
  }

  lemma UpgradeSelects(sub: Subscription, a: Csv, b: Csv)
    requires IsMesh(sub.name) && IsMesh(a.name) && IsMesh(b.name) && a.name != b.name && a.name != "" && b.name != ""
    requires Strip(a.name) == a.name == sub.currentCsv && Strip(b.name) == b.name == sub.installedCsv
    requires Strip(a.phase) == a.phase == b.phase == "Pending" && !sub.resolutionFailed
    ensures IsOrphan([sub], Protection(Some([])), b) && !IsOrphan([sub], Protection(Some([])), a)
    ensures IsOrphan([Recreated(sub)], Protection(Some([])), a)
  {
    assert [sub][0] == sub;
    assert IsTarget([sub], a.name) && UpgradeStale([sub], b.name) && !UpgradeStale([sub], a.name);
    RecreatedIsRepaired(sub, [], a.name);
  }

  /** A failed listing of CSVs shows none, and then every complete subscription that names a CSV looks broken. */
  lemma UnlistedCsvsLookMissing(sub: Subscription)
    ensures Repairable(sub, []) <==> IsMesh(sub.name) && IsComplete(sub) && (sub.planMissing || TargetsOf(sub) != {})
  {
    if name :| name in TargetsOf(sub) {
      assert !Present([], name);
    }
  }

  /** So a healthy subscription, whose CSV is there, is deleted and applied afresh, and loses its status. */
  lemma HealthyIsRecreated() returns (sub: Subscription, csvs: seq<Csv>)
    ensures |csvs| == 1 && sub.currentCsv == sub.installedCsv == csvs[0].name && csvs[0].phase == "Succeeded"
    ensures !Repairable(sub, csvs) && Repairable(sub, [])
    ensures Recreated(sub) != sub && AfterRepair(sub, [], Reapplied) == [Recreated(sub)]
  {
    csvs := [Csv(PREFIX, "Succeeded")];
    sub := Subscription(PREFIX, PREFIX, PREFIX, false, false, "c", "s", "n");
    assert Lower(PREFIX) == PREFIX && Strip(PREFIX) == PREFIX;
    assert Strip("c") == "c" && Strip("s") == "s" && Strip("n") == "n";
    UnlistedCsvsLookMissing(sub);
    assert PREFIX in TargetsOf(sub) && Strip(csvs[0].name) == PREFIX;
    assert Present(csvs, PREFIX);
  }

  /* ---------- the sweep ---------- */

  predicate TargetBefore(subs: seq<Subscription>, n: nat, csv: string)
    requires n <= |subs|
  {
    exists k :: 0 <= k < n && IsMesh(subs[k].name) && csv in TargetsOf(subs[k])
  }

  predicate FailedBefore(subs: seq<Subscription>, n: nat)
    requires n <= |subs|
  {
    exists k :: 0 <= k < n && IsMesh(subs[k].name) && subs[k].resolutionFailed
  }

  lemma AllTargets(subs: seq<Subscription>)
    ensures forall csv :: TargetBefore(subs, |subs|, csv) <==> IsTarget(subs, csv)
    ensures FailedBefore(subs, |subs|) <==> AnyResolutionFailed(subs)
  {
  }

  lemma TargetsGrow(subs: seq<Subscription>, n: nat)
    requires n < |subs|
    ensures forall csv :: TargetBefore(subs, n + 1, csv) <==>
              TargetBefore(subs, n, csv) || (IsMesh(subs[n].name) && csv in TargetsOf(subs[n]))
    ensures FailedBefore(subs, n + 1) <==> FailedBefore(subs, n) || (IsMesh(subs[n].name) && subs[n].resolutionFailed)
  {
  }

  method CollectTargets(subs: seq<Subscription>) returns (targets: set<string>, failed: bool)
    ensures forall csv :: csv in targets <==> IsTarget(subs, csv)
    ensures failed <==> AnyResolutionFailed(subs)
  {
    targets, failed := {}, false;
    for i := 0 to |subs|
      invariant forall csv :: csv in targets <==> TargetBefore(subs, i, csv)
      invariant failed <==> FailedBefore(subs, i)
    {
      TargetsGrow(subs, i);
      if IsMesh(subs[i].name) {
        targets := targets + TargetsOf(subs[i]);
        if subs[i].resolutionFailed {
          failed := true;
        }
      }
    }
    AllTargets(subs);
  }

  method CollectUpgradeStale(subs: seq<Subscription>) returns (stale: set<string>)
    ensures forall csv :: csv in stale <==> UpgradeStale(subs, csv)
  {
    stale := {};
    for i := 0 to |subs|
      invariant forall csv :: csv in stale <==>
                  exists k :: 0 <= k < i && IsMesh(subs[k].name) && IsUpgradeStale(subs[k], csv)
    {
      var current, installed := Strip(subs[i].currentCsv), Strip(subs[i].installedCsv);
      if IsMesh(subs[i].name) && current != "" && installed != "" && current != installed {
        stale := stale + {installed};
      }
    }
  }

  method InstallPlanTargetCsvs(listing: Option<seq<InstallPlan>>) returns (names: set<string>)
    ensures forall csv :: csv in names <==> Protection(listing)(csv)
  {
    names := {};
    if listing.None? {
      return;
    }
    var plans := listing.value;
    for i := 0 to |plans|
      invariant forall csv :: csv in names <==>
                  csv != "" && IsMesh(csv)
                  && exists k :: 0 <= k < i && Strip(plans[k].phase) != "Failed" && Mentions(plans[k], csv)
    {
      if Strip(plans[i].phase) != "Failed" {
        var more := PlanCsvs(plans[i]);
        names := names + more;
      }
    }
  }

  predicate MentionedBefore(plan: InstallPlan, n: nat, csv: string)
    requires n <= |plan.csvs|
  {
    exists k :: 0 <= k < n && Strip(plan.csvs[k]) == csv
  }

  lemma MentionsGrow(plan: InstallPlan, n: nat)
    requires n < |plan.csvs|
    ensures forall csv ::
              MentionedBefore(plan, n + 1, csv) <==> MentionedBefore(plan, n, csv) || csv == Strip(plan.csvs[n])
  {
    forall csv | MentionedBefore(plan, n, csv) || csv == Strip(plan.csvs[n]) ensures MentionedBefore(plan, n + 1, csv) {
      var k :| 0 <= k <= n && Strip(plan.csvs[k]) == csv;
    }
  }

  method PlanCsvs(plan: InstallPlan) returns (names: set<string>)
    ensures forall csv :: csv in names <==> csv != "" && IsMesh(csv) && Mentions(plan, csv)
  {
    names := {};
    for j := 0 to |plan.csvs|
      invariant forall csv :: csv in names <==> csv != "" && IsMesh(csv) && MentionedBefore(plan, j, csv)
    {
      MentionsGrow(plan, j);
      var csv := Strip(plan.csvs[j]);
      if csv != "" && IsMesh(csv) {
        names := names + {csv};
      }
    }
  }

  /** One round of the selection loop. */
  method Classify(subs: seq<Subscription>, listing: Option<seq<InstallPlan>>, targets: set<string>, failed: bool,
                  inFlight: set<string>, stale: set<string>, csv: Csv) returns (orphan: bool)
    requires forall name :: name in targets <==> IsTarget(subs, name)
    requires failed <==> AnyResolutionFailed(subs)
    requires forall name :: name in inFlight <==> Protection(listing)(name)
    requires forall name :: name in stale <==> UpgradeStale(subs, name)
    ensures orphan <==> IsOrphan(subs, Protection(listing), csv)
  {
    var name, phase := Strip(csv.name), Strip(csv.phase);
    OneTarget(subs, targets, name);
    if !IsMesh(name) || phase == "Succeeded" {
      return false;
    }
    if name in targets && phase in {"Installing", "Replacing"} {
      return false;
    }
    if name in inFlight {
      return false;
    }
    if phase in {"Pending", "Failed"} && name !in targets {
      return true;
    } else if phase == "Pending" && name in stale {
      return true;
    } else if failed && phase == "Pending" && |targets| == 1 && name in targets {
      return true;
    }
    return false;
  }

  method SelectOrphans(subs: seq<Subscription>, csvs: seq<Csv>, listing: Option<seq<InstallPlan>>)
    returns (orphans: set<string>)
    ensures forall name :: name in orphans <==> OrphanName(subs, Protection(listing), csvs, name)
    ensures forall name :: name in orphans <==>
              exists csv :: csv in csvs && Strip(csv.name) == name && ShouldGo(subs, listing, csv)
  {
    forall csv ensures IsOrphan(subs, Protection(listing), csv) <==> ShouldGo(subs, listing, csv) {
      OrphanIff(subs, listing, csv);
    }
    var targets, failed := CollectTargets(subs);
    var inFlight := InstallPlanTargetCsvs(listing);
    var stale := CollectUpgradeStale(subs);
    orphans := {};
    for i := 0 to |csvs|
      invariant forall name :: name in orphans <==> OrphanName(subs, Protection(listing), csvs[..i], name)
    {
      var orphan := Classify(subs, listing, targets, failed, inFlight, stale, csvs[i]);
      OrphanNameOfOneMore(subs, Protection(listing), csvs, i);
      if orphan {
        orphans := orphans + {Strip(csvs[i].name)};
      }
    }
    assert csvs[..|csvs|] == csvs;
  }

  lemma OrphanNameOfOneMore(subs: seq<Subscription>, protects: string -> bool, csvs: seq<Csv>, i: nat)
    requires i < |csvs|
    ensures forall name :: OrphanName(subs, protects, csvs[..i + 1], name) <==>
              || OrphanName(subs, protects, csvs[..i], name)
              || (IsOrphan(subs, protects, csvs[i]) && Strip(csvs[i].name) == name)
  {
    assert csvs[..i + 1] == csvs[..i] + [csvs[i]];
    forall name ensures OrphanName(subs, protects, csvs[..i + 1], name) <==>
                        || OrphanName(subs, protects, csvs[..i], name)
                        || (IsOrphan(subs, protects, csvs[i]) && Strip(csvs[i].name) == name)
    {
      if OrphanName(subs, protects, csvs[..i], name) {
        var csv :| csv in csvs[..i] && IsOrphan(subs, protects, csv) && Strip(csv.name) == name;
        assert csv in csvs[..i + 1];
      }
      assert csvs[i] in csvs[..i + 1];
    }
  }

  lemma OneTarget(subs: seq<Subscription>, targets: set<string>, name: string)
    requires forall csv :: csv in targets <==> IsTarget(subs, csv)
    ensures |targets| == 1 && name in targets <==> OnlyTarget(subs, name)
  {
    if |targets| == 1 && name in targets {
      var rest := targets - {name};
      assert |rest| == 0;
      forall other ensures IsTarget(subs, other) <==> other == name {
        assert other in targets ==> other in rest || other == name;
      }
    }
    if OnlyTarget(subs, name) {
      assert IsTarget(subs, name);
      assert targets == {name};
    }
  }

  function Keep<T(!new)>(xs: seq<T>, drop: T -> bool): (r: seq<T>)
    ensures forall x :: x in r <==> x in xs && !drop(x)
  {
    if xs == [] then []
    else
      assert xs == [xs[0]] + xs[1..];
      (if drop(xs[0]) then [] else [xs[0]]) + Keep(xs[1..], drop)
  }

  /** Each subscription in need was deleted and applied afresh. */
  ghost predicate AllReapplied(subs: seq<Subscription>, seen: seq<Csv>, outcomes: seq<Outcome>) {
    |outcomes| == |subs| && forall k :: 0 <= k < |subs| && Repairable(subs[k], seen) ==> outcomes[k].Reapplied?
  }

  lemma OneMoreReapplied(subs: seq<Subscription>, n: nat, seen: seq<Csv>, outcomes: seq<Outcome>, outcome: Outcome)
    requires n < |subs|
    ensures AllReapplied(subs[..n], seen, outcomes) && (Repairable(subs[n], seen) ==> outcome.Reapplied?) ==>
              AllReapplied(subs[..n + 1], seen, outcomes + [outcome])
  {
  }

  /** An InstallPlan that names a CSV the sweep selects. */
  ghost predicate NamesOrphan(subs: seq<Subscription>, protects: string -> bool, csvs: seq<Csv>, plan: InstallPlan) {
    && plan.name != "" && Strip(plan.phase) in {"Failed", "RequiresApproval"}
    && exists i :: 0 <= i < |plan.csvs| && OrphanName(subs, protects, csvs, plan.csvs[i])
  }

  lemma StaleAreThoseNaming(
    subs: seq<Subscription>, protects: string -> bool, csvs: seq<Csv>, orphans: set<string>)
    requires forall name :: name in orphans <==> OrphanName(subs, protects, csvs, name)
    ensures forall plan :: IsStalePlan(orphans, plan) <==> NamesOrphan(subs, protects, csvs, plan)
  {
  }

  lemma AllStaleHaveFailed(subs: seq<Subscription>, csvs: seq<Csv>, plans: seq<InstallPlan>, orphans: set<string>)
    requires forall name :: name in orphans <==> OrphanName(subs, Protection(Some(plans)), csvs, name)
    ensures forall plan :: plan in plans && IsStalePlan(orphans, plan) ==> Strip(plan.phase) == "Failed"
  {
    forall plan | plan in plans && IsStalePlan(orphans, plan) ensures Strip(plan.phase) == "Failed" {
      StalePlansHaveFailed(subs, csvs, plans, orphans, plan);
    }
  }

  class OperatorNamespace {
    var subs: seq<Subscription>
    var csvs: seq<Csv>
    var plans: seq<InstallPlan>
    ghost var failedListings: nat  // listings the API did not answer
    ghost var refused: set<string>  // CSV deletions the API did not accept
    ghost var refusedPlans: set<string>  // and InstallPlan deletions
    ghost var troubles: nat  // subscriptions that could not be deleted or not be applied afresh

    constructor (subs: seq<Subscription>, csvs: seq<Csv>, plans: seq<InstallPlan>)
      ensures this.subs == subs && this.csvs == csvs && this.plans == plans && failedListings == 0 && refused == {}
      ensures refusedPlans == {} && troubles == 0
    {
      this.subs, this.csvs, this.plans := subs, csvs, plans;
      failedListings, refused, refusedPlans, troubles := 0, {}, {}, 0;
    }

    method List() returns (answered: bool)
      modifies this`failedListings
      ensures failedListings == old(failedListings) + if answered then 0 else 1
    {
      answered := *;
      if !answered {
        failedListings := failedListings + 1;
      }
    }

    method DeleteCsv(name: string) returns (deleted: bool)
      modifies this`csvs, this`refused
      ensures csvs == if deleted then Keep(old(csvs), (csv: Csv) => Strip(csv.name) == name) else old(csvs)
      ensures refused == old(refused) + if deleted then {} else {name}
    {
      deleted := *;
      if deleted {
        csvs := Keep(csvs, (csv: Csv) => Strip(csv.name) == name);
      } else {
        refused := refused + {name};
      }
    }

    method DeletePlan(name: string)
      modifies this`plans, this`refusedPlans
      ensures old(refusedPlans) <= refusedPlans
      ensures forall plan :: plan in plans ==> plan in old(plans)
      ensures forall plan :: plan in old(plans) && plan.name != name ==> plan in plans
      ensures forall plan :: plan in plans && plan.name == name ==> name in refusedPlans
    {
      var deleted: bool := *;
      if deleted {
        plans := Keep(plans, (plan: InstallPlan) => plan.name == name);
      } else {
        refusedPlans := refusedPlans + {name};
      }
    }

    /** Remove the orphans, in any order; report which deletions went through. */
    method DeleteOrphans(orphans: set<string>) returns (removed: set<string>)
      modifies this`csvs, this`refused
      ensures removed <= orphans && refused == old(refused) + (orphans - removed)
      ensures forall csv :: csv in csvs <==> csv in old(csvs) && Strip(csv.name) !in removed
    {
      removed := {};
      var todo := orphans;
      while todo != {}
        invariant todo <= orphans && removed <= orphans - todo
        invariant refused == old(refused) + (orphans - todo - removed)
        invariant forall csv :: csv in csvs <==> csv in old(csvs) && Strip(csv.name) !in removed
      {
        var name :| name in todo;
        todo := todo - {name};
        var deleted := DeleteCsv(name);
        if deleted {
          removed := removed + {name};
        }
      }
    }

    method DeleteStalePlans(orphans: set<string>, listing: seq<InstallPlan>)
      modifies this`plans, this`refusedPlans
      requires listing == plans
      requires forall p, q :: p in plans && q in plans && p.name == q.name ==> p == q
      ensures forall plan :: plan in plans ==> plan in old(plans)
      ensures forall plan :: plan in old(plans) && !IsStalePlan(orphans, plan) ==> plan in plans
      ensures forall plan :: plan in plans && IsStalePlan(orphans, plan) ==> plan.name in refusedPlans
    {
      for i := 0 to |listing|
        invariant forall plan :: plan in plans ==> plan in listing
        invariant forall plan :: plan in listing && !IsStalePlan(orphans, plan) ==> plan in plans
        invariant forall plan :: plan in plans && plan in listing[..i] && IsStalePlan(orphans, plan) ==>
                    plan.name in refusedPlans
      {
        assert listing[..i + 1] == listing[..i] + [listing[i]];
        var plan := listing[i];
        if (exists j :: 0 <= j < |plan.csvs| && plan.csvs[j] in orphans)
           && Strip(plan.phase) in {"Failed", "RequiresApproval"} && plan.name != "" {
          DeletePlan(plan.name);
        }
      }
      assert listing[..|listing|] == listing;
    }

    /** Delete and re-apply every Service Mesh subscription with a dangling InstallPlan or CSV reference. Without an
        answer for the subscriptions nothing happens; without one for the CSVs, none is `seen`. */
    method RepairSubscriptions()
      returns (repaired: nat, ghost answered: bool, ghost seen: seq<Csv>, ghost outcomes: seq<Outcome>)
      modifies this`subs, this`failedListings, this`troubles
      ensures |outcomes| == |old(subs)| && (seen == csvs || seen == []) && failedListings >= old(failedListings)
      ensures failedListings == old(failedListings) ==> answered && seen == csvs
      ensures answered ==> subs == Repaired(old(subs), seen, outcomes)
                           && repaired == Reapplications(old(subs), seen, outcomes)
      ensures answered && seen != csvs ==> failedListings > old(failedListings)
      ensures !answered ==> subs == old(subs) && repaired == 0 && failedListings > old(failedListings)
      ensures repaired <= |old(subs)|
      ensures forall sub :: sub in old(subs) && !Repairable(sub, seen) ==> sub in subs
      ensures (forall sub :: sub in old(subs) ==> !Repairable(sub, seen)) ==> repaired == 0 && subs == old(subs)
      ensures answered && troubles == old(troubles) ==> AllReapplied(old(subs), seen, outcomes)
    {
      repaired, seen, outcomes := 0, csvs, seq(|subs|, _ => Refused);
      var listed := List();
      if !listed {
        return 0, false, csvs, outcomes;
      }
      answered := true;
      listed := List();
      var shown := if listed then csvs else [];
      seen := shown;
      subs, repaired, outcomes := RepairListed(subs, shown);
    }

    method RepairListed(listing: seq<Subscription>, shown: seq<Csv>)
      returns (kept: seq<Subscription>, repaired: nat, ghost outcomes: seq<Outcome>)
      modifies this`troubles
      ensures troubles >= old(troubles)
      ensures troubles == old(troubles) ==> AllReapplied(listing, shown, outcomes)
      ensures |outcomes| == |listing|
      ensures kept == Repaired(listing, shown, outcomes) && repaired == Reapplications(listing, shown, outcomes)
      ensures forall sub :: sub in listing && !Repairable(sub, shown) ==> sub in kept
      ensures forall sub :: sub in kept ==>
                sub in listing || exists was :: was in listing && Repairable(was, shown) && sub == Recreated(was)
      ensures repaired <= |listing|
      ensures (forall sub :: sub in listing ==> !Repairable(sub, shown)) ==> repaired == 0 && kept == listing
    {
      kept, repaired, outcomes := RepairEach(listing, shown);
      RepairIsConfined(listing, shown, outcomes);
      if forall sub :: sub in listing ==> !Repairable(sub, shown) {
        HealthyOnesStay(listing, shown, outcomes);
      }
    }

    method RepairEach(listing: seq<Subscription>, shown: seq<Csv>)
      returns (kept: seq<Subscription>, repaired: nat, ghost outcomes: seq<Outcome>)
      modifies this`troubles
      ensures |outcomes| == |listing| && repaired <= |listing| && troubles >= old(troubles)
      ensures kept == Repaired(listing, shown, outcomes) && repaired == Reapplications(listing, shown, outcomes)
      ensures troubles == old(troubles) ==> AllReapplied(listing, shown, outcomes)
    {
      kept, repaired, outcomes := [], 0, [];
      for i := 0 to |listing|
        invariant |outcomes| == i && repaired <= i && troubles >= old(troubles)
        invariant troubles == old(troubles) ==> AllReapplied(listing[..i], shown, outcomes)
        invariant kept == Repaired(listing[..i], shown, outcomes)
        invariant repaired == Reapplications(listing[..i], shown, outcomes)
      {
        var left, reapplied;
        ghost var outcome;
        left, reapplied, outcome := Attempt(listing[i], shown);
        OneMoreRepaired(listing, i, shown, outcomes, outcome);
        OneMoreReapplied(listing, i, shown, outcomes, outcome);
        outcomes := outcomes + [outcome];
        kept := kept + left;
        repaired := repaired + if reapplied then 1 else 0;
      }
      assert listing[..|listing|] == listing;
    }

    /** One subscription: re-create it if it needs that, with whatever comes of it. */
    method Attempt(sub: Subscription, shown: seq<Csv>)
      returns (left: seq<Subscription>, reapplied: bool, ghost outcome: Outcome)
      modifies this`troubles
      ensures left == AfterRepair(sub, shown, outcome)
      ensures reapplied <==> Repairable(sub, shown) && outcome.Reapplied?
      ensures troubles == old(troubles) + if Repairable(sub, shown) && !outcome.Reapplied? then 1 else 0
    {
      var deleted: bool := *;
      var applied: bool := *;
      outcome := if !deleted then Refused else if applied then Reapplied else Gone;
      if Repairable(sub, shown) && !outcome.Reapplied? {
        troubles := troubles + 1;
      }
      if !Repairable(sub, shown) || !deleted {
        return [sub], false, outcome;
      }
      if applied {
        return [Recreated(sub)], true, outcome;
      }
      return [], false, outcome;
    }

    /**
     The sweep proper, after the subscriptions have been repaired; nothing else changes the namespace meanwhile.
     Any listing and any deletion may fail; `shielded` tells that the InstallPlan listing behind the protection
     was answered, `selected` that it came to that listing. Every orphan under the protection there was is deleted
     unless the API refuses to; when every listing is answered and nothing refused, a further sweep would select
     nothing.
     */
    method SweepOrphans(repaired: nat)
      returns (total: nat, ghost removed: set<string>, ghost shielded: bool, ghost selected: bool)
      requires forall p, q :: p in plans && q in plans && p.name == q.name ==> p == q
      modifies this`csvs, this`plans, this`failedListings, this`refused, this`refusedPlans
      ensures total == repaired + |removed| || (total == 0 && removed == {} && failedListings > old(failedListings))
      ensures Swept(subs, old(csvs), old(plans), csvs, plans, removed, refused, shielded, selected)
      ensures failedListings >= old(failedListings)
      ensures failedListings == old(failedListings) ==> selected && shielded
      ensures failedListings == old(failedListings) && refused == {} ==>
                forall name :: !OrphanName(subs, Protection(Some(plans)), csvs, name)
      ensures failedListings == old(failedListings) ==>
                forall plan :: plan in plans && NamesOrphan(subs, Protection(Some(old(plans))), old(csvs), plan) ==>
                  plan.name in refusedPlans
    {
      removed, shielded, selected := {}, true, false;
      var answered := List();
      if !answered {
        return 0, {}, true, false;
      }
      answered := List();
      if !answered {
        return repaired, {}, true, false;
      }
      answered := List();
      shielded, selected := answered, true;
      var orphans := SelectOrphans(subs, csvs, if answered then Some(plans) else None);
      var gone := DeleteSelected(orphans);
      removed := gone;
      total := repaired + |gone|;
      if shielded {
        AllStaleHaveFailed(subs, old(csvs), old(plans), orphans);
        StaleAreThoseNaming(subs, Protection(Some(old(plans))), old(csvs), orphans);
        if refused == {} {
          SweptLeavesNoOrphan(subs, old(csvs), old(plans), csvs, plans, removed);
        }
      }
    }

    /** The deletions: the orphans, then the InstallPlans of a further listing that name one of them. */
    method DeleteSelected(orphans: set<string>) returns (gone: set<string>)
      requires forall p, q :: p in plans && q in plans && p.name == q.name ==> p == q
      modifies this`csvs, this`plans, this`failedListings, this`refused, this`refusedPlans
      ensures gone <= orphans && refused == old(refused) + (orphans - gone)
      ensures forall csv :: csv in csvs <==> csv in old(csvs) && Strip(csv.name) !in gone
      ensures forall plan :: plan in plans ==> plan in old(plans)
      ensures forall plan :: plan in old(plans) && !IsStalePlan(orphans, plan) ==> plan in plans
      ensures failedListings >= old(failedListings)
      ensures failedListings == old(failedListings) ==>
                forall plan :: plan in plans && IsStalePlan(orphans, plan) ==> plan.name in refusedPlans
    {
      gone := {};
      if orphans != {} {
        gone := DeleteOrphans(orphans);
        var answered := List();
        if answered {
          DeleteStalePlans(orphans, plans);
        }
      }
    }

    /**
     The whole call: repair, then sweep. Of a call that was answered throughout and refused nothing it says exactly
     when one more would find nothing to do.
     */
    method ReconcileOlmConflicts()
      returns (total: nat, ghost answered: bool, ghost seen: seq<Csv>, ghost outcomes: seq<Outcome>,
               ghost removed: set<string>, ghost shielded: bool, ghost selected: bool)
      requires forall p, q :: p in plans && q in plans && p.name == q.name ==> p == q
      modifies this
      ensures |outcomes| == |old(subs)| && (seen == old(csvs) || seen == [])
      ensures subs == if answered then Repaired(old(subs), seen, outcomes) else old(subs)
      ensures total == (if answered then Reapplications(old(subs), seen, outcomes) else 0) + |removed|
              || (total == 0 && removed == {} && failedListings > old(failedListings))
      ensures Swept(subs, old(csvs), old(plans), csvs, plans, removed, refused, shielded, selected)
      ensures failedListings == old(failedListings) ==> answered && selected && shielded && seen == old(csvs)
      ensures answered && troubles == old(troubles) ==> AllReapplied(old(subs), seen, outcomes)
      ensures failedListings == old(failedListings) ==>
                forall plan :: plan in plans && NamesOrphan(subs, Protection(Some(old(plans))), old(csvs), plan) ==>
                  plan.name in refusedPlans
      ensures failedListings == old(failedListings) && refused == {}
              && NoneRefused(outcomes) ==>
                (IsIdle(subs, plans, csvs) <==>
                   forall sub :: sub in subs ==> !LosesTarget(subs, old(plans), old(csvs), sub))
    {
      var repaired: nat;
      repaired, answered, seen, outcomes := RepairSubscriptions();
      total, removed, shielded, selected := SweepOrphans(repaired);
      if failedListings == old(failedListings) && refused == {} && NoneRefused(outcomes) {
        WholeCallIdleIff(old(subs), outcomes, subs, old(plans), old(csvs), plans, csvs, removed, refused);
      }
    }
  }
}
