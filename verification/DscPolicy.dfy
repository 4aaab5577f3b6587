/** Which DataScienceCluster components a smoke selection needs, which it must not leave on, and the three passes
    that bring a cluster there. */
module DscPolicy {
  import opened Basics

  const LLAMA := "llamastackoperator"

  datatype Mapping = Mapping(keys: set<string>, pre35: set<string>)
  datatype Band = Band(minVersion: Option<string>, maxVersion: Option<string>, removed: set<string>)

  /** The policy document with everything the run looks up from outside it: version comparison, the keys an operator
      sample defers (empty when charts are not consulted), and the suites a version switches off. */
  datatype Policy = Policy(
    smoke: map<string, Mapping>,
    bands: seq<Band>,
    compare: (string, string) -> int,
    chartRemoved: string -> set<string>,
    gated: string -> set<string>)

  /** An operator version as given, its comparison form, and whether that form is numeric. */
  datatype Version = Version(given: string, compared: string, numeric: bool)

  predicate BandMatches(policy: Policy, version: string, band: Band) {
    && (band.minVersion.Some? && band.minVersion.value != "" ==> policy.compare(version, band.minVersion.value) >= 0)
    && (band.maxVersion.Some? && band.maxVersion.value != "" ==> policy.compare(version, band.maxVersion.value) <= 0)
  }

  /** Keys that are switched off at install time for this version. */
  ghost predicate InstallRemoves(policy: Policy, version: Version, key: string) {
    && version.numeric
    && exists band :: band in policy.bands && BandMatches(policy, version.compared, band)
                      && (key in band.removed || key in policy.chartRemoved(version.given))
  }

  predicate IsPre35(policy: Policy, version: Version) {
    version.numeric && policy.compare(version.compared, "3.5") < 0
  }

  ghost predicate SmokeNeeds(policy: Policy, version: Version, id: string, key: string) {
    id in policy.smoke && (key in policy.smoke[id].keys || (IsPre35(policy, version) && key in policy.smoke[id].pre35))
  }

  predicate OgxWithoutLlama(ids: set<string>) {
    "ogx" in ids && "llama_stack" !in ids
  }

  /** The version switches this suite off. */
  predicate IsGated(policy: Policy, version: Version, id: string) {
    Strip(version.given) != "" && id in policy.gated(version.given)
  }

  ghost predicate IsManaged(policy: Policy, ids: set<string>, version: Version, forInstall: bool, key: string) {
    && (exists id :: id in ids && SmokeNeeds(policy, version, id, key)
                     && (forInstall || !IsGated(policy, version, id)))
    && !(forInstall && Strip(version.given) != "" && InstallRemoves(policy, version, key))
    && !(OgxWithoutLlama(ids) && key == LLAMA)
  }

  ghost predicate IsStale(policy: Policy, ids: set<string>, version: Version, key: string) {
    || (InstallRemoves(policy, version, key) && !IsManaged(policy, ids, version, false, key))
    || key == LLAMA
    || (key == "ogx" && !IsManaged(policy, ids, version, false, key))
  }

  /** The policy asks for a key and forbids it at the same time in at most one case. */
  lemma OverlapIsLlamaStack(policy: Policy, ids: set<string>, version: Version, key: string)
    requires IsManaged(policy, ids, version, false, key) && IsStale(policy, ids, version, key)
    ensures key == LLAMA && !OgxWithoutLlama(ids)
  {
  }

  /** A selected suite asks for this key, among the keys of its own or, on a version that is a number below 3.5, among
      the additional ones. Except at install time, suites that the version switches off do not count. */
  ghost predicate AskedFor(policy: Policy, ids: set<string>, version: Version, forInstall: bool, key: string) {
    exists id ::
      && id in ids && id in policy.smoke
      && (forInstall || Blank(version.given) || id !in policy.gated(version.given))
      && (|| key in policy.smoke[id].keys
          || (version.numeric && policy.compare(version.compared, "3.5") < 0 && key in policy.smoke[id].pre35))
  }

  /** The version is a number within the bounds of this band; a bound that is not there, or empty, does not bind. */
  predicate Covers(policy: Policy, version: Version, band: Band) {
    && version.numeric
    && (band.minVersion in {None, Some("")} || policy.compare(version.compared, band.minVersion.value) >= 0)
    && (band.maxVersion in {None, Some("")} || policy.compare(version.compared, band.maxVersion.value) <= 0)
  }

  /** Put off at install time: by a band that covers the version, or, if there is one, by the operator's own sample. */
  ghost predicate PutOff(policy: Policy, version: Version, key: string) {
    exists band :: && band in policy.bands && Covers(policy, version, band)
                   && (key in band.removed || key in policy.chartRemoved(version.given))
  }

  /** A key is managed exactly if it is asked for, at install time not put off, and never the Llama Stack operator
      beside OGX alone. */
  lemma ManagedIff(policy: Policy, ids: set<string>, version: Version, forInstall: bool, key: string)
    ensures IsManaged(policy, ids, version, forInstall, key) <==>
              && AskedFor(policy, ids, version, forInstall, key)
              && !(forInstall && !Blank(version.given) && PutOff(policy, version, key))
              && !(key == "llamastackoperator" && "ogx" in ids && "llama_stack" !in ids)
  {
    PutOffIff(policy, version, key);
    forall id ensures
      SmokeNeeds(policy, version, id, key) && (forInstall || !IsGated(policy, version, id)) <==>
        && id in policy.smoke
        && (forInstall || Blank(version.given) || id !in policy.gated(version.given))
        && (|| key in policy.smoke[id].keys
            || (version.numeric && policy.compare(version.compared, "3.5") < 0 && key in policy.smoke[id].pre35))
    {
    }
  }

  lemma PutOffIff(policy: Policy, version: Version, key: string)
    ensures InstallRemoves(policy, version, key) <==> PutOff(policy, version, key)
  {
    forall band ensures version.numeric && BandMatches(policy, version.compared, band) <==>
                        Covers(policy, version, band)
    {
    }
  }

  /** A key is stale exactly if it is the Llama Stack operator, or it is put off, or it is ogx, and nobody asks for
      it. */
  lemma StaleIff(policy: Policy, ids: set<string>, version: Version, key: string)
    ensures IsStale(policy, ids, version, key) <==>
              || key == "llamastackoperator"
              || ((PutOff(policy, version, key) || key == "ogx") && !AskedFor(policy, ids, version, false, key))
  {
    ManagedIff(policy, ids, version, false, key);
    PutOffIff(policy, version, key);
  }

  /* ---------- resolving, set by set ---------- */

  method InstallRemoved(policy: Policy, version: Version) returns (removed: set<string>)
    ensures forall key :: key in removed <==> InstallRemoves(policy, version, key)
  {
    if !version.numeric {
      return {};
    }
    removed := {};
    var matched := false;
    for i := 0 to |policy.bands|
      invariant matched <==> exists k :: 0 <= k < i && BandMatches(policy, version.compared, policy.bands[k])
      invariant forall key :: key in removed <==>
                  exists k :: 0 <= k < i && BandMatches(policy, version.compared, policy.bands[k])
                              && key in policy.bands[k].removed
    {
      if BandMatches(policy, version.compared, policy.bands[i]) {
        matched := true;
        removed := removed + policy.bands[i].removed;
      }
    }
    if matched {
      removed := removed + policy.chartRemoved(version.given);
    }
    InstallRemovedIs(policy, version, matched, removed);
  }

  lemma InstallRemovedIs(policy: Policy, version: Version, matched: bool, removed: set<string>)
    requires version.numeric
    requires matched <==> exists k :: 0 <= k < |policy.bands| && BandMatches(policy, version.compared, policy.bands[k])
    requires forall key :: key in removed <==>
               || (exists k :: 0 <= k < |policy.bands| && BandMatches(policy, version.compared, policy.bands[k])
                               && key in policy.bands[k].removed)
               || (matched && key in policy.chartRemoved(version.given))
    ensures forall key :: key in removed <==> InstallRemoves(policy, version, key)
  {
    forall key ensures key in removed <==> InstallRemoves(policy, version, key) {
      if matched && key in policy.chartRemoved(version.given) {
        var k :| 0 <= k < |policy.bands| && BandMatches(policy, version.compared, policy.bands[k]);
        assert policy.bands[k] in policy.bands;
      }
    }
  }

  method ResolveManagedDscKeys(policy: Policy, ids: set<string>, version: Version, forInstall: bool)
    returns (managed: set<string>)
    ensures forall key :: key in managed <==> IsManaged(policy, ids, version, forInstall, key)
  {
    var pre35 := IsPre35(policy, version);
    var gated := if forInstall || Strip(version.given) == "" then {} else policy.gated(version.given);
    managed := {};
    var todo := ids;
    while todo != {}
      invariant todo <= ids
      invariant forall key :: key in managed <==>
                  exists id :: id in ids - todo && id !in gated && SmokeNeeds(policy, version, id, key)
    {
      var id :| id in todo;
      todo := todo - {id};
      if id !in gated && id in policy.smoke {
        managed := managed + policy.smoke[id].keys;
        if pre35 {
          managed := managed + policy.smoke[id].pre35;
        }
      }
    }
    if forInstall && Strip(version.given) != "" {
      var removed := InstallRemoved(policy, version);
      managed := managed - removed;
    }
    if OgxWithoutLlama(ids) {
      managed := managed - {LLAMA};
    }
  }

  method StaleRemovedDscKeys(policy: Policy, ids: set<string>, version: Version) returns (stale: set<string>)
    ensures forall key :: key in stale <==> IsStale(policy, ids, version, key)
  {
    var managed := ResolveManagedDscKeys(policy, ids, version, false);
    var removed := InstallRemoved(policy, version);
    stale := removed - managed;
    stale := stale + {LLAMA};
    if "ogx" !in managed {
      stale := stale + {"ogx"};
    }
  }

  /* ---------- the passes ---------- */

  /** How a pass ends: not begun because the resource was not seen, done, with an error its caller catches, or with the
      whole process. */
  datatype Run = Skipped | Finished | Raised | Exited

  /** What a pass leaves of a component. An absent component reads as "". */
  function AfterStalePass(off: bool, state: string): string {
    if off && state == "Managed" then "Removed" else state
  }

  function AfterBatchPass(llamaOff: bool, on: bool, key: string, state: string): string {
    if on then "Managed" else AfterStalePass(llamaOff && key == LLAMA, state)
  }

  /** What all passes leave: `early` and `late` tell whether a pass before or after the components were switched on
      settled the key as stale, and `on` whether it was switched on. */
  function Ended(early: bool, on: bool, late: bool, before: string): string {
    AfterStalePass(late, if on then "Managed" else AfterStalePass(early, before))
  }

  function StateIn(states: map<string, string>, key: string): string {
    if key in states then states[key] else ""
  }

  /** Between two readings of all states, exactly the keys in `off` were settled. */
  ghost predicate OnlyOff(before: map<string, string>, after: map<string, string>, off: set<string>) {
    forall key :: StateIn(after, key) == AfterStalePass(key in off, StateIn(before, key))
  }

  lemma OneMoreOff(
    first: map<string, string>, before: map<string, string>, after: map<string, string>, off: set<string>,
    more: set<string>)
    requires OnlyOff(first, before, off) && OnlyOff(before, after, more)
    ensures OnlyOff(first, after, off + more)
  {
  }

  class Cluster {
    const policy: Policy
    const gatewayRequired: bool  // the product's install check waits for the dashboard route
    var states: map<string, string>
    ghost var unanswered: nat  // reads that failed and patches that were refused

    constructor (policy: Policy, gatewayRequired: bool, states: map<string, string>)
      ensures this.policy == policy && this.gatewayRequired == gatewayRequired && this.states == states
      ensures unanswered == 0
    {
      unanswered := 0;
      this.policy, this.gatewayRequired, this.states := policy, gatewayRequired, states;
    }

    function StateOf(key: string): string
      reads this
    {
      StateIn(states, key)
    }

    /* ---------- single calls ---------- */

    /** Call the API; it may fail. */
    method Ask() returns (answered: bool)
      modifies this`unanswered
      ensures unanswered == old(unanswered) + if answered then 0 else 1
    {
      answered := *;
      if !answered {
        unanswered := unanswered + 1;
      }
    }

    /** Without an answer, a state is empty. */
    method ReadState(key: string) returns (state: string, ghost answered: bool)
      modifies this`unanswered
      ensures state == if answered then StateOf(key) else ""
      ensures unanswered == old(unanswered) + if answered then 0 else 1
    {
      var reply := Ask();
      return if reply then StateOf(key) else "", reply;
    }

    method Patch(key: string, state: string) returns (done: bool)
      modifies this`states, this`unanswered
      ensures states == if done then old(states)[key := state] else old(states)
      ensures unanswered == old(unanswered) + if done then 0 else 1
    {
      done := Ask();
      if done {
        states := states[key := state];
      }
    }

    method EnsureRemoved(key: string) returns (done: bool)
      modifies this`states, this`unanswered
      ensures states == if done then old(states)[key := "Removed"] else old(states)
      ensures unanswered == old(unanswered) + if done then 0 else 1
    {
      done := Ask();
      if done {
        done := Patch(key, "Removed");
      }
    }

    method EnsureManaged(key: string) returns (done: bool)
      modifies this`states, this`unanswered
      ensures forall other :: StateOf(other) == if done && other == key then "Managed" else old(StateOf(other))
      ensures old(unanswered) <= unanswered && (!done ==> old(unanswered) < unanswered)
    {
      done := Ask();
      if !done {
        return;
      }
      var state: string;
      ghost var answered: bool;
      state, answered := ReadState(key);
      if state != "Managed" {
        done := Patch(key, "Managed");
      }
    }

    /* ---------- the stale pass ---------- */

    /** Every stale key is still to be done, settled, or missed. */
    ghost predicate Sorted(stale: set<string>, todo: set<string>, off: set<string>, missed: set<string>) {
      todo + off <= stale && todo !! off && missed == stale - todo - off
    }

    lemma SortedOnward(stale: set<string>, todo: set<string>, off: set<string>, missed: set<string>, key: string)
      requires Sorted(stale, todo, off, missed) && key in todo
      ensures Sorted(stale, todo - {key}, off + {key}, missed)
      ensures Sorted(stale, todo - {key}, off, missed + {key}) && |missed + {key}| == |missed| + 1
      ensures key in stale - off
    {
    }

    method SwitchOff(stale: set<string>) returns (done: bool, ghost off: set<string>)
      modifies this`states, this`unanswered
      ensures OnlyOff(old(states), states, off)
      ensures off <= stale && old(unanswered) <= unanswered
      ensures done ==> unanswered == old(unanswered) + |stale - off|
      ensures !done ==> unanswered > old(unanswered) && exists key :: key in stale - off && StateOf(key) == "Managed"
    {
      off := {};
      ghost var first, missed: set<string> := states, {};
      var todo := stale;
      while todo != {}
        invariant Sorted(stale, todo, off, missed)
        invariant unanswered == old(unanswered) + |missed|
        invariant OnlyOff(first, states, off)
        decreases |todo|
      {
        var key :| key in todo;
        SortedOnward(stale, todo, off, missed, key);
        ghost var answered: bool;
        var settled: bool;
        ghost var before := states;
        answered, settled := SwitchOffOne(key);
        OneMoreOff(first, before, states, off, if answered && settled then {key} else {});
        if !settled {
          return false, off;
        }
        todo := todo - {key};
        if answered {
          off := off + {key};
        } else {
          missed := missed + {key};
        }
      }
      assert missed == stale - off;
      done := true;
    }

    /** One round: a key whose state was not read is passed over, a removal that fails ends the process. */
    method SwitchOffOne(key: string) returns (ghost answered: bool, done: bool)
      modifies this`states, this`unanswered
      ensures OnlyOff(old(states), states, if answered && done then {key} else {})
      ensures unanswered == old(unanswered) + if answered && done then 0 else 1
      ensures !done ==> answered && StateOf(key) == "Managed"
    {
      var state: string;
      state, answered := ReadState(key);
      done := true;
      if state == "Managed" {
        done := EnsureRemoved(key);
      }
    }

    /** Exactly the keys in `off` are settled. A stale key is missed when its state is not read, or when the process
        ends because the pass does not get past a removal that fails. */
    method ReconcileStale(ids: set<string>, version: Version)
      returns (run: Run, ghost off: set<string>, ghost missed: set<string>)
      modifies this`states, this`unanswered
      ensures forall key :: StateOf(key) == AfterStalePass(key in off, old(StateOf(key)))
      ensures off !! missed && forall key :: key in off + missed <==> ids != {} && IsStale(policy, ids, version, key)
      ensures ids == {} ==> run.Skipped?
      ensures run.Skipped? ==> off == {} && unanswered == old(unanswered) + if ids == {} then 0 else 1
      ensures run.Finished? ==> unanswered == old(unanswered) + |missed|
      ensures run.Exited? ==> unanswered > old(unanswered) && exists key :: key in missed && StateOf(key) == "Managed"
      ensures !run.Raised?
    {
      if ids == {} {
        return Skipped, {}, {};
      }
      var present := Ask();
      var stale := StaleRemovedDscKeys(policy, ids, version);
      if !present {
        return Skipped, {}, stale;
      }
      var done: bool;
      done, off := SwitchOff(stale);
      missed := stale - off;
      run := if done then Finished else Exited;
    }

    /* ---------- switching on ---------- */

    ghost predicate Wanted(ids: set<string>, version: Version, key: string) {
      IsManaged(policy, ids, version, false, key) || (gatewayRequired && key == "dashboard")
    }

    method WantedKeys(ids: set<string>, version: Version) returns (keys: set<string>)
      ensures forall key :: key in keys <==> Wanted(ids, version, key)
    {
      keys := ResolveManagedDscKeys(policy, ids, version, false);
      if gatewayRequired {
        keys := keys + {"dashboard"};
      }
    }

    method ManageAll(keys: set<string>) returns (done: bool, ghost on: set<string>)
      modifies this`states, this`unanswered
      ensures forall key :: StateOf(key) == if key in on then "Managed" else old(StateOf(key))
      ensures on <= keys && (done <==> on == keys)
      ensures old(unanswered) <= unanswered && (!done ==> old(unanswered) < unanswered)
    {
      on := {};
      var todo := keys;
      while todo != {}
        invariant todo <= keys && on == keys - todo
        invariant old(unanswered) <= unanswered
        invariant forall key :: StateOf(key) == if key in on then "Managed" else old(StateOf(key))
      {
        var key :| key in todo;
        done := EnsureManaged(key);
        if !done {
          return;
        }
        todo := todo - {key};
        on := on + {key};
      }
      done := true;
    }

    /** Switch the Llama Stack operator off for OGX, then the given keys on. */
    method SwitchOver(ids: set<string>, keys: set<string>)
      returns (run: Run, ghost on: set<string>, ghost llamaOff: bool)
      modifies this`states, this`unanswered
      ensures forall key :: StateOf(key) == AfterBatchPass(llamaOff, key in on, key, old(StateOf(key)))
      ensures on <= keys && (llamaOff ==> OgxWithoutLlama(ids)) && !run.Skipped?
      ensures old(unanswered) <= unanswered
      ensures run.Finished? <==> !run.Exited? && on == keys
      ensures !run.Finished? ==> old(unanswered) < unanswered
      ensures unanswered == old(unanswered) ==> llamaOff == OgxWithoutLlama(ids)
      ensures run.Exited? ==> on == {} && OgxWithoutLlama(ids) && StateOf(LLAMA) == "Managed"
    {
      llamaOff, on := false, {};
      if OgxWithoutLlama(ids) {
        var state: string;
        state, llamaOff := ReadState(LLAMA);
        if state == "Managed" {
          var done := EnsureRemoved(LLAMA);
          if !done {
            return Exited, on, false;
          }
        }
      }
      var done: bool;
      done, on := ManageAll(keys);
      run := if done then Finished else Raised;
    }

    /** All wanted keys in one pass, unless it ends early. */
    method BatchEnsureManaged(ids: set<string>, version: Version)
      returns (run: Run, ghost on: set<string>, ghost llamaOff: bool)
      modifies this`states, this`unanswered
      ensures forall key :: StateOf(key) == AfterBatchPass(llamaOff, key in on, key, old(StateOf(key)))
      ensures llamaOff ==> OgxWithoutLlama(ids)
      ensures forall key :: key in on ==> ids != {} && Wanted(ids, version, key)
      ensures run.Finished? ==> forall key :: Wanted(ids, version, key) ==> key in on
      ensures run.Raised? ==> exists key :: Wanted(ids, version, key) && key !in on
      ensures run.Exited? ==> OgxWithoutLlama(ids) && StateOf(LLAMA) == "Managed" && on == {}
      ensures ids == {} ==> run.Skipped?
      ensures run.Skipped? ==> on == {} && !llamaOff && unanswered == old(unanswered) + if ids == {} then 0 else 1
      ensures old(unanswered) <= unanswered
      ensures unanswered == old(unanswered) && ids != {} ==> run.Finished? && llamaOff == OgxWithoutLlama(ids)
    {
      if ids == {} {
        return Skipped, {}, false;
      }
      var present := Ask();
      if !present {
        return Skipped, {}, false;
      }
      var keys := WantedKeys(ids, version);
      run, on, llamaOff := SwitchOver(ids, keys);
    }

    /** The keys of one component alone. */
    method SyncComponent(id: string, version: Version)
      returns (run: Run, ghost on: set<string>, ghost llamaOff: bool)
      modifies this`states, this`unanswered
      ensures forall key :: StateOf(key) == AfterBatchPass(llamaOff, key in on, key, old(StateOf(key)))
      ensures forall key :: key in on ==> Wanted({id}, version, key)
      ensures run.Finished? ==> forall key :: Wanted({id}, version, key) ==> key in on
      ensures old(unanswered) <= unanswered && (unanswered == old(unanswered) ==> run.Finished?)
    {
      var keys := WantedKeys({id}, version);
      if keys == {} {
        return Finished, {}, false;
      }
      run, on, llamaOff := SwitchOver({id}, keys);
    }

    /* ---------- component by component ---------- */

    /** What a component's own preparation patches: any key, to any state. */
    method OwnPreparation() returns (ghost touched: set<string>)
      modifies this`states
      ensures forall key :: key !in touched ==> StateOf(key) == old(StateOf(key))
    {
      var key: string := *;
      var state: string := *;
      states := states[key := state];
      touched := {key};
    }

    /** Component by component, each with its own `sync` of the keys if the batch did not end well. A suite that the
        version switches off is passed over if its catalogue can be read. */
    method PrepareEach(ids: set<string>, version: Version, sync: bool)
      returns (exited: bool, ghost on: set<string>, ghost touched: set<string>)
      modifies this`states, this`unanswered
      ensures forall key :: key !in touched && (key != LLAMA || !sync) ==>
                StateOf(key) == if key in on then "Managed" else old(StateOf(key))
      ensures forall key :: key in on ==> sync && exists id :: id in ids && Wanted({id}, version, key)
      ensures old(unanswered) <= unanswered && (exited ==> old(unanswered) < unanswered)
      ensures unanswered == old(unanswered) && sync ==>
                forall key :: Synced(ids, version, key) ==> key in on
    {
      on, touched := {}, {};
      var todo := ids;
      while todo != {}
        invariant todo <= ids
        invariant forall key :: key !in touched && (key != LLAMA || !sync) ==>
                    StateOf(key) == if key in on then "Managed" else old(StateOf(key))
        invariant forall key :: key in on ==> sync && exists id :: id in ids && Wanted({id}, version, key)
        invariant old(unanswered) <= unanswered
        invariant unanswered == old(unanswered) && sync ==>
                    forall key :: Synced(ids - todo, version, key) ==> key in on
      {
        var id :| id in todo;
        todo := todo - {id};
        var readable: bool := *;
        if readable && IsGated(policy, version, id) {
          continue;
        }
        if sync {
          var run: Run;
          ghost var more, llamaOff;
          run, more, llamaOff := SyncComponent(id, version);
          on := on + more;
          if run.Exited? {
            return true, on, touched;
          }
        }
        ghost var patched := OwnPreparation();
        touched := touched + patched;
      }
      exited := false;
    }

    /** Wanted by some component alone that is not passed over. */
    ghost predicate Synced(ids: set<string>, version: Version, key: string) {
      exists id :: id in ids && !IsGated(policy, version, id) && Wanted({id}, version, key)
    }

    /** Apart from the Llama Stack operator, components one by one want what they want together, and nothing else; only
        the dashboard is left out when the version switches all of them off. */
    lemma WantedOneByOne(ids: set<string>, version: Version, key: string)
      requires key != LLAMA
      ensures (exists id :: id in ids && Wanted({id}, version, key)) ==> Wanted(ids, version, key)
      ensures Synced(ids, version, key) <==>
                || IsManaged(policy, ids, version, false, key)
                || (gatewayRequired && key == "dashboard" && exists id :: id in ids && !IsGated(policy, version, id))
    {
      if IsManaged(policy, ids, version, false, key) {
        var id :| id in ids && SmokeNeeds(policy, version, id, key) && !IsGated(policy, version, id);
        assert id in {id};
        assert Wanted({id}, version, key);
      } else if gatewayRequired && key == "dashboard" {
        assert forall id :: id in ids ==> Wanted({id}, version, key);
      }
    }

    /* ---------- the whole preparation ---------- */

    /** The stale pass and the batch. */
    method FirstPasses(ids: set<string>, version: Version)
      returns (run: Run, ghost early: set<string>, ghost on: set<string>)
      requires ids != {}
      modifies this`states, this`unanswered
      ensures forall key :: StateOf(key) == Ended(key in early, key in on, false, old(StateOf(key)))
      ensures forall key :: key in early ==> IsStale(policy, ids, version, key)
      ensures forall key :: key in on ==> Wanted(ids, version, key)
      ensures run.Finished? ==> forall key :: Wanted(ids, version, key) ==> key in on
      ensures old(unanswered) <= unanswered && (run.Exited? ==> old(unanswered) < unanswered)
      ensures unanswered == old(unanswered) ==> run.Finished?
    {
      ghost var missed, llamaOff;
      run, early, missed := ReconcileStale(ids, version);
      if run.Exited? {
        return run, early, {};
      }
      run, on, llamaOff := BatchEnsureManaged(ids, version);
      if llamaOff {
        early := early + {LLAMA};
      }
    }

    /** The components one by one, together. */
    method PrepareAll(ids: set<string>, version: Version, sync: bool)
      returns (exited: bool, ghost on: set<string>, ghost touched: set<string>)
      requires ids != {}
      modifies this`states, this`unanswered
      ensures forall key :: key !in touched && (key != LLAMA || !sync) ==>
                StateOf(key) == if key in on then "Managed" else old(StateOf(key))
      ensures forall key :: key in on && key != LLAMA ==> Wanted(ids, version, key)
      ensures !sync ==> on == {}
      ensures old(unanswered) <= unanswered && (exited ==> old(unanswered) < unanswered)
      ensures unanswered == old(unanswered) && sync ==> forall key :: Synced(ids, version, key) ==> key in on
    {
      exited, on, touched := PrepareEach(ids, version, sync);
      forall key | key != LLAMA && exists id :: id in ids && Wanted({id}, version, key)
        ensures Wanted(ids, version, key)
      {
        WantedOneByOne(ids, version, key);
      }
    }

    /** The components one by one, then the stale pass again. */
    method LaterPasses(ids: set<string>, version: Version, sync: bool)
      returns (run: Run, ghost on: set<string>, ghost late: set<string>, ghost touched: set<string>)
      requires ids != {}
      modifies this`states, this`unanswered
      ensures run.Exited? ==> old(unanswered) < unanswered
      ensures run.Exited? || run.Finished?
      ensures forall key :: key in late ==> IsStale(policy, ids, version, key) && StateOf(key) != "Managed"
      ensures forall key :: key in on && key != LLAMA ==> Wanted(ids, version, key)
      ensures !sync ==> on == {}
      ensures forall key :: key !in touched && (key != LLAMA || !sync) ==>
                StateOf(key) == Ended(false, key in on, key in late, old(StateOf(key)))
      ensures old(unanswered) <= unanswered
      ensures unanswered == old(unanswered) ==>
                && (sync ==> forall key :: Synced(ids, version, key) ==> key in on)
                && forall key :: IsStale(policy, ids, version, key) ==> key in late
    {
      var exited: bool;
      ghost var missed;
      exited, on, touched := PrepareAll(ids, version, sync);
      if exited {
        return Exited, on, {}, touched;
      }
      run, late, missed := ReconcileStale(ids, version);
      if !run.Exited? {
        run := Finished;
      }
    }

    /**
     Stale pass, batch, component by component, stale pass. `early`, `on` and `late` are the keys that the passes
     settled, `sync` tells whether the components were synchronised one by one, and `half` is the number of failures
     before that. Components' own patches aside, the result is stated for every combination of answers.
     */
    method PrepareComponents(ids: set<string>, version: Version)
      returns (run: Run, ghost early: set<string>, ghost on: set<string>, ghost late: set<string>,
               ghost touched: set<string>, ghost sync: bool, ghost half: nat)
      modifies this`states, this`unanswered
      ensures ids == {} ==> run.Skipped? && states == old(states)
      ensures run.Exited? ==> old(unanswered) < unanswered
      ensures forall key :: key in early + late ==> IsStale(policy, ids, version, key)
      ensures forall key :: key in on && (key != LLAMA || !sync) ==> Wanted(ids, version, key)
      ensures forall key :: key !in touched && (key != LLAMA || !sync) ==>
                StateOf(key) == Ended(key in early, key in on, key in late, old(StateOf(key)))
      ensures forall key :: key in late ==> StateOf(key) != "Managed"
      ensures old(unanswered) <= half <= unanswered
      ensures unanswered == half && sync ==> forall key :: Synced(ids, version, key) ==> key in on
      ensures unanswered == half && ids != {} && !run.Exited? ==>
                forall key :: IsStale(policy, ids, version, key) ==> key in late
      ensures unanswered == old(unanswered) && ids != {} ==>
                && run.Finished?
                && forall key :: key !in touched && (key != LLAMA || !sync) ==>
                     StateOf(key) ==
                     Prepared(IsStale(policy, ids, version, key), Wanted(ids, version, key), old(StateOf(key)))
    {
      early, on, late, touched, sync, half := {}, {}, {}, {}, false, unanswered;
      if ids == {} {
        return Skipped, early, on, late, touched, sync, half;
      }
      run, early, on := FirstPasses(ids, version);
      half := unanswered;
      if run.Exited? {
        return;
      }
      var ready: bool := *;
      var each := run.Raised? || !ready;
      sync := each;
      ghost var more;
      run, more, late, touched := LaterPasses(ids, version, each);
      on := on + more;
      if unanswered == old(unanswered) {
        forall key | key !in touched && (key != LLAMA || !sync)
          ensures StateOf(key) ==
                  Prepared(IsStale(policy, ids, version, key), Wanted(ids, version, key), old(StateOf(key)))
        {
          EndedIsPrepared(IsStale(policy, ids, version, key), Wanted(ids, version, key), key in early,
                          old(StateOf(key)));
        }
      }
    }
  }

  /** The final state of a component: what is stale is off, what else is wanted is on, the rest is as it was. */
  function Prepared(stale: bool, wanted: bool, before: string): string {
    if stale then (if wanted || before == "Managed" then "Removed" else before)
    else if wanted then "Managed"
    else before
  }

  /** With every pass settling what it should, the passes end in the final state, and another preparation would not
      change it. */
  lemma EndedIsPrepared(stale: bool, wanted: bool, early: bool, before: string)
    requires early ==> stale
    ensures Ended(early, wanted, stale, before) == Prepared(stale, wanted, before)
    ensures Prepared(stale, wanted, Prepared(stale, wanted, before)) == Prepared(stale, wanted, before)
  {
  }

  /** When a component ends Removed: some pass settled it while it was Managed, or it was Removed before and not
      switched on. */
  lemma EndsRemovedIff(early: bool, on: bool, late: bool, before: string)
    ensures Ended(early, on, late, before) == "Removed" <==>
              (late && on) || (!on && (before == "Removed" || (before == "Managed" && (early || late))))
  {
  }

  /** When a component ends Managed: the last stale pass did not settle it, and it was switched on, or was on before and
      the first one did not settle it either. */
  lemma EndsManagedIff(early: bool, on: bool, late: bool, before: string)
    ensures Ended(early, on, late, before) == "Managed" <==> !late && (on || (before == "Managed" && !early))
  {
  }

  /** A component the policy manages ends up on, unless it is the Llama Stack operator, which always ends up off. */
  lemma ManagedComponentsEndOn(policy: Policy, ids: set<string>, version: Version, key: string, before: string)
    requires IsManaged(policy, ids, version, false, key)
    ensures Prepared(IsStale(policy, ids, version, key), true, before) == "Managed" <==> key != LLAMA
  {
  }

  /** The dashboard the install check waits for ends up on unless the version defers it and no selected suite
      needs it. */
  lemma DashboardEndsOn(policy: Policy, ids: set<string>, version: Version, before: string)
    ensures Prepared(IsStale(policy, ids, version, "dashboard"), true, before) == "Managed"
        <==> (InstallRemoves(policy, version, "dashboard") ==> IsManaged(policy, ids, version, false, "dashboard"))
  {
    assert "dashboard" != LLAMA && "dashboard" != "ogx";
  }
}
