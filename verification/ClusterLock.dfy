/** Which PipelineRuns hold a shared external cluster, as listed from the Konflux API. */
module ClusterLock {
  import opened Basics
  import opened Ordering

  /** The parts of a PipelineRun that the lock looks at. `completed` is a set completionTime,
      `children` a non-empty list of child references. */
  datatype PipelineRun = PipelineRun(
    name: string,
    source: string,
    clusterLabel: string,
    keyAnnotation: string,
    completed: bool,
    reason: string,
    children: bool)

  /** Tenant Secrets as the resolvers read them, and the label derived from a Secret's name alone. A Secret that
      cannot be read is missing. */
  datatype Registry = Registry(
    keys: map<string, string>,
    ids: map<string, string>,
    nameLabel: string -> string)

  /** What the Secrets answer during one listing: `own` for the target, `seen` for the sources of the listed runs,
      each of which is asked at most once. */
  datatype Reading = Reading(own: Registry, seen: Registry)

  /** A reply to the listing call: a non-zero exit, a success without a list of items in it, or the runs. */
  datatype Answer = Unanswered | Garbled | Listed(runs: seq<PipelineRun>)

  /** The items that the code makes of a reply: a reply it cannot decode counts as an empty list. */
  function Items(answer: Answer): Option<seq<PipelineRun>> {
    match answer
    case Unanswered => None
    case Garbled => Some([])
    case Listed(runs) => Some(runs)
  }

  /** Without a namespace to ask about, no call is made, and there are no runs. */
  function AnswerFrom(namespace: string, reply: Answer): Answer {
    if Strip(namespace) == "" then Listed([]) else reply
  }

  /* ---------- holding ---------- */

  const WIND_DOWN_REASONS: set<string> := {
    "StoppedRunningFinally", "PipelineRunStopping", "PipelineRunCancelled", "Cancelled",
    "StoppedRunCancelled", "TaskRunCancelled"
  }

  const PENDING_REASONS: set<string> := { "", "PipelineRunPending", "ResolvingPipelineRef" }

  predicate IsActive(run: PipelineRun) {
    && !run.completed
    && Strip(run.reason) !in WIND_DOWN_REASONS
    && !Contains(Lower(Strip(run.reason)), "cancel")
    && !Contains(Lower(Strip(run.reason)), "stopping")
  }

  predicate Holds(run: PipelineRun) {
    IsActive(run) && Strip(run.reason) !in PENDING_REASONS && run.children
  }

  /* ---------- resolving ---------- */

  predicate IsExternal(source: string) {
    Strip(source) != "" && Strip(source) != "EPHC"
  }

  predicate IsE2eName(name: string) {
    "e2e-" <= Strip(name)
  }

  function LockKey(reg: Registry, source: string): string {
    if !IsExternal(source) then ""
    else if Strip(source) in reg.keys then Normalize(reg.keys[Strip(source)])
    else ""
  }

  function ClusterId(reg: Registry, source: string, explicit: string): string {
    if Normalize(explicit) != "" then Normalize(explicit)
    else if !IsExternal(source) then ""
    else if Strip(source) in reg.ids && reg.ids[Strip(source)] != "" then Normalize(reg.ids[Strip(source)])
    else Normalize(reg.nameLabel(Strip(source)))
  }

  /* ---------- matching ---------- */

  datatype Target = Target(id: string, key: string, source: string)

  /** Same label up to a trailing `-suffix` on either side. */
  predicate SameFamily(derived: string, id: string) {
    derived == id || id + "-" <= derived || derived + "-" <= id
  }

  /** Does this run use the targeted cluster? Resolvers are consulted afresh. */
  predicate Matches(reg: Registry, run: PipelineRun, target: Target) {
    var source := Strip(run.source);
    var id, key := Normalize(target.id), Normalize(target.key);
    || (Strip(target.source) != "" && source == Strip(target.source))
    || (key != "" && Normalize(run.keyAnnotation) == key)
    || (key != "" && source != "" && LockKey(reg, source) == key)
    || (id != "" && Normalize(run.clusterLabel) == id)
    || (id != "" && source != "" && ClusterId(reg, source, "") == id)
    || (id != "" && source != "" && SameFamily(Normalize(reg.nameLabel(source)), id))
  }

  function TargetOf(reg: Registry, source: string, id: string): Target {
    Target(ClusterId(reg, Strip(source), id), LockKey(reg, Strip(source)), Strip(source))
  }

  predicate IsRival(reg: Registry, run: PipelineRun, target: Target, exclude: string) {
    && IsE2eName(run.name)
    && Strip(run.name) != Strip(exclude)
    && Holds(run)
    && Matches(reg, run, target)
  }

  /** Names of the rivals in listing order. */
  function Rivals(reg: Registry, runs: seq<PipelineRun>, target: Target, exclude: string): seq<string> {
    if runs == [] then []
    else
      var last := runs[|runs| - 1];
      Rivals(reg, runs[..|runs| - 1], target, exclude)
      + if IsRival(reg, last, target, exclude) then [Strip(last.name)] else []
  }

  /** What a listing answers: None when the API could not be queried. */
  function ActiveNames(reading: Reading, answer: Answer, source: string, id: string, exclude: string)
    : Option<seq<string>>
  {
    var items := Items(answer);
    if !IsExternal(source) then Some([])
    else if items.None? then None
    else Some(Sorted(Rivals(reading.seen, items.value, TargetOf(reading.own, source, id), exclude)))
  }

  lemma {:induction false} RivalsFound(reg: Registry, runs: seq<PipelineRun>, target: Target, exclude: string)
    ensures forall name :: name in Rivals(reg, runs, target, exclude) <==>
              exists run :: run in runs && IsRival(reg, run, target, exclude) && Strip(run.name) == name
  {
    if runs != [] {
      var front, last := runs[..|runs| - 1], runs[|runs| - 1];
      RivalsFound(reg, front, target, exclude);
      assert runs == front + [last];
    }
  }

  /** The list that decides over admission is missing exactly for an unanswered call, and else it is in order and
      holds exactly the names of the rivals among the items. */
  lemma ActiveNamesExact(reading: Reading, answer: Answer, source: string, id: string, exclude: string)
    requires IsExternal(source)
    ensures ActiveNames(reading, answer, source, id, exclude).None? <==> answer.Unanswered?
    ensures !answer.Unanswered? ==>
            var names := ActiveNames(reading, answer, source, id, exclude).value;
            && Ascending(names)
            && (forall name :: name in names <==>
                  exists run :: run in Items(answer).value && Strip(run.name) == name
                                && IsRival(reading.seen, run, TargetOf(reading.own, source, id), exclude))
    ensures answer.Garbled? ==> ActiveNames(reading, answer, source, id, exclude) == Some([])
  {
    if answer.Unanswered? {
      return;
    }
    var target := TargetOf(reading.own, source, id);
    var rivals := Rivals(reading.seen, Items(answer).value, target, exclude);
    RivalsFound(reading.seen, Items(answer).value, target, exclude);
    SortedAscends(rivals);
    forall name ensures name in Sorted(rivals) <==> name in rivals {
      assert name in multiset(Sorted(rivals)) <==> name in multiset(rivals);
    }
  }

  /* ---------- what a listing tells, in the fields of the runs ---------- */

  /** Started, not finished, and neither pending nor on the way out. */
  predicate InUse(run: PipelineRun) {
    var reason := Strip(run.reason);
    && run.children && !run.completed
    && reason != "" && reason != "PipelineRunPending" && reason != "ResolvingPipelineRef"
    && reason != "StoppedRunningFinally" && !Says(reason, "cancel") && !Says(reason, "stopping")
  }

  lemma WindDownSays(reason: string)
    requires reason in WIND_DOWN_REASONS
    ensures reason == "StoppedRunningFinally" || Says(reason, "cancel") || Says(reason, "stopping")
  {
    if reason == "PipelineRunStopping" {
      assert Lower(reason[11..11 + |"stopping"|]) == "stopping";
      assert ReadsAt(reason, "stopping", 11);
    } else if reason != "StoppedRunningFinally" {
      var i := if reason == "Cancelled" then 0 else if reason == "TaskRunCancelled" then 7
               else if reason == "StoppedRunCancelled" then 10 else 11;
      CancelledSays(reason, i);
    }
  }

  lemma CancelledSays(reason: string, i: nat)
    requires i + 6 <= |reason| && reason[i..i + 6] == "Cancel"
    ensures Says(reason, "cancel")
  {
    assert Lower("Cancel") == "cancel";
    assert ReadsAt(reason, "cancel", i);
  }

  /** A run holds a cluster exactly while it is in use; of the listed reasons for winding down only one does not name
      itself as a cancellation or a stop. */
  lemma HoldsIff(run: PipelineRun)
    ensures Holds(run) <==> InUse(run)
  {
    var reason := Strip(run.reason);
    SaysIffLowerContains(reason, "cancel");
    SaysIffLowerContains(reason, "stopping");
    if reason in WIND_DOWN_REASONS {
      WindDownSays(reason);
    }
  }

  /** A source that stands for a tenant Secret. */
  predicate NamesSecret(source: string) {
    !Blank(source) && Strip(source) != "EPHC"
  }

  /** What is read under this source, unless blank. */
  function KeyRead(reg: Registry, source: string): Option<string> {
    if NamesSecret(source) && Strip(source) in reg.keys && !Blank(reg.keys[Strip(source)])
    then Some(reg.keys[Strip(source)]) else None
  }

  /** The cluster id read under this source; without one it is derived from the name of the Secret. */
  function IdRead(reg: Registry, source: string): Option<string> {
    if !NamesSecret(source) then None
    else
      var found := Strip(source) in reg.ids && reg.ids[Strip(source)] != "";
      var id := if found then reg.ids[Strip(source)] else reg.nameLabel(Strip(source));
      if Blank(id) then None else Some(id)
  }

  /** One text is the other, or the other with a dash and more behind it. */
  predicate SameOrSuffixed(a: string, b: string) {
    var x, y := Lower(Strip(a)), Lower(Strip(b));
    x == y || (|y| < |x| && x[..|y|] == y && x[|y|] == '-') || (|x| < |y| && y[..|x|] == x && y[|x|] == '-')
  }

  /** The run uses the cluster of this source: the same source; or the key read for it, as annotation or under the
      run's own source; or its id, given or read, as label, under the run's own source, or in the name of its Secret. */
  predicate SharesCluster(reading: Reading, run: PipelineRun, source: string, id: string) {
    || Strip(run.source) == Strip(source)
    || SharesKey(reading, run, source)
    || (if Blank(id) then IdRead(reading.own, source).Some? && SharesId(reading, run, IdRead(reading.own, source).value)
        else SharesId(reading, run, id))
  }

  predicate SharesKey(reading: Reading, run: PipelineRun, source: string) {
    var own, theirs := KeyRead(reading.own, source), KeyRead(reading.seen, run.source);
    own.Some? && (SameText(run.keyAnnotation, own.value) || (theirs.Some? && SameText(theirs.value, own.value)))
  }

  predicate SharesId(reading: Reading, run: PipelineRun, id: string) {
    var theirs := IdRead(reading.seen, run.source);
    || SameText(run.clusterLabel, id)
    || (theirs.Some? && SameText(theirs.value, id))
    || (!Blank(run.source) && SameOrSuffixed(reading.seen.nameLabel(Strip(run.source)), id))
  }

  lemma KeyIsRead(reg: Registry, source: string)
    ensures LockKey(reg, source) == if KeyRead(reg, source).None? then "" else Normalize(KeyRead(reg, source).value)
    ensures LockKey(reg, Strip(source)) == LockKey(reg, source)
  {
  }

  lemma IdIsRead(reg: Registry, source: string, id: string)
    ensures ClusterId(reg, source, id) ==
              if !Blank(id) then Normalize(id)
              else if IdRead(reg, source).None? then "" else Normalize(IdRead(reg, source).value)
    ensures ClusterId(reg, Strip(source), id) == ClusterId(reg, source, id)
  {
  }

  lemma FamilyIff(a: string, b: string)
    ensures SameFamily(Normalize(a), Normalize(b)) <==> SameOrSuffixed(a, b)
  {
  }

  lemma KeysMeet(reading: Reading, run: PipelineRun, source: string)
    ensures var key := Normalize(LockKey(reading.own, Strip(source)));
      SharesKey(reading, run, source) <==>
        key != "" && (Normalize(run.keyAnnotation) == key
                      || (Strip(run.source) != "" && LockKey(reading.seen, Strip(run.source)) == key))
  {
    KeyIsRead(reading.own, source);
    KeyIsRead(reading.seen, run.source);
  }

  lemma IdsMeet(reading: Reading, run: PipelineRun, id: string)
    requires !Blank(id)
    ensures var wanted, theirs := Normalize(id), Strip(run.source);
      SharesId(reading, run, id) <==>
        || Normalize(run.clusterLabel) == wanted
        || (theirs != "" && ClusterId(reading.seen, theirs, "") == wanted)
        || (theirs != "" && SameFamily(Normalize(reading.seen.nameLabel(theirs)), wanted))
  {
    IdIsRead(reading.seen, run.source, "");
    FamilyIff(reading.seen.nameLabel(Strip(run.source)), id);
  }

  lemma MatchesIffShares(reading: Reading, run: PipelineRun, source: string, id: string)
    requires NamesSecret(source)
    ensures Matches(reading.seen, run, TargetOf(reading.own, source, id)) <==> SharesCluster(reading, run, source, id)
  {
    var target := TargetOf(reading.own, source, id);
    KeysMeet(reading, run, source);
    IdIsRead(reading.own, source, id);
    var meant := if Blank(id) then IdRead(reading.own, source) else Some(id);
    if meant.Some? {
      IdsMeet(reading, run, meant.value);
      assert Normalize(target.id) == Normalize(meant.value) != "";
    } else {
      assert Normalize(target.id) == "";
    }
  }

  /** A listed run that is in the way of whoever asks for this source. */
  predicate IsInTheWay(reading: Reading, run: PipelineRun, source: string, id: string, exclude: string) {
    && |Strip(run.name)| >= 4 && Strip(run.name)[..4] == "e2e-" && Strip(run.name) != Strip(exclude)
    && InUse(run) && SharesCluster(reading, run, source, id)
  }

  /** What an answer has to be: nobody for a source that is no Secret, or without a namespace to ask about; nothing for
      an unanswered call; else, in order, exactly the names of the runs in the way, of which an undecodable reply shows
      none. */
  ghost predicate Tells(
    reading: Reading, namespace: string, reply: Answer, source: string, id: string, exclude: string,
    active: Option<seq<string>>)
  {
    if !NamesSecret(source) || Blank(namespace) then active == Some([])
    else if reply.Unanswered? then active == None
    else
      && active.Some? && Ascending(active.value)
      && (forall name :: name in active.value <==>
            reply.Listed? && exists run :: run in reply.runs && Strip(run.name) == name
                                           && IsInTheWay(reading, run, source, id, exclude))
  }

  lemma RivalIff(reading: Reading, run: PipelineRun, source: string, id: string, exclude: string)
    requires NamesSecret(source)
    ensures IsRival(reading.seen, run, TargetOf(reading.own, source, id), exclude) <==>
            IsInTheWay(reading, run, source, id, exclude)
  {
    HoldsIff(run);
    MatchesIffShares(reading, run, source, id);
  }

  /** The list that decides over admission is what it has to be. */
  lemma ActiveNamesTell(
    reading: Reading, namespace: string, reply: Answer, source: string, id: string, exclude: string)
    ensures Tells(reading, namespace, reply, source, id, exclude,
                  ActiveNames(reading, AnswerFrom(namespace, reply), source, id, exclude))
  {
    if NamesSecret(source) {
      ActiveNamesExact(reading, AnswerFrom(namespace, reply), source, id, exclude);
      forall run
        ensures IsRival(reading.seen, run, TargetOf(reading.own, source, id), exclude) <==>
                IsInTheWay(reading, run, source, id, exclude)
      {
        RivalIff(reading, run, source, id, exclude);
      }
    }
  }

  /** So a blank namespace is answered as an undecodable reply is, whatever the API would say. */
  lemma BlankNamespaceListsNobody(
    reading: Reading, namespace: string, reply: Answer, source: string, id: string, exclude: string)
    requires Strip(namespace) == ""
    ensures ActiveNames(reading, AnswerFrom(namespace, reply), source, id, exclude) == Some([])
    ensures ActiveNames(reading, AnswerFrom(namespace, reply), source, id, exclude)
         == ActiveNames(reading, Garbled, source, id, exclude)
  {
    if IsExternal(source) {
      ActiveNamesExact(reading, Garbled, source, id, exclude);
    }
  }

  /** Two external sources with the same lock key see each other, whichever of them asks. */
  lemma KeysMatchBothWays(reg: Registry, a: PipelineRun, b: PipelineRun, idA: string, idB: string)
    requires IsExternal(a.source) && IsExternal(b.source)
    requires LockKey(reg, a.source) == LockKey(reg, b.source) != ""
    ensures Matches(reg, a, TargetOf(reg, b.source, idB))
    ensures Matches(reg, b, TargetOf(reg, a.source, idA))
  {
    KeySurvivesStrip(reg, a.source);
    KeySurvivesStrip(reg, b.source);
  }

  lemma KeySurvivesStrip(reg: Registry, source: string)
    ensures Strip(Strip(source)) == Strip(source)
    ensures LockKey(reg, Strip(source)) == LockKey(reg, source)
    ensures Normalize(LockKey(reg, source)) == LockKey(reg, source)
  {
  }

  /* ---------- the listing loop with its memo dictionaries ---------- */

  /** One memo dictionary, filled from the resolver it belongs to. */
  class FieldCache {
    const resolve: string -> string
    var entries: map<string, string>

    ghost predicate Faithful()
      reads this
    {
      forall source :: source in entries ==> entries[source] == resolve(source)
    }

    constructor (resolve: string -> string)
      ensures Faithful() && this.resolve == resolve && entries == map[]
    {
      this.resolve := resolve;
      entries := map[];
    }

    method Field(source: string) returns (value: string)
      requires Faithful()
      modifies this
      ensures Faithful() && value == resolve(source)
      ensures entries == old(entries)[source := value]
    {
      if source !in entries {
        entries := entries[source := resolve(source)];
      }
      value := entries[source];
      assert entries == old(entries)[source := value];
    }
  }

  method MatchesCached(ghost reg: Registry, nameLabel: string -> string, run: PipelineRun, target: Target,
                       ids: FieldCache, keys: FieldCache) returns (matches: bool)
    requires ids.Faithful() && keys.Faithful() && ids != keys && nameLabel == reg.nameLabel
    requires ids.resolve == (source => ClusterId(reg, source, ""))
    requires keys.resolve == (source => LockKey(reg, source))
    modifies ids, keys
    ensures ids.Faithful() && keys.Faithful()
    ensures matches == Matches(reg, run, target)
  {
    var source := Strip(run.source);
    var id, key := Normalize(target.id), Normalize(target.key);
    if Strip(target.source) != "" && source == Strip(target.source) {
      return true;
    }
    if key != "" {
      if Normalize(run.keyAnnotation) == key {
        return true;
      }
      if source != "" {
        var cached := keys.Field(source);
        if cached == key {
          return true;
        }
      }
    }
    if id == "" {
      return false;
    }
    if Normalize(run.clusterLabel) == id {
      return true;
    }
    if source != "" {
      var cached := ids.Field(source);
      if cached == id {
        return true;
      }
      if SameFamily(Normalize(nameLabel(source)), id) {
        return true;
      }
    }
    return false;
  }

  method IsRivalCached(ghost reg: Registry, nameLabel: string -> string, run: PipelineRun, target: Target,
                       exclude: string, ids: FieldCache, keys: FieldCache) returns (rival: bool)
    requires ids.Faithful() && keys.Faithful() && ids != keys && nameLabel == reg.nameLabel
    requires ids.resolve == (source => ClusterId(reg, source, ""))
    requires keys.resolve == (source => LockKey(reg, source))
    modifies ids, keys
    ensures ids.Faithful() && keys.Faithful()
    ensures rival == IsRival(reg, run, target, exclude)
  {
    rival := false;
    if IsE2eName(run.name) && Strip(run.name) != Strip(exclude) && Holds(run) {
      rival := MatchesCached(reg, nameLabel, run, target, ids, keys);
    }
  }

  lemma OneMoreRun(reg: Registry, runs: seq<PipelineRun>, i: nat, target: Target, exclude: string)
    requires i < |runs|
    ensures Rivals(reg, runs[..i + 1], target, exclude) ==
            Rivals(reg, runs[..i], target, exclude)
            + if IsRival(reg, runs[i], target, exclude) then [Strip(runs[i].name)] else []
  {
    assert runs[..i + 1][..i] == runs[..i];
  }

  /** The loop over the items: each resolver is consulted at most once per source. */
  method CollectRivals(reg: Registry, runs: seq<PipelineRun>, target: Target, exclude: string)
    returns (names: seq<string>)
    ensures names == Rivals(reg, runs, target, exclude)
  {
    var idCache := new FieldCache(s => ClusterId(reg, s, ""));
    var keyCache := new FieldCache(s => LockKey(reg, s));
    names := [];
    for i := 0 to |runs|
      invariant idCache.Faithful() && keyCache.Faithful()
      invariant names == Rivals(reg, runs[..i], target, exclude)
    {
      OneMoreRun(reg, runs, i, target, exclude);
      var rival := IsRivalCached(reg, reg.nameLabel, runs[i], target, exclude, idCache, keyCache);
      if rival {
        names := names + [Strip(runs[i].name)];
      }
    }
    assert runs[..|runs|] == runs;
  }

  /** The listing with its memos answers as if it always asked afresh. */
  method ListActivePipelineRuns(
    reading: Reading, namespace: string, reply: Answer, source: string, id: string, exclude: string)
    returns (active: Option<seq<string>>)
    ensures active == ActiveNames(reading, AnswerFrom(namespace, reply), source, id, exclude)
    ensures Tells(reading, namespace, reply, source, id, exclude, active)
  {
    ActiveNamesTell(reading, namespace, reply, source, id, exclude);
    if !IsExternal(source) {
      return Some([]);
    }
    var target := TargetOf(reading.own, source, id);
    var items := if Strip(namespace) == "" then Some([]) else Items(reply);
    if items.None? {
      return None;
    }
    var names := CollectRivals(reading.seen, items.value, target, exclude);
    return Some(Sorted(names));
  }
}
