/**
 The single-flight lock as a protocol between PipelineRuns, the status updates of Tekton, and the command-line
 tool that creates and deletes kubeconfig Secrets. Every step is atomic; steps interleave in any order.
 */
module LockProtocol {
  import opened Basics
  import opened Ordering
  import opened ClusterLock

  /** `admitted` lists the runs that passed the idle check, each with the lock key its Secret held at that moment. */
  datatype World = World(runs: map<string, PipelineRun>, admitted: map<string, string>, reg: Registry)

  datatype Step =
    | CreateRun(run: PipelineRun)
    | UpdateStatus(name: string, completed: bool, reason: string, children: bool)
    | Prune(name: string)
    | Check(name: string, id: string, answer: Answer, reading: Reading)
    | PutSecret(source: string, key: string, id: string)
    | DeleteSecret(source: string, exclude: string, answer: Answer, reading: Reading)

  ghost predicate ProperName(name: string) {
    Strip(name) == name && IsE2eName(name)
  }

  ghost predicate WellFormed(w: World) {
    forall name :: name in w.runs ==> w.runs[name].name == name && ProperName(name)
  }

  /** A listing is atomic: if it comes back whole, it shows every run of this world, in any order. */
  ghost predicate Shows(w: World, answer: Answer) {
    answer.Listed? ==>
      forall run :: run in answer.runs <==> run.name in w.runs && w.runs[run.name] == run
  }

  /** Reading a Secret may fail or give anything; the label in a Secret's name needs no reading. */
  ghost predicate Reads(w: World, reading: Reading) {
    reading.own.nameLabel == w.reg.nameLabel && reading.seen.nameLabel == w.reg.nameLabel
  }

  /** Leaving the active set is final, and a started run does not become pending again. */
  predicate StatusMoves(before: PipelineRun, after: PipelineRun) {
    && (!IsActive(before) ==> !IsActive(after))
    && (Holds(before) && IsActive(after) ==> Holds(after))
  }

  function Deleted(reg: Registry, source: string): Registry {
    reg.(keys := reg.keys - {source}, ids := reg.ids - {source})
  }

  ghost predicate Moves(w: World, step: Step, w': World) {
    match step
    case CreateRun(run) =>
      && run.name !in w.runs && run.name !in w.admitted && ProperName(run.name) && !run.children
      && w' == w.(runs := w.runs[run.name := run])
    case UpdateStatus(name, completed, reason, children) =>
      && name in w.runs
      && var after := w.runs[name].(completed := completed, reason := reason, children := children);
         StatusMoves(w.runs[name], after) && w' == w.(runs := w.runs[name := after])
    case Prune(name) =>
      && name in w.runs && !IsActive(w.runs[name])
      && w' == w.(runs := w.runs - {name})
    case Check(name, id, answer, reading) =>
      && name in w.runs && Holds(w.runs[name]) && IsExternal(w.runs[name].source)
      && Shows(w, answer) && Reads(w, reading)
      && w' == if ActiveNames(reading, answer, w.runs[name].source, id, name) == Some([])
               then w.(admitted := w.admitted[name := LockKey(w.reg, w.runs[name].source)])
               else w
    case PutSecret(source, key, id) =>
      w' == w.(reg := w.reg.(keys := w.reg.keys[source := key], ids := w.reg.ids[source := id]))
    case DeleteSecret(source, exclude, answer, reading) =>
      && Shows(w, answer) && Reads(w, reading)
      && w' == if source != "" && ActiveNames(reading, answer, source, "", exclude) == Some([])
               then w.(reg := Deleted(w.reg, source))
               else w
  }

  ghost predicate Behaviour(worlds: seq<World>, steps: seq<Step>) {
    && |worlds| == |steps| + 1
    && WellFormed(worlds[0]) && worlds[0].admitted == map[]
    && forall i :: 0 <= i < |steps| ==> Moves(worlds[i], steps[i], worlds[i + 1])
  }

  /** Inside the cluster: passed the check, still holding. */
  predicate Inside(w: World, name: string) {
    name in w.admitted && name in w.runs && Holds(w.runs[name])
  }

  /* ---------- what decides over an admission and over a deletion ---------- */

  /** This run holds, is not the excluded one, and is recognised on the target's cluster. */
  predicate Hinders(w: World, source: string, id: string, reading: Reading, exclude: string, rival: string) {
    && rival in w.runs && Strip(rival) != Strip(exclude) && Holds(w.runs[rival])
    && Matches(reading.seen, w.runs[rival], TargetOf(reading.own, source, id))
  }

  /** A listing that comes back whole misses no rival and invents none. */
  lemma RivalsListed(w: World, source: string, id: string, reading: Reading, exclude: string, answer: Answer)
    requires WellFormed(w) && Shows(w, answer) && IsExternal(source) && answer.Listed?
    ensures ActiveNames(reading, answer, source, id, exclude) == Some([])
      <==> forall rival :: !Hinders(w, source, id, reading, exclude, rival)
  {
    ActiveNamesExact(reading, answer, source, id, exclude);
    var names := ActiveNames(reading, answer, source, id, exclude).value;
    if rival :| Hinders(w, source, id, reading, exclude, rival) {
      var run := w.runs[rival];
      assert run in answer.runs && Strip(run.name) == rival;
      assert rival in names;
    } else if names != [] {
      assert names[0] in names;
      var run :| run in answer.runs && Strip(run.name) == names[0]
        && IsRival(reading.seen, run, TargetOf(reading.own, source, id), exclude);
      assert Hinders(w, source, id, reading, exclude, run.name);
    }
  }

  /** A run is let in exactly by a whole listing that shows no rival, or by a reply that could not be decoded. */
  lemma AdmittedIff(w: World, step: Step, w': World)
    requires WellFormed(w) && step.Check? && Moves(w, step, w')
    ensures var source := w.runs[step.name].source;
      w' == if step.answer.Garbled? || (step.answer.Listed?
                 && forall rival :: !Hinders(w, source, step.id, step.reading, step.name, rival))
            then w.(admitted := w.admitted[step.name := LockKey(w.reg, source)])
            else w
  {
    var source := w.runs[step.name].source;
    ActiveNamesExact(step.reading, step.answer, source, step.id, step.name);
    if step.answer.Listed? {
      RivalsListed(w, source, step.id, step.reading, step.name, step.answer);
    }
  }

  /** A Secret is deleted exactly by a whole listing that shows no other run on its cluster, by a reply that could
      not be decoded, or without any listing when its name stands for no external cluster. */
  lemma SecretDeletedIff(w: World, step: Step, w': World)
    requires WellFormed(w) && step.DeleteSecret? && Moves(w, step, w')
    ensures w' == if step.source != ""
                 && (!IsExternal(step.source) || step.answer.Garbled? || (step.answer.Listed?
                     && forall rival :: !Hinders(w, step.source, "", step.reading, step.exclude, rival)))
            then w.(reg := Deleted(w.reg, step.source))
            else w
  {
    if IsExternal(step.source) {
      ActiveNamesExact(step.reading, step.answer, step.source, "", step.exclude);
      if step.answer.Listed? {
        RivalsListed(w, step.source, "", step.reading, step.exclude, step.answer);
      }
    }
  }

  /** A call that was not answered lets nobody in and deletes nothing. */
  lemma UnansweredChangesNothing(w: World, step: Step, w': World)
    requires WellFormed(w) && Moves(w, step, w') && (step.Check? || step.DeleteSecret?) && step.answer.Unanswered?
    requires step.DeleteSecret? ==> IsExternal(step.source)
    ensures w' == w
  {
    if step.Check? {
      AdmittedIff(w, step, w');
    } else {
      SecretDeletedIff(w, step, w');
    }
  }

  /** A rival on the same source hinders, whatever the Secrets answer. */
  lemma SameSourceHinders(w: World, source: string, id: string, reading: Reading, exclude: string, rival: string)
    requires IsExternal(source) && rival in w.runs && Strip(rival) != Strip(exclude) && Holds(w.runs[rival])
    requires Strip(w.runs[rival].source) == Strip(source)
    ensures Hinders(w, source, id, reading, exclude, rival)
  {
    assert Strip(Strip(source)) == Strip(source);
  }

  /* ---------- equal CLUSTER_SOURCE ---------- */

  ghost predicate SourceExclusive(w: World) {
    && WellFormed(w)
    && (forall a :: a in w.admitted && a in w.runs ==> Settled(w, a))
    && (forall a, b :: a != b && Inside(w, a) && Inside(w, b) ==>
          Strip(w.runs[a].source) != Strip(w.runs[b].source))
  }

  predicate Settled(w: World, name: string)
    requires name in w.runs
  {
    Holds(w.runs[name]) || !IsActive(w.runs[name])
  }

  /** Only passing the check brings a run inside; what a run is stays the same. */
  lemma NobodyElseEnters(w: World, step: Step, w': World, a: string)
    requires SourceExclusive(w) && Moves(w, step, w') && a in w'.admitted && a in w'.runs
    requires !(step.Check? && w' != w && step.name == a)
    ensures a in w.admitted && a in w.runs && w.admitted[a] == w'.admitted[a]
    ensures w'.runs[a].source == w.runs[a].source && w'.runs[a].keyAnnotation == w.runs[a].keyAnnotation
    ensures Settled(w', a)
    ensures Inside(w', a) ==> Inside(w, a)
  {
    assert Settled(w, a);
  }

  lemma MovesKeepForm(w: World, step: Step, w': World)
    requires WellFormed(w) && Moves(w, step, w')
    ensures WellFormed(w')
  {
  }

  /** No other run inside has the source of this run. */
  ghost predicate NewSource(w: World, name: string)
    requires name in w.runs
  {
    forall a :: a != name && Inside(w, a) ==> Strip(w.runs[a].source) != Strip(w.runs[name].source)
  }

  /** Where a check leaves source exclusion standing: it may break only by a reply that could not be decoded, and
      then exactly when another run with this source is inside. Secrets do not matter. */
  lemma SourceCheckIff(w: World, step: Step, w': World)
    requires SourceExclusive(w) && step.Check? && Moves(w, step, w')
    ensures SourceExclusive(w') <==> (step.answer.Garbled? ==> NewSource(w, step.name))
  {
    MovesKeepForm(w, step, w');
    AdmittedIff(w, step, w');
    var source := w.runs[step.name].source;
    if w' != w && step.answer.Listed? {
      forall a | a != step.name && Inside(w, a) ensures Strip(w.runs[a].source) != Strip(source) {
        assert ProperName(a) && ProperName(step.name);
        if Strip(w.runs[a].source) == Strip(source) {
          SameSourceHinders(w, source, step.id, step.reading, step.name, a);
        }
      }
    }
    if w' != w {
      NewcomerSettles(w, step, w');
    } else if step.answer.Garbled? {
      assert Inside(w, step.name);
    }
  }

  /** The world after an admission is exclusive by source exactly if the newcomer's source is new inside. */
  lemma NewcomerSettles(w: World, step: Step, w': World)
    requires SourceExclusive(w) && step.Check? && Moves(w, step, w') && w' != w
    ensures SourceExclusive(w') <==> NewSource(w, step.name)
  {
    MovesKeepForm(w, step, w');
    AdmissionSettles(w, step, w');
    if SourceExclusive(w') {
      forall a | a != step.name && Inside(w, a) ensures Strip(w.runs[a].source) != Strip(w.runs[step.name].source) {
        assert Inside(w', a) && Inside(w', step.name);
      }
    }
    if NewSource(w, step.name) {
      assert forall a :: Inside(w', a) && a != step.name ==> Inside(w, a);
    }
  }

  lemma AdmissionSettles(w: World, step: Step, w': World)
    requires SourceExclusive(w) && step.Check? && Moves(w, step, w') && w' != w
    ensures w'.runs == w.runs && Inside(w', step.name)
    ensures forall a :: a in w'.admitted && a in w'.runs ==> Settled(w', a)
    ensures forall a :: a != step.name ==> (Inside(w', a) <==> Inside(w, a))
  {
    forall a | a in w'.admitted && a in w'.runs ensures Settled(w', a) {
      assert a != step.name ==> Settled(w, a);
    }
  }

  /** Every step but an undecoded check keeps it, whatever happens to the Secrets. */
  lemma SourceExclusionKept(w: World, step: Step, w': World)
    requires SourceExclusive(w) && Moves(w, step, w')
    requires step.Check? ==> !step.answer.Garbled?
    ensures SourceExclusive(w')
  {
    if step.Check? {
      SourceCheckIff(w, step, w');
    } else {
      MovesKeepForm(w, step, w');
      forall a | a in w'.admitted && a in w'.runs ensures Settled(w', a) {
        NobodyElseEnters(w, step, w', a);
      }
      forall a, b | a != b && Inside(w', a) && Inside(w', b)
        ensures Strip(w'.runs[a].source) != Strip(w'.runs[b].source)
      {
        NobodyElseEnters(w, step, w', a);
        NobodyElseEnters(w, step, w', b);
      }
    }
  }

  /** Over every interleaving in which no check is answered by an undecodable reply. */
  lemma {:induction false} SourceMutualExclusion(worlds: seq<World>, steps: seq<Step>, i: nat)
    requires Behaviour(worlds, steps) && i < |worlds|
    requires forall k :: 0 <= k < |steps| && steps[k].Check? ==> !steps[k].answer.Garbled?
    ensures SourceExclusive(worlds[i])
  {
    if i > 0 {
      SourceMutualExclusion(worlds, steps, i - 1);
      SourceExclusionKept(worlds[i - 1], steps[i - 1], worlds[i]);
    }
  }

  /* ---------- equal lock key ---------- */

  /** The key under which a run inside the cluster is still recognised. */
  predicate KeyVisible(w: World, name: string)
    requires name in w.runs && name in w.admitted
  {
    || LockKey(w.reg, w.runs[name].source) == w.admitted[name]
    || Normalize(w.runs[name].keyAnnotation) == w.admitted[name]
  }

  ghost predicate KeyExclusive(w: World) {
    && SourceExclusive(w)
    && (forall a :: Inside(w, a) && w.admitted[a] != "" ==>
          KeyVisible(w, a) && Normalize(w.admitted[a]) == w.admitted[a])
    && (forall a, b :: a != b && Inside(w, a) && Inside(w, b) && w.admitted[a] != "" ==>
          w.admitted[a] != w.admitted[b])
  }

  /** What the Secret steps owe to the lock: a name keeps standing for the same cluster, and a Secret is not
      deleted on behalf of a run that still holds, nor after an undecodable reply, unless the holder under that
      name carries its key annotation. */
  ghost predicate Considerate(w: World, step: Step) {
    match step
    case PutSecret(source, key, id) => source in w.reg.keys ==> Normalize(w.reg.keys[source]) == Normalize(key)
    case DeleteSecret(source, exclude, answer, _) =>
      forall name :: Inside(w, name) && Strip(w.runs[name].source) == source
                     && (Strip(name) == Strip(exclude) || answer.Garbled?) ==>
        Normalize(w.runs[name].keyAnnotation) == w.admitted[name]
    case _ => true
  }

  /** The key read for the asking source is also found on this run, as its annotation or in its own Secret. */
  predicate Meets(reading: Reading, source: string, run: PipelineRun) {
    var key := LockKey(reading.own, source);
    key != "" && (Normalize(run.keyAnnotation) == key || LockKey(reading.seen, run.source) == key)
  }

  /** Neither the source nor a cluster label connects this run with the asking source. */
  predicate OnlyKeysTell(reading: Reading, source: string, id: string, run: PipelineRun) {
    var wanted := Normalize(TargetOf(reading.own, source, id).id);
    && Strip(run.source) != Strip(source)
    && (wanted != "" ==>
          && Normalize(run.clusterLabel) != wanted
          && (Strip(run.source) != "" ==>
                && ClusterId(reading.seen, Strip(run.source), "") != wanted
                && !SameFamily(Normalize(reading.seen.nameLabel(Strip(run.source))), wanted)))
  }

  lemma MatchesIffMeets(reading: Reading, source: string, id: string, run: PipelineRun)
    requires IsExternal(source)
    ensures Meets(reading, source, run) ==> Matches(reading.seen, run, TargetOf(reading.own, source, id))
    ensures OnlyKeysTell(reading, source, id, run) ==>
      (Matches(reading.seen, run, TargetOf(reading.own, source, id)) <==> Meets(reading, source, run))
  {
    KeySurvivesStrip(reading.own, source);
    KeySurvivesStrip(reading.seen, run.source);
  }

  /** A run inside under the key that the asking run's Secret holds. */
  predicate IsTwin(w: World, name: string, a: string)
    requires name in w.runs
  {
    a != name && Inside(w, a) && w.admitted[a] != "" && w.admitted[a] == LockKey(w.reg, w.runs[name].source)
  }

  /** The check is answered by no undecodable reply, and what it reads connects it with every twin inside. */
  ghost predicate Legible(w: World, step: Step) {
    step.Check? && step.name in w.runs ==>
      && !step.answer.Garbled?
      && forall a :: IsTwin(w, step.name, a) ==> Meets(step.reading, w.runs[step.name].source, w.runs[a])
  }

  /** No Secret goes away while a run other than the excluded one still holds under that very name,
      nor after a call that was not answered; only an undecodable reply sweeps it from under a holder. */
  lemma SecretOfHolderSurvives(w: World, step: Step, w': World, name: string)
    requires WellFormed(w) && step.DeleteSecret? && Moves(w, step, w') && w' != w
    requires IsExternal(step.source) && !step.answer.Garbled?
    ensures step.answer.Listed?
    ensures name in w.runs && Holds(w.runs[name]) && Strip(name) != Strip(step.exclude) ==>
              !Matches(step.reading.seen, w.runs[name], TargetOf(step.reading.own, step.source, ""))
              && Strip(w.runs[name].source) != Strip(step.source)
  {
    SecretDeletedIff(w, step, w');
    if name in w.runs && Holds(w.runs[name]) && Strip(name) != Strip(step.exclude) {
      assert !Hinders(w, step.source, "", step.reading, step.exclude, name);
      if Strip(w.runs[name].source) == Strip(step.source) {
        SameSourceHinders(w, step.source, "", step.reading, step.exclude, name);
      }
    }
  }

  lemma KeyExclusionKept(w: World, step: Step, w': World)
    requires KeyExclusive(w) && Moves(w, step, w') && Considerate(w, step) && Legible(w, step)
    ensures KeyExclusive(w')
  {
    SourceExclusionKept(w, step, w');
    if step.Check? {
      if w' != w {
        NewcomerHasFreshKey(w, step, w');
        KeysAfterAdmission(w, step, w');
      }
    } else {
      forall a | Inside(w', a) ensures Inside(w, a) && w.admitted[a] == w'.admitted[a] {
        NobodyElseEnters(w, step, w', a);
      }
      forall a | Inside(w', a) && w'.admitted[a] != ""
        ensures KeyVisible(w', a) && Normalize(w'.admitted[a]) == w'.admitted[a]
      {
        NobodyElseEnters(w, step, w', a);
        KeyStaysVisible(w, step, w', a);
      }
    }
  }

  /** After an admission the keys inside are exclusive exactly if the newcomer has no twin. */
  lemma KeysAfterAdmission(w: World, step: Step, w': World)
    requires KeyExclusive(w) && step.Check? && Moves(w, step, w') && w' != w
    ensures KeyExclusive(w') <==> SourceExclusive(w') && forall a :: !IsTwin(w, step.name, a)
  {
    var name := step.name;
    var key := LockKey(w.reg, w.runs[name].source);
    KeySurvivesStrip(w.reg, w.runs[name].source);
    assert w' == w.(admitted := w.admitted[name := key]);
    forall a | Inside(w', a) && w'.admitted[a] != ""
      ensures KeyVisible(w', a) && Normalize(w'.admitted[a]) == w'.admitted[a]
    {
      assert a != name ==> KeyVisible(w, a);
    }
    if a :| IsTwin(w, name, a) {
      assert Inside(w', a) && Inside(w', name) && w'.admitted[a] == w'.admitted[name];
    } else {
      TwinlessKeys(w, name, key, w');
    }
  }

  lemma TwinlessKeys(w: World, name: string, key: string, w': World)
    requires KeyExclusive(w) && name in w.runs && key == LockKey(w.reg, w.runs[name].source)
    requires w' == w.(admitted := w.admitted[name := key]) && forall a :: !IsTwin(w, name, a)
    ensures forall a, b :: a != b && Inside(w', a) && Inside(w', b) && w'.admitted[a] != "" ==>
              w'.admitted[a] != w'.admitted[b]
  {
    forall a, b | a != b && Inside(w', a) && Inside(w', b) && w'.admitted[a] != ""
      ensures w'.admitted[a] != w'.admitted[b]
    {
      assert !IsTwin(w, name, a) && !IsTwin(w, name, b);
    }
  }

  lemma KeyStaysVisible(w: World, step: Step, w': World, a: string)
    requires KeyExclusive(w) && Moves(w, step, w') && Considerate(w, step)
    requires Inside(w, a) && w.admitted[a] != "" && a in w'.runs && a in w'.admitted
    requires w'.admitted[a] == w.admitted[a] && w'.runs[a].source == w.runs[a].source
    requires w'.runs[a].keyAnnotation == w.runs[a].keyAnnotation
    ensures KeyVisible(w', a)
  {
    assert KeyVisible(w, a);
    if step.DeleteSecret? && w' != w {
      KeySurvivesDeletion(w, step, w', a);
    } else if step.PutSecret? {
    } else {
      assert w'.reg == w.reg;
    }
  }

  lemma KeySurvivesDeletion(w: World, step: Step, w': World, a: string)
    requires WellFormed(w) && step.DeleteSecret? && Moves(w, step, w') && Considerate(w, step) && w' != w
    requires Inside(w, a) && KeyVisible(w, a) && w.admitted[a] != ""
    ensures KeyVisible(w', a)
  {
    var run := w.runs[a];
    if Normalize(run.keyAnnotation) != w.admitted[a] {
      if Strip(run.source) == step.source {
        KeySurvivesStrip(w.reg, run.source);
        assert IsExternal(step.source);
        SecretOfHolderSurvives(w, step, w', a);
      } else {
        OtherSecretStays(w.reg, run.source, step.source);
      }
    }
  }

  lemma OtherSecretStays(reg: Registry, source: string, deleted: string)
    requires Strip(source) != deleted
    ensures LockKey(Deleted(reg, deleted), source) == LockKey(reg, source)
  {
  }

  lemma NewcomerHasFreshKey(w: World, step: Step, w': World)
    requires KeyExclusive(w) && step.Check? && Moves(w, step, w') && w' != w && Legible(w, step)
    ensures forall a :: !IsTwin(w, step.name, a)
  {
    AdmittedIff(w, step, w');
    forall a ensures !IsTwin(w, step.name, a) {
      if IsTwin(w, step.name, a) {
        LegibleTwinHinders(w, step, a);
      }
    }
  }

  lemma LegibleTwinHinders(w: World, step: Step, a: string)
    requires WellFormed(w) && step.Check? && step.name in w.runs && IsExternal(w.runs[step.name].source)
    requires Legible(w, step) && IsTwin(w, step.name, a)
    ensures Hinders(w, w.runs[step.name].source, step.id, step.reading, step.name, a)
  {
    assert ProperName(a) && ProperName(step.name);
    MatchesIffMeets(step.reading, w.runs[step.name].source, step.id, w.runs[a]);
  }

  /** Over every interleaving of considerate steps and legible checks: two runs inside never share a source or a
      lock key. */
  lemma {:induction false} KeyMutualExclusion(worlds: seq<World>, steps: seq<Step>, i: nat)
    requires Behaviour(worlds, steps) && i < |worlds|
    requires forall k :: 0 <= k < |steps| ==> Considerate(worlds[k], steps[k]) && Legible(worlds[k], steps[k])
    ensures KeyExclusive(worlds[i])
  {
    if i > 0 {
      KeyMutualExclusion(worlds, steps, i - 1);
      KeyExclusionKept(worlds[i - 1], steps[i - 1], worlds[i]);
    }
  }

  predicate OtherHolder(w: World, name: string, r: string) {
    r != name && r in w.runs && Holds(w.runs[r])
  }

  /** Where a check leaves key exclusion standing. A decoded reply breaks it exactly when the call was answered, the
      listing shows no rival, and a run inside has the asking run's key; an undecodable one lets in whoever asks. */
  lemma KeyCheckIff(w: World, step: Step, w': World)
    requires KeyExclusive(w) && step.Check? && Moves(w, step, w')
    ensures KeyExclusive(w') <==>
              || step.answer.Unanswered?
              || (step.answer.Listed?
                  && exists r :: Hinders(w, w.runs[step.name].source, step.id, step.reading, step.name, r))
              || ((forall a :: !IsTwin(w, step.name, a)) && (step.answer.Garbled? ==> NewSource(w, step.name)))
  {
    AdmittedIff(w, step, w');
    SourceCheckIff(w, step, w');
    if w' != w {
      KeysAfterAdmission(w, step, w');
    } else if step.name in w.admitted {
      forall a ensures IsTwin(w, step.name, a) ==> w.admitted[step.name] != w.admitted[a] {
        assert IsTwin(w, step.name, a) ==> Inside(w, step.name) && Inside(w, a);
      }
    }
  }

  /** Where only keys can connect the asking run with the others, it is hindered exactly if its key was read on some
      holder. */
  lemma HinderedIffMet(w: World, step: Step)
    requires WellFormed(w) && step.Check? && step.name in w.runs && IsExternal(w.runs[step.name].source)
    requires forall r :: OtherHolder(w, step.name, r) ==>
               OnlyKeysTell(step.reading, w.runs[step.name].source, step.id, w.runs[r])
    ensures (exists r :: Hinders(w, w.runs[step.name].source, step.id, step.reading, step.name, r)) <==>
            exists r :: OtherHolder(w, step.name, r) && Meets(step.reading, w.runs[step.name].source, w.runs[r])
  {
    var source := w.runs[step.name].source;
    forall r | r in w.runs
      ensures Hinders(w, source, step.id, step.reading, step.name, r) <==>
              OtherHolder(w, step.name, r) && Meets(step.reading, source, w.runs[r])
    {
      assert ProperName(r) && ProperName(step.name);
      MatchesIffMeets(step.reading, source, step.id, w.runs[r]);
    }
  }

  /* ---------- what the protocol does not give ---------- */

  /** Waiting counts as holding: two started runs with the same source keep each other out, so neither is let in
      before the other one leaves, as long as replies can be decoded. */
  lemma WaitersBlockEachOther(w: World, a: string, b: string, checkA: Step, checkB: Step, w': World)
    requires WellFormed(w) && a in w.runs && b in w.runs && a != b && Holds(w.runs[a]) && Holds(w.runs[b])
    requires checkA.Check? && checkB.Check? && checkA.name == a && checkB.name == b
    requires !checkA.answer.Garbled? && !checkB.answer.Garbled?
    requires Strip(w.runs[a].source) == Strip(w.runs[b].source)
    requires Moves(w, checkA, w') || Moves(w, checkB, w')
    ensures w' == w
  {
    assert ProperName(a) && ProperName(b);
    if Moves(w, checkA, w') {
      AdmittedIff(w, checkA, w');
      SameSourceHinders(w, w.runs[a].source, checkA.id, checkA.reading, a, b);
    } else {
      AdmittedIff(w, checkB, w');
      SameSourceHinders(w, w.runs[b].source, checkB.id, checkB.reading, b, a);
    }
  }

  function Sample(name: string, source: string, reason: string): PipelineRun {
    PipelineRun(name, source, "", "", false, reason, true)
  }

  lemma RunningIsNoCancel()
    ensures !Contains(Lower("Running"), "cancel")
  {
    assert Lower("Running") == "running";
    forall i | 0 <= i <= 1 ensures !OccursAt("running", "cancel", i) {
      assert "running"[i..i + 6][0] == "running"[i];
    }
  }

  lemma RunningHolds(run: PipelineRun)
    requires !run.completed && run.children && run.reason == "Running"
    ensures Holds(run)
  {
    RunningIsNoCancel();
    assert |"Running"| == 7 && forall reason :: reason in WIND_DOWN_REASONS ==> |reason| > 8;
  }

  const SHARED := Registry(map["X" := "api", "Y" := "api"], map[], s => s)
  const HOLDER := Sample("e2e-a", "X", "Running")
  const LATECOMER := Sample("e2e-b", "Y", "")
  const STARTED := Sample("e2e-b", "Y", "Running")
  const SAME_SOURCE := Sample("e2e-c", "X", "Running")

  function BeforeCleanup(a: PipelineRun, b: PipelineRun, reg: Registry, key: string): World {
    World(map[a.name := a, b.name := b], map[a.name := key], reg)
  }

  /** Secrets that all answer, and answer the truth. */
  function Truthful(reg: Registry): Reading {
    Reading(reg, reg)
  }

  /** Why the clean-up of a run that still holds has to be excluded: deleting its Secret makes its lock key
      unreadable, and a second run on the same API server is let in beside it. */
  lemma DeletionForHolderAdmitsTwo() returns (worlds: seq<World>, steps: seq<Step>)
    ensures |worlds| == |steps| + 1 == 4
    ensures forall i :: 0 <= i < |steps| ==> Moves(worlds[i], steps[i], worlds[i + 1])
    ensures KeyExclusive(worlds[0]) && !Considerate(worlds[0], steps[0])
    ensures LockKey(worlds[0].reg, "X") == LockKey(worlds[0].reg, "Y") == "api"
    ensures Inside(worlds[3], "e2e-a") && Inside(worlds[3], "e2e-b")
  {
    RunningHolds(HOLDER);
    RunningHolds(STARTED);
    SampleFacts();
    StrangerUnseen(Truthful(Deleted(SHARED, "X")), HOLDER);
    worlds, steps := Cleanup(HOLDER, LATECOMER, STARTED, SHARED, "api");
  }

  /** Why checks have to be legible: when the Secret of the run inside cannot be read, a run on the same API server
      is let in beside it. */
  lemma UnreadSecretAdmitsTwo() returns (w: World, step: Step, w': World)
    ensures KeyExclusive(w) && Moves(w, step, w') && step.Check? && step.answer.Listed?
    ensures Considerate(w, step) && !Legible(w, step)
    ensures step.reading == Reading(w.reg, Deleted(w.reg, "X"))
    ensures LockKey(w.reg, "X") == LockKey(w.reg, "Y") == "api"
    ensures Inside(w', "e2e-a") && Inside(w', "e2e-b") && w'.admitted["e2e-a"] == w'.admitted["e2e-b"] == "api"
  {
    RunningHolds(HOLDER);
    RunningHolds(STARTED);
    SampleFacts();
    var reading := Reading(SHARED, Deleted(SHARED, "X"));
    StrangerUnseen(reading, HOLDER);
    OnlyTheHolderInside(HOLDER, STARTED, SHARED, "api");
    w := BeforeCleanup(HOLDER, STARTED, SHARED, "api");
    step := Check("e2e-b", "", Listed([HOLDER, STARTED]), reading);
    w' := w.(admitted := map["e2e-a" := "api", "e2e-b" := "api"]);
    LatecomerAdmitted(w, HOLDER, STARTED, reading, "api", w');
    TwinUnmet(w, step, HOLDER);
  }

  lemma TwinUnmet(w: World, step: Step, twin: PipelineRun)
    requires step.Check? && step.name in w.runs && twin.name in w.runs && w.runs[twin.name] == twin
    requires IsTwin(w, step.name, twin.name) && IsExternal(w.runs[step.name].source)
    requires !Matches(step.reading.seen, twin, TargetOf(step.reading.own, w.runs[step.name].source, step.id))
    ensures !Legible(w, step)
  {
    MatchesIffMeets(step.reading, w.runs[step.name].source, step.id, twin);
  }

  /** What a reply that cannot be decoded does: a second run with the source of the run inside is let in, and the
      Secret they both use is deleted. */
  lemma UndecodedReplies() returns (w0: World, w1: World, w2: World, reading: Reading)
    ensures Moves(w0, Check(SAME_SOURCE.name, "", Garbled, reading), w1)
    ensures Moves(w1, DeleteSecret(HOLDER.source, "", Garbled, reading), w2)
    ensures SourceExclusive(w0) && !SourceExclusive(w1)
    ensures w0.runs == w1.runs == w2.runs == map[HOLDER.name := HOLDER, SAME_SOURCE.name := SAME_SOURCE]
    ensures Inside(w1, HOLDER.name) && Inside(w1, SAME_SOURCE.name)
    ensures Inside(w2, HOLDER.name) && Inside(w2, SAME_SOURCE.name)
    ensures HOLDER.source in w1.reg.keys && HOLDER.source !in w2.reg.keys
  {
    RunningHolds(HOLDER);
    RunningHolds(SAME_SOURCE);
    SampleFacts();
    OnlyTheHolderInside(HOLDER, SAME_SOURCE, SHARED, "api");
    reading := Truthful(SHARED);
    w0, w1, w2 := UndecodedAdmitsAndSweeps(HOLDER, SAME_SOURCE, SHARED, "api");
  }

  /** The same for any two runs of one source, one of them inside. */
  lemma UndecodedAdmitsAndSweeps(a: PipelineRun, c: PipelineRun, reg: Registry, key: string)
    returns (w0: World, w1: World, w2: World)
    requires a.name != c.name && Holds(a) && Holds(c) && a.source == c.source && Strip(a.source) == a.source
    requires IsExternal(a.source) && LockKey(reg, a.source) == key
    ensures w0 == BeforeCleanup(a, c, reg, key)
    ensures Moves(w0, Check(c.name, "", Garbled, Truthful(reg)), w1)
    ensures Moves(w1, DeleteSecret(a.source, "", Garbled, Truthful(reg)), w2)
    ensures Inside(w1, a.name) && Inside(w1, c.name) && Inside(w2, a.name) && Inside(w2, c.name)
    ensures !SourceExclusive(w1) && w1.runs == w2.runs == w0.runs
    ensures w1.reg == reg && w2.reg == Deleted(reg, a.source)
  {
    w0 := BeforeCleanup(a, c, reg, key);
    w1 := w0.(admitted := w0.admitted[c.name := key]);
    w2 := w1.(reg := Deleted(reg, a.source));
    ActiveNamesExact(Truthful(reg), Garbled, a.source, "", c.name);
    ActiveNamesExact(Truthful(reg), Garbled, a.source, "", "");
    assert Inside(w1, a.name) && Inside(w1, c.name);
  }

  lemma SampleFacts()
    ensures ProperName("e2e-a") && ProperName("e2e-b") && ProperName("e2e-c")
    ensures Normalize("") == "" && Normalize("api") == "api"
    ensures IsExternal("X") && IsExternal("Y") && Strip("X") == "X" && Strip("Y") == "Y"
    ensures LockKey(SHARED, "X") == LockKey(SHARED, "Y") == LockKey(Deleted(SHARED, "X"), "Y") == "api"
    ensures IsActive(LATECOMER) && !Holds(LATECOMER)
  {
    assert !Contains("", "cancel") && !Contains("", "stopping");
  }

  lemma OnlyTheHolderInside(a: PipelineRun, b: PipelineRun, reg: Registry, key: string)
    requires a.name != b.name && ProperName(a.name) && ProperName(b.name) && Holds(a)
    requires LockKey(reg, a.source) == key && Normalize(key) == key
    ensures KeyExclusive(BeforeCleanup(a, b, reg, key))
  {
    var w := BeforeCleanup(a, b, reg, key);
    assert Settled(w, a.name) && KeyVisible(w, a.name) && WellFormed(w);
    assert forall name :: Inside(w, name) ==> name == a.name;
    assert SourceExclusive(w);
  }

  function AfterCleanup(a: PipelineRun, b: PipelineRun, reg: Registry, key: string): World {
    World(map[a.name := a, b.name := b], map[a.name := key], Deleted(reg, a.source))
  }

  /** The clean-up as a run of the protocol: the Secret of `a` goes, `b` starts, and `b` passes the check. */
  lemma Cleanup(a: PipelineRun, b: PipelineRun, b': PipelineRun, reg: Registry, key: string)
    returns (worlds: seq<World>, steps: seq<Step>)
    requires a.name != b.name == b'.name && ProperName(a.name) && ProperName(b.name) && Holds(a)
    requires IsExternal(a.source) && IsExternal(b'.source) && a.source != ""
    requires IsActive(b) && !Holds(b) && Holds(b')
    requires b' == b.(completed := false, reason := b'.reason, children := true)
    requires LockKey(reg, a.source) == key && Normalize(key) == key && LockKey(Deleted(reg, a.source), b'.source) == key
    requires var gone := Deleted(reg, a.source); !Matches(gone, a, TargetOf(gone, b'.source, ""))
    requires Strip(a.source) == a.source && Normalize(a.keyAnnotation) != key
    ensures |worlds| == |steps| + 1 == 4
    ensures forall i :: 0 <= i < |steps| ==> Moves(worlds[i], steps[i], worlds[i + 1])
    ensures worlds[0] == BeforeCleanup(a, b, reg, key) && KeyExclusive(worlds[0]) && !Considerate(worlds[0], steps[0])
    ensures Inside(worlds[3], a.name) && Inside(worlds[3], b.name)
  {
    var w3 := AfterCleanup(a, b', reg, key).(admitted := map[a.name := key, b.name := key]);
    SecretGone(a, b, reg, key);
    Starts(a, b, b', reg, key);
    LatecomerAdmitted(AfterCleanup(a, b', reg, key), a, b', Truthful(Deleted(reg, a.source)), key, w3);
    OnlyTheHolderInside(a, b, reg, key);
    NotConsiderate(a, b, reg, key);
    worlds, steps := Chained(BeforeCleanup(a, b, reg, key), CleaningUp(a, b, reg),
                             AfterCleanup(a, b, reg, key), UpdateStatus(b.name, false, b'.reason, true),
                             AfterCleanup(a, b', reg, key),
                             Check(b.name, "", Listed([a, b']), Truthful(Deleted(reg, a.source))), w3);
  }

  lemma Chained(w0: World, s0: Step, w1: World, s1: Step, w2: World, s2: Step, w3: World)
    returns (worlds: seq<World>, steps: seq<Step>)
    requires Moves(w0, s0, w1) && Moves(w1, s1, w2) && Moves(w2, s2, w3)
    ensures worlds == [w0, w1, w2, w3] && steps == [s0, s1, s2]
    ensures forall i :: 0 <= i < |steps| ==> Moves(worlds[i], steps[i], worlds[i + 1])
  {
    worlds, steps := [w0, w1, w2, w3], [s0, s1, s2];
  }

  function CleaningUp(a: PipelineRun, b: PipelineRun, reg: Registry): Step {
    DeleteSecret(a.source, a.name, Listed([a, b]), Truthful(reg))
  }

  lemma SecretGone(a: PipelineRun, b: PipelineRun, reg: Registry, key: string)
    requires a.name != b.name && IsExternal(a.source) && a.source != "" && !Holds(b)
    ensures Moves(BeforeCleanup(a, b, reg, key), CleaningUp(a, b, reg), AfterCleanup(a, b, reg, key))
  {
    PairUnlisted(Truthful(reg), a, b, a.source, a.name);
    assert Shows(BeforeCleanup(a, b, reg, key), Listed([a, b]));
  }

  lemma Starts(a: PipelineRun, b: PipelineRun, b': PipelineRun, reg: Registry, key: string)
    requires a.name != b.name && IsActive(b) && Holds(b')
    requires b' == b.(completed := false, reason := b'.reason, children := true)
    ensures Moves(AfterCleanup(a, b, reg, key), UpdateStatus(b.name, false, b'.reason, true),
                  AfterCleanup(a, b', reg, key))
  {
    assert StatusMoves(b, b');
    assert map[a.name := a, b.name := b][b.name := b'] == map[a.name := a, b.name := b'];
  }

  /** A second run passes the check because nothing that is read connects it with the run inside. */
  lemma LatecomerAdmitted(w: World, a: PipelineRun, b: PipelineRun, reading: Reading, key: string, after: World)
    requires a.name != b.name && IsExternal(b.source) && Holds(a) && Holds(b) && Reads(w, reading)
    requires !Matches(reading.seen, a, TargetOf(reading.own, b.source, "")) && LockKey(w.reg, b.source) == key
    requires w.runs == map[a.name := a, b.name := b] && w.admitted == map[a.name := key]
    requires after == w.(admitted := map[a.name := key, b.name := key])
    ensures Moves(w, Check(b.name, "", Listed([a, b]), reading), after)
    ensures Inside(after, a.name) && Inside(after, b.name)
  {
    PairUnlisted(reading, a, b, b.source, b.name);
    PairIsShown(w, a, b);
    assert map[a.name := key][b.name := key] == map[a.name := key, b.name := key];
  }

  lemma PairIsShown(w: World, a: PipelineRun, b: PipelineRun)
    requires a.name != b.name && w.runs == map[a.name := a, b.name := b]
    ensures Shows(w, Listed([a, b]))
  {
    forall run ensures run in [a, b] <==> run.name in w.runs && w.runs[run.name] == run {
      assert run in [a, b] <==> run == a || run == b;
    }
  }

  lemma NotConsiderate(a: PipelineRun, b: PipelineRun, reg: Registry, key: string)
    requires a.name != b.name && Holds(a) && Strip(a.source) == a.source && Normalize(a.keyAnnotation) != key
    ensures !Considerate(BeforeCleanup(a, b, reg, key), CleaningUp(a, b, reg))
  {
    assert Inside(BeforeCleanup(a, b, reg, key), a.name);
  }

  lemma PairUnlisted(reading: Reading, a: PipelineRun, b: PipelineRun, source: string, exclude: string)
    requires IsExternal(source)
    requires Strip(a.name) == Strip(exclude) || !Matches(reading.seen, a, TargetOf(reading.own, source, ""))
    requires Strip(b.name) == Strip(exclude) || !Holds(b)
    ensures ActiveNames(reading, Listed([a, b]), source, "", exclude) == Some([])
  {
    NoRival(reading.seen, a, TargetOf(reading.own, source, ""), exclude);
    NoRival(reading.seen, b, TargetOf(reading.own, source, ""), exclude);
    NobodyListed(reading, [a, b], source, exclude);
  }

  lemma NobodyListed(reading: Reading, runs: seq<PipelineRun>, source: string, exclude: string)
    requires IsExternal(source)
    requires forall run :: run in runs ==> !IsRival(reading.seen, run, TargetOf(reading.own, source, ""), exclude)
    ensures ActiveNames(reading, Listed(runs), source, "", exclude) == Some([])
  {
    var rivals := Rivals(reading.seen, runs, TargetOf(reading.own, source, ""), exclude);
    assert rivals != [] ==> rivals[0] in rivals;
    RivalsFound(reading.seen, runs, TargetOf(reading.own, source, ""), exclude);
  }

  lemma NoRival(reg: Registry, run: PipelineRun, target: Target, exclude: string)
    requires Strip(run.name) == Strip(exclude) || !Matches(reg, run, target) || !Holds(run)
    ensures !IsRival(reg, run, target, exclude)
  {
  }

  /** With its Secret gone or unread, the run on X is no longer recognised from Y. */
  lemma StrangerUnseen(reading: Reading, a: PipelineRun)
    requires reading.own.nameLabel == SHARED.nameLabel && "Y" !in reading.own.ids
    requires reading.seen == Deleted(SHARED, "X") && a == HOLDER
    ensures !Matches(reading.seen, a, TargetOf(reading.own, "Y", ""))
  {
    var target := TargetOf(reading.own, "Y", "");
    assert Lower("Y") == "y" && Lower("X") == "x";
    assert target.id == "y" && ClusterId(reading.seen, "X", "") == "x";
    assert LockKey(reading.seen, "X") == "";
  }
}
