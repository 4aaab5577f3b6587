/** JSON Merge Patch, section 2 of RFC 7396, on objects, strings and null. */
module MergePatch {
  import opened Basics

  datatype Json = Null | Str(text: string) | Obj(fields: map<string, Json>)

  /** The algorithm of the RFC; an absent target is passed as null, which the algorithm treats alike. */
  function Merge(target: Json, patch: Json): Json
    decreases patch
  {
    if !patch.Obj? then patch
    else
      var base := if target.Obj? then target.fields else map[];
      Obj(map k | k in base.Keys + patch.fields.Keys && !(k in patch.fields && patch.fields[k].Null?)
          :: if k in patch.fields then Merge(if k in base then base[k] else Null, patch.fields[k]) else base[k])
  }

  /** A patch that removes nothing. */
  predicate NullFree(patch: Json) {
    !patch.Null? && (patch.Obj? ==> forall k :: k in patch.fields ==> NullFree(patch.fields[k]))
  }

  function Lookup(doc: Json, path: seq<string>): Option<Json> {
    if path == [] then Some(doc)
    else if doc.Obj? && path[0] in doc.fields then Lookup(doc.fields[path[0]], path[1..])
    else None
  }

  /** Does the path run through the patch, down to or past one of its leaves? */
  predicate Touches(patch: Json, path: seq<string>) {
    patch.Obj? && path != [] ==> path[0] in patch.fields && Touches(patch.fields[path[0]], path[1..])
  }

  /** Every leaf of the patch is a leaf of the result. */
  lemma {:induction false} LeavesArrive(target: Json, patch: Json, path: seq<string>, text: string)
    requires NullFree(patch) && Lookup(patch, path) == Some(Str(text))
    ensures Lookup(Merge(target, patch), path) == Some(Str(text))
    decreases path
  {
    if path != [] {
      var base := if target.Obj? then target.fields else map[];
      LeavesArrive(if path[0] in base then base[path[0]] else Null, patch.fields[path[0]], path[1..], text);
    }
  }

  /** Every field outside the patch stays what it was, whatever the document. */
  lemma {:induction false} OtherFieldsStay(target: Json, patch: Json, path: seq<string>)
    requires !Touches(patch, path)
    ensures Lookup(Merge(target, patch), path) == Lookup(target, path)
    decreases path
  {
    if path[0] in patch.fields {
      var base := if target.Obj? then target.fields else map[];
      var below := if path[0] in base then base[path[0]] else Null;
      OtherFieldsStay(below, patch.fields[path[0]], path[1..]);
    }
  }

  /** A null in the patch takes the field away, anything that is no object takes its place. */
  lemma NullRemoves(target: Json, patch: Json, key: string)
    requires patch.Obj? && key in patch.fields
    ensures patch.fields[key].Null? ==> Lookup(Merge(target, patch), [key]) == None
    ensures patch.fields[key].Str? ==> Lookup(Merge(target, patch), [key]) == Some(patch.fields[key])
  {
    assert [key][1..] == [];
    var merged := Merge(target, patch);
    if patch.fields[key].Str? {
      assert Lookup(merged, [key]) == Lookup(merged.fields[key], []);
    }
  }

  lemma {:induction false} MergeTwice(target: Json, patch: Json)
    requires NullFree(patch)
    ensures Merge(Merge(target, patch), patch) == Merge(target, patch)
    decreases patch
  {
    if patch.Obj? {
      var base := if target.Obj? then target.fields else map[];
      var once := Merge(target, patch);
      var twice := Merge(once, patch);
      forall k | k in once.fields ensures k in twice.fields && twice.fields[k] == once.fields[k] {
        if k in patch.fields {
          MergeTwice(if k in base then base[k] else Null, patch.fields[k]);
        }
      }
      assert twice.fields.Keys == once.fields.Keys;
    }
  }
}
