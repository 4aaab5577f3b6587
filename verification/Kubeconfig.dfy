/** Preparing a kubeconfig for upload: which context is chosen, and which temporary files are left behind. */
module Kubeconfig {
  import opened Basics
  import opened Ordering

  datatype ContextEntry = ContextEntry(name: string, user: string, cluster: string)
  datatype User = User(name: string, token: string, exec: bool, clientCert: bool)
  datatype Doc = Doc(current: string, contexts: seq<ContextEntry>, users: seq<User>, clusters: set<string>)

  /** `NoAdminContext` is the AppError raised when no candidate context is a cluster admin. */
  datatype Error = AppError | NoAdminContext | OsError | OtherError
  datatype Result<+T> = Ok(value: T) | Raised(error: Error)

  datatype Path = Given | Temp(id: nat)

  predicate HasContext(doc: Doc, name: string) {
    exists i :: 0 <= i < |doc.contexts| && doc.contexts[i].name == name
  }

  function FindContext(contexts: seq<ContextEntry>, name: string): Option<ContextEntry> {
    if contexts == [] then None
    else if contexts[0].name == name then Some(contexts[0])
    else FindContext(contexts[1..], name)
  }

  function FindUser(users: seq<User>, name: string): Option<User> {
    if users == [] then None
    else if users[0].name == name then Some(users[0])
    else FindUser(users[1..], name)
  }

  /* ---------- what the searches find, by index ---------- */

  /** The first context of this name. */
  ghost predicate IsFirstContext(doc: Doc, name: string, i: nat) {
    i < |doc.contexts| && doc.contexts[i].name == name && forall k :: 0 <= k < i ==> doc.contexts[k].name != name
  }

  ghost predicate IsFirstUser(doc: Doc, name: string, j: nat) {
    j < |doc.users| && doc.users[j].name == name && forall k :: 0 <= k < j ==> doc.users[k].name != name
  }

  lemma {:induction false} ContextIsFirst(doc: Doc, name: string, contexts: seq<ContextEntry>, from: nat)
    requires from <= |doc.contexts| && contexts == doc.contexts[from..]
    requires forall k :: 0 <= k < from ==> doc.contexts[k].name != name
    ensures forall i: nat :: IsFirstContext(doc, name, i) ==> FindContext(contexts, name) == Some(doc.contexts[i])
    ensures FindContext(contexts, name).Some? ==>
              exists i: nat :: IsFirstContext(doc, name, i) && FindContext(contexts, name).value == doc.contexts[i]
  {
    if contexts != [] {
      if contexts[0].name == name {
        assert IsFirstContext(doc, name, from);
      } else {
        ContextIsFirst(doc, name, contexts[1..], from + 1);
      }
    }
  }

  lemma {:induction false} UserIsFirst(doc: Doc, name: string, users: seq<User>, from: nat)
    requires from <= |doc.users| && users == doc.users[from..]
    requires forall k :: 0 <= k < from ==> doc.users[k].name != name
    ensures forall j: nat :: IsFirstUser(doc, name, j) ==> FindUser(users, name) == Some(doc.users[j])
    ensures FindUser(users, name).Some? ==>
              exists j: nat :: IsFirstUser(doc, name, j) && FindUser(users, name).value == doc.users[j]
  {
    if users != [] {
      if users[0].name == name {
        assert IsFirstUser(doc, name, from);
      } else {
        UserIsFirst(doc, name, users[1..], from + 1);
      }
    }
  }

  /** Whoever uses this file logs in without an exec plugin: the first user named by the first current context. */
  ghost predicate NeedsNoExec(doc: Doc) {
    forall i: nat, j: nat ::
      IsFirstContext(doc, doc.current, i) && IsFirstUser(doc, doc.contexts[i].user, j) ==> !doc.users[j].exec
  }

  /** The file cut down to its current context, with a token in place of whatever the user had. */
  ghost predicate IsCutDown(doc: Doc, made: Doc) {
    && made.current == doc.current
    && (exists i: nat, j: nat ::
          && IsFirstContext(doc, doc.current, i) && IsFirstUser(doc, doc.contexts[i].user, j)
          && made.contexts == [doc.contexts[i]] && doc.contexts[i].cluster in doc.clusters
          && made.clusters == {doc.contexts[i].cluster}
          && (exists token :: token != "" && made.users == [User(doc.contexts[i].user, token, false, false)]))
  }

  /** The current context names a cluster that is not there. */
  ghost predicate MissesCluster(doc: Doc) {
    exists i: nat :: IsFirstContext(doc, doc.current, i) && doc.contexts[i].cluster !in doc.clusters
  }

  /** Handed over as it is, or cut down. */
  ghost predicate IsUploadOf(doc: Doc, made: Doc) {
    made == doc || IsCutDown(doc, made)
  }

  lemma CutDownIs(doc: Doc, ctx: ContextEntry, user: User, token: string, made: Doc)
    requires FindContext(doc.contexts, doc.current) == Some(ctx) && FindUser(doc.users, ctx.user) == Some(user)
    requires token != "" && ctx.cluster in doc.clusters
    requires made == Doc(doc.current, [ctx], [User(ctx.user, token, false, false)], {ctx.cluster})
    ensures IsCutDown(doc, made)
  {
    ContextIsFirst(doc, doc.current, doc.contexts, 0);
    UserIsFirst(doc, ctx.user, doc.users, 0);
  }

  lemma UsableNeedsNoExec(doc: Doc)
    requires var ctx := FindContext(doc.contexts, doc.current);
      ctx.Some? ==> var user := FindUser(doc.users, ctx.value.user); user.Some? ==> !user.value.exec
    ensures NeedsNoExec(doc)
  {
    forall i: nat, j: nat | IsFirstContext(doc, doc.current, i) && IsFirstUser(doc, doc.contexts[i].user, j)
      ensures !doc.users[j].exec
    {
      ContextIsFirst(doc, doc.current, doc.contexts, 0);
      UserIsFirst(doc, doc.contexts[i].user, doc.users, 0);
    }
  }

  /* ---------- ranking ---------- */

  datatype Candidate = Candidate(score: int, name: string)

  function HeuristicScore(context: string, user: string): int {
    var blob := Lower(context + " " + user);
    (if Contains(blob, "cluster-admin") then 100 else 0)
    + (if Contains(blob, "htpasswd-cluster-admin") then 80 else 0)
    + (if "htpasswd-" <= Lower(user) then 40 else 0)
  }

  function Score(doc: Doc, entry: ContextEntry): int {
    var user := FindUser(doc.users, entry.user);
    HeuristicScore(entry.name, entry.user)
    + (if user.Some? && user.value.clientCert then 50 else 0)
    + (if entry.name == doc.current then 10 else 0)
  }

  /** The points of a context, by what its name and its user's say, whose certificate it uses, and whether it is the
      current one. */
  lemma ScoreIs(doc: Doc, entry: ContextEntry)
    ensures var blob := entry.name + " " + entry.user;
      var certified := exists j: nat :: IsFirstUser(doc, entry.user, j) && doc.users[j].clientCert;
      Score(doc, entry) ==
        (if Says(blob, "cluster-admin") then 100 else 0) + (if Says(blob, "htpasswd-cluster-admin") then 80 else 0)
        + (if |entry.user| >= 9 && Lower(entry.user[..9]) == "htpasswd-" then 40 else 0)
        + (if certified then 50 else 0) + (if entry.name == doc.current then 10 else 0)
  {
    var blob := entry.name + " " + entry.user;
    SaysIffLowerContains(blob, "cluster-admin");
    SaysIffLowerContains(blob, "htpasswd-cluster-admin");
    UserIsFirst(doc, entry.user, doc.users, 0);
    if |entry.user| >= 9 {
      assert Lower(entry.user[..9]) == Lower(entry.user)[..9];
    }
  }

  /** A context that names the htpasswd cluster admin comes before every one that says nothing of a cluster admin. */
  lemma HtpasswdAdminComesFirst(doc: Doc, a: ContextEntry, b: ContextEntry)
    requires Says(a.name + " " + a.user, "htpasswd-cluster-admin") && !Says(b.name + " " + b.user, "cluster-admin")
    ensures Precedes(Candidate(Score(doc, a), a.name), Candidate(Score(doc, b), b.name))
    ensures !Precedes(Candidate(Score(doc, b), b.name), Candidate(Score(doc, a), a.name))
  {
    ScoreIs(doc, a);
    ScoreIs(doc, b);
    LongerSaysShorter(a.name + " " + a.user);
    if Says(b.name + " " + b.user, "htpasswd-cluster-admin") {
      LongerSaysShorter(b.name + " " + b.user);
    }
  }

  lemma LongerSaysShorter(blob: string)
    requires Says(blob, "htpasswd-cluster-admin")
    ensures Says(blob, "cluster-admin")
  {
    var i: nat :| i + 22 <= |blob| && ReadsAt(blob, "htpasswd-cluster-admin", i);
    assert blob[i + 9..i + 22] == blob[i..i + 22][9..];
    assert Lower(blob[i..i + 22][9..]) == Lower(blob[i..i + 22])[9..];
    assert "htpasswd-cluster-admin"[9..] == "cluster-admin";
    assert ReadsAt(blob, "cluster-admin", i + 9);
  }

  /** The sort key (-score, name). */
  predicate Precedes(a: Candidate, b: Candidate) {
    a.score > b.score || (a.score == b.score && LexLeq(a.name, b.name))
  }

  ghost predicate Ranked(cs: seq<Candidate>) {
    forall i, j :: 0 <= i < j < |cs| ==> Precedes(cs[i], cs[j])
  }

  function Rank(c: Candidate, cs: seq<Candidate>): (r: seq<Candidate>)
    ensures multiset(r) == multiset{c} + multiset(cs)
  {
    if cs == [] then [c]
    else if Precedes(c, cs[0]) then [c] + cs
    else
      assert cs == [cs[0]] + cs[1..];
      [cs[0]] + Rank(c, cs[1..])
  }

  lemma PrecedesIsOrder(a: Candidate, b: Candidate, c: Candidate)
    ensures Precedes(a, b) || Precedes(b, a)
    ensures Precedes(a, b) && Precedes(b, a) ==> a == b
    ensures Precedes(a, b) && Precedes(b, c) ==> Precedes(a, c)
  {
    LexTotal(a.name, b.name);
    if LexLeq(a.name, b.name) && LexLeq(b.name, c.name) {
      LexTransitive(a.name, b.name, c.name);
    }
  }

  lemma {:induction false} RankKeepsOrder(c: Candidate, cs: seq<Candidate>)
    requires Ranked(cs)
    ensures Ranked(Rank(c, cs))
  {
    if cs != [] {
      PrecedesIsOrder(c, cs[0], c);
      if Precedes(c, cs[0]) {
        forall j | 0 < j < |cs| ensures Precedes(c, cs[j]) {
          PrecedesIsOrder(c, cs[0], cs[j]);
        }
      } else {
        RankKeepsOrder(c, cs[1..]);
        var rest := Rank(c, cs[1..]);
        forall j | 0 <= j < |rest| ensures Precedes(cs[0], rest[j]) {
          assert rest[j] in multiset(rest);
          assert rest[j] == c || rest[j] in cs[1..];
        }
      }
    }
  }

  /** Candidates in the order in which they are probed. */
  ghost predicate IsCandidate(doc: Doc, preferred: string, c: Candidate) {
    if preferred != "" then c == Candidate(0, preferred)
    else exists entry :: entry in doc.contexts && c == Candidate(Score(doc, entry), entry.name)
  }

  /** An admin candidate that no other admin candidate precedes. */
  ghost predicate IsChoice(doc: Doc, preferred: string, isAdmin: string -> bool, name: string) {
    exists c :: IsCandidate(doc, preferred, c) && c.name == name && isAdmin(name)
                && forall d :: IsCandidate(doc, preferred, d) && isAdmin(d.name) ==> Precedes(c, d)
  }

  /* ---------- files ---------- */

  /** The temporary directory. `broken` collects files whose dump failed in a way the code does not clean up. */
  class Workspace {
    const isAdmin: string -> bool  // what the cluster answers when asked with this context
    const hasOc: bool  // there is an oc binary to ask with
    const source: Doc
    var files: map<nat, Doc>
    var nextId: nat
    ghost var broken: set<nat>
    ghost var faults: nat  // reads, writes and calls that failed

    ghost predicate Valid()
      reads this
    {
      (forall id :: id in files ==> id < nextId) && broken <= files.Keys
    }

    /** Nothing but files with a broken dump has been added. */
    twostate predicate Clean()
      reads this
    {
      && Valid()
      && (forall id :: id in broken && id !in old(broken) ==> id >= old(nextId))
      && old(broken) <= broken
      && old(nextId) <= nextId
      && files.Keys == old(files.Keys) + broken
      && (forall id :: id in old(files) ==> files[id] == old(files[id]))
    }

    /** Nothing but files with a broken dump and the one the caller now owns. */
    twostate predicate Owns(path: Path, ephemeral: bool, doc: Doc)
      reads this
    {
      && Valid()
      && (forall id :: id in broken && id !in old(broken) ==> id >= old(nextId))
      && old(broken) <= broken
      && old(nextId) <= nextId
      && (ephemeral == path.Temp?)
      && (ephemeral ==> path.id >= old(nextId) && path.id !in broken && path.id in files && files[path.id] == doc)
      && files.Keys == old(files.Keys) + broken + (if ephemeral then {path.id} else {})
      && (forall id :: id in old(files) ==> files[id] == old(files[id]))
    }

    constructor (source: Doc, isAdmin: string -> bool, hasOc: bool)
      ensures Valid() && this.source == source && this.isAdmin == isAdmin && this.hasOc == hasOc
      ensures files == map[] && broken == {} && faults == 0
    {
      faults := 0;
      this.source := source;
      this.hasOc := hasOc;
      this.isAdmin := isAdmin;
      files, nextId, broken := map[], 0, {};
    }

    method Unlink(path: Path)
      requires Valid() && path.Temp? && path.id !in broken
      modifies this`files
      ensures Valid() && files == old(files) - {path.id}
    {
      files := files - {path.id};
    }

    /** A read, a write or a call that may fail, with any error but the one for want of an admin context. */
    method Attempt() returns (fault: Option<Error>)
      modifies this`faults
      ensures fault != Some(NoAdminContext)
      ensures faults == old(faults) + if fault.Some? then 1 else 0
    {
      fault := *;
      if fault == Some(NoAdminContext) {
        fault := Some(AppError);
      }
      if fault.Some? {
        faults := faults + 1;
      }
    }

    /** Create a temporary file and dump `doc` into it. */
    method Dump(doc: Doc) returns (r: Result<Path>)
      requires Valid()
      modifies this`files, this`nextId, this`broken, this`faults
      ensures r != Raised(OtherError) ==> broken == old(broken)
      ensures r.Ok? ==> Owns(r.value, true, doc)
      ensures r.Raised? ==> Clean() && r != Raised(NoAdminContext) && faults > old(faults)
      ensures r.Ok? ==> faults == old(faults)
    {
      var uncreated := Attempt();
      if uncreated.Some? {
        return Raised(OsError);
      }
      var tmp := Temp(nextId);
      files := files[nextId := doc];
      nextId := nextId + 1;
      var fault := Attempt();
      if fault.None? {
        return Ok(tmp);
      }
      if fault != Some(OsError) { fault := Some(OtherError); }
      if fault == Some(OsError) {
        files := files - {tmp.id};
      } else {
        broken := broken + {tmp.id};
      }
      return Raised(fault.value);
    }

    method WriteKubeconfigCurrentContext(doc: Doc, name: string) returns (r: Result<Path>)
      requires Valid()
      modifies this`files, this`nextId, this`broken, this`faults
      ensures r != Raised(OtherError) ==> broken == old(broken)
      ensures r.Ok? ==> HasContext(doc, name) && Owns(r.value, true, doc.(current := name))
      ensures r.Raised? ==> Clean() && r != Raised(NoAdminContext)
      ensures r.Raised? && faults == old(faults) ==> !HasContext(doc, name)
      ensures old(faults) <= faults
    {
      if !HasContext(doc, name) {
        return Raised(AppError);
      }
      r := Dump(doc.(current := name));
    }

    method ContextHasClusterAdmin(name: string) returns (r: Result<bool>)
      requires Valid()
      modifies this`files, this`nextId, this`broken, this`faults
      ensures r != Raised(OtherError) ==> broken == old(broken)
      ensures Clean()
      ensures r.Ok? ==> r.value == (hasOc && isAdmin(name))
      ensures r != Raised(NoAdminContext)
      ensures r.Raised? && faults == old(faults) ==> !HasContext(source, name)
      ensures old(faults) <= faults
    {
      var unread := Attempt();
      if unread.Some? {
        return Raised(AppError);
      }
      var temp: Option<Path> := None;
      if name != source.current {
        var written := WriteKubeconfigCurrentContext(source, name);
        if written.Raised? {
          return Raised(written.error);
        }
        temp := Some(written.value);
      }
      var fault := Attempt();
      r := if fault.Some? then Raised(fault.value) else if !hasOc then Ok(false) else Ok(isAdmin(name));
      if temp.Some? {
        Unlink(temp.value);
      }
    }

    method Candidates(preferred: string) returns (cs: seq<Candidate>)
      ensures Ranked(cs)
      ensures forall c :: c in cs <==> IsCandidate(source, preferred, c)
    {
      if preferred != "" {
        return [Candidate(0, preferred)];
      }
      cs := [];
      for i := 0 to |source.contexts|
        invariant Ranked(cs)
        invariant forall c :: c in cs <==>
                    exists entry :: entry in source.contexts[..i] && c == Candidate(Score(source, entry), entry.name)
      {
        var entry := source.contexts[i];
        var c := Candidate(Score(source, entry), entry.name);
        RankKeepsOrder(c, cs);
        var ranked := Rank(c, cs);
        forall d ensures d in ranked <==> d == c || d in cs {
          assert d in multiset(ranked) <==> d == c || d in multiset(cs);
        }
        assert source.contexts[..i + 1] == source.contexts[..i] + [entry];
        cs := ranked;
      }
      assert source.contexts[..|source.contexts|] == source.contexts;
    }

    /** A candidate that can be seen to be a cluster admin: without an oc binary none can. */
    ghost predicate SomeAdmin(preferred: string) {
      hasOc && exists c :: IsCandidate(source, preferred, c) && isAdmin(c.name)
    }

    /** The first admin context in ranking order. */
    method FirstAdmin(preferred: string) returns (r: Result<Option<string>>)
      requires Valid()
      modifies this`files, this`nextId, this`broken, this`faults
      ensures r != Raised(OtherError) ==> broken == old(broken)
      ensures Clean()
      ensures r.Ok? && r.value.Some? ==> hasOc && IsChoice(source, preferred, isAdmin, r.value.value)
      ensures r != Raised(NoAdminContext)
      ensures r.Ok? && r.value.None? ==> !SomeAdmin(preferred)
      ensures r.Raised? && CanResolve(preferred) ==> faults > old(faults)
      ensures old(faults) <= faults
    {
      var cs := Candidates(preferred);
      CandidatesAreContexts(preferred);
      for i := 0 to |cs|
        invariant Clean() && broken == old(broken) && faults >= old(faults)
        invariant forall j :: 0 <= j < i ==> !(hasOc && isAdmin(cs[j].name))
      {
        var admin := ContextHasClusterAdmin(cs[i].name);
        if admin.Raised? {
          return Raised(admin.error);
        }
        if admin.value {
          FirstAdminIsChoice(preferred, cs, i);
          return Ok(Some(cs[i].name));
        }
      }
      return Ok(None);
    }

    lemma CandidatesAreContexts(preferred: string)
      ensures CanResolve(preferred) ==> forall c :: IsCandidate(source, preferred, c) ==> HasContext(source, c.name)
    {
      forall entry | entry in source.contexts ensures HasContext(source, entry.name) {
        var i :| 0 <= i < |source.contexts| && source.contexts[i] == entry;
      }
    }

    lemma FirstAdminIsChoice(preferred: string, cs: seq<Candidate>, i: nat)
      requires Ranked(cs) && i < |cs| && isAdmin(cs[i].name)
      requires forall c :: c in cs <==> IsCandidate(source, preferred, c)
      requires forall j :: 0 <= j < i ==> !isAdmin(cs[j].name)
      ensures IsChoice(source, preferred, isAdmin, cs[i].name)
    {
      forall d | IsCandidate(source, preferred, d) && isAdmin(d.name) ensures Precedes(cs[i], d) {
        var j :| 0 <= j < |cs| && cs[j] == d;
        PrecedesIsOrder(d, d, d);
      }
      assert IsCandidate(source, preferred, cs[i]);
    }

    ghost predicate CanResolve(preferred: string) {
      source.contexts != [] && (preferred != "" ==> HasContext(source, preferred))
    }

    /** Select a cluster-admin context; a copy is written only when it is not the current one. */
    method ResolveExternalKubeconfigContext(preferred: string, requireAdmin: bool)
      returns (r: Result<(Path, bool)>, ghost chosen: Doc)
      requires Valid()
      modifies this`files, this`nextId, this`broken, this`faults
      ensures r != Raised(OtherError) ==> broken == old(broken)
      ensures r.Raised? ==> Clean()
      ensures r.Ok? ==> Owns(r.value.0, r.value.1, chosen) && (r.value.0.Given? ==> chosen == source)
      ensures r.Ok? && (requireAdmin || preferred != "") ==>
                chosen == source.(current := chosen.current) && IsChoice(source, preferred, isAdmin, chosen.current)
      ensures r.Ok? && !requireAdmin && preferred == "" ==> r.value == (Given, false)
      ensures !CanResolve(preferred) ==> r == Raised(AppError)
      ensures r == Raised(NoAdminContext) ==> requireAdmin || preferred != ""
      ensures (requireAdmin || preferred != "") && (r.Ok? || r == Raised(NoAdminContext)) ==>
                (r.Ok? <==> SomeAdmin(preferred))
      ensures r.Raised? && faults == old(faults) ==>
                if CanResolve(preferred) then r == Raised(NoAdminContext) else r == Raised(AppError)
      ensures old(faults) <= faults
    {
      chosen := source;
      var unread := Attempt();
      if unread.Some? || source.contexts == [] {
        return Raised(AppError), source;
      }
      if preferred != "" && !HasContext(source, preferred) {
        return Raised(AppError), source;
      }
      if !requireAdmin && preferred == "" {
        return Ok((Given, false)), source;
      }
      var admin := FirstAdmin(preferred);
      if admin.Raised? {
        return Raised(admin.error), source;
      }
      if admin.value.None? {
        return Raised(NoAdminContext), source;
      }
      if admin.value.value == source.current {
        return Ok((Given, false)), source;
      }
      var written := WriteKubeconfigCurrentContext(source, admin.value.value);
      if written.Raised? {
        return Raised(written.error), source;
      }
      chosen := source.(current := admin.value.value);
      return Ok((written.value, true)), chosen;
    }

    /* ---------- token materialisation ---------- */

    function Content(path: Path): Doc
      requires path.Temp? ==> path.id in files
      reads this
    {
      if path.Temp? then files[path.id] else source
    }

    /** Does a pod without `oc` get by with this file: either its current user is unknown, or it needs no exec. */
    predicate Usable(doc: Doc) {
      var ctx := FindContext(doc.contexts, doc.current);
      ctx.Some? ==> var user := FindUser(doc.users, ctx.value.user); user.Some? ==> !user.value.exec
    }

    /** The bearer token: resolved through the API, else through the exec plugin, which never answers "". */
    method ResolveToken(user: User) returns (r: Result<string>)
      modifies this`faults
      ensures r.Ok? && user.exec ==> r.value != ""
      ensures r != Raised(NoAdminContext)
      ensures old(faults) <= faults && (r.Raised? || r.value == "" ==> old(faults) < faults)
    {
      var fault := Attempt();
      if fault.Some? {
        return Raised(fault.value);
      }
      var token: string := *;
      if token == "" {
        faults := faults + 1;
        if user.exec {
          token := *;
          if token == "" {
            return Raised(AppError);
          }
        }
      }
      return Ok(token);
    }

    /** The copy to hand over instead of this file, unless it may stay as it is. */
    method CutDown(doc: Doc) returns (r: Result<Option<Doc>>)
      modifies this`faults
      ensures r != Raised(NoAdminContext) && old(faults) <= faults
      ensures r.Raised? && faults == old(faults) ==> r == Raised(AppError) && MissesCluster(doc)
      ensures r.Ok? && r.value.None? ==> Usable(doc) && NeedsNoExec(doc)
      ensures r.Ok? && r.value.Some? ==>
                IsCutDown(doc, r.value.value) && Usable(r.value.value) && NeedsNoExec(r.value.value)
    {
      if Usable(doc) {
        UsableNeedsNoExec(doc);
      }
      var ctx := FindContext(doc.contexts, doc.current);
      if ctx.None? {
        return Ok(None);
      }
      var user := FindUser(doc.users, ctx.value.user);
      if user.None? || (user.value.token == "" && !user.value.exec) {
        return Ok(None);
      }
      var token := ResolveToken(user.value);
      if token.Raised? {
        return Raised(token.error);
      }
      if token.value == "" {
        return if user.value.token != "" then Ok(None) else Raised(AppError);
      }
      if user.value.token != "" && token.value == user.value.token && !user.value.exec {
        return Ok(None);
      }
      if ctx.value.cluster !in doc.clusters {
        ContextIsFirst(doc, doc.current, doc.contexts, 0);
        return Raised(AppError);
      }
      var minimal := Doc(doc.current, [ctx.value], [User(ctx.value.user, token.value, false, false)],
                         {ctx.value.cluster});
      CutDownIs(doc, ctx.value, user.value, token.value, minimal);
      NamedByCurrent(doc.contexts, doc.current);
      UsableNeedsNoExec(minimal);
      return Ok(Some(minimal));
    }

    lemma NamedByCurrent(contexts: seq<ContextEntry>, name: string)
      ensures FindContext(contexts, name).Some? ==> FindContext(contexts, name).value.name == name
    {
    }

    /** What happens between choosing a context and handing over a file, inside the outermost try. */
    method MaterializeFrom(path: Path, ephemeral: bool, ghost doc: Doc)
      returns (r: Result<(Path, bool)>, ghost uploaded: Doc)
      requires Valid() && (path.Temp? ==> path.id in files) && doc == Content(path) && ephemeral == path.Temp?
      requires ephemeral ==> path.id in files && path.id !in broken
      modifies this`files, this`nextId, this`broken, this`faults
      ensures r != Raised(NoAdminContext)
      ensures r != Raised(OtherError) ==> broken == old(broken)
      ensures r.Raised? ==> Clean()
      ensures r.Ok? && r.value.0 == path ==> r.value.1 == ephemeral && Clean() && uploaded == doc
      ensures r.Ok? && r.value.0 != path ==>
                r.value.1 && Replaced(path, ephemeral, r.value.0, uploaded) && uploaded.current == doc.current
      ensures r.Ok? ==> Usable(uploaded) && NeedsNoExec(uploaded)
      ensures r.Ok? && r.value.0 != path ==> IsCutDown(doc, uploaded)
      ensures old(faults) <= faults
      ensures r.Raised? && faults == old(faults) ==> r == Raised(AppError) && MissesCluster(doc)
    {
      uploaded := doc;
      var unread := Attempt();
      if unread.Some? {
        return Raised(AppError), doc;
      }
      var minimal := CutDown(Content(path));
      if minimal.Raised? {
        return Raised(minimal.error), doc;
      }
      if minimal.value.None? {
        return Ok((path, ephemeral)), doc;
      }
      uploaded := minimal.value.value;
      var tmp := Dump(minimal.value.value);
      if tmp.Raised? {
        return Raised(tmp.error), doc;
      }
      if ephemeral {
        Unlink(path);
      }
      r := Ok((tmp.value, true));
    }

    /** A new file took the place of the context copy. */
    twostate predicate Replaced(path: Path, ephemeral: bool, made: Path, doc: Doc)
      requires ephemeral == path.Temp?
      reads this
    {
      && Valid()
      && broken == old(broken) && old(nextId) <= nextId
      && made.Temp? && made.id >= old(nextId) && made.id !in broken && made.id in files && files[made.id] == doc
      && files.Keys == old(files.Keys) + {made.id} - (if ephemeral then {path.id} else {})
      && (forall id :: id in files && id != made.id ==> files[id] == old(files[id]))
    }

    /** The context copy is gone, and nothing but files with a broken dump has been added. */
    twostate predicate Dropped(path: Path)
      reads this
    {
      && Valid()
      && (forall id :: id in broken && id !in old(broken) ==> id >= old(nextId))
      && old(broken) <= broken && old(nextId) <= nextId
      && files.Keys == old(files.Keys) - (if path.Temp? then {path.id} else {}) + broken
      && (forall id :: id in old(files) && path != Temp(id) ==> files[id] == old(files[id]))
    }

    /** The errors that nothing failing around the code explains: no such context; none that can be seen to be admin;
        or the chosen one names a cluster the file does not have. */
    ghost predicate HasToRaise(preferred: string, requireAdmin: bool, error: Error) {
      if !CanResolve(preferred) then error == AppError
      else
        || (error == NoAdminContext && !SomeAdmin(preferred))
        || (error == AppError && exists name ::
              && (if requireAdmin || preferred != "" then IsChoice(source, preferred, isAdmin, name)
                  else name == source.current)
              && MissesCluster(source.(current := name)))
    }

    /** The handler around it: a caught or passing error takes the context copy away. */
    method MaterializeOrDrop(path: Path, ephemeral: bool, ghost doc: Doc)
      returns (r: Result<(Path, bool)>, ghost uploaded: Doc)
      requires Valid() && (path.Temp? ==> path.id in files) && doc == Content(path) && ephemeral == path.Temp?
      requires ephemeral ==> path.id in files && path.id !in broken && path.id < nextId
      modifies this`files, this`nextId, this`broken, this`faults
      ensures r != Raised(NoAdminContext)
      ensures r != Raised(OtherError) ==> broken == old(broken)
      ensures r.Raised? ==> Dropped(path)
      ensures r.Ok? && r.value.0 == path ==> r.value.1 == ephemeral && Clean() && uploaded == doc
      ensures r.Ok? && r.value.0 != path ==>
                r.value.1 && Replaced(path, ephemeral, r.value.0, uploaded) && uploaded.current == doc.current
      ensures r.Ok? ==> Usable(uploaded) && NeedsNoExec(uploaded)
      ensures r.Ok? ==> IsUploadOf(doc, uploaded)
      ensures old(faults) <= faults
      ensures r.Raised? && faults == old(faults) ==> r == Raised(AppError) && MissesCluster(doc)
    {
      r, uploaded := MaterializeFrom(path, ephemeral, doc);
      if r.Raised? && ephemeral {
        Unlink(path);
      }
    }

    method MaterializeKubeconfigForTekton(preferred: string, requireAdmin: bool)
      returns (r: Result<(Path, bool)>, ghost uploaded: Doc)
      requires Valid()
      modifies this`files, this`nextId, this`broken, this`faults
      ensures r != Raised(OtherError) ==> broken == old(broken)
      ensures r.Raised? ==> Clean()
      ensures r.Ok? ==> Owns(r.value.0, r.value.1, uploaded) && Usable(uploaded) && NeedsNoExec(uploaded)
      ensures r.Ok? ==> IsUploadOf(source.(current := uploaded.current), uploaded)
      ensures old(faults) <= faults
      ensures r.Raised? && faults == old(faults) ==> HasToRaise(preferred, requireAdmin, r.error)
      ensures r.Ok? && r.value.0.Given? ==> uploaded == source
      ensures r.Ok? && (requireAdmin || preferred != "") ==> IsChoice(source, preferred, isAdmin, uploaded.current)
      ensures (requireAdmin || preferred != "") && (r.Ok? || r == Raised(NoAdminContext)) ==>
                (r.Ok? <==> SomeAdmin(preferred))
    {
      var context, chosen := ResolveExternalKubeconfigContext(preferred, requireAdmin);
      if context.Raised? {
        return Raised(context.error), source;
      }
      var path, ephemeral := context.value.0, context.value.1;
      r, uploaded := MaterializeOrDrop(path, ephemeral, chosen);
    }

    /** The upload: verify the login, render the Secret, and drop the temporary file in every case. */
    method UploadKubeconfig(preferred: string) returns (r: Result<Doc>)
      requires Valid()
      modifies this`files, this`nextId, this`broken, this`faults
      ensures r != Raised(OtherError) ==> broken == old(broken)
      ensures Clean()
      ensures r != Raised(OtherError) ==> files == old(files)
      ensures r.Ok? ==> Usable(r.value) && IsChoice(source, preferred, isAdmin, r.value.current)
      ensures r.Ok? ==> NeedsNoExec(r.value) && IsUploadOf(source.(current := r.value.current), r.value)
      ensures r.Raised? && faults == old(faults) ==> HasToRaise(preferred, true, r.error)
      ensures r.Ok? || r == Raised(NoAdminContext) ==> (r.Ok? <==> SomeAdmin(preferred))
    {
      ghost var uploaded: Doc;
      var materialized;
      materialized, uploaded := MaterializeKubeconfigForTekton(preferred, true);
      if materialized.Raised? {
        return Raised(materialized.error);
      }
      var path, ephemeral := materialized.value.0, materialized.value.1;
      var fault := Attempt();
      r := if fault.Some? then Raised(fault.value)
           else Ok(Content(path));
      if ephemeral {
        Unlink(path);
      }
    }
  }
}
