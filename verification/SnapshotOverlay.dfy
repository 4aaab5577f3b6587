/** Overriding a chart's image references and manifest commits with those of a build snapshot. */
module SnapshotOverlay {
  import opened Basics

  /* ---------- image references ---------- */

  /** Where the last character `c` stands, or -1. */
  function LastIndex(s: string, c: char): (i: int)
    ensures -1 <= i < |s| && (i >= 0 ==> s[i] == c)
    ensures forall j :: i < j < |s| ==> s[j] != c
  {
    if s == "" then -1 else if s[|s| - 1] == c then |s| - 1 else LastIndex(s[..|s| - 1], c)
  }

  function FirstIndex(s: string, c: char): (i: nat)
    ensures i <= |s| && (i < |s| ==> s[i] == c)
    ensures forall j :: 0 <= j < i ==> s[j] != c
  {
    if s == "" || s[0] == c then 0 else 1 + FirstIndex(s[1..], c)
  }

  /** The registry, organisation and name of an image reference. */
  function Repo(image: string): string {
    if '@' in image then image[..FirstIndex(image, '@')]
    else
      var colon := LastIndex(image, ':');
      if colon >= 0 && '/' !in image[colon + 1..] then image[..colon] else image
  }

  /** A repository path: no digest, and no colon after its last slash (one may stand before, in front of a port). */
  predicate IsPath(s: string) {
    '@' !in s && (LastIndex(s, ':') >= 0 ==> '/' in s[LastIndex(s, ':') + 1..])
  }

  predicate IsTag(s: string) {
    '@' !in s && ':' !in s && '/' !in s
  }

  lemma LastIndexIs(s: string, c: char, i: int)
    requires -1 <= i < |s| && (i >= 0 ==> s[i] == c)
    requires forall j :: i < j < |s| ==> s[j] != c
    ensures LastIndex(s, c) == i
  {
  }

  /** The four forms of a reference to one repository, and the repository found in each. */
  lemma RepoOfReference(path: string, tag: string, digest: string)
    requires IsPath(path) && IsTag(tag)
    ensures Repo(path) == path
    ensures Repo(path + ":" + tag) == path
    ensures Repo(path + "@" + digest) == path
    ensures Repo(path + ":" + tag + "@" + digest) == path + ":" + tag
  {
    var tagged := path + ":" + tag;
    assert forall j :: 0 <= j < |tagged| ==>
      tagged[j] == if j < |path| then path[j] else if j == |path| then ':' else tag[j - |path| - 1];
    LastIndexIs(tagged, ':', |path|);
    assert tagged[|path| + 1..] == tag && tagged[..|path|] == path;
    RepoOfDigest(path, digest);
    RepoOfDigest(tagged, digest);
  }

  lemma RepoOfDigest(before: string, digest: string)
    requires '@' !in before
    ensures Repo(before + "@" + digest) == before
  {
    var image := before + "@" + digest;
    assert image[|before|] == '@';
    assert forall j :: 0 <= j < |before| ==> image[j] == before[j];
    assert FirstIndex(image, '@') == |before|;
    assert image[..|before|] == before;
  }

  /* ---------- the maps made from a snapshot ---------- */

  datatype Built = Built(image: string, url: string, commit: string)
  datatype Source = Source(commit: string, component: string)

  /** A snapshot entry; one that is not a component with an image is skipped. */
  datatype Entry = Entry(name: string, built: Option<Built>)

  predicate NamesRepo(e: Entry, repo: string) {
    e.built.Some? && Repo(e.built.value.image) == repo
  }

  predicate NamesSource(e: Entry, url: string) {
    e.built.Some? && e.built.value.url == url && url != "" && e.built.value.commit != ""
  }

  /** The image of the last component built from this repository. */
  function LatestImage(snapshot: seq<Entry>, repo: string): (image: Option<string>)
    ensures image.Some? ==> Repo(image.value) == repo
  {
    if snapshot == [] then None
    else
      var last := |snapshot| - 1;
      if NamesRepo(snapshot[last], repo) then Some(snapshot[last].built.value.image)
      else LatestImage(snapshot[..last], repo)
  }

  /** The commit and name of the last component with this git URL and a commit. */
  function LatestSource(snapshot: seq<Entry>, url: string): (source: Option<Source>)
    ensures url == "" ==> source.None?
  {
    if snapshot == [] then None
    else
      var last := |snapshot| - 1;
      if NamesSource(snapshot[last], url) then Some(Source(snapshot[last].built.value.commit, snapshot[last].name))
      else LatestSource(snapshot[..last], url)
  }

  /** Each image is filed under its own repository. */
  predicate Sound(images: map<string, string>) {
    forall repo :: repo in images ==> Repo(images[repo]) == repo
  }

  predicate Filed<T(==)>(entries: map<string, T>, key: string, value: Option<T>) {
    if key in entries then value == Some(entries[key]) else value.None?
  }

  lemma OneMoreEntry(snapshot: seq<Entry>, n: nat)
    requires n < |snapshot|
    ensures forall repo :: LatestImage(snapshot[..n + 1], repo) ==
              if NamesRepo(snapshot[n], repo) then Some(snapshot[n].built.value.image)
              else LatestImage(snapshot[..n], repo)
    ensures forall url :: LatestSource(snapshot[..n + 1], url) ==
              if NamesSource(snapshot[n], url) then Some(Source(snapshot[n].built.value.commit, snapshot[n].name))
              else LatestSource(snapshot[..n], url)
  {
    assert snapshot[..n + 1][..n] == snapshot[..n] && snapshot[..n + 1][n] == snapshot[n];
  }

  method BuildMaps(snapshot: seq<Entry>) returns (images: map<string, string>, sources: map<string, Source>)
    ensures Sound(images) && "" !in sources
    ensures forall repo :: Filed(images, repo, LatestImage(snapshot, repo))
    ensures forall url :: Filed(sources, url, LatestSource(snapshot, url))
  {
    images, sources := map[], map[];
    for n := 0 to |snapshot|
      invariant forall repo :: Filed(images, repo, LatestImage(snapshot[..n], repo))
      invariant forall url :: Filed(sources, url, LatestSource(snapshot[..n], url))
    {
      var e := snapshot[n];
      OneMoreEntry(snapshot, n);
      if e.built.Some? {
        images := images[Repo(e.built.value.image) := e.built.value.image];
        if e.built.value.url != "" && e.built.value.commit != "" {
          sources := sources[e.built.value.url := Source(e.built.value.commit, e.name)];
        }
      }
    }
    assert snapshot[..|snapshot|] == snapshot;
    forall repo | repo in images ensures Repo(images[repo]) == repo {
      assert Filed(images, repo, LatestImage(snapshot, repo));
    }
    assert Filed(sources, "", LatestSource(snapshot, ""));
  }

  /* ---------- overriding operands ---------- */

  datatype Operand = Operand(name: string, value: Option<string>)

  function ValueOf(o: Operand): string {
    if o.value.Some? then o.value.value else ""
  }

  function Overridden(images: map<string, string>, o: Operand): Operand {
    var repo := Repo(ValueOf(o));
    if repo in images then o.(value := Some(images[repo])) else o
  }

  /** How many operands name a repository of the snapshot. */
  function Matching(images: map<string, string>, operands: seq<Operand>): nat {
    if operands == [] then 0
    else
      var last := |operands| - 1;
      Matching(images, operands[..last]) + (if Repo(ValueOf(operands[last])) in images then 1 else 0)
  }

  method OverrideOperands(operands: array<Operand>, images: map<string, string>) returns (count: nat)
    modifies operands
    ensures forall i :: 0 <= i < operands.Length ==> operands[i] == Overridden(images, old(operands[i]))
    ensures count == Matching(images, old(operands[..]))
  {
    count := 0;
    ghost var was := operands[..];
    for n := 0 to operands.Length
      invariant forall i :: 0 <= i < n ==> operands[i] == Overridden(images, was[i])
      invariant forall i :: n <= i < operands.Length ==> operands[i] == was[i]
      invariant count == Matching(images, was[..n])
    {
      assert was[..n + 1][..n] == was[..n];
      var repo := Repo(ValueOf(operands[n]));
      if repo in images {
        operands[n] := operands[n].(value := Some(images[repo]));
        count := count + 1;
      }
    }
    assert was[..|was|] == was;
  }

  /** An override never moves an operand to another repository, and a second one changes nothing. */
  lemma OverrideKeepsRepo(images: map<string, string>, o: Operand)
    requires Sound(images)
    ensures Repo(ValueOf(Overridden(images, o))) == Repo(ValueOf(o)) && Overridden(images, o).name == o.name
    ensures Overridden(images, Overridden(images, o)) == Overridden(images, o)
    ensures Overridden(images, o) != o ==> ValueOf(Overridden(images, o)) in images.Values
  {
  }

  /** Overriding again reports as many overrides as the first time, although none changes anything. */
  lemma {:induction false} SameCountAgain(images: map<string, string>, before: seq<Operand>, after: seq<Operand>)
    requires Sound(images) && |before| == |after|
    requires forall i :: 0 <= i < |before| ==> after[i] == Overridden(images, before[i])
    ensures Matching(images, after) == Matching(images, before)
  {
    if before != [] {
      var last := |before| - 1;
      SameCountAgain(images, before[..last], after[..last]);
      OverrideKeepsRepo(images, before[last]);
    }
  }

  /** Maps that file each image under its own repository are the only ones that keep every operand where it is. */
  lemma RepoKeptIffSound(images: map<string, string>)
    requires forall repo :: repo in images ==> '@' !in repo
    ensures (forall o: Operand :: Repo(ValueOf(Overridden(images, o))) == Repo(ValueOf(o))) <==> Sound(images)
  {
    if forall o: Operand :: Repo(ValueOf(Overridden(images, o))) == Repo(ValueOf(o)) {
      forall repo | repo in images ensures Repo(images[repo]) == repo {
        RepoOfDigest(repo, "");
        var o := Operand("", Some(repo + "@"));
        assert repo + "@" + "" == repo + "@";
        assert Repo(ValueOf(Overridden(images, o))) == Repo(ValueOf(o));
      }
    }
  }

  /**
   An operand pinned by digest takes the snapshot's image of its repository when that image carries a tag or a digest;
   an image carrying both is filed under the tagged name and misses it.
   */
  lemma DigestMeetsSnapshot(path: string, tag: string, digest: string, pinned: string, name: string)
    requires IsPath(path) && IsTag(tag)
    ensures var o := Operand(name, Some(path + "@" + pinned));
      && (var image := path + "@" + digest; Overridden(map[Repo(image) := image], o).value == Some(image))
      && (var image := path + ":" + tag; Overridden(map[Repo(image) := image], o).value == Some(image))
      && (var image := path + ":" + tag + "@" + digest; Overridden(map[Repo(image) := image], o) == o)
  {
    RepoOfReference(path, tag, digest);
    RepoOfReference(path, tag, pinned);
    assert |path + ":" + tag| > |path|;
  }

  /* ---------- overriding manifest commits ---------- */

  datatype Manifest = Manifest(url: string, commit: string, refType: string)

  const BRANCH := "branch"
  const COMMIT := "commit"

  function Recommitted(sources: map<string, Source>, m: Manifest): Manifest {
    if m.url !in sources then m
    else Manifest(m.url, sources[m.url].commit, if m.refType == BRANCH then COMMIT else m.refType)
  }

  function Rebuilt(sources: map<string, Source>, manifests: seq<Manifest>): nat {
    if manifests == [] then 0
    else
      var last := |manifests| - 1;
      Rebuilt(sources, manifests[..last]) + (if manifests[last].url in sources then 1 else 0)
  }

  method OverrideManifests(manifests: array<Manifest>, sources: map<string, Source>) returns (count: nat)
    modifies manifests
    ensures forall i :: 0 <= i < manifests.Length ==> manifests[i] == Recommitted(sources, old(manifests[i]))
    ensures count == Rebuilt(sources, old(manifests[..]))
  {
    count := 0;
    ghost var was := manifests[..];
    for n := 0 to manifests.Length
      invariant forall i :: 0 <= i < n ==> manifests[i] == Recommitted(sources, was[i])
      invariant forall i :: n <= i < manifests.Length ==> manifests[i] == was[i]
      invariant count == Rebuilt(sources, was[..n])
    {
      assert was[..n + 1][..n] == was[..n];
      var m := manifests[n];
      if m.url in sources {
        var pinned := if m.refType == BRANCH then COMMIT else m.refType;
        manifests[n] := Manifest(m.url, sources[m.url].commit, pinned);
        count := count + 1;
      }
    }
    assert was[..|was|] == was;
  }

  /** A second override changes nothing, and no manifest of a built source is left following a branch. */
  lemma RecommittedTwice(sources: map<string, Source>, m: Manifest)
    ensures Recommitted(sources, Recommitted(sources, m)) == Recommitted(sources, m)
    ensures m.url in sources ==>
      Recommitted(sources, m).commit == sources[m.url].commit && Recommitted(sources, m).refType != BRANCH
    ensures Recommitted(sources, m).url == m.url
  {
    assert BRANCH[0] == 'b' && COMMIT[0] == 'c';
  }
}
