/** The default name of the Secret that carries an external kubeconfig. */
module SecretName {
  import opened Basics

  predicate IsNameChar(c: char) {
    'a' <= c <= 'z' || '0' <= c <= '9' || c == '-'
  }

  /** A DNS label (section 3.5 of RFC 1034 as relaxed by section 2.1 of RFC 1123), as Kubernetes object names need. */
  predicate IsLabel(s: string) {
    0 < |s| <= 63 && (forall i :: 0 <= i < |s| ==> IsNameChar(s[i])) && s[0] != '-' && s[|s| - 1] != '-'
  }

  function Dashed(s: string): (t: string)
    ensures |t| == |s| && forall i :: 0 <= i < |t| ==> IsNameChar(t[i])
  {
    seq(|s|, i requires 0 <= i < |s| => if IsNameChar(LowerChar(s[i])) then LowerChar(s[i]) else '-')
  }

  /** Each run of dashes becomes one. */
  function Collapsed(s: string): (t: string)
    ensures |t| <= |s| && (forall i :: 0 <= i < |t| ==> t[i] in s)
    ensures forall i :: 0 <= i < |t| - 1 ==> !(t[i] == '-' && t[i + 1] == '-')
    ensures s != "" ==> t != "" && t[0] == s[0]
  {
    if |s| <= 1 then s
    else if s[0] == '-' && s[1] == '-' then Collapsed(s[1..])
    else [s[0]] + Collapsed(s[1..])
  }

  function StripDashes(s: string): (t: string)
    ensures |t| <= |s| && (forall i :: 0 <= i < |t| ==> t[i] in s)
    ensures t != "" ==> t[0] != '-' && t[|t| - 1] != '-'
    ensures (forall i :: 0 <= i < |s| - 1 ==> !(s[i] == '-' && s[i + 1] == '-'))
      ==> forall i :: 0 <= i < |t| - 1 ==> !(t[i] == '-' && t[i + 1] == '-')
    decreases |s|
  {
    if s == "" then ""
    else if s[0] == '-' then StripDashes(s[1..])
    else if s[|s| - 1] == '-' then StripDashes(s[..|s| - 1])
    else s
  }

  function Slug(s: string): (t: string)
    ensures forall i :: 0 <= i < |t| ==> IsNameChar(t[i])
    ensures t != "" ==> t[0] != '-' && t[|t| - 1] != '-'
    ensures forall i :: 0 <= i < |t| - 1 ==> !(t[i] == '-' && t[i + 1] == '-')
  {
    StripDashes(Collapsed(Dashed(s)))
  }

  function Cut(s: string, n: nat): (t: string)
    ensures |t| <= n
  {
    if |s| <= n then s else s[..n]
  }

  function OrElse(s: string, other: string): string {
    if s == "" then other else s
  }

  const PREFIX := "rhoai-e2e-kubeconfig-"

  function OwnerPart(owner: string): string {
    OrElse(Cut(Slug(OrElse(owner, "user")), 16), "user")
  }

  function ClusterPart(cluster: string, room: nat): string {
    OrElse(StripDashes(Cut(Slug(cluster), room)), "cluster")
  }

  /** The name for this cluster label ("" when it is not known) and owner. */
  function DefaultSecretName(owner: string, cluster: string): string {
    if cluster != "" then
      var who := OwnerPart(owner);
      PREFIX + ClusterPart(cluster, Max(0, 63 - |PREFIX| - |who| - 1)) + "-" + who
    else PREFIX + OrElse(Cut(Slug(OrElse(owner, "user")), 40), "user")
  }

  /** The place at which an owner is cut off: 16 letters beside a cluster label, 40 alone. */
  function Limit(cluster: string): nat {
    if cluster != "" then 16 else 40
  }

  /** Cutting a slug leaves a dash at the end exactly when the last kept letter is one. */
  lemma CutEnds(s: string, n: nat)
    requires n > 0
    ensures var t := Cut(Slug(s), n);
      && (forall i :: 0 <= i < |t| ==> IsNameChar(t[i])) && (t != "" ==> t[0] != '-')
      && (t != "" && t[|t| - 1] == '-' <==> |Slug(s)| > n && Slug(s)[n - 1] == '-')
  {
    CutOf(Slug(s), n);
  }

  lemma CutOf(s: string, n: nat)
    requires n > 0 && (s != "" ==> s[0] != '-' && s[|s| - 1] != '-') && forall i :: 0 <= i < |s| ==> IsNameChar(s[i])
    ensures var t := Cut(s, n);
      && (forall i :: 0 <= i < |t| ==> IsNameChar(t[i])) && (t != "" ==> t[0] != '-')
      && (t != "" && t[|t| - 1] == '-' <==> |s| > n && s[n - 1] == '-')
  {
  }

  lemma ClusterWord()
    ensures forall i :: 0 <= i < 7 ==> IsNameChar("cluster"[i])
  {
  }

  lemma ClusterPartFits(cluster: string, room: nat)
    requires room >= 7
    ensures var c := ClusterPart(cluster, room);
      0 < |c| <= room && (forall i :: 0 <= i < |c| ==> IsNameChar(c[i]))
  {
    ClusterWord();
    var slug := Slug(cluster);
    var cut := Cut(slug, room);
    assert forall i :: 0 <= i < |cut| ==> IsNameChar(cut[i]);
    StrippedIsNames(cut);
  }

  lemma StrippedIsNames(s: string)
    requires forall i :: 0 <= i < |s| ==> IsNameChar(s[i])
    ensures forall i :: 0 <= i < |StripDashes(s)| ==> IsNameChar(StripDashes(s)[i])
  {
    forall i | 0 <= i < |StripDashes(s)| ensures IsNameChar(StripDashes(s)[i]) {
      assert StripDashes(s)[i] in s;
    }
  }

  lemma PrefixIsName()
    ensures forall i :: 0 <= i < |PREFIX| ==> IsNameChar(PREFIX[i])
    ensures |PREFIX| == 21 && PREFIX[0] == 'r'
  {
  }

  lemma UserIsName()
    ensures forall i :: 0 <= i < 4 ==> IsNameChar("user"[i])
    ensures "user"[3] == 'r'
  {
  }

  lemma OwnerCut(owner: string, n: nat)
    requires n >= 4
    ensures var t, s := OrElse(Cut(Slug(OrElse(owner, "user")), n), "user"), Slug(OrElse(owner, "user"));
      && 0 < |t| <= n && (forall i :: 0 <= i < |t| ==> IsNameChar(t[i]))
      && (t[|t| - 1] == '-' <==> |s| > n && s[n - 1] == '-')
  {
    UserIsName();
    CutEnds(OrElse(owner, "user"), n);
  }

  /**
   The name is a DNS label unless the owner was cut off right behind a dash: the cluster label is stripped again after
   being cut, the owner is not.
   */
  lemma NameIsLabelIff(owner: string, cluster: string)
    ensures var s, n := Slug(OrElse(owner, "user")), Limit(cluster);
      IsLabel(DefaultSecretName(owner, cluster)) <==> !(|s| > n && s[n - 1] == '-')
  {
    if cluster != "" {
      NameWithCluster(owner, cluster);
    } else {
      NameWithoutCluster(owner);
    }
  }

  lemma NameWithCluster(owner: string, cluster: string)
    requires cluster != ""
    ensures var s, n := Slug(OrElse(owner, "user")), Limit(cluster);
      IsLabel(DefaultSecretName(owner, cluster)) <==> !(|s| > n && s[n - 1] == '-')
  {
    OwnerCut(owner, 16);
    JoinedName(cluster, OwnerPart(owner));
  }

  lemma JoinedName(cluster: string, who: string)
    requires 0 < |who| <= 16 && forall i :: 0 <= i < |who| ==> IsNameChar(who[i])
    ensures var room := Max(0, 63 - |PREFIX| - |who| - 1);
      IsLabel(PREFIX + ClusterPart(cluster, room) + "-" + who) <==> who[|who| - 1] != '-'
  {
    PrefixIsName();
    var room := Max(0, 63 - |PREFIX| - |who| - 1);
    ClusterPartFits(cluster, room);
    NameOf(PREFIX, ClusterPart(cluster, room), who);
  }

  lemma NameWithoutCluster(owner: string)
    ensures var s, n := Slug(OrElse(owner, "user")), Limit("");
      IsLabel(DefaultSecretName(owner, "")) <==> !(|s| > n && s[n - 1] == '-')
  {
    PrefixIsName();
    OwnerCut(owner, 40);
    NameAlone(PREFIX, OrElse(Cut(Slug(OrElse(owner, "user")), 40), "user"));
  }

  lemma NameAlone(prefix: string, who: string)
    requires |prefix| == 21 && prefix[0] != '-' && |prefix| + |who| <= 63 && who != ""
    requires forall i :: 0 <= i < |prefix| ==> IsNameChar(prefix[i])
    requires forall i :: 0 <= i < |who| ==> IsNameChar(who[i])
    ensures IsLabel(prefix + who) <==> who[|who| - 1] != '-'
  {
    var name := prefix + who;
    assert name[|name| - 1] == who[|who| - 1] && name[0] == prefix[0];
    assert forall i :: 0 <= i < |name| ==> name[i] == if i < 21 then prefix[i] else who[i - 21];
  }

  lemma NameOf(prefix: string, cluster: string, who: string)
    requires |prefix| == 21 && prefix[0] != '-' && |prefix| + |cluster| + 1 + |who| <= 63 && who != ""
    requires forall i :: 0 <= i < |prefix| ==> IsNameChar(prefix[i])
    requires forall i :: 0 <= i < |cluster| ==> IsNameChar(cluster[i])
    requires forall i :: 0 <= i < |who| ==> IsNameChar(who[i])
    ensures IsLabel(prefix + cluster + "-" + who) <==> who[|who| - 1] != '-'
  {
    var name := prefix + cluster + "-" + who;
    assert name[|name| - 1] == who[|who| - 1] && name[0] == prefix[0];
    assert forall i :: 0 <= i < |name| ==>
      name[i] == if i < 21 then prefix[i] else if i < 21 + |cluster| then cluster[i - 21]
        else if i == 21 + |cluster| then '-' else who[i - 22 - |cluster|];
  }

  lemma {:induction false} CollapsedAlready(s: string)
    requires forall i :: 0 <= i < |s| - 1 ==> !(s[i] == '-' && s[i + 1] == '-')
    ensures Collapsed(s) == s
  {
    if |s| > 1 {
      assert s[1..][0] == s[1];
      CollapsedAlready(s[1..]);
    }
  }

  lemma DashedAlready(s: string)
    requires forall i :: 0 <= i < |s| ==> IsNameChar(s[i])
    ensures Dashed(s) == s
  {
    assert forall i :: 0 <= i < |s| ==> LowerChar(s[i]) == s[i];
  }

  /** A slug is its own slug. */
  lemma SlugTwice(s: string)
    ensures Slug(Slug(s)) == Slug(s)
  {
    DashedAlready(Slug(s));
    CollapsedAlready(Slug(s));
  }

  /** Small letters and digits, with single dashes between them. */
  predicate IsPlain(s: string) {
    && s != "" && (forall i :: 0 <= i < |s| ==> IsNameChar(s[i])) && s[0] != '-' && s[|s| - 1] != '-'
    && forall i :: 0 <= i < |s| - 1 ==> !(s[i] == '-' && s[i + 1] == '-')
  }

  lemma PlainIsSlug(s: string)
    requires IsPlain(s)
    ensures Slug(s) == s
  {
    DashedAlready(s);
    CollapsedAlready(s);
  }

  /** Plain names that are short enough are found in the name as they are. */
  lemma PlainNamesAreKept(owner: string, cluster: string)
    requires IsPlain(owner) && |owner| <= 16
    ensures DefaultSecretName(owner, "") == "rhoai-e2e-kubeconfig-" + owner
    ensures IsPlain(cluster) && |cluster| <= 25 ==>
              DefaultSecretName(owner, cluster) == "rhoai-e2e-kubeconfig-" + cluster + "-" + owner
  {
    PlainIsSlug(owner);
    PrefixIsName();
    if IsPlain(cluster) {
      PlainIsSlug(cluster);
    }
  }

  /** Letter case does not matter. */
  lemma SlugOfLower(s: string)
    ensures Slug(Lower(s)) == Slug(s)
  {
    assert forall i :: 0 <= i < |s| ==> LowerChar(LowerChar(s[i])) == LowerChar(s[i]);
    assert Dashed(Lower(s)) == Dashed(s);
  }

  /** An owner of sixteen letters or fewer always gets a proper name. */
  lemma ShortOwnersAreFine(owner: string, cluster: string)
    requires |owner| <= 16
    ensures IsLabel(DefaultSecretName(owner, cluster))
  {
    NameIsLabelIff(owner, cluster);
  }

  /** Fifteen letters, a dash and one more make a name that ends in a dash. */
  lemma CutBehindDash()
    ensures exists owner :: |owner| == 17 &&
              forall cluster :: cluster != "" ==> !IsLabel(DefaultSecretName(owner, cluster))
  {
    var owner := LongOwner();
    forall cluster | cluster != "" ensures !IsLabel(DefaultSecretName(owner, cluster)) {
      CutIsNoLabel(owner, cluster);
    }
  }

  lemma LongOwner() returns (owner: string)
    ensures |owner| == 17 && owner[15] == '-' && Slug(owner) == owner
  {
    owner := seq(17, i => if i == 15 then '-' else 'a');
    PlainIsSlug(owner);
  }

  lemma CutIsNoLabel(owner: string, cluster: string)
    requires |owner| == 17 && owner[15] == '-' && Slug(owner) == owner && cluster != ""
    ensures !IsLabel(DefaultSecretName(owner, cluster))
  {
    NameIsLabelIff(owner, cluster);
  }
}
