/** Credentials in the cluster's global pull secret: merging RHOAI keys and healing access to the release images. */
module PullSecret {
  import opened Basics

  /** A registry entry: the encoded credential ("" when absent) and whatever else the entry carries. */
  datatype Entry = Entry(auth: string, rest: string)

  type Auths = map<string, Entry>

  const BARE := "quay.io"
  const RHOAI := "quay.io/rhoai"
  const FRAGMENT := "quay.io/rhoai/rhoai-fbc-fragment"
  const RELEASE := "quay.io/openshift-release-dev"
  const ART := "quay.io/openshift-release-dev/ocp-v4.0-art-dev"
  const CLOUD := "cloud.openshift.com"
  const ROBOT := "openshift-release-dev+"

  function AuthAt(auths: Auths, key: string): string {
    if key in auths then auths[key].auth else ""
  }

  /** The user of an entry; `decode` reads the user from an encoded credential ("" if it cannot be read). */
  function UserAt(decode: string -> string, auths: Auths, key: string): string {
    if AuthAt(auths, key) == "" then "" else decode(AuthAt(auths, key))
  }

  predicate IsRhoaiUser(user: string) {
    Contains(Lower(user), "rhoai")
  }

  predicate IsReleaseUser(user: string) {
    ROBOT <= user
  }

  predicate KeyCovers(decode: string -> string, auths: Auths, key: string) {
    IsReleaseUser(UserAt(decode, auths, key)) || (AuthAt(auths, key) != "" && !IsRhoaiUser(UserAt(decode, auths, key)))
  }

  /** The secret can authorise pulls of the release images. */
  predicate Covers(decode: string -> string, auths: Auths) {
    KeyCovers(decode, auths, ART) || KeyCovers(decode, auths, RELEASE)
    || (UserAt(decode, auths, BARE) != "" && !IsRhoaiUser(UserAt(decode, auths, BARE)))
  }

  /** An entry whose user is one of the release robots, or at least no RHOAI one. */
  predicate HasOtherAuth(decode: string -> string, auths: Auths, key: string) {
    && key in auths && auths[key].auth != ""
    && var user := decode(auths[key].auth);
       (|user| >= 22 && user[..22] == "openshift-release-dev+") || !Says(user, "rhoai")
  }

  lemma CoversIff(decode: string -> string, auths: Auths)
    ensures Covers(decode, auths) <==>
              || HasOtherAuth(decode, auths, "quay.io/openshift-release-dev/ocp-v4.0-art-dev")
              || HasOtherAuth(decode, auths, "quay.io/openshift-release-dev")
              || ("quay.io" in auths && auths["quay.io"].auth != "" && decode(auths["quay.io"].auth) != ""
                  && !Says(decode(auths["quay.io"].auth), "rhoai"))
  {
    KeyCoversIff(decode, auths, ART);
    KeyCoversIff(decode, auths, RELEASE);
    SaysIffLowerContains(UserAt(decode, auths, BARE), "rhoai");
  }

  lemma KeyCoversIff(decode: string -> string, auths: Auths, key: string)
    ensures KeyCovers(decode, auths, key) <==> HasOtherAuth(decode, auths, key)
  {
    SaysIffLowerContains(UserAt(decode, auths, key), "rhoai");
    assert |ROBOT| == 22;
  }

  predicate IsRhoaiKey(key: string) {
    key == RHOAI || RHOAI + "/" <= key
  }

  /* ---------- merging ---------- */

  /** A mounted configuration; its keys in file order. */
  datatype Config = Config(keys: seq<string>, auths: Auths)
  {
    ghost predicate Valid() {
      forall key :: key in keys <==> key in auths
    }
  }

  function FirstUnderRhoai(auths: Auths, keys: seq<string>): string {
    if keys == [] then ""
    else if RHOAI + "/" <= keys[0] && AuthAt(auths, keys[0]) != "" then AuthAt(auths, keys[0])
    else FirstUnderRhoai(auths, keys[1..])
  }

  /** A credential for the RHOAI repositories, "" if the configuration has none. */
  function QuayAuth(quay: Config): string {
    if AuthAt(quay.auths, RHOAI) != "" then AuthAt(quay.auths, RHOAI)
    else if AuthAt(quay.auths, FRAGMENT) != "" then AuthAt(quay.auths, FRAGMENT)
    else if FirstUnderRhoai(quay.auths, quay.keys) != "" then FirstUnderRhoai(quay.auths, quay.keys)
    else AuthAt(quay.auths, BARE)
  }

  /** Where the credential comes from: quay.io/rhoai, else the fragment repository, else the first entry below
      quay.io/rhoai in file order, and quay.io itself only when no RHOAI entry has one. */
  lemma QuayAuthFrom(quay: Config)
    requires quay.Valid()
    ensures AuthAt(quay.auths, "quay.io/rhoai") != "" ==> QuayAuth(quay) == AuthAt(quay.auths, "quay.io/rhoai")
    ensures AuthAt(quay.auths, "quay.io/rhoai") == ""
            && AuthAt(quay.auths, "quay.io/rhoai/rhoai-fbc-fragment") != "" ==>
              QuayAuth(quay) == AuthAt(quay.auths, "quay.io/rhoai/rhoai-fbc-fragment")
    ensures (exists key :: IsRhoaiKey(key) && AuthAt(quay.auths, key) != "") ==>
              exists key :: IsRhoaiKey(key) && AuthAt(quay.auths, key) == QuayAuth(quay) != ""
    ensures (forall key :: IsRhoaiKey(key) ==> AuthAt(quay.auths, key) == "") ==>
              QuayAuth(quay) == AuthAt(quay.auths, "quay.io")
  {
    FragmentIsRhoai();
    FirstUnderRhoaiIs(quay.auths, quay.keys);
  }

  lemma {:induction false} FirstUnderRhoaiIs(auths: Auths, keys: seq<string>)
    ensures FirstUnderRhoai(auths, keys) != "" ==>
              exists key :: key in keys && IsRhoaiKey(key) && AuthAt(auths, key) == FirstUnderRhoai(auths, keys)
    ensures FirstUnderRhoai(auths, keys) == "" ==>
              forall key :: key in keys && RHOAI + "/" <= key ==> AuthAt(auths, key) == ""
  {
    if keys != [] {
      FirstUnderRhoaiIs(auths, keys[1..]);
    }
  }

  function Scoped(quay: Config): Auths {
    var own := map key | key in quay.auths && IsRhoaiKey(key) :: quay.auths[key];
    if QuayAuth(quay) != "" && RHOAI !in own then own[RHOAI := Entry(QuayAuth(quay), "")] else own
  }

  lemma OnlyRhoaiKeys(quay: Config)
    ensures forall key :: key in Scoped(quay) ==> IsRhoaiKey(key)
  {
  }

  /** None of the keys that authorise the release images is an RHOAI key. */
  lemma ReleaseKeysAreOthers()
    ensures !IsRhoaiKey(BARE) && !IsRhoaiKey(RELEASE) && !IsRhoaiKey(ART) && !IsRhoaiKey(CLOUD)
  {
    assert RHOAI[8] == 'r' && RELEASE[8] == 'o' && ART[8] == 'o' && |BARE| == 7 && CLOUD[0] == 'c' && RHOAI[0] == 'q';
    assert forall key :: IsRhoaiKey(key) ==> |key| > 8 && key[8] == (RHOAI + "/")[8] && key[0] == (RHOAI + "/")[0];
  }

  /** A merge is refused exactly when no entry is RHOAI's and no credential can stand in for one. */
  lemma NothingToMerge(quay: Config)
    requires quay.Valid()
    ensures Scoped(quay) == map[] <==>
      (forall key :: key in quay.auths ==> !IsRhoaiKey(key)) && AuthAt(quay.auths, BARE) == ""
  {
    if forall key :: key in quay.auths ==> !IsRhoaiKey(key) {
      NoneUnderRhoai(quay.auths, quay.keys);
      FragmentIsRhoai();
      assert QuayAuth(quay) == AuthAt(quay.auths, BARE);
      if QuayAuth(quay) != "" {
        assert RHOAI in Scoped(quay);
      }
    } else {
      var key :| key in quay.auths && IsRhoaiKey(key);
      assert key in Scoped(quay);
    }
  }

  lemma FragmentIsRhoai()
    ensures IsRhoaiKey(FRAGMENT) && IsRhoaiKey(RHOAI)
  {
    assert FRAGMENT[..|RHOAI| + 1] == RHOAI + "/";
  }

  lemma {:induction false} NoneUnderRhoai(auths: Auths, keys: seq<string>)
    requires forall key :: key in auths ==> !IsRhoaiKey(key)
    ensures FirstUnderRhoai(auths, keys) == ""
  {
    if keys != [] {
      NoneUnderRhoai(auths, keys[1..]);
    }
  }

  /* ---------- healing ---------- */

  predicate Healable(decode: string -> string, auths: Auths) {
    !Covers(decode, auths) && AuthAt(auths, CLOUD) != "" && IsReleaseUser(UserAt(decode, auths, CLOUD))
  }

  function Healed(decode: string -> string, auths: Auths): Auths {
    if Healable(decode, auths)
    then auths + map[RELEASE := Entry(AuthAt(auths, CLOUD), ""), ART := Entry(AuthAt(auths, CLOUD), "")]
    else auths
  }

  /** Healing that applies makes the secret cover the release images, and touches their two keys alone. */
  lemma HealingCovers(decode: string -> string, auths: Auths)
    ensures Covers(decode, Healed(decode, auths)) <==> Covers(decode, auths) || Healable(decode, auths)
    ensures forall key :: key != RELEASE && key != ART ==> AuthAt(Healed(decode, auths), key) == AuthAt(auths, key)
    ensures Healable(decode, auths) ==>
              AuthAt(Healed(decode, auths), RELEASE) == AuthAt(Healed(decode, auths), ART)
                == AuthAt(auths, "cloud.openshift.com")
    ensures !Healable(decode, Healed(decode, auths)) && Healed(decode, Healed(decode, auths)) == Healed(decode, auths)
  {
    assert AuthAt(Healed(decode, auths), CLOUD) == AuthAt(auths, CLOUD) by {
      ReleaseKeysAreOthers();
      assert CLOUD[0] == 'c' && RELEASE[0] == 'q' && ART[0] == 'q';
    }
    if Healable(decode, auths) {
      assert KeyCovers(decode, Healed(decode, auths), ART);
    }
  }

  /* ---------- the stored secret ---------- */

  datatype Outcome = Merged | NoCredentials

  class ClusterSecret {
    var auths: Auths
    /** The secret was written back this many times. */
    var writes: nat

    constructor (auths: Auths)
      ensures this.auths == auths && writes == 0
    {
      this.auths, writes := auths, 0;
    }

    method MergeRhoai(quay: Config) returns (outcome: Outcome)
      modifies this
      ensures outcome == (if Scoped(quay) == map[] then NoCredentials else Merged)
      ensures auths == old(auths) + Scoped(quay) && auths + Scoped(quay) == auths
      ensures writes == old(writes) + (if outcome.Merged? then 1 else 0)
      ensures forall key :: !IsRhoaiKey(key) ==> (key in auths <==> key in old(auths))
      ensures forall key :: !IsRhoaiKey(key) && key in auths ==> auths[key] == old(auths)[key]
    {
      OnlyRhoaiKeys(quay);
      var overlay := Scoped(quay);
      if overlay == map[] {
        assert auths + overlay == auths;
        return NoCredentials;
      }
      auths := auths + overlay;
      writes := writes + 1;
      return Merged;
    }

    method EnsureReleaseAuth(decode: string -> string) returns (healed: bool)
      modifies this
      ensures healed == Healable(decode, old(auths))
      ensures auths == Healed(decode, old(auths))
      ensures writes == old(writes) + (if healed then 1 else 0)
    {
      if Covers(decode, auths) {
        return false;
      }
      var cloud := AuthAt(auths, CLOUD);
      if cloud == "" || !IsReleaseUser(UserAt(decode, auths, CLOUD)) {
        return false;
      }
      auths := auths[RELEASE := Entry(cloud, "")][ART := Entry(cloud, "")];
      writes := writes + 1;
      return true;
    }

    /** The preflight: heal if possible, then report; only a strict one fails, exactly when coverage is still
        missing. */
    method Preflight(decode: string -> string, strict: bool) returns (passed: bool)
      modifies this
      ensures auths == Healed(decode, old(auths))
      ensures passed <==> !strict || Covers(decode, old(auths)) || Healable(decode, old(auths))
    {
      HealingCovers(decode, auths);
      var _ := EnsureReleaseAuth(decode);
      passed := !strict || Covers(decode, auths);
    }
  }

  /* ---------- merging and healing together ---------- */

  /** Merging RHOAI credentials never changes whether the release images can be pulled. */
  lemma MergeKeepsCoverage(decode: string -> string, auths: Auths, quay: Config)
    ensures Covers(decode, auths + Scoped(quay)) == Covers(decode, auths)
    ensures Healable(decode, auths + Scoped(quay)) == Healable(decode, auths)
  {
    OnlyRhoaiKeys(quay);
    ReleaseKeysAreOthers();
    var merged := auths + Scoped(quay);
    assert AuthAt(merged, BARE) == AuthAt(auths, BARE) && AuthAt(merged, CLOUD) == AuthAt(auths, CLOUD);
    assert AuthAt(merged, RELEASE) == AuthAt(auths, RELEASE) && AuthAt(merged, ART) == AuthAt(auths, ART);
  }

  lemma AddingCommutes(auths: Auths, a: Auths, b: Auths)
    requires a.Keys !! b.Keys
    ensures auths + a + b == auths + b + a
  {
  }

  /** The order of merging and healing does not matter. */
  lemma MergeAndHealCommute(decode: string -> string, auths: Auths, quay: Config)
    ensures Healed(decode, auths + Scoped(quay)) == Healed(decode, auths) + Scoped(quay)
  {
    OnlyRhoaiKeys(quay);
    ReleaseKeysAreOthers();
    MergeKeepsCoverage(decode, auths, quay);
    assert AuthAt(auths + Scoped(quay), CLOUD) == AuthAt(auths, CLOUD);
    if Healable(decode, auths) {
      AddingCommutes(auths, Scoped(quay),
        map[RELEASE := Entry(AuthAt(auths, CLOUD), ""), ART := Entry(AuthAt(auths, CLOUD), "")]);
    }
  }
}
