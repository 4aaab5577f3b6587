/**
 Embedding the bundle-unpack annotations into the OperatorGroup documents of a manifest, in place and without a YAML
 parser. A text is the list of its pieces between newlines (never empty; a final newline leaves an empty last piece).
 */
module ManifestPatch {
  import opened Basics

  type Text = lines: seq<string> | |lines| > 0 witness [""]

  /** The two annotation keys and the values to give them. */
  datatype Settings = Settings(timeoutKey: string, retryKey: string, timeout: string, retry: string)
  {
    /** Both keys begin with "operatorframework.io", and neither is the beginning of the other. */
    predicate Valid() {
      && 0 < |timeoutKey| && timeoutKey[0] == 'o'
      && 0 < |retryKey| && retryKey[0] == 'o'
      && !(timeoutKey <= retryKey) && !(retryKey <= timeoutKey)
    }
  }

  const PREFIX := "operatorframework.io/bundle-unpack-"
  const TIMEOUT_KEY := PREFIX + "timeout"
  const RETRY_KEY := PREFIX + "min-retry-interval"

  /** The keys of the repository are fit for the searches below. */
  lemma SourceKeysAreValid(timeout: string, retry: string)
    ensures Settings(TIMEOUT_KEY, RETRY_KEY, timeout, retry).Valid()
  {
    assert TIMEOUT_KEY[|PREFIX|] == 't' && RETRY_KEY[|PREFIX|] == 'm';
    assert TIMEOUT_KEY[0] == PREFIX[0] && RETRY_KEY[0] == PREFIX[0];
  }

  /* ---------- documents ---------- */

  predicate Opens(line: string) {
    "apiVersion:" <= line
  }

  /** Concatenation of texts: the last piece of one and the first piece of the other are one line. */
  function Glue(a: Text, b: Text): Text {
    a[..|a| - 1] + [a[|a| - 1] + b[0]] + b[1..]
  }

  /** Number of lines before the next document. */
  function DocLength(lines: Text): (n: nat)
    ensures 0 < n <= |lines|
    ensures n < |lines| ==> Opens(lines[n])
    ensures forall i :: 0 < i < n ==> !Opens(lines[i])
  {
    if |lines| == 1 || Opens(lines[1]) then 1 else 1 + DocLength(lines[1..])
  }

  /** The parts between the cuts in front of each line that opens a document. */
  function Parts(lines: Text): (parts: seq<Text>)
    ensures parts != []
    decreases |lines|
  {
    var n := DocLength(lines);
    if n == |lines| then [lines] else [lines[..n] + [""]] + Parts(lines[n..])
  }

  function Join(parts: seq<Text>): Text {
    if parts == [] then [""] else Glue(parts[0], Join(parts[1..]))
  }

  lemma GlueNothing(a: Text)
    ensures Glue(a, [""]) == a
  {
    assert a[|a| - 1] + "" == a[|a| - 1];
  }

  lemma GlueLine(a: seq<string>, b: Text)
    ensures Glue(a + [""], b) == a + b
  {
    assert "" + b[0] == b[0];
    assert (a + [""])[..|a|] == a;
    assert b == [b[0]] + b[1..];
  }

  lemma JoinCons(first: Text, rest: seq<Text>)
    ensures Join([first] + rest) == Glue(first, Join(rest))
  {
    assert ([first] + rest)[1..] == rest;
  }

  /** Cutting into documents and joining them again loses nothing. */
  lemma {:induction false} SplittingIsLossless(lines: Text)
    ensures Join(Parts(lines)) == lines
    decreases |lines|
  {
    var n := DocLength(lines);
    if n == |lines| {
      JoinCons(lines, []);
      GlueNothing(lines);
    } else {
      var first, rest := lines[..n] + [""], lines[n..];
      assert Join(Parts(lines)) == Glue(first, rest) by {
        SplittingIsLossless(rest);
        JoinCons(first, Parts(rest));
      }
      GlueLine(lines[..n], rest);
      assert lines == lines[..n] + rest;
    }
  }

  /** What the cuts give: every part but the last ends in a newline, and documents open only at the cuts. */
  ghost predicate CutWell(parts: seq<Text>) {
    && (forall p :: 0 <= p < |parts| - 1 ==> |parts[p]| > 1 && parts[p][|parts[p]| - 1] == "")
    && (forall p :: 0 < p < |parts| ==> Opens(parts[p][0]))
    && (forall p :: 0 <= p < |parts| ==> OneDocument(parts[p]))
  }

  lemma CutWellCons(first: Text, rest: seq<Text>)
    requires rest != [] && CutWell(rest) && Opens(rest[0][0])
    requires |first| > 1 && first[|first| - 1] == "" && OneDocument(first)
    ensures CutWell([first] + rest)
  {
    var parts := [first] + rest;
    assert forall p :: 0 < p < |parts| ==> parts[p] == rest[p - 1];
  }

  lemma {:induction false} PartsAreCutWell(lines: Text)
    ensures CutWell(Parts(lines))
    ensures Parts(lines)[0][0] == lines[0]
    decreases |lines|
  {
    var n := DocLength(lines);
    if n < |lines| {
      var first, rest := lines[..n] + [""], Parts(lines[n..]);
      PartsAreCutWell(lines[n..]);
      assert forall i :: 0 < i < |first| ==> first[i] == if i < n then lines[i] else "";
      CutWellCons(first, rest);
    }
  }

  lemma DocLengthIs(lines: Text, n: nat)
    requires 0 < n <= |lines| && (n < |lines| ==> Opens(lines[n]))
    requires forall i :: 0 < i < n ==> !Opens(lines[i])
    ensures DocLength(lines) == n
  {
  }

  lemma JoinedParts(document: seq<string>, rest: Text)
    requires document != [] && Opens(rest[0]) && forall i :: 0 < i < |document| ==> !Opens(document[i])
    ensures Parts(document + rest) == [document + [""]] + Parts(rest)
  {
    var all, n := document + rest, |document|;
    assert all[n] == rest[0];
    assert all[..n] == document && all[n..] == rest;
    DocLengthIs(all, n);
  }

  lemma JoinStep(first: Text, rest: seq<Text>)
    requires |first| > 1 && first[|first| - 1] == "" && OneDocument(first) && Opens(Join(rest)[0])
    ensures Parts(Join([first] + rest)) == [first] + Parts(Join(rest))
    ensures Join([first] + rest)[0] == first[0]
  {
    var document := first[..|first| - 1];
    assert first == document + [""];
    JoinCons(first, rest);
    GlueLine(document, Join(rest));
    JoinedParts(document, Join(rest));
  }

  /** Parts that were cut well are found again after joining them. */
  lemma {:induction false} JoinSplits(parts: seq<Text>)
    requires parts != [] && CutWell(parts)
    ensures Parts(Join(parts)) == parts
    ensures Join(parts)[0] == parts[0][0]
  {
    var first := parts[0];
    if |parts| == 1 {
      GlueNothing(first);
      DocLengthIs(first, |first|);
      assert parts[1..] == [];
    } else {
      var rest := parts[1..];
      assert CutWell(rest) by {
        assert forall p :: 0 <= p < |rest| ==> rest[p] == parts[p + 1];
      }
      JoinSplits(rest);
      assert parts == [first] + rest;
      JoinStep(first, rest);
    }
  }

  /* ---------- one document ---------- */

  function LeadingBlanks(line: string): (n: nat)
    ensures n <= |line| && (n < |line| ==> !IsSpace(line[n]))
    ensures forall i :: 0 <= i < n ==> IsSpace(line[i])
  {
    if line == "" || !IsSpace(line[0]) then 0 else 1 + LeadingBlanks(line[1..])
  }

  predicate IsBlank(line: string) {
    forall i :: 0 <= i < |line| ==> IsSpace(line[i])
  }

  const GROUP := "OperatorGroup"

  predicate IsGroupWord(line: string) {
    var n := LeadingBlanks(line);
    GROUP <= line[n..] && IsBlank(line[n + |GROUP|..])
  }

  /** The kind is given at this line, or on the next line that is not blank. */
  predicate KindAt(lines: seq<string>, k: nat)
    requires k < |lines|
  {
    "kind:" <= lines[k]
    && (IsGroupWord(lines[k][5..])
        || (IsBlank(lines[k][5..])
            && exists q :: k < q < |lines| && IsGroupWord(lines[q]) && forall r :: k < r < q ==> IsBlank(lines[r])))
  }

  predicate IsGroupDocument(lines: seq<string>) {
    exists k :: 0 <= k < |lines| && KindAt(lines, k)
  }

  predicate IsMetadata(line: string) {
    "metadata:" <= line && IsBlank(line[9..])
  }

  predicate Holds(line: string, key: string) {
    key + ":" <= line[LeadingBlanks(line)..]
  }

  /** Where the value of this annotation begins. */
  function ValueAt(line: string, key: string): (at: nat)
    requires Holds(line, key)
    ensures at <= |line|
  {
    LeadingBlanks(line) + |key| + 1
  }

  predicate HasNoValue(line: string, key: string)
    requires Holds(line, key)
  {
    IsBlank(line[ValueAt(line, key)..])
  }

  function FirstHolding(lines: seq<string>, key: string): (i: nat)
    ensures i <= |lines| && (i < |lines| ==> Holds(lines[i], key))
    ensures forall j :: 0 <= j < i ==> !Holds(lines[j], key)
  {
    if lines == [] || Holds(lines[0], key) then 0 else 1 + FirstHolding(lines[1..], key)
  }

  /** Lines that a search for the value runs over when the value is empty: all blank ones and the next other one. */
  function Swallowed(lines: seq<string>): (n: nat)
    ensures n <= |lines|
  {
    if lines == [] then 0 else if IsBlank(lines[0]) then 1 + Swallowed(lines[1..]) else 1
  }

  function Quoted(value: string): string {
    " \"" + value + "\""
  }

  function WithValue(line: string, key: string, value: string): string
    requires Holds(line, key)
  {
    line[..ValueAt(line, key)] + Quoted(value)
  }

  /** Give the first line that holds the annotation a new value. */
  function SetValue(lines: Text, key: string, value: string): Text {
    var i := FirstHolding(lines, key);
    if i == |lines| then lines
    else
      var lost := if HasNoValue(lines[i], key) then Swallowed(lines[i + 1..]) else 0;
      lines[..i] + [WithValue(lines[i], key, value)] + lines[i + 1 + lost..]
  }

  function Entry(key: string, value: string): string {
    "    " + key + ":" + Quoted(value)
  }

  const HEAD := "  annotations:"

  function AnnotationBlock(st: Settings): (block: seq<string>)
    ensures |block| == 3
  {
    [HEAD, Entry(st.timeoutKey, st.timeout), Entry(st.retryKey, st.retry)]
  }

  function FirstMetadata(lines: seq<string>): (i: nat)
    ensures i <= |lines| && (i < |lines| ==> IsMetadata(lines[i]))
    ensures forall j :: 0 <= j < i ==> !IsMetadata(lines[j])
  {
    if lines == [] || IsMetadata(lines[0]) then 0 else 1 + FirstMetadata(lines[1..])
  }

  /** Blank lines at the front, as far as a newline follows them. */
  function BlankRun(lines: seq<string>): (n: nat)
    ensures lines != [] ==> n < |lines|
    ensures n <= |lines| && forall i :: 0 <= i < n ==> IsBlank(lines[i])
  {
    if |lines| <= 1 || !IsBlank(lines[0]) then 0 else 1 + BlankRun(lines[1..])
  }

  /** A block can be put after the first metadata line when a newline ends that line. */
  predicate Insertable(lines: seq<string>) {
    FirstMetadata(lines) + 1 < |lines|
  }

  function InsertAt(lines: seq<string>): (at: nat)
    requires Insertable(lines)
    ensures FirstMetadata(lines) < at < |lines|
    ensures forall i :: FirstMetadata(lines) < i < at ==> IsBlank(lines[i])
  {
    var m := FirstMetadata(lines);
    m + 1 + BlankRun(lines[m + 1..])
  }

  function SetBoth(st: Settings, lines: Text): Text {
    SetValue(SetValue(lines, st.timeoutKey, st.timeout), st.retryKey, st.retry)
  }

  function WithBlock(lines: Text, block: seq<string>): Text
    requires Insertable(lines)
  {
    lines[..InsertAt(lines)] + block + lines[InsertAt(lines)..]
  }

  function PatchDoc(st: Settings, lines: Text): Text {
    if !IsGroupDocument(lines) then lines
    else if FirstHolding(lines, st.timeoutKey) < |lines| then
      SetBoth(st, lines)
    else if !Insertable(lines) then lines
    else WithBlock(lines, AnnotationBlock(st))
  }

  function PatchAll(st: Settings, parts: seq<Text>): (patched: seq<Text>)
    ensures |patched| == |parts|
    ensures forall p :: 0 <= p < |parts| ==> patched[p] == PatchDoc(st, parts[p])
  {
    if parts == [] then [] else [PatchDoc(st, parts[0])] + PatchAll(st, parts[1..])
  }

  function Patch(st: Settings, lines: Text): Text {
    Join(PatchAll(st, Parts(lines)))
  }

  /* ---------- which documents change ---------- */

  lemma KindInTail(lines: seq<string>, n: nat, k: nat)
    requires n <= k < |lines| && KindAt(lines[n..], k - n)
    ensures KindAt(lines, k)
  {
    var tail := lines[n..];
    assert tail[k - n] == lines[k];
    if !IsGroupWord(lines[k][5..]) {
      var q :| k - n < q < |tail| && IsGroupWord(tail[q]) && forall r :: k - n < r < q ==> IsBlank(tail[r]);
      assert IsGroupWord(lines[n + q]);
      forall r | k < r < n + q ensures IsBlank(lines[r]) {
        assert lines[r] == tail[r - n];
      }
    }
  }

  lemma KindInPrefix(lines: seq<string>, n: nat, k: nat)
    requires n < |lines| && k <= n && KindAt(lines[..n] + [""], k)
    ensures KindAt(lines, k)
  {
    var part := lines[..n] + [""];
    assert k < n && part[k] == lines[k];
    if !IsGroupWord(lines[k][5..]) {
      var q :| k < q < |part| && IsGroupWord(part[q]) && forall r :: k < r < q ==> IsBlank(part[r]);
      assert q < n && IsGroupWord(lines[q]);
      forall r | k < r < q ensures IsBlank(lines[r]) {
        assert lines[r] == part[r];
      }
    }
  }

  /** A document of the searched kind is found by searching the whole text. */
  lemma {:induction false} GroupIsFound(lines: Text, p: nat)
    requires p < |Parts(lines)| && IsGroupDocument(Parts(lines)[p])
    ensures IsGroupDocument(lines)
    decreases |lines|
  {
    var n := DocLength(lines);
    if n < |lines| {
      if p == 0 {
        var k :| 0 <= k < n + 1 && KindAt(lines[..n] + [""], k);
        KindInPrefix(lines, n, k);
      } else {
        GroupIsFound(lines[n..], p - 1);
        var k :| 0 <= k < |lines[n..]| && KindAt(lines[n..], k);
        KindInTail(lines, n, n + k);
      }
    }
  }

  /** Leaving early on a manifest without OperatorGroup changes nothing: patching it would give the same text. */
  lemma EarlyReturnIsRight(st: Settings, lines: Text)
    requires !IsGroupDocument(lines)
    ensures Patch(st, lines) == lines
  {
    var parts := Parts(lines);
    forall p | 0 <= p < |parts| ensures PatchDoc(st, parts[p]) == parts[p] {
      if IsGroupDocument(parts[p]) {
        GroupIsFound(lines, p);
      }
    }
    assert PatchAll(st, parts) == parts;
    SplittingIsLossless(lines);
  }

  /* ---------- patching twice ---------- */

  /** The annotation, where it is first present, has a value. */
  predicate HasValue(lines: seq<string>, key: string) {
    var i := FirstHolding(lines, key);
    i < |lines| ==> !HasNoValue(lines[i], key)
  }

  lemma {:induction false} LeadingBlanksIs(line: string, n: nat)
    requires n <= |line| && forall i :: 0 <= i < n ==> IsSpace(line[i])
    requires n < |line| ==> !IsSpace(line[n])
    ensures LeadingBlanks(line) == n
  {
  }

  predicate IsKey(st: Settings, key: string) {
    key == st.timeoutKey || key == st.retryKey
  }

  lemma PrefixesCompare(a: string, b: string, line: string)
    requires a + ":" <= line && b + ":" <= line
    ensures a <= b || b <= a
  {
    assert line[..|a|] == (a + ":")[..|a|] == a;
    assert line[..|b|] == (b + ":")[..|b|] == b;
    if |a| <= |b| {
      assert b[..|a|] == line[..|a|];
    } else {
      assert a[..|b|] == line[..|b|];
    }
  }

  /** A line holds at most one of the two keys. */
  lemma OneKeyPerLine(st: Settings, line: string)
    requires st.Valid()
    ensures !(Holds(line, st.timeoutKey) && Holds(line, st.retryKey))
  {
    if Holds(line, st.timeoutKey) && Holds(line, st.retryKey) {
      PrefixesCompare(st.timeoutKey, st.retryKey, line[LeadingBlanks(line)..]);
    }
  }

  lemma GroupWordStart(line: string)
    requires IsGroupWord(line)
    ensures LeadingBlanks(line) < |line| && line[LeadingBlanks(line)] == 'O'
  {
    assert line[LeadingBlanks(line)..][0] == GROUP[0];
  }

  lemma FirstLetters(line: string)
    ensures Opens(line) ==> line != "" && line[0] == 'a'
    ensures "kind:" <= line ==> line != "" && line[0] == 'k'
    ensures "metadata:" <= line ==> line != "" && line[0] == 'm'
  {
  }

  lemma HoldingLineStart(line: string, key: string)
    requires Holds(line, key) && 0 < |key| && key[0] == 'o'
    ensures LeadingBlanks(line) < |line| && line[LeadingBlanks(line)] == 'o'
    ensures line[0] == 'o' || IsSpace(line[0])
  {
    assert line[LeadingBlanks(line)..][0] == key[0];
  }

  /** A line that holds a key is none of the lines that the other searches look for. */
  lemma HoldingLine(line: string, key: string)
    requires Holds(line, key) && 0 < |key| && key[0] == 'o'
    ensures !Opens(line) && !IsMetadata(line) && !IsBlank(line) && !IsGroupWord(line) && !("kind:" <= line)
  {
    HoldingLineStart(line, key);
    FirstLetters(line);
    if IsGroupWord(line) {
      GroupWordStart(line);
    }
  }

  /** A line that was given a value holds the same key, and that value. */
  lemma WithValueHolds(line: string, key: string, value: string)
    requires Holds(line, key) && 0 < |key| && key[0] == 'o'
    ensures var w := WithValue(line, key, value);
      Holds(w, key) && ValueAt(w, key) == ValueAt(line, key) && !HasNoValue(w, key) && WithValue(w, key, value) == w
  {
    var n, cut, w := LeadingBlanks(line), ValueAt(line, key), WithValue(line, key, value);
    HoldingLineStart(line, key);
    assert forall i :: 0 <= i < cut ==> w[i] == line[i];
    LeadingBlanksIs(w, n);
    assert w[n..][..|key| + 1] == line[n..][..|key| + 1] == key + ":";
    assert w[..cut] == line[..cut];
    assert w[cut + 1] == '"';
  }

  lemma EntryHolds(key: string, value: string)
    requires 0 < |key| && key[0] == 'o'
    ensures var e := Entry(key, value); Holds(e, key) && !HasNoValue(e, key) && WithValue(e, key, value) == e
  {
    var e := Entry(key, value);
    LeadingBlanksIs(e, 4);
    assert e[4..] == key + ":" + Quoted(value);
    assert e[..4 + |key| + 1] == "    " + key + ":";
    assert e[4 + |key| + 2] == '"';
  }

  lemma {:induction false} FirstHoldingIs(lines: seq<string>, key: string, i: nat)
    requires i <= |lines| && (i < |lines| ==> Holds(lines[i], key))
    requires forall j :: 0 <= j < i ==> !Holds(lines[j], key)
    ensures FirstHolding(lines, key) == i
  {
  }

  /** The first line that holds the key has this value already. */
  predicate Valued(lines: seq<string>, key: string, value: string) {
    var i := FirstHolding(lines, key);
    i < |lines| ==> !HasNoValue(lines[i], key) && WithValue(lines[i], key, value) == lines[i]
  }

  lemma ValuedStays(lines: Text, key: string, value: string)
    requires Valued(lines, key, value)
    ensures SetValue(lines, key, value) == lines
  {
    var i := FirstHolding(lines, key);
    if i < |lines| {
      SettingIsUpdate(lines, key, value);
      assert lines[i := lines[i]] == lines;
    }
  }

  predicate SameKey(st: Settings, a: string, b: string) {
    (Holds(a, st.timeoutKey) && Holds(b, st.timeoutKey)) || (Holds(a, st.retryKey) && Holds(b, st.retryKey))
  }

  /** Texts that differ only in lines holding one of the two keys, each line keeping its key. */
  ghost predicate SameButValues(st: Settings, a: Text, b: Text) {
    |a| == |b| && forall k :: 0 <= k < |a| ==> a[k] == b[k] || SameKey(st, a[k], b[k])
  }

  /** Replacing a value that is present changes that line alone. */
  lemma SettingChangesOneLine(st: Settings, lines: Text, key: string, value: string)
    requires st.Valid() && IsKey(st, key) && HasValue(lines, key)
    ensures var r := SetValue(lines, key, value);
      && SameButValues(st, lines, r)
      && Valued(r, key, value)
      && FirstHolding(r, key) == FirstHolding(lines, key)
      && forall k :: 0 <= k < |lines| && k != FirstHolding(lines, key) ==> r[k] == lines[k]
  {
    var i, r := FirstHolding(lines, key), SetValue(lines, key, value);
    if i < |lines| {
      var w := WithValue(lines[i], key, value);
      WithValueHolds(lines[i], key, value);
      SettingIsUpdate(lines, key, value);
      ReplacedLine(lines, key, i, w);
      OneLineDiffers(st, lines, key, i, w);
    }
  }

  lemma SettingIsUpdate(lines: Text, key: string, value: string)
    requires HasValue(lines, key) && FirstHolding(lines, key) < |lines|
    ensures var i := FirstHolding(lines, key);
      SetValue(lines, key, value) == lines[i := WithValue(lines[i], key, value)]
  {
  }

  lemma OneLineDiffers(st: Settings, lines: Text, key: string, i: nat, w: string)
    requires IsKey(st, key) && i < |lines| && Holds(lines[i], key) && Holds(w, key)
    ensures SameButValues(st, lines, lines[i := w])
  {
  }

  lemma ReplacedLine(lines: Text, key: string, i: nat, w: string)
    requires i < |lines| && i == FirstHolding(lines, key) && Holds(w, key)
    ensures FirstHolding(lines[i := w], key) == i
  {
    FirstHoldingIs(lines[i := w], key, i);
  }

  /** ... and leaves the other annotation where it is. */
  lemma SettingKeepsOther(st: Settings, lines: Text, key: string, value: string, other: string)
    requires st.Valid() && IsKey(st, key) && IsKey(st, other) && key != other && HasValue(lines, key)
    ensures var r, j := SetValue(lines, key, value), FirstHolding(lines, other);
      |r| == |lines| && FirstHolding(r, other) == j && (j < |lines| ==> r[j] == lines[j])
  {
    var r, i, j := SetValue(lines, key, value), FirstHolding(lines, key), FirstHolding(lines, other);
    SettingChangesOneLine(st, lines, key, value);
    if i < |lines| {
      OneKeyPerLine(st, lines[i]);
      OneKeyPerLine(st, r[i]);
    }
    FirstHoldingIs(r, other, j);
  }

  lemma HoldingEither(st: Settings, a: string, b: string)
    requires st.Valid() && SameKey(st, a, b)
    ensures !Opens(a) && !IsBlank(a) && !IsGroupWord(a) && !("kind:" <= a)
  {
    HoldingLine(a, if Holds(a, st.timeoutKey) then st.timeoutKey else st.retryKey);
  }

  /** A document keeps its kind when only values change. */
  lemma KindKept(st: Settings, a: Text, b: Text)
    requires st.Valid() && SameButValues(st, a, b) && IsGroupDocument(a)
    ensures IsGroupDocument(b)
  {
    var k :| 0 <= k < |a| && KindAt(a, k);
    forall i | 0 <= i < |a| && a[i] != b[i] ensures !IsBlank(a[i]) && !IsGroupWord(a[i]) && !("kind:" <= a[i]) {
      HoldingEither(st, a[i], b[i]);
    }
    assert KindAt(b, k);
  }

  lemma Composed(st: Settings, a: Text, b: Text, c: Text)
    requires st.Valid() && SameButValues(st, a, b) && SameButValues(st, b, c)
    ensures SameButValues(st, a, c)
  {
    forall k | 0 <= k < |a| ensures a[k] == c[k] || SameKey(st, a[k], c[k]) {
      OneKeyPerLine(st, b[k]);
    }
  }

  lemma SettingBoth(st: Settings, lines: Text)
    requires st.Valid() && HasValue(lines, st.timeoutKey) && HasValue(lines, st.retryKey)
    ensures SameButValues(st, lines, SetBoth(st, lines))
    ensures FirstHolding(SetBoth(st, lines), st.timeoutKey) == FirstHolding(lines, st.timeoutKey)
    ensures Valued(SetBoth(st, lines), st.timeoutKey, st.timeout) && Valued(SetBoth(st, lines), st.retryKey, st.retry)
  {
    var a := SetValue(lines, st.timeoutKey, st.timeout);
    SettingChangesOneLine(st, lines, st.timeoutKey, st.timeout);
    SettingKeepsOther(st, lines, st.timeoutKey, st.timeout, st.retryKey);
    SettingChangesOneLine(st, a, st.retryKey, st.retry);
    SettingKeepsOther(st, a, st.retryKey, st.retry, st.timeoutKey);
    Composed(st, lines, a, SetBoth(st, lines));
  }

  /** A document whose annotations have values, patched: both values are set, and no other line changes. */
  lemma PatchReplacesValues(st: Settings, lines: Text)
    requires st.Valid() && IsGroupDocument(lines) && FirstHolding(lines, st.timeoutKey) < |lines|
    requires HasValue(lines, st.timeoutKey) && HasValue(lines, st.retryKey)
    ensures SameButValues(st, lines, PatchDoc(st, lines))
    ensures FirstHolding(PatchDoc(st, lines), st.timeoutKey) == FirstHolding(lines, st.timeoutKey)
    ensures Valued(PatchDoc(st, lines), st.timeoutKey, st.timeout) && Valued(PatchDoc(st, lines), st.retryKey, st.retry)
    ensures PatchDoc(st, PatchDoc(st, lines)) == PatchDoc(st, lines)
  {
    var r := SetBoth(st, lines);
    SettingBoth(st, lines);
    KindKept(st, lines, r);
    ValuedStays(r, st.timeoutKey, st.timeout);
    ValuedStays(r, st.retryKey, st.retry);
  }

  lemma MetadataLine(line: string)
    requires IsMetadata(line)
    ensures !IsBlank(line) && !IsGroupWord(line) && !("kind:" <= line)
  {
    FirstLetters(line);
    if IsGroupWord(line) {
      GroupWordStart(line);
    }
  }

  lemma KindShifts(lines: seq<string>, r: seq<string>, k: nat, d: nat)
    requires k < |lines| && |r| == |lines| + d && r[k + d..] == lines[k..] && KindAt(lines, k)
    ensures KindAt(r, k + d)
  {
    assert forall i :: k <= i < |lines| ==> lines[i] == lines[k..][i - k] == r[i + d];
    if !IsGroupWord(lines[k][5..]) {
      var q :| k < q < |lines| && IsGroupWord(lines[q]) && forall t :: k < t < q ==> IsBlank(lines[t]);
      assert IsGroupWord(r[q + d]);
      forall t | k + d < t < q + d ensures IsBlank(r[t]) {
        assert r[t] == lines[t - d];
      }
    }
  }

  lemma KindAbove(lines: seq<string>, r: seq<string>, k: nat, m: nat)
    requires k < m < |lines| && m <= |r| && r[..m] == lines[..m] && KindAt(lines, k)
    requires !IsBlank(lines[m]) && !IsGroupWord(lines[m])
    ensures KindAt(r, k)
  {
    assert forall i :: 0 <= i < m ==> lines[i] == lines[..m][i] == r[i];
    if !IsGroupWord(lines[k][5..]) {
      var q :| k < q < |lines| && IsGroupWord(lines[q]) && forall t :: k < t < q ==> IsBlank(lines[t]);
      assert q < m && IsGroupWord(r[q]);
    }
  }

  lemma KindIsNotBlank(lines: seq<string>, k: nat)
    requires k < |lines| && KindAt(lines, k)
    ensures !IsBlank(lines[k])
  {
    FirstLetters(lines[k]);
  }

  lemma InsertedSlices(lines: seq<string>, block: seq<string>, at: nat, r: seq<string>, i: nat)
    requires at <= |lines| && r == lines[..at] + block + lines[at..] && i <= |lines|
    ensures if i < at then r[..i] == lines[..i] else r[i + |block|..] == lines[i..]
  {
  }

  /** An inserted block does not hide the kind of the document. */
  lemma KindKeptByBlock(lines: Text, block: seq<string>)
    requires IsGroupDocument(lines) && Insertable(lines)
    ensures IsGroupDocument(WithBlock(lines, block))
  {
    var k :| 0 <= k < |lines| && KindAt(lines, k);
    if k >= InsertAt(lines) {
      KindKeptBelow(lines, block, k);
    } else {
      KindKeptAbove(lines, block, k);
    }
  }

  lemma KindKeptBelow(lines: Text, block: seq<string>, k: nat)
    requires k < |lines| && KindAt(lines, k) && Insertable(lines) && k >= InsertAt(lines)
    ensures IsGroupDocument(WithBlock(lines, block))
  {
    var at, r := InsertAt(lines), WithBlock(lines, block);
    InsertedSlices(lines, block, at, r, k);
    KindShifts(lines, r, k, |block|);
  }

  lemma KindKeptAbove(lines: Text, block: seq<string>, k: nat)
    requires k < |lines| && KindAt(lines, k) && Insertable(lines) && k < InsertAt(lines)
    ensures IsGroupDocument(WithBlock(lines, block))
  {
    var m, at, r := FirstMetadata(lines), InsertAt(lines), WithBlock(lines, block);
    MetadataLine(lines[m]);
    KindIsNotBlank(lines, k);
    InsertedSlices(lines, block, at, r, m);
    KindAbove(lines, r, k, m);
  }

  lemma HeadHoldsNothing(st: Settings)
    requires st.Valid()
    ensures !Holds(HEAD, st.timeoutKey) && !Holds(HEAD, st.retryKey) && !Opens(HEAD)
  {
    LeadingBlanksIs(HEAD, 2);
    assert HEAD[2..][0] == 'a';
    FirstLetters(HEAD);
  }

  /** The lines of an inserted block as the searches see them. */
  ghost predicate IsBlock(st: Settings, block: seq<string>) {
    && |block| == 3
    && !Holds(block[0], st.timeoutKey) && !Holds(block[0], st.retryKey)
    && Holds(block[1], st.timeoutKey) && !Holds(block[1], st.retryKey) && Holds(block[2], st.retryKey)
    && Valued(block, st.timeoutKey, st.timeout) && Valued(block, st.retryKey, st.retry)
    && !Opens(block[0]) && !Opens(block[1]) && !Opens(block[2])
  }

  lemma ThreeLines(st: Settings, head: string, timeout: string, retry: string)
    requires st.Valid() && !Holds(head, st.timeoutKey) && !Holds(head, st.retryKey) && !Opens(head)
    requires Holds(timeout, st.timeoutKey) && Valued([timeout], st.timeoutKey, st.timeout)
    requires Holds(retry, st.retryKey) && Valued([retry], st.retryKey, st.retry)
    ensures IsBlock(st, [head, timeout, retry])
  {
    var block := [head, timeout, retry];
    OneKeyPerLine(st, timeout);
    FirstHoldingIs(block, st.timeoutKey, 1);
    FirstHoldingIs(block, st.retryKey, 2);
    HoldingLine(timeout, st.timeoutKey);
    HoldingLine(retry, st.retryKey);
  }

  lemma BlockLines(st: Settings)
    requires st.Valid()
    ensures IsBlock(st, AnnotationBlock(st))
  {
    HeadHoldsNothing(st);
    EntryHolds(st.timeoutKey, st.timeout);
    EntryHolds(st.retryKey, st.retry);
    ThreeLines(st, HEAD, Entry(st.timeoutKey, st.timeout), Entry(st.retryKey, st.retry));
  }

  /** Where a search finds its key after lines were inserted that hold it first at place `p`. */
  lemma SearchAfterInsert(lines: seq<string>, block: seq<string>, at: nat, key: string, p: nat, r: seq<string>)
    requires at <= |lines| && p < |block| && r == lines[..at] + block + lines[at..]
    requires Holds(block[p], key) && forall q :: 0 <= q < p ==> !Holds(block[q], key)
    ensures var j := FirstHolding(lines, key);
      FirstHolding(r, key) == (if j < at then j else at + p) && (j < at ==> r[j] == lines[j])
    ensures r[at + p] == block[p]
  {
    var j := FirstHolding(lines, key);
    var i := if j < at then j else at + p;
    InsertedLine(lines, block, at, r, i);
    InsertedLine(lines, block, at, r, at + p);
    forall k | 0 <= k < i ensures !Holds(r[k], key) {
      InsertedLine(lines, block, at, r, k);
    }
    FirstHoldingIs(r, key, i);
  }

  /** Where the searches find the annotations after a block was inserted. */
  lemma TimeoutIsFound(st: Settings, lines: Text, block: seq<string>)
    requires IsBlock(st, block) && Insertable(lines) && FirstHolding(lines, st.timeoutKey) == |lines|
    ensures var r := WithBlock(lines, block);
      FirstHolding(r, st.timeoutKey) == InsertAt(lines) + 1 && Valued(r, st.timeoutKey, st.timeout)
  {
    FirstHoldingIs(block, st.timeoutKey, 1);
    SearchAfterInsert(lines, block, InsertAt(lines), st.timeoutKey, 1, WithBlock(lines, block));
  }

  lemma RetryIsFound(st: Settings, lines: Text, block: seq<string>)
    requires IsBlock(st, block) && Insertable(lines)
    ensures var r, at, j := WithBlock(lines, block), InsertAt(lines), FirstHolding(lines, st.retryKey);
      if j < at then FirstHolding(r, st.retryKey) == j && r[j] == lines[j] else Valued(r, st.retryKey, st.retry)
  {
    FirstHoldingIs(block, st.retryKey, 2);
    SearchAfterInsert(lines, block, InsertAt(lines), st.retryKey, 2, WithBlock(lines, block));
  }

  /**
   A document patched by insertion is settled unless a retry annotation stands above its metadata with another value:
   the next patch finds that one first.
   */
  predicate Settles(st: Settings, lines: Text) {
    IsGroupDocument(lines) && FirstHolding(lines, st.timeoutKey) == |lines| && Insertable(lines)
    && FirstHolding(lines, st.retryKey) < FirstMetadata(lines)
    ==> Valued(lines, st.retryKey, st.retry)
  }

  /** Patching a document into which a block was inserted can only change the retry annotation. */
  lemma InsertedThenPatched(st: Settings, lines: Text, block: seq<string>)
    requires IsBlock(st, block)
    requires IsGroupDocument(lines) && FirstHolding(lines, st.timeoutKey) == |lines| && Insertable(lines)
    ensures PatchDoc(st, WithBlock(lines, block)) == SetValue(WithBlock(lines, block), st.retryKey, st.retry)
  {
    KindKeptByBlock(lines, block);
    TimeoutIsFound(st, lines, block);
    ValuedStays(WithBlock(lines, block), st.timeoutKey, st.timeout);
  }

  lemma SettlesByValue(st: Settings, lines: Text, block: seq<string>)
    requires st.Valid() && IsBlock(st, block)
    requires IsGroupDocument(lines) && FirstHolding(lines, st.timeoutKey) == |lines| && Insertable(lines)
    requires HasValue(lines, st.retryKey)
    ensures HasValue(WithBlock(lines, block), st.retryKey)
    ensures Valued(WithBlock(lines, block), st.retryKey, st.retry) <==> Settles(st, lines)
  {
    RetryIsFound(st, lines, block);
    HolderAboveMetadata(st, lines);
  }

  /** A retry annotation above an insertion stands above the metadata line. */
  lemma HolderAboveMetadata(st: Settings, lines: Text)
    requires st.Valid() && Insertable(lines)
    ensures FirstHolding(lines, st.retryKey) < InsertAt(lines) <==>
            FirstHolding(lines, st.retryKey) < FirstMetadata(lines)
  {
    var j := FirstHolding(lines, st.retryKey);
    if j < InsertAt(lines) {
      HoldingLine(lines[j], st.retryKey);
    }
  }

  lemma SetChangesUnlessValued(st: Settings, lines: Text, key: string, value: string)
    requires st.Valid() && IsKey(st, key) && HasValue(lines, key)
    ensures SetValue(lines, key, value) == lines <==> Valued(lines, key, value)
  {
    SettingChangesOneLine(st, lines, key, value);
    if Valued(lines, key, value) {
      ValuedStays(lines, key, value);
    }
  }

  lemma InsertingTwice(st: Settings, lines: Text)
    requires st.Valid() && IsGroupDocument(lines) && FirstHolding(lines, st.timeoutKey) == |lines| && Insertable(lines)
    requires HasValue(lines, st.retryKey)
    ensures PatchDoc(st, PatchDoc(st, lines)) == PatchDoc(st, lines) <==> Settles(st, lines)
  {
    var block := AnnotationBlock(st);
    BlockLines(st);
    InsertedThenPatched(st, lines, block);
    SettlesByValue(st, lines, block);
    SetChangesUnlessValued(st, WithBlock(lines, block), st.retryKey, st.retry);
  }

  /** One document: patching again changes nothing exactly when it settles. */
  lemma PatchDocTwice(st: Settings, lines: Text)
    requires st.Valid() && HasValue(lines, st.timeoutKey) && HasValue(lines, st.retryKey)
    ensures PatchDoc(st, PatchDoc(st, lines)) == PatchDoc(st, lines) <==> Settles(st, lines)
  {
    if IsGroupDocument(lines) {
      if FirstHolding(lines, st.timeoutKey) < |lines| {
        PatchReplacesValues(st, lines);
      } else if Insertable(lines) {
        InsertingTwice(st, lines);
      }
    }
  }

  /* ---------- the whole manifest ---------- */

  /** The second text opens a document where the first does, and ends in a newline if the first does. */
  ghost predicate KeepsCuts(a: Text, b: Text) {
    && |b| >= |a| && (Opens(b[0]) <==> Opens(a[0]))
    && (a[|a| - 1] == "" ==> b[|b| - 1] == "")
    && (OneDocument(a) ==> OneDocument(b))
  }

  ghost predicate OneDocument(lines: Text) {
    forall i :: 0 < i < |lines| ==> !Opens(lines[i])
  }

  /** Patching keeps where a document opens and how it ends, so the same cuts are found again. */
  lemma PatchKeepsCuts(st: Settings, lines: Text)
    requires st.Valid() && HasValue(lines, st.timeoutKey) && HasValue(lines, st.retryKey)
    ensures KeepsCuts(lines, PatchDoc(st, lines))
  {
    if IsGroupDocument(lines) {
      if FirstHolding(lines, st.timeoutKey) < |lines| {
        PatchReplacesValues(st, lines);
        forall i | 0 <= i < |lines| && lines[i] != PatchDoc(st, lines)[i]
          ensures !Opens(lines[i]) && !Opens(PatchDoc(st, lines)[i]) && lines[i] != ""
        {
          HoldingEither(st, lines[i], PatchDoc(st, lines)[i]);
          HoldingEither(st, PatchDoc(st, lines)[i], lines[i]);
        }
      } else if Insertable(lines) {
        BlockLines(st);
        BlockKeepsCuts(st, lines, AnnotationBlock(st));
      }
    }
  }

  lemma InsertedLine(lines: seq<string>, block: seq<string>, at: nat, r: seq<string>, i: nat)
    requires at <= |lines| && r == lines[..at] + block + lines[at..] && i < |r|
    ensures r[i] == if i < at then lines[i] else if i < at + |block| then block[i - at] else lines[i - |block|]
  {
  }

  lemma InsertedAllAre(lines: seq<string>, block: seq<string>, at: nat, r: seq<string>, good: string -> bool)
    requires 0 < at <= |lines| && r == lines[..at] + block + lines[at..]
    requires forall i :: 0 < i < |lines| ==> good(lines[i])
    requires forall i :: 0 <= i < |block| ==> good(block[i])
    ensures forall i :: 0 < i < |r| ==> good(r[i])
  {
    forall i | 0 < i < |r| ensures good(r[i]) {
      InsertedLine(lines, block, at, r, i);
    }
  }

  lemma InsertedEnds(lines: seq<string>, block: seq<string>, at: nat, r: seq<string>)
    requires 0 < at < |lines| && r == lines[..at] + block + lines[at..]
    ensures |r| == |lines| + |block| && r[0] == lines[0] && r[|r| - 1] == lines[|lines| - 1]
  {
  }

  lemma BlockKeepsCuts(st: Settings, lines: Text, block: seq<string>)
    requires IsBlock(st, block) && Insertable(lines)
    ensures KeepsCuts(lines, WithBlock(lines, block))
  {
    var at, r := InsertAt(lines), WithBlock(lines, block);
    InsertedEnds(lines, block, at, r);
    if OneDocument(lines) {
      BlockKeepsOne(lines, block);
    }
  }

  lemma BlockKeepsOne(lines: Text, block: seq<string>)
    requires |block| == 3 && !Opens(block[0]) && !Opens(block[1]) && !Opens(block[2])
    requires Insertable(lines) && OneDocument(lines)
    ensures OneDocument(WithBlock(lines, block))
  {
    InsertedAllAre(lines, block, InsertAt(lines), WithBlock(lines, block), line => !Opens(line));
  }

  /** Annotations that are present in a document have a value there. */
  ghost predicate AllHaveValues(st: Settings, lines: Text) {
    forall part :: part in Parts(lines) ==> HasValue(part, st.timeoutKey) && HasValue(part, st.retryKey)
  }

  lemma CutWellKept(parts: seq<Text>, patched: seq<Text>)
    requires CutWell(parts) && |patched| == |parts|
    requires forall p :: 0 <= p < |parts| ==> KeepsCuts(parts[p], patched[p])
    ensures CutWell(patched)
  {
  }

  /** Cutting a patched manifest gives its patched documents. */
  lemma PartsOfPatched(st: Settings, lines: Text)
    requires st.Valid() && AllHaveValues(st, lines)
    ensures Parts(Patch(st, lines)) == PatchAll(st, Parts(lines))
  {
    PartsAreCutWell(lines);
    var parts := Parts(lines);
    forall p | 0 <= p < |parts| ensures KeepsCuts(parts[p], PatchAll(st, parts)[p]) {
      assert parts[p] in parts;
      PatchKeepsCuts(st, parts[p]);
    }
    CutWellKept(parts, PatchAll(st, parts));
    JoinSplits(PatchAll(st, parts));
  }

  lemma PatchedHasValues(st: Settings, lines: Text)
    requires st.Valid() && HasValue(lines, st.timeoutKey) && HasValue(lines, st.retryKey)
    ensures HasValue(PatchDoc(st, lines), st.timeoutKey) && HasValue(PatchDoc(st, lines), st.retryKey)
  {
    if IsGroupDocument(lines) {
      if FirstHolding(lines, st.timeoutKey) < |lines| {
        PatchReplacesValues(st, lines);
      } else if Insertable(lines) {
        BlockLines(st);
        TimeoutIsFound(st, lines, AnnotationBlock(st));
        SettlesByValue(st, lines, AnnotationBlock(st));
      }
    }
  }

  lemma PatchedManifestHasValues(st: Settings, lines: Text)
    requires st.Valid() && AllHaveValues(st, lines)
    ensures AllHaveValues(st, Patch(st, lines))
  {
    var parts := Parts(lines);
    PartsOfPatched(st, lines);
    forall part | part in PatchAll(st, parts) ensures HasValue(part, st.timeoutKey) && HasValue(part, st.retryKey) {
      var p :| 0 <= p < |parts| && PatchAll(st, parts)[p] == part;
      assert parts[p] in parts;
      PatchedHasValues(st, parts[p]);
    }
  }

  lemma {:induction false} PatchAllTwice(st: Settings, parts: seq<Text>)
    requires st.Valid()
    requires forall part :: part in parts ==> HasValue(part, st.timeoutKey) && HasValue(part, st.retryKey)
    ensures PatchAll(st, PatchAll(st, parts)) == PatchAll(st, parts) <==>
            forall part :: part in parts ==> Settles(st, part)
  {
    if parts != [] {
      var once := PatchAll(st, parts);
      PatchDocTwice(st, parts[0]);
      PatchAllTwice(st, parts[1..]);
      assert once[1..] == PatchAll(st, parts[1..]);
      var twice := PatchAll(st, once);
      assert twice[0] == PatchDoc(st, PatchDoc(st, parts[0])) && twice[1..] == PatchAll(st, once[1..]);
      assert twice == once <==> twice[0] == once[0] && twice[1..] == once[1..];
      assert forall part :: part in parts <==> part == parts[0] || part in parts[1..];
    }
  }

  /** Texts with the same parts are the same. */
  lemma PartsDecide(a: Text, b: Text)
    ensures a == b <==> Parts(a) == Parts(b)
  {
    SplittingIsLossless(a);
    SplittingIsLossless(b);
  }

  /** Patching a manifest again changes nothing exactly when each of its documents settles. */
  lemma PatchTwice(st: Settings, lines: Text)
    requires st.Valid() && AllHaveValues(st, lines)
    ensures Patch(st, Patch(st, lines)) == Patch(st, lines) <==>
            forall part :: part in Parts(lines) ==> Settles(st, part)
  {
    var once := Patch(st, lines);
    PartsOfPatched(st, lines);
    PatchedManifestHasValues(st, lines);
    PartsOfPatched(st, once);
    PatchAllTwice(st, Parts(lines));
    PartsDecide(Patch(st, once), once);
  }

  /** A line that begins with another letter than the keys holds none of them. */
  lemma OtherLetterHoldsNothing(st: Settings, line: string)
    requires st.Valid() && (line == "" || (!IsSpace(line[0]) && line[0] != 'o'))
    ensures !Holds(line, st.timeoutKey) && !Holds(line, st.retryKey)
  {
    if line != "" {
      LeadingBlanksIs(line, 0);
      assert line[0..] == line;
    }
  }

  lemma GroupIsGroupWord()
    ensures IsGroupWord(GROUP)
  {
    LeadingBlanksIs(GROUP, 0);
    assert GROUP[0..] == GROUP;
  }

  lemma OtherValueShows(key: string, value: string, other: string)
    requires 0 < |key| && key[0] == 'o' && value != other
    ensures Holds(Entry(key, other), key) && !HasNoValue(Entry(key, other), key)
    ensures WithValue(Entry(key, other), key, value) != Entry(key, other)
  {
    var cut := 4 + |key| + 1;
    EntryHolds(key, other);
    EntryHolds(key, value);
    assert Entry(key, other)[..cut] == "    " + key + ":";
    assert WithValue(Entry(key, other), key, value)[cut..] == Quoted(value);
    assert Entry(key, other)[cut..] == Quoted(other);
    QuotedApart(value, other);
  }

  lemma QuotedApart(value: string, other: string)
    requires value != other
    ensures Quoted(value) != Quoted(other)
  {
    assert Quoted(value)[2..|Quoted(value)| - 1] == value && Quoted(other)[2..|Quoted(other)| - 1] == other;
  }

  const KIND_LINE := "kind:" + GROUP
  const METADATA_LINE := "metadata:"

  /** A manifest with one document: another retry value, then its kind, then its metadata. */
  function Misplaced(st: Settings, other: string): Text {
    [Entry(st.retryKey, other), KIND_LINE, METADATA_LINE, ""]
  }

  lemma {:induction false} FirstMetadataIs(lines: seq<string>, i: nat)
    requires i < |lines| && IsMetadata(lines[i]) && forall j :: 0 <= j < i ==> !IsMetadata(lines[j])
    ensures FirstMetadata(lines) == i
  {
  }

  lemma KindLineIsNoOther(st: Settings)
    requires st.Valid()
    ensures !Holds(KIND_LINE, st.timeoutKey) && !IsMetadata(KIND_LINE) && !Opens(KIND_LINE)
    ensures !Holds(METADATA_LINE, st.timeoutKey) && IsMetadata(METADATA_LINE) && !Opens(METADATA_LINE)
    ensures !Holds("", st.timeoutKey) && !Opens("")
  {
    assert KIND_LINE[0] == 'k' && METADATA_LINE[0] == 'm';
    FirstLetters(KIND_LINE);
    FirstLetters(METADATA_LINE);
    OtherLetterHoldsNothing(st, KIND_LINE);
    OtherLetterHoldsNothing(st, METADATA_LINE);
    OtherLetterHoldsNothing(st, "");
  }

  lemma MisplacedKeys(st: Settings, other: string)
    requires st.Valid() && other != st.retry
    ensures FirstHolding(Misplaced(st, other), st.retryKey) == 0
    ensures FirstHolding(Misplaced(st, other), st.timeoutKey) == 4
    ensures HasValue(Misplaced(st, other), st.retryKey) && !Valued(Misplaced(st, other), st.retryKey, st.retry)
  {
    OtherValueShows(st.retryKey, st.retry, other);
    FirstHoldingIs(Misplaced(st, other), st.retryKey, 0);
    MisplacedHasNoTimeout(st, other);
  }

  lemma MisplacedHasNoTimeout(st: Settings, other: string)
    requires st.Valid() && other != st.retry
    ensures FirstHolding(Misplaced(st, other), st.timeoutKey) == 4
  {
    EntryHolds(st.retryKey, other);
    OneKeyPerLine(st, Entry(st.retryKey, other));
    KindLineIsNoOther(st);
    NoneOfFour(Entry(st.retryKey, other), KIND_LINE, METADATA_LINE, "", st.timeoutKey);
  }

  lemma NoneOfFour(a: string, b: string, c: string, d: string, key: string)
    requires !Holds(a, key) && !Holds(b, key) && !Holds(c, key) && !Holds(d, key)
    ensures FirstHolding([a, b, c, d], key) == 4
  {
    FirstHoldingIs([a, b, c, d], key, 4);
  }

  lemma MisplacedMetadata(st: Settings, other: string)
    requires st.Valid()
    ensures FirstMetadata(Misplaced(st, other)) == 2
  {
    var lines := Misplaced(st, other);
    EntryHolds(st.retryKey, other);
    HoldingLine(lines[0], st.retryKey);
    KindLineIsNoOther(st);
    ThirdIsMetadata(lines[0], KIND_LINE, METADATA_LINE, "");
  }

  lemma ThirdIsMetadata(a: string, b: string, c: string, d: string)
    requires !IsMetadata(a) && !IsMetadata(b) && IsMetadata(c)
    ensures FirstMetadata([a, b, c, d]) == 2
  {
    FirstMetadataIs([a, b, c, d], 2);
  }

  lemma MisplacedIsOneGroup(st: Settings, other: string)
    requires st.Valid()
    ensures IsGroupDocument(Misplaced(st, other)) && Parts(Misplaced(st, other)) == [Misplaced(st, other)]
  {
    var lines := Misplaced(st, other);
    EntryHolds(st.retryKey, other);
    GroupIsGroupWord();
    assert KIND_LINE[5..] == GROUP;
    assert KindAt(lines, 1);
    KindLineIsNoOther(st);
    DocLengthIs(lines, 4);
  }

  /** There are such manifests, for every setting: patching this one twice differs from patching it once. */
  lemma UnsettledManifest(st: Settings, other: string) returns (lines: Text)
    requires st.Valid() && other != st.retry
    ensures AllHaveValues(st, lines) && Patch(st, Patch(st, lines)) != Patch(st, lines)
  {
    lines := Misplaced(st, other);
    MisplacedKeys(st, other);
    MisplacedMetadata(st, other);
    MisplacedIsOneGroup(st, other);
    assert !Settles(st, lines);
    assert lines in Parts(lines);
    PatchTwice(st, lines);
  }

  /* ---------- an annotation without a value ---------- */

  /**
   An empty value is given the new one at the expense of the next line that is not blank, and of the blank lines before
   it: patching then loses at least a line, unless the annotation is the very end of the text.
   */
  lemma EmptyValueLosesLines(lines: Text, key: string, value: string)
    requires FirstHolding(lines, key) < |lines|
    ensures |SetValue(lines, key, value)| < |lines| <==>
      !HasValue(lines, key) && FirstHolding(lines, key) + 1 < |lines|
  {
    var i := FirstHolding(lines, key);
    if i + 1 < |lines| {
      assert Swallowed(lines[i + 1..]) > 0;
    }
  }

  /** So a document that ends in such an annotation is glued to the one that follows it: two documents become one. */
  lemma EmptyValueJoinsDocuments(lines: Text, key: string, value: string, next: Text)
    requires |lines| > 1 && lines[|lines| - 1] == "" && FirstHolding(lines, key) == |lines| - 2
    requires !HasValue(lines, key)
    ensures var w := WithValue(lines[|lines| - 2], key, value);
      Glue(SetValue(lines, key, value), next) == lines[..|lines| - 2] + [w + next[0]] + next[1..]
  {
    assert lines[|lines| - 1..] == [""];
  }
}
