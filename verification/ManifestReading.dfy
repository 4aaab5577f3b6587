/** What a patched OperatorGroup document reads, line by line, in the letters of its lines. */
module ManifestReading {
  import opened Basics
  import opened ManifestPatch

  /** Behind `n` blanks the line goes on with the key and a colon. */
  ghost predicate Starts(line: string, key: string, n: nat) {
    && n + |key| < |line| && (forall i :: 0 <= i < n ==> IsSpace(line[i]))
    && line[n..n + |key|] == key && line[n + |key|] == ':'
  }

  ghost predicate StartsWith(line: string, key: string) {
    exists n: nat :: Starts(line, key, n)
  }

  /** This is the first line that starts with the key. */
  ghost predicate IsFirst(lines: seq<string>, key: string, i: nat, n: nat) {
    i < |lines| && Starts(lines[i], key, n) && IsNowhere(lines[..i], key)
  }

  ghost predicate IsNowhere(lines: seq<string>, key: string) {
    forall j :: 0 <= j < |lines| ==> !StartsWith(lines[j], key)
  }

  function Written(indent: string, key: string, value: string): string {
    indent + key + ": \"" + value + "\""
  }

  /** `kind: OperatorGroup`, on one line or with blank lines in between. */
  ghost predicate GivesKind(lines: seq<string>, k: nat) {
    && k < |lines| && |lines[k]| >= 5 && lines[k][..5] == "kind:"
    && (|| Strip(lines[k][5..]) == "OperatorGroup"
        || (Blank(lines[k][5..])
            && exists q :: k < q < |lines| && Strip(lines[q]) == "OperatorGroup"
                           && forall r :: k < r < q ==> Blank(lines[r])))
  }

  ghost predicate IsGroup(lines: seq<string>) {
    exists k: nat :: GivesKind(lines, k)
  }

  predicate OpensMetadata(line: string) {
    |line| >= 9 && line[..9] == "metadata:" && Blank(line[9..])
  }

  /* ---------- the searches in these terms ---------- */

  lemma OneCore(s: string, i: nat, j: nat, k: nat, l: nat)
    requires IsCore(s, i, j) && IsCore(s, k, l) && i < j && k < l
    ensures i == k && j == l
  {
  }

  lemma BlankIff(line: string)
    ensures IsBlank(line) <==> Blank(line)
  {
    var i, j := StripIs(line);
  }

  lemma GroupWordIff(line: string)
    ensures IsGroupWord(line) <==> Strip(line) == "OperatorGroup"
  {
    var i, j := StripIs(line);
    var n := LeadingBlanks(line);
    if IsGroupWord(line) {
      GroupWordIsCore(line, n);
      OneCore(line, i, j, n, n + 13);
    }
    if Strip(line) == "OperatorGroup" {
      assert i < j;
      LeadingBlanksIs(line, i);
      assert line[i..][..13] == line[i..j];
    }
  }

  lemma GroupWordIsCore(line: string, n: nat)
    requires n == LeadingBlanks(line) && IsGroupWord(line)
    ensures n + 13 <= |line| && IsCore(line, n, n + 13) && line[n..n + 13] == "OperatorGroup"
  {
    assert |GROUP| == 13;
    assert line[n..][..13] == line[n..n + 13];
    assert line[n + 12] == line[n..n + 13][12] == 'p';
    CoreByEnds(line, n, n + 13);
  }

  lemma CoreByEnds(line: string, i: nat, j: nat)
    requires i < j <= |line| && i == LeadingBlanks(line) && IsBlank(line[j..])
    requires !IsSpace(line[j - 1])
    ensures IsCore(line, i, j)
  {
    var rest := line[j..];
    forall k | j <= k < |line| ensures IsSpace(line[k]) {
      assert IsSpace(rest[k - j]);
    }
  }

  lemma KindIff(lines: seq<string>, k: nat)
    requires k < |lines|
    ensures KindAt(lines, k) <==> GivesKind(lines, k)
  {
    forall line ensures IsGroupWord(line) <==> Strip(line) == "OperatorGroup" {
      GroupWordIff(line);
    }
    forall line ensures IsBlank(line) <==> Blank(line) {
      BlankIff(line);
    }
    assert |"kind:"| == 5;
  }

  lemma GroupIff(lines: seq<string>)
    ensures IsGroupDocument(lines) <==> IsGroup(lines)
  {
    forall k: nat | k < |lines| ensures KindAt(lines, k) <==> GivesKind(lines, k) {
      KindIff(lines, k);
    }
  }

  lemma MetadataIff(line: string)
    ensures IsMetadata(line) <==> OpensMetadata(line)
  {
    assert |"metadata:"| == 9;
    if |line| >= 9 {
      BlankIff(line[9..]);
    }
  }

  lemma StartsWhere(line: string, key: string, n: nat)
    requires key != "" && !IsSpace(key[0]) && Starts(line, key, n)
    ensures n == LeadingBlanks(line) && Holds(line, key) && ValueAt(line, key) == n + |key| + 1
  {
    assert line[n] == line[n..n + |key|][0] == key[0];
    LeadingBlanksIs(line, n);
    assert line[n..][..|key| + 1] == line[n..n + |key|] + [line[n + |key|]] == key + ":";
  }

  lemma HoldsIff(line: string, key: string)
    requires key != "" && !IsSpace(key[0])
    ensures Holds(line, key) <==> StartsWith(line, key)
  {
    if Holds(line, key) {
      var n := LeadingBlanks(line);
      assert line[n..n + |key|] == line[n..][..|key| + 1][..|key|];
      assert line[n + |key|] == line[n..][..|key| + 1][|key|];
      assert Starts(line, key, n);
    }
    if n: nat :| Starts(line, key, n) {
      StartsWhere(line, key, n);
    }
  }

  lemma FirstIs(lines: seq<string>, key: string, i: nat, n: nat)
    requires key != "" && !IsSpace(key[0]) && IsFirst(lines, key, i, n)
    ensures FirstHolding(lines, key) == i
    ensures Holds(lines[i], key) && (HasNoValue(lines[i], key) <==> Blank(lines[i][n + |key| + 1..]))
  {
    StartsWhere(lines[i], key, n);
    BlankIff(lines[i][n + |key| + 1..]);
    forall j | 0 <= j < i ensures !Holds(lines[j], key) {
      assert lines[..i][j] == lines[j];
      HoldsIff(lines[j], key);
    }
    FirstHoldingIs(lines, key, i);
  }

  lemma NowhereIs(lines: seq<string>, key: string)
    requires key != "" && !IsSpace(key[0]) && IsNowhere(lines, key)
    ensures FirstHolding(lines, key) == |lines|
  {
    forall j | 0 <= j < |lines| ensures !Holds(lines[j], key) {
      HoldsIff(lines[j], key);
    }
    FirstHoldingIs(lines, key, |lines|);
  }

  lemma WrittenIs(line: string, key: string, value: string, n: nat)
    requires key != "" && !IsSpace(key[0]) && Starts(line, key, n)
    ensures Holds(line, key) && WithValue(line, key, value) == Written(line[..n], key, value)
  {
    StartsWhere(line, key, n);
    assert line[..n + |key| + 1] == line[..n] + line[n..n + |key|] + [line[n + |key|]];
    assert key + ":" + (" \"" + value + "\"") == key + ": \"" + value + "\"";
  }

  /* ---------- what the patched document reads ---------- */

  /** A document that is no OperatorGroup stays as it is. */
  lemma OthersStay(st: Settings, lines: Text)
    requires !IsGroup(lines)
    ensures PatchDoc(st, lines) == lines
  {
    GroupIff(lines);
  }

  /** This is the first line that starts with the key, and a value follows. */
  ghost predicate IsValued(lines: seq<string>, key: string, i: nat, n: nat) {
    IsFirst(lines, key, i, n) && !Blank(lines[i][n + |key| + 1..])
  }

  /** The line is written anew behind its indentation. */
  function Rewritten(lines: Text, key: string, value: string, i: nat, n: nat): (r: Text)
    requires i < |lines| && n <= |lines[i]|
    ensures |r| == |lines| && forall j :: 0 <= j < |lines| && j != i ==> r[j] == lines[j]
  {
    lines[i := Written(lines[i][..n], key, value)]
  }

  /** Setting a value that is there rewrites its line. */
  lemma SettingWrites(lines: Text, key: string, value: string, i: nat, n: nat)
    requires key != "" && !IsSpace(key[0]) && FirstHolding(lines, key) == i < |lines|
    requires Starts(lines[i], key, n) && !Blank(lines[i][n + |key| + 1..])
    ensures HasValue(lines, key)
    ensures SetValue(lines, key, value) == Rewritten(lines, key, value, i, n)
  {
    StartsWhere(lines[i], key, n);
    BlankIff(lines[i][n + |key| + 1..]);
    WrittenIs(lines[i], key, value, n);
    SettingIsUpdate(lines, key, value);
  }

  lemma ValuedIs(lines: Text, key: string, value: string, i: nat, n: nat)
    requires key != "" && !IsSpace(key[0]) && IsValued(lines, key, i, n)
    ensures FirstHolding(lines, key) == i && HasValue(lines, key)
    ensures SetValue(lines, key, value) == Rewritten(lines, key, value, i, n)
  {
    FirstIs(lines, key, i, n);
    SettingWrites(lines, key, value, i, n);
  }

  lemma LinesApart(st: Settings, lines: Text, i: nat, n: nat, j: nat, m: nat)
    requires st.Valid() && IsValued(lines, st.timeoutKey, i, n) && IsValued(lines, st.retryKey, j, m)
    ensures i != j
  {
    StartsWhere(lines[i], st.timeoutKey, n);
    StartsWhere(lines[j], st.retryKey, m);
    OneKeyPerLine(st, lines[i]);
  }

  lemma TimeoutIsSet(st: Settings, lines: Text, i: nat, n: nat)
    requires st.Valid() && IsGroup(lines) && IsValued(lines, st.timeoutKey, i, n)
    ensures var a := Rewritten(lines, st.timeoutKey, st.timeout, i, n);
      && PatchDoc(st, lines) == SetValue(a, st.retryKey, st.retry)
      && FirstHolding(a, st.retryKey) == FirstHolding(lines, st.retryKey)
  {
    GroupIff(lines);
    ValuedIs(lines, st.timeoutKey, st.timeout, i, n);
    SettingKeepsOther(st, lines, st.timeoutKey, st.timeout, st.retryKey);
  }

  /** Where the timeout annotation has a value, the first one is written anew, and so is the first retry annotation if
      there is one with a value; everything else stays. */
  lemma ValuesAreWritten(st: Settings, lines: Text, i: nat, n: nat, j: nat, m: nat)
    requires st.Valid() && IsGroup(lines)
    requires IsValued(lines, st.timeoutKey, i, n) && IsValued(lines, st.retryKey, j, m)
    ensures i != j
    ensures PatchDoc(st, lines) ==
              Rewritten(Rewritten(lines, st.timeoutKey, st.timeout, i, n), st.retryKey, st.retry, j, m)
  {
    LinesApart(st, lines, i, n, j, m);
    TimeoutIsSet(st, lines, i, n);
    ValuedIs(lines, st.retryKey, st.retry, j, m);
    StillStarts(lines, Rewritten(lines, st.timeoutKey, st.timeout, i, n), st.retryKey, st.retry, j, m);
  }

  lemma StillStarts(lines: Text, a: Text, key: string, value: string, j: nat, m: nat)
    requires key != "" && !IsSpace(key[0]) && IsValued(lines, key, j, m) && j < |a| && a[j] == lines[j]
    requires FirstHolding(a, key) == j
    ensures SetValue(a, key, value) == Rewritten(a, key, value, j, m)
  {
    SettingWrites(a, key, value, j, m);
  }

  lemma TimeoutAloneIsWritten(st: Settings, lines: Text, i: nat, n: nat)
    requires st.Valid() && IsGroup(lines)
    requires IsValued(lines, st.timeoutKey, i, n) && IsNowhere(lines, st.retryKey)
    ensures PatchDoc(st, lines) == Rewritten(lines, st.timeoutKey, st.timeout, i, n)
  {
    TimeoutIsSet(st, lines, i, n);
    NowhereIs(lines, st.retryKey);
  }

  /** Where a block goes: behind the first line that opens the metadata and the blank lines that follow it. */
  ghost predicate IsPlace(lines: seq<string>, m: nat, at: nat) {
    && m < at < |lines| && OpensMetadata(lines[m]) && (forall j :: 0 <= j < m ==> !OpensMetadata(lines[j]))
    && (forall j :: m < j < at ==> Blank(lines[j])) && (at == |lines| - 1 || !Blank(lines[at]))
  }

  /** Without a timeout annotation three lines are put there, and everything else stays. */
  lemma BlockIsWritten(st: Settings, lines: Text, m: nat, at: nat)
    requires st.Valid() && IsGroup(lines) && IsNowhere(lines, st.timeoutKey) && IsPlace(lines, m, at)
    ensures PatchDoc(st, lines) ==
              lines[..at]
              + ["  annotations:", Written("    ", st.timeoutKey, st.timeout), Written("    ", st.retryKey, st.retry)]
              + lines[at..]
  {
    GroupIff(lines);
    NowhereIs(lines, st.timeoutKey);
    PlaceIs(lines, m, at);
    EntryIsWritten(st.timeoutKey, st.timeout);
    EntryIsWritten(st.retryKey, st.retry);
  }

  lemma EntryIsWritten(key: string, value: string)
    ensures Entry(key, value) == Written("    ", key, value)
  {
    assert ":" + (" \"" + value + "\"") == ": \"" + value + "\"";
  }

  lemma {:induction false} FirstMetadataAt(lines: seq<string>, m: nat)
    requires m <= |lines| && (m < |lines| ==> OpensMetadata(lines[m]))
    requires forall j :: 0 <= j < m ==> !OpensMetadata(lines[j])
    ensures FirstMetadata(lines) == m
  {
    if lines != [] {
      MetadataIff(lines[0]);
      if m > 0 {
        assert forall j :: 0 <= j < m - 1 ==> lines[1..][j] == lines[j + 1];
        FirstMetadataAt(lines[1..], m - 1);
      }
    }
  }

  lemma {:induction false} BlankRunIs(lines: seq<string>, n: nat)
    requires n < |lines| && (forall j :: 0 <= j < n ==> Blank(lines[j])) && (n == |lines| - 1 || !Blank(lines[n]))
    ensures BlankRun(lines) == n
  {
    BlankIff(lines[0]);
    if n > 0 {
      assert forall j :: 0 <= j < n ==> lines[1..][j] == lines[j + 1];
      BlankRunIs(lines[1..], n - 1);
    }
  }

  lemma PlaceIs(lines: seq<string>, m: nat, at: nat)
    requires IsPlace(lines, m, at)
    ensures Insertable(lines) && InsertAt(lines) == at
  {
    FirstMetadataAt(lines, m);
    var rest := lines[m + 1..];
    assert forall j :: 0 <= j < |rest| ==> rest[j] == lines[m + 1 + j];
    BlankRunIs(rest, at - m - 1);
  }

  /** Without a timeout annotation and without a place for the block nothing happens. */
  lemma NoPlaceNoChange(st: Settings, lines: Text)
    requires st.Valid() && IsNowhere(lines, st.timeoutKey)
    requires forall m, at :: !IsPlace(lines, m, at)
    ensures PatchDoc(st, lines) == lines
  {
    NowhereIs(lines, st.timeoutKey);
    if Insertable(lines) {
      InsertionIsPlace(lines);
    }
  }

  lemma {:induction false} BlankRunEnds(lines: seq<string>)
    requires lines != []
    ensures var n := BlankRun(lines); n == |lines| - 1 || !Blank(lines[n])
  {
    BlankIff(lines[0]);
    if |lines| > 1 && IsBlank(lines[0]) {
      BlankRunEnds(lines[1..]);
    }
  }

  lemma InsertionIsPlace(lines: seq<string>)
    requires Insertable(lines)
    ensures IsPlace(lines, FirstMetadata(lines), InsertAt(lines))
  {
    var m, at := FirstMetadata(lines), InsertAt(lines);
    forall j | 0 <= j <= m ensures IsMetadata(lines[j]) <==> OpensMetadata(lines[j]) {
      MetadataIff(lines[j]);
    }
    forall j | m < j < at ensures Blank(lines[j]) {
      BlankIff(lines[j]);
    }
    BlankRunEnds(lines[m + 1..]);
  }
}
