/**
 The environment file that a later Tekton step loads with `source`, and the part of the shell that reads it:
 quoting as in sections 2.2.2 and 2.2.3 of the Shell Command Language (POSIX.1-2017), and assignment commands.
 */
module ShellEnv {
  import opened Basics
  import opened Ordering

  /* ---------- the reading shell ---------- */

  datatype Mode = Plain | InSingle | InDouble

  /** `trouble` is raised by anything outside the fragment: an expansion, an operator, a command that is not an
      assignment. It never goes away again. */
  datatype Shell = Shell(
    mode: Mode,
    started: bool,
    word: string,
    words: seq<string>,
    env: map<string, string>,
    exported: set<string>,
    trouble: bool)

  predicate IsLetter(c: char) {
    'a' <= c <= 'z' || 'A' <= c <= 'Z'
  }

  predicate IsDigit(c: char) {
    '0' <= c <= '9'
  }

  /** Characters that begin or continue a word without meaning anything to the shell. */
  predicate IsSafe(c: char) {
    || IsLetter(c) || IsDigit(c)
    || c == '_' || c == '-' || c == '.' || c == '/' || c == ':' || c == '@' || c == '%' || c == '+' || c == ','
    || c == '=' || c == '^'
  }

  predicate AllSafe(s: string) {
    forall i :: 0 <= i < |s| ==> IsSafe(s[i])
  }

  predicate NulFree(s: string) {
    forall i :: 0 <= i < |s| ==> s[i] != '\0'
  }

  predicate IsName(s: string) {
    && s != "" && !IsDigit(s[0])
    && forall i :: 0 <= i < |s| ==> IsLetter(s[i]) || IsDigit(s[i]) || s[i] == '_'
  }

  function FirstEquals(s: string): (n: nat)
    ensures n <= |s|
  {
    if s == [] || s[0] == '=' then 0 else 1 + FirstEquals(s[1..])
  }

  predicate IsAssignment(word: string) {
    FirstEquals(word) < |word| && IsName(word[..FirstEquals(word)])
  }

  /** Characters that mean something to the shell even within an assignment: blanks, newline, quoting, expansion and
      operators (sections 2.2, 2.3 and 2.6), and NUL, which no text file holds. */
  predicate IsSpecial(c: char) {
    || c == ' ' || c == '\t' || c == '\n' || c == '\'' || c == '"' || c == '$' || c == '`' || c == '\\'
    || c == ';' || c == '&' || c == '|' || c == '<' || c == '>' || c == '(' || c == ')' || c == '\0'
  }

  /** A tilde expands behind the first equals sign of an assignment and behind a colon (section 2.6.1). */
  predicate ExpandsTilde(word: string) {
    word != "" && (FirstEquals(word) + 1 == |word| || word[|word| - 1] == ':')
  }

  /** The word under way is an assignment in front of any command name: its value undergoes neither field splitting
      nor pathname expansion (section 2.9.1), and a `#` in it starts no comment. */
  predicate Assigning(sh: Shell) {
    sh.words == [] && IsAssignment(sh.word)
  }

  /** This character continues the assignment as it stands. */
  predicate Continues(word: string, c: char) {
    !IsSpecial(c) && !(c == '~' && ExpandsTilde(word))
  }

  function EndWord(sh: Shell): Shell {
    if sh.started then sh.(started := false, word := "", words := sh.words + [sh.word]) else sh
  }

  function Execute(sh: Shell): Shell {
    if sh.words == [] then sh
    else if |sh.words| == 1 && IsAssignment(sh.words[0]) then Assign(sh, sh.words[0], false)
    else if |sh.words| == 2 && sh.words[0] == "export" && IsAssignment(sh.words[1]) then Assign(sh, sh.words[1], true)
    else sh.(words := [], trouble := true)
  }

  function Assign(sh: Shell, word: string, export_: bool): Shell
    requires IsAssignment(word)
  {
    var n := FirstEquals(word);
    sh.(words := [], env := sh.env[word[..n] := word[n + 1..]],
        exported := sh.exported + if export_ then {word[..n]} else {})
  }

  function Step(sh: Shell, c: char): Shell {
    match sh.mode
    case Plain =>
      if c == '\'' then sh.(mode := InSingle, started := true)
      else if c == '"' then sh.(mode := InDouble, started := true)
      else if c == ' ' || c == '\t' then EndWord(sh)
      else if c == '\n' then Execute(EndWord(sh))
      else if IsSafe(c) || (Assigning(sh) && Continues(sh.word, c)) then sh.(started := true, word := sh.word + [c])
      else sh.(trouble := true)
    case InSingle =>
      if c == '\'' then sh.(mode := Plain)
      else if c == '\0' then sh.(trouble := true)
      else sh.(word := sh.word + [c])
    case InDouble =>
      if c == '"' then sh.(mode := Plain)
      else if c == '$' || c == '`' || c == '\\' || c == '\0' then sh.(trouble := true)
      else sh.(word := sh.word + [c])
  }

  function Run(sh: Shell, text: string): Shell
    decreases text
  {
    if text == [] then sh else Run(Step(sh, text[0]), text[1..])
  }

  const FRESH := Shell(Plain, false, "", [], map[], {}, false)

  lemma {:induction false} RunAppend(sh: Shell, a: string, b: string)
    ensures Run(sh, a + b) == Run(Run(sh, a), b)
    decreases a
  {
    if a == [] {
      assert a + b == b;
    } else {
      assert (a + b)[1..] == a[1..] + b;
      RunAppend(Step(sh, a[0]), a[1..], b);
    }
  }

  /* ---------- quoting ---------- */

  /** Python's value.replace("'", "'\"'\"'"). */
  function Escape(s: string): string {
    if s == [] then []
    else (if s[0] == '\'' then "'\"'\"'" else [s[0]]) + Escape(s[1..])
  }

  function Quote(s: string): string {
    "'" + Escape(s) + "'"
  }

  lemma BrokenOutQuote(sh: Shell)
    requires sh.mode.InSingle? && sh.started
    ensures Run(sh, "'\"'\"'") == sh.(word := sh.word + ['\''])
  {
    var s := "'\"'\"'";
    assert s[1..] == "\"'\"'" && s[1..][1..] == "'\"'" && s[1..][1..][1..] == "\"'" && s[1..][1..][1..][1..] == "'";
    var s1 := Step(sh, s[0]);
    var s2 := Step(s1, s[1]);
    var s3 := Step(s2, s[2]);
    var s4 := Step(s3, s[3]);
    assert Run(sh, s) == Run(s1, s[1..]) == Run(s2, s[1..][1..]) == Run(s3, s[1..][1..][1..]);
    assert Run(s3, "\"'") == Run(s4, "'") by { assert "\"'"[1..] == "'"; }
    var s5 := Step(s4, '\'');
    assert Run(s4, "'") == s5 by { assert "'"[1..] == ""; }
    assert s5 == sh.(word := sh.word + ['\'']);
  }

  lemma {:induction false} EscapedReadsBack(sh: Shell, s: string)
    requires sh.mode.InSingle? && sh.started && NulFree(s)
    ensures Run(sh, Escape(s)) == sh.(word := sh.word + s)
    decreases s
  {
    if s == [] {
      assert sh.word + s == sh.word;
    } else {
      var head := if s[0] == '\'' then "'\"'\"'" else [s[0]];
      RunAppend(sh, head, Escape(s[1..]));
      if s[0] == '\'' {
        BrokenOutQuote(sh);
      } else {
        assert head[1..] == [];
      }
      var mid := sh.(word := sh.word + [s[0]]);
      EscapedReadsBack(mid, s[1..]);
      assert sh.word + [s[0]] + s[1..] == sh.word + s;
    }
  }

  /** A quoted value continues the current word by exactly that value; nothing is expanded, no word ends. */
  lemma QuotedReadsBack(sh: Shell, s: string)
    requires sh.mode.Plain? && NulFree(s)
    ensures Run(sh, Quote(s)) == sh.(started := true, word := sh.word + s)
  {
    RunAppend(sh, "'" + Escape(s), "'");
    RunAppend(sh, "'", Escape(s));
    assert "'"[1..] == [];
    var inside := Step(sh, '\'');
    assert Run(sh, "'") == inside;
    EscapedReadsBack(inside, s);
  }

  /* ---------- unquoted values ---------- */

  lemma {:induction false} SafeReadsBack(sh: Shell, s: string)
    requires sh.mode.Plain? && AllSafe(s)
    ensures Run(sh, s) == sh.(started := sh.started || s != "", word := sh.word + s)
    decreases s
  {
    if s == [] {
      assert sh.word + s == sh.word;
    } else {
      SafeReadsBack(Step(sh, s[0]), s[1..]);
      assert sh.word + [s[0]] + s[1..] == sh.word + s;
    }
  }

  function Total(words: seq<string>): nat {
    if words == [] then 0 else Total(words[..|words| - 1]) + |words[|words| - 1]|
  }

  /** Characters taken over into words of the present command. */
  function Taken(sh: Shell): nat {
    Total(sh.words) + |sh.word|
  }

  predicate Sane(sh: Shell) {
    !sh.started ==> sh.word == "" && sh.mode.Plain?
  }

  lemma StepTakesAtMostOne(sh: Shell, c: char)
    requires Sane(sh)
    ensures Taken(Step(sh, c)) <= Taken(sh) + 1 && Sane(Step(sh, c))
    ensures sh.mode.Plain? && !Continues(sh.word, c) ==> Step(sh, c).trouble || Taken(Step(sh, c)) <= Taken(sh)
    ensures sh.trouble ==> Step(sh, c).trouble
  {
    if sh.mode.Plain? && c == '\n' {
      var ended := EndWord(sh);
      EndWordTakesNothing(sh);
      ExecuteTakesNothing(ended);
      assert Step(sh, c) == Execute(ended);
    } else {
      EndWordTakesNothing(sh);
      OtherStepTakesAtMostOne(sh, c);
    }
  }

  lemma OtherStepTakesAtMostOne(sh: Shell, c: char)
    requires Sane(sh) && !(sh.mode.Plain? && c == '\n')
    requires Taken(EndWord(sh)) == Taken(sh) && EndWord(sh).word == "" && !EndWord(sh).started
    requires EndWord(sh).mode == sh.mode && EndWord(sh).trouble == sh.trouble
    ensures Taken(Step(sh, c)) <= Taken(sh) + 1 && Sane(Step(sh, c))
    ensures sh.mode.Plain? && !Continues(sh.word, c) ==> Step(sh, c).trouble || Taken(Step(sh, c)) <= Taken(sh)
    ensures sh.trouble ==> Step(sh, c).trouble
  {
    if sh.mode.Plain? && (c == ' ' || c == '\t') {
      assert Step(sh, c) == EndWord(sh);
    } else {
      StepWithinWord(sh, c);
      SameWords(sh, Step(sh, c));
    }
  }

  lemma StepWithinWord(sh: Shell, c: char)
    requires Sane(sh) && !(sh.mode.Plain? && (c == '\n' || c == ' ' || c == '\t'))
    ensures Step(sh, c).words == sh.words && Sane(Step(sh, c))
    ensures |sh.word| <= |Step(sh, c).word| <= |sh.word| + 1
    ensures sh.mode.Plain? && !Continues(sh.word, c) ==> |Step(sh, c).word| == |sh.word|
    ensures sh.trouble ==> Step(sh, c).trouble
  {
  }

  lemma SameWords(a: Shell, b: Shell)
    requires a.words == b.words
    ensures Taken(b) - Taken(a) == |b.word| - |a.word|
  {
  }

  lemma EndWordTakesNothing(sh: Shell)
    requires Sane(sh)
    ensures Taken(EndWord(sh)) == Taken(sh) && EndWord(sh).word == "" && !EndWord(sh).started
    ensures EndWord(sh).mode == sh.mode && EndWord(sh).trouble == sh.trouble
  {
    if sh.started {
      var words := sh.words + [sh.word];
      assert words[..|words| - 1] == sh.words;
    }
  }

  lemma ExecuteTakesNothing(sh: Shell)
    ensures Taken(Execute(sh)) <= Taken(sh) && Execute(sh).word == sh.word && Execute(sh).started == sh.started
    ensures Execute(sh).mode == sh.mode && (sh.trouble ==> Execute(sh).trouble)
  {
  }

  lemma {:induction false} RunTakesAtMostAll(sh: Shell, s: string)
    requires Sane(sh)
    ensures Taken(Run(sh, s)) <= Taken(sh) + |s| && (sh.trouble ==> Run(sh, s).trouble)
    decreases s
  {
    if s != [] {
      StepTakesAtMostOne(sh, s[0]);
      RunTakesAtMostAll(Step(sh, s[0]), s[1..]);
    }
  }

  /** A value that an assignment takes over without quotes: no special character, and no tilde where it expands. */
  predicate Readable(s: string) {
    forall i :: 0 <= i < |s| ==> ReadableAt(s, i)
  }

  predicate ReadableAt(s: string, i: nat)
    requires i < |s|
  {
    !IsSpecial(s[i]) && (s[i] == '~' ==> i > 0 && s[i - 1] != ':')
  }

  /** The same for the rest of a value whose beginning has been read. */
  predicate Extends(word: string, s: string) {
    forall i :: 0 <= i < |s| ==> ExtendsAt(word, s, i)
  }

  predicate ExtendsAt(word: string, s: string, i: nat)
    requires i < |s|
  {
    !IsSpecial(s[i]) && (s[i] == '~' ==> if i == 0 then !ExpandsTilde(word) else s[i - 1] != ':')
  }

  lemma SafeIsReadable(s: string)
    requires AllSafe(s)
    ensures Readable(s)
  {
  }

  lemma ReadableExtends(word: string, s: string)
    requires Readable(s)
    ensures Extends(word, s)
  {
    forall i | 0 <= i < |s| ensures ExtendsAt(word, s, i) {
      assert ReadableAt(s, i);
    }
  }

  lemma {:induction false} AssignmentGrows(word: string, c: char)
    requires IsAssignment(word)
    ensures IsAssignment(word + [c]) && FirstEquals(word + [c]) == FirstEquals(word)
    ensures ExpandsTilde(word + [c]) <==> c == ':'
  {
    FirstEqualsStays(word, c);
    assert (word + [c])[..FirstEquals(word)] == word[..FirstEquals(word)];
  }

  lemma {:induction false} FirstEqualsStays(word: string, c: char)
    requires FirstEquals(word) < |word|
    ensures FirstEquals(word + [c]) == FirstEquals(word)
  {
    if word[0] != '=' {
      assert (word + [c])[1..] == word[1..] + [c];
      FirstEqualsStays(word[1..], c);
    }
  }

  /** What follows the first character extends the word that ends in it. */
  lemma ExtendsOneByOne(word: string, s: string)
    requires IsAssignment(word) && s != ""
    ensures Extends(word, s) <==> Continues(word, s[0]) && Extends(word + [s[0]], s[1..])
  {
    AssignmentGrows(word, s[0]);
    var rest, longer := s[1..], word + [s[0]];
    assert Continues(word, s[0]) <==> ExtendsAt(word, s, 0);
    forall i | 0 <= i < |rest| ensures ExtendsAt(longer, rest, i) <==> ExtendsAt(word, s, i + 1) {
      assert rest[i] == s[i + 1] && (i > 0 ==> rest[i - 1] == s[i]);
    }
    if Continues(word, s[0]) && Extends(longer, rest) {
      forall i | 0 <= i < |s| ensures ExtendsAt(word, s, i) {
        if i > 0 {
          assert ExtendsAt(longer, rest, i - 1);
        }
      }
    }
    if Extends(word, s) {
      forall i | 0 <= i < |rest| ensures ExtendsAt(longer, rest, i) {
        assert ExtendsAt(word, s, i + 1);
      }
    }
  }

  lemma AssignmentStep(sh: Shell, c: char)
    requires sh.mode.Plain? && Assigning(sh) && Continues(sh.word, c)
    ensures Step(sh, c) == sh.(started := true, word := sh.word + [c]) && Assigning(Step(sh, c))
  {
    AssignmentGrows(sh.word, c);
  }

  lemma {:induction false} ReadableReadsBack(sh: Shell, s: string)
    requires sh.mode.Plain? && Assigning(sh) && Extends(sh.word, s)
    ensures Run(sh, s) == sh.(started := sh.started || s != "", word := sh.word + s)
    decreases s
  {
    if s == [] {
      assert sh.word + s == sh.word;
    } else {
      ExtendsOneByOne(sh.word, s);
      AssignmentStep(sh, s[0]);
      ReadableReadsBack(Step(sh, s[0]), s[1..]);
      assert sh.word + [s[0]] + s[1..] == sh.word + s;
    }
  }

  lemma {:induction false} UnreadableLosesSomething(sh: Shell, s: string)
    requires sh.mode.Plain? && sh.started && Assigning(sh) && !Extends(sh.word, s)
    ensures Run(sh, s).trouble || Taken(Run(sh, s)) < Taken(sh) + |s|
    decreases s
  {
    ExtendsOneByOne(sh.word, s);
    StepTakesAtMostOne(sh, s[0]);
    if Continues(sh.word, s[0]) {
      AssignmentStep(sh, s[0]);
      UnreadableLosesSomething(Step(sh, s[0]), s[1..]);
    } else {
      RunTakesAtMostAll(Step(sh, s[0]), s[1..]);
    }
  }

  /** A value written without quotes is read back exactly if it holds no character that is special in an assignment,
      and no tilde at its beginning or behind a colon. */
  lemma UnquotedWorksIffReadable(sh: Shell, name: string, s: string)
    requires sh.mode.Plain? && sh.started && !sh.trouble && sh.words == []
    requires IsName(name) && sh.word == name + "="
    ensures Run(sh, s) == sh.(word := sh.word + s) <==> Readable(s)
  {
    AssignmentSplits(name, "");
    assert name + "=" + "" == name + "=";
    assert ExpandsTilde(sh.word);
    forall i | 0 <= i < |s| ensures ExtendsAt(sh.word, s, i) <==> ReadableAt(s, i) {
    }
    assert Extends(sh.word, s) <==> Readable(s);
    if Readable(s) {
      ReadableReadsBack(sh, s);
    } else {
      UnreadableLosesSomething(sh, s);
    }
  }

  /* ---------- the file ---------- */

  datatype Item =
    | Bare(name: string, value: string)
    | Quoted(name: string, value: string)
    | Exported(name: string, value: string)

  function LineOf(item: Item): string {
    match item
    case Bare(name, value) => name + "=" + value
    case Quoted(name, value) => name + "=" + Quote(value)
    case Exported(name, value) => "export " + (name + "=" + Quote(value))
  }

  function LinesOf(items: seq<Item>): seq<string> {
    seq(|items|, i requires 0 <= i < |items| => LineOf(items[i]))
  }

  predicate Loadable(item: Item) {
    IsName(item.name) && if item.Bare? then Readable(item.value) else NulFree(item.value)
  }

  function LoadOne(sh: Shell, item: Item): Shell {
    sh.(env := sh.env[item.name := item.value], exported := sh.exported + if item.Exported? then {item.name} else {})
  }

  /** What sourcing the lines is meant to do. */
  function Loaded(sh: Shell, items: seq<Item>): Shell
    decreases items
  {
    if items == [] then sh else Loaded(LoadOne(sh, items[0]), items[1..])
  }

  predicate AtLineStart(sh: Shell) {
    sh.mode.Plain? && !sh.started && sh.word == "" && sh.words == []
  }

  lemma {:induction false} NameIsSafe(name: string)
    requires IsName(name)
    ensures AllSafe(name + "=")
  {
  }

  lemma {:induction false} FirstEqualsOf(name: string, value: string)
    requires forall i :: 0 <= i < |name| ==> name[i] != '='
    ensures FirstEquals(name + "=" + value) == |name|
  {
    if name == [] {
      assert name + "=" + value == "=" + value;
    } else {
      assert (name + "=" + value)[1..] == name[1..] + "=" + value;
      FirstEqualsOf(name[1..], value);
    }
  }

  lemma AssignmentSplits(name: string, value: string)
    requires IsName(name)
    ensures IsAssignment(name + "=" + value) && FirstEquals(name + "=" + value) == |name|
    ensures (name + "=" + value)[..|name|] == name && (name + "=" + value)[|name| + 1..] == value
  {
    FirstEqualsOf(name, value);
    assert (name + "=" + value)[..|name|] == name;
  }

  /** The text of an assignment, quoted or not, adds one word to the command. */
  lemma AssignmentReadsBack(sh: Shell, item: Item, raw: string)
    requires sh.mode.Plain? && sh.word == "" && Loadable(item) && (item.Bare? ==> sh.words == [])
    requires raw == if item.Bare? then item.value else Quote(item.value)
    ensures Run(sh, item.name + "=" + raw) == sh.(started := true, word := item.name + "=" + item.value)
  {
    NameIsSafe(item.name);
    RunAppend(sh, item.name + "=", raw);
    SafeReadsBack(sh, item.name + "=");
    var mid := sh.(started := true, word := item.name + "=");
    assert sh.word + (item.name + "=") == item.name + "=";
    if item.Bare? {
      AssignmentSplits(item.name, "");
      assert item.name + "=" + "" == item.name + "=";
      ReadableExtends(mid.word, raw);
      ReadableReadsBack(mid, raw);
    } else {
      QuotedReadsBack(mid, item.value);
    }
  }

  lemma NewlineExecutes(sh: Shell)
    requires sh.mode.Plain?
    ensures Run(sh, "\n") == Execute(EndWord(sh))
  {
    assert "\n"[1..] == "";
  }

  lemma ExportWord(sh: Shell)
    requires AtLineStart(sh)
    ensures Run(sh, "export ") == sh.(words := ["export"])
  {
    ExportIsSafe();
    WordThenBlank(sh, "export");
  }

  lemma ExportIsSafe()
    ensures AllSafe("export") && "export" + " " == "export "
  {
  }

  lemma WordThenBlank(sh: Shell, word: string)
    requires AtLineStart(sh) && AllSafe(word) && word != ""
    ensures Run(sh, word + " ") == sh.(words := [word])
  {
    RunAppend(sh, word, " ");
    SafeReadsBack(sh, word);
    assert " "[1..] == "" && sh.word + word == word && sh.words + [word] == [word];
  }

  lemma LineLoads(sh: Shell, item: Item)
    requires AtLineStart(sh) && Loadable(item)
    ensures Run(sh, LineOf(item) + "\n") == LoadOne(sh, item)
  {
    var raw := if item.Bare? then item.value else Quote(item.value);
    var text := item.name + "=" + raw;
    var word := item.name + "=" + item.value;
    AssignmentSplits(item.name, item.value);
    RunAppend(sh, LineOf(item), "\n");
    if item.Exported? {
      RunAppend(sh, "export ", text);
      ExportWord(sh);
      var mid := sh.(words := ["export"]);
      AssignmentReadsBack(mid, item, raw);
      var full := mid.(started := true, word := word);
      NewlineExecutes(full);
      assert EndWord(full) == sh.(words := ["export", word]);
    } else {
      AssignmentReadsBack(sh, item, raw);
      var full := sh.(started := true, word := word);
      NewlineExecutes(full);
      assert EndWord(full) == sh.(words := [word]);
    }
  }

  /** Sourcing the written lines gives every variable exactly its value, whatever stands in the quoted ones. */
  lemma {:induction false} FileLoads(sh: Shell, items: seq<Item>)
    requires AtLineStart(sh) && forall item :: item in items ==> Loadable(item)
    ensures Run(sh, Unlines(LinesOf(items))) == Loaded(sh, items)
    decreases items
  {
    if items != [] {
      var line, rest := LineOf(items[0]), Unlines(LinesOf(items[1..]));
      assert LinesOf(items)[1..] == LinesOf(items[1..]);
      RunAppend(sh, line + "\n", rest);
      LineLoads(sh, items[0]);
      FileLoads(LoadOne(sh, items[0]), items[1..]);
    }
  }

  /* ---------- the writer ---------- */

  predicate IsAlnum(s: string) {
    s != "" && forall i :: 0 <= i < |s| ==> IsLetter(s[i]) || IsDigit(s[i])
  }

  function WithoutUnderscores(s: string): string {
    if s == [] then [] else (if s[0] == '_' then [] else [s[0]]) + WithoutUnderscores(s[1..])
  }

  predicate ValidKey(key: string) {
    IsAlnum(WithoutUnderscores(key)) && !IsDigit(key[0])
  }

  lemma {:induction false} AlnumApartFromUnderscores(s: string, i: nat)
    requires forall c :: c in WithoutUnderscores(s) ==> IsLetter(c) || IsDigit(c)
    requires i < |s|
    ensures IsLetter(s[i]) || IsDigit(s[i]) || s[i] == '_'
  {
    if i > 0 {
      assert forall c :: c in WithoutUnderscores(s[1..]) ==> c in WithoutUnderscores(s);
      AlnumApartFromUnderscores(s[1..], i - 1);
    } else if s[0] != '_' {
      assert s[0] in WithoutUnderscores(s);
    }
  }

  lemma ValidKeyIsName(key: string)
    requires ValidKey(key)
    ensures IsName(key)
  {
    forall i | 0 <= i < |key| ensures IsLetter(key[i]) || IsDigit(key[i]) || key[i] == '_' {
      AlnumApartFromUnderscores(key, i);
    }
  }

  /** The check accepts exactly the shell names that are more than underscores. */
  lemma ValidKeyIff(key: string)
    ensures ValidKey(key) <==> IsName(key) && exists i :: 0 <= i < |key| && key[i] != '_'
  {
    WithoutUnderscoresKeeps(key);
    var rest := WithoutUnderscores(key);
    if ValidKey(key) {
      ValidKeyIsName(key);
      assert rest[0] in rest && rest[0] in key;
    }
    if i :| 0 <= i < |key| && key[i] != '_' {
      assert key[i] in rest;
      if IsName(key) {
        forall k | 0 <= k < |rest| ensures IsLetter(rest[k]) || IsDigit(rest[k]) {
          assert rest[k] in rest && rest[k] in key;
        }
      }
    }
  }

  lemma {:induction false} WithoutUnderscoresKeeps(s: string)
    ensures forall c :: c in WithoutUnderscores(s) <==> c in s && c != '_'
  {
    if s != [] {
      WithoutUnderscoresKeeps(s[1..]);
      assert s == [s[0]] + s[1..];
    }
  }

  datatype Settings = Settings(
    skip: bool,
    workingDir: string,
    resultsDir: string,
    artifactPrefix: string,
    runCommand: string,
    sourceRepo: string,
    sourceRef: string,
    timeout: Option<string>)

  function BaseItems(st: Settings): seq<Item> {
    [ Bare("SKIP", if st.skip then "true" else "false"), Bare("WORKING_DIR", st.workingDir),
      Bare("RESULTS_DIR", st.resultsDir), Bare("ARTIFACT_PREFIX", st.artifactPrefix),
      Quoted("RUN_COMMAND", st.runCommand) ]
    + (if st.sourceRepo != "" then [Bare("SOURCE_REPO", st.sourceRepo), Bare("SOURCE_REF", st.sourceRef)] else [])
    + (if st.timeout.Some? then [Bare("TEST_TIMEOUT_SEC", st.timeout.value)] else [])
  }

  function ExportItems(keys: seq<string>, values: map<string, string>): seq<Item>
    requires forall key :: key in keys ==> key in values
  {
    if keys == [] then []
    else
      var last := keys[|keys| - 1];
      ExportItems(keys[..|keys| - 1], values) + [Exported(last, values[last])]
  }

  lemma LinesOfAppend(a: seq<Item>, b: seq<Item>)
    ensures LinesOf(a + b) == LinesOf(a) + LinesOf(b)
  {
  }

  /** The file, or None for the ValueError about a variable name. `keys` are the dictionary's keys. */
  method WriteEnvFile(st: Settings, keys: seq<string>, values: map<string, string>) returns (text: Option<string>)
    requires forall key :: key in keys ==> key in values
    ensures text.None? <==> exists key :: key in keys && !ValidKey(key)
    ensures text.Some? ==>
              && (forall key :: key in Sorted(keys) ==> key in values)
              && text.value == Unlines(LinesOf(BaseItems(st) + ExportItems(Sorted(keys), values)))
  {
    var lines := [ "SKIP" + "=" + (if st.skip then "true" else "false"), "WORKING_DIR" + "=" + st.workingDir,
                   "RESULTS_DIR" + "=" + st.resultsDir, "ARTIFACT_PREFIX" + "=" + st.artifactPrefix,
                   "RUN_COMMAND" + "=" + Quote(st.runCommand) ];
    if st.sourceRepo != "" {
      lines := lines + ["SOURCE_REPO" + "=" + st.sourceRepo];
      lines := lines + ["SOURCE_REF" + "=" + st.sourceRef];
    }
    if st.timeout.Some? {
      lines := lines + ["TEST_TIMEOUT_SEC" + "=" + st.timeout.value];
    }
    BaseLines(st, lines);
    var sorted := Sorted(keys);
    SameMembers(keys);
    for i := 0 to |sorted|
      invariant forall key :: key in sorted[..i] ==> ValidKey(key)
      invariant lines == LinesOf(BaseItems(st) + ExportItems(sorted[..i], values))
    {
      var key := sorted[i];
      assert key in sorted;
      if !ValidKey(key) {
        return None;
      }
      assert sorted[..i + 1] == sorted[..i] + [key];
      OneMoreExport(BaseItems(st), sorted, i, values);
      lines := lines + ["export " + (key + "=" + Quote(values[key]))];
    }
    assert sorted[..|sorted|] == sorted;
    return Some(Unlines(lines));
  }

  lemma OneMoreExport(base: seq<Item>, sorted: seq<string>, i: nat, values: map<string, string>)
    requires i < |sorted| && forall key :: key in sorted ==> key in values
    ensures LinesOf(base + ExportItems(sorted[..i + 1], values))
         == LinesOf(base + ExportItems(sorted[..i], values))
            + ["export " + (sorted[i] + "=" + Quote(values[sorted[i]]))]
  {
    var before, item := base + ExportItems(sorted[..i], values), Exported(sorted[i], values[sorted[i]]);
    assert sorted[..i + 1][..i] == sorted[..i];
    assert base + ExportItems(sorted[..i + 1], values) == before + [item];
    LinesOfAppend(before, [item]);
  }

  lemma SameMembers(keys: seq<string>)
    ensures forall key :: key in Sorted(keys) <==> key in keys
  {
    forall key ensures key in Sorted(keys) <==> key in keys {
      assert key in multiset(Sorted(keys)) <==> key in multiset(keys);
    }
  }

  lemma BaseLines(st: Settings, lines: seq<string>)
    requires lines == [ "SKIP" + "=" + (if st.skip then "true" else "false"), "WORKING_DIR" + "=" + st.workingDir,
                        "RESULTS_DIR" + "=" + st.resultsDir, "ARTIFACT_PREFIX" + "=" + st.artifactPrefix,
                        "RUN_COMMAND" + "=" + Quote(st.runCommand) ]
                      + (if st.sourceRepo != "" then
                           ["SOURCE_REPO" + "=" + st.sourceRepo] + ["SOURCE_REF" + "=" + st.sourceRef] else [])
                      + (if st.timeout.Some? then ["TEST_TIMEOUT_SEC" + "=" + st.timeout.value] else [])
    ensures lines == LinesOf(BaseItems(st) + ExportItems([], map[]))
  {
    assert BaseItems(st) + [] == BaseItems(st);
  }

  /* ---------- what the next step sees ---------- */

  lemma {:induction false} LoadedAppend(sh: Shell, a: seq<Item>, b: seq<Item>)
    ensures Loaded(sh, a + b) == Loaded(Loaded(sh, a), b)
    decreases a
  {
    if a == [] {
      assert a + b == b;
    } else {
      assert (a + b)[1..] == a[1..] + b;
      LoadedAppend(LoadOne(sh, a[0]), a[1..], b);
    }
  }

  lemma {:induction false} ExportsLoaded(sh: Shell, keys: seq<string>, values: map<string, string>)
    requires forall key :: key in keys ==> key in values
    ensures var after := Loaded(sh, ExportItems(keys, values));
            && after.trouble == sh.trouble
            && (forall key :: key in keys ==> key in after.env && after.env[key] == values[key])
            && (forall name :: name in sh.env && name !in keys ==> name in after.env && after.env[name] == sh.env[name])
            && after.exported == sh.exported + set key | key in keys
  {
    if keys != [] {
      var n := |keys| - 1;
      var last := Exported(keys[n], values[keys[n]]);
      ExportsLoaded(sh, keys[..n], values);
      LoadedAppend(sh, ExportItems(keys[..n], values), [last]);
      assert [last][1..] == [] && keys == keys[..n] + [keys[n]];
    }
  }

  predicate ReadableSettings(st: Settings) {
    && Readable(st.workingDir) && Readable(st.resultsDir) && Readable(st.artifactPrefix)
    && Readable(st.sourceRepo) && Readable(st.sourceRef)
    && (st.timeout.Some? ==> Readable(st.timeout.value))
    && NulFree(st.runCommand)
  }

  lemma BaseLoadable(st: Settings)
    requires ReadableSettings(st)
    ensures forall item :: item in BaseItems(st) ==> Loadable(item)
  {
    assert IsName("SKIP") && IsName("WORKING_DIR") && IsName("RESULTS_DIR") && IsName("ARTIFACT_PREFIX");
    MoreNames();
    SafeIsReadable("true");
    SafeIsReadable("false");
  }

  lemma MoreNames()
    ensures IsName("RUN_COMMAND") && IsName("SOURCE_REPO") && IsName("SOURCE_REF") && IsName("TEST_TIMEOUT_SEC")
  {
  }

  lemma {:induction false} ExportsLoadable(keys: seq<string>, values: map<string, string>)
    requires forall key :: key in keys ==> key in values && ValidKey(key) && NulFree(values[key])
    ensures forall item :: item in ExportItems(keys, values) ==> Loadable(item)
  {
    if keys != [] {
      ExportsLoadable(keys[..|keys| - 1], values);
      ValidKeyIsName(keys[|keys| - 1]);
    }
  }

  /** Names the base lines assign, in order; a later line for the same name wins. */
  lemma {:induction false} LastAssignmentStays(sh: Shell, items: seq<Item>, name: string)
    requires forall item :: item in items ==> item.name != name
    requires name in sh.env
    ensures name in Loaded(sh, items).env && Loaded(sh, items).env[name] == sh.env[name]
    decreases items
  {
    if items != [] {
      LastAssignmentStays(LoadOne(sh, items[0]), items[1..], name);
    }
  }

  lemma BaseSetsRunCommand(st: Settings)
    ensures var env := Loaded(FRESH, BaseItems(st)).env;
            "RUN_COMMAND" in env && env["RUN_COMMAND"] == st.runCommand
    ensures !Loaded(FRESH, BaseItems(st)).trouble && Loaded(FRESH, BaseItems(st)).exported == {}
  {
    var items := BaseItems(st);
    assert items == items[..4] + [items[4]] + items[5..];
    LoadedAppend(FRESH, items[..4] + [items[4]], items[5..]);
    LoadedAppend(FRESH, items[..4], [items[4]]);
    assert [items[4]][1..] == [];
    NothingExported(FRESH, items);
    LastAssignmentStays(Loaded(FRESH, items[..4] + [items[4]]), items[5..], "RUN_COMMAND");
  }

  lemma {:induction false} NothingExported(sh: Shell, items: seq<Item>)
    requires forall item :: item in items ==> !item.Exported?
    ensures Loaded(sh, items).exported == sh.exported && Loaded(sh, items).trouble == sh.trouble
    decreases items
  {
    if items != [] {
      NothingExported(LoadOne(sh, items[0]), items[1..]);
    }
  }

  predicate Holds(env: map<string, string>, name: string, value: string) {
    name in env && env[name] == value
  }

  /** The settings of the run as the next step finds them; an exported variable of the same name goes before. */
  ghost predicate SettingsRestored(st: Settings, keys: seq<string>, env: map<string, string>) {
    && ("SKIP" !in keys ==> Holds(env, "SKIP", if st.skip then "true" else "false"))
    && ("WORKING_DIR" !in keys ==> Holds(env, "WORKING_DIR", st.workingDir))
    && ("RESULTS_DIR" !in keys ==> Holds(env, "RESULTS_DIR", st.resultsDir))
    && ("ARTIFACT_PREFIX" !in keys ==> Holds(env, "ARTIFACT_PREFIX", st.artifactPrefix))
    && ("RUN_COMMAND" !in keys ==> Holds(env, "RUN_COMMAND", st.runCommand))
    && (st.sourceRepo != "" && "SOURCE_REPO" !in keys ==> Holds(env, "SOURCE_REPO", st.sourceRepo))
    && (st.sourceRepo != "" && "SOURCE_REF" !in keys ==> Holds(env, "SOURCE_REF", st.sourceRef))
    && (st.timeout.Some? && "TEST_TIMEOUT_SEC" !in keys ==> Holds(env, "TEST_TIMEOUT_SEC", st.timeout.value))
  }

  ghost predicate NamesApart(items: seq<Item>) {
    forall i, j :: 0 <= i < j < |items| ==> items[i].name != items[j].name
  }

  lemma ItemStays(sh: Shell, items: seq<Item>, i: nat)
    requires i < |items| && NamesApart(items)
    ensures Holds(Loaded(sh, items).env, items[i].name, items[i].value)
  {
    var before, after := items[..i + 1], items[i + 1..];
    assert items == before + after && before == items[..i] + [items[i]];
    LoadedAppend(sh, before, after);
    LoadedAppend(sh, items[..i], [items[i]]);
    assert [items[i]][1..] == [];
    forall item | item in after ensures item.name != items[i].name {
      var k :| 0 <= k < |after| && after[k] == item;
      assert items[i + 1 + k] == item;
    }
    LastAssignmentStays(Loaded(sh, before), after, items[i].name);
  }

  lemma BaseNamesApart(st: Settings)
    ensures NamesApart(BaseItems(st))
  {
    assert "WORKING_DIR"[0] == 'W' && "RESULTS_DIR"[1] == 'E' && "RUN_COMMAND"[1] == 'U' && "SOURCE_REPO"[0] == 'S';
  }

  lemma BaseIsRestored(st: Settings)
    ensures SettingsRestored(st, [], Loaded(FRESH, BaseItems(st)).env)
  {
    var items := BaseItems(st);
    BaseNamesApart(st);
    forall i: nat | i < |items| ensures Holds(Loaded(FRESH, items).env, items[i].name, items[i].value) {
      ItemStays(FRESH, items, i);
    }
    assert items[0].name == "SKIP" && items[1].name == "WORKING_DIR" && items[2].name == "RESULTS_DIR";
    assert items[3].name == "ARTIFACT_PREFIX" && items[4].name == "RUN_COMMAND";
    if st.sourceRepo != "" {
      assert items[5].name == "SOURCE_REPO" && items[6].name == "SOURCE_REF";
    }
    if st.timeout.Some? {
      assert items[|items| - 1].name == "TEST_TIMEOUT_SEC";
    }
  }

  /** Sourcing the written file raises no trouble, restores the settings and every exported variable character by
      character, and exports exactly the dictionary's keys. */
  lemma SourcingRestoresEverything(st: Settings, keys: seq<string>, values: map<string, string>, text: string)
    requires ReadableSettings(st)
    requires forall key :: key in keys ==> key in values && ValidKey(key) && NulFree(values[key])
    requires forall key :: key in Sorted(keys) ==> key in values
    requires text == Unlines(LinesOf(BaseItems(st) + ExportItems(Sorted(keys), values)))
    ensures var sh := Run(FRESH, text);
            && !sh.trouble
            && sh.exported == (set key | key in keys)
            && (forall key :: key in keys ==> key in sh.env && sh.env[key] == values[key])
            && SettingsRestored(st, keys, sh.env)
  {
    var sorted := Sorted(keys);
    SameMembers(keys);
    SourcingLoads(st, sorted, values);
    BaseSetsRunCommand(st);
    BaseIsRestored(st);
    ExportsRestored(Loaded(FRESH, BaseItems(st)), keys, sorted, values);
  }

  lemma ExportsRestored(base: Shell, keys: seq<string>, sorted: seq<string>, values: map<string, string>)
    requires !base.trouble && base.exported == {}
    requires forall key :: key in sorted <==> key in keys
    requires forall key :: key in keys ==> key in values
    ensures var sh := Loaded(base, ExportItems(sorted, values));
            && !sh.trouble
            && sh.exported == (set key | key in keys)
            && (forall key :: key in keys ==> key in sh.env && sh.env[key] == values[key])
            && (forall name :: name in base.env && name !in keys ==> Holds(sh.env, name, base.env[name]))
  {
    ExportsLoaded(base, sorted, values);
    assert (set key | key in sorted) == (set key | key in keys);
  }

  lemma SourcingLoads(st: Settings, sorted: seq<string>, values: map<string, string>)
    requires ReadableSettings(st)
    requires forall key :: key in sorted ==> key in values && ValidKey(key) && NulFree(values[key])
    ensures Run(FRESH, Unlines(LinesOf(BaseItems(st) + ExportItems(sorted, values))))
         == Loaded(Loaded(FRESH, BaseItems(st)), ExportItems(sorted, values))
  {
    BaseLoadable(st);
    ExportsLoadable(sorted, values);
    FileLoads(FRESH, BaseItems(st) + ExportItems(sorted, values));
    LoadedAppend(FRESH, BaseItems(st), ExportItems(sorted, values));
  }
}
