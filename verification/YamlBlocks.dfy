/** The block-mapping subset of YAML that the DataScienceCluster printer emits: two-space indentation,
    `key: value` and `key:` lines, no quoting, no lists. */
module YamlBlocks {
  import opened Basics

  datatype Node = Scalar(text: string) | Block(entries: seq<Entry>)
  datatype Entry = Entry(key: string, node: Node)

  /* ---------- printing ---------- */

  function Spaces(n: nat): (s: string)
    ensures |s| == n && forall i :: 0 <= i < n ==> s[i] == ' '
  {
    seq(n, i => ' ')
  }

  function Print(entries: seq<Entry>, indent: nat): seq<string> {
    if entries == [] then [] else PrintEntry(entries[0], indent) + Print(entries[1..], indent)
  }

  function PrintEntry(e: Entry, indent: nat): seq<string> {
    match e.node
    case Scalar(text) => [Spaces(indent) + e.key + ": " + text]
    case Block(entries) => [Spaces(indent) + e.key + ":"] + Print(entries, indent + 2)
  }

  /* ---------- reading ---------- */

  datatype Line = Line(indent: nat, key: string, value: Option<string>)

  function LeadingSpaces(s: string): (n: nat)
    ensures n <= |s|
  {
    if s == [] || s[0] != ' ' then 0 else 1 + LeadingSpaces(s[1..])
  }

  function FirstColon(s: string): (n: nat)
    ensures n <= |s|
  {
    if s == [] || s[0] == ':' then 0 else 1 + FirstColon(s[1..])
  }

  function ReadLine(s: string): Option<Line> {
    var indent := LeadingSpaces(s);
    var rest := s[indent..];
    var colon := FirstColon(rest);
    if colon == |rest| || colon == 0 then None
    else
      var after := rest[colon + 1..];
      if after == [] then Some(Line(indent, rest[..colon], None))
      else if after[0] == ' ' then Some(Line(indent, rest[..colon], Some(after[1..])))
      else None
  }

  /** How many of the first lines lie deeper than `indent`. */
  function Deeper(lines: seq<Line>, indent: nat): (n: nat)
    ensures n <= |lines|
  {
    if lines == [] || lines[0].indent <= indent then 0 else 1 + Deeper(lines[1..], indent)
  }

  function ParseBlock(lines: seq<Line>, indent: nat): Option<seq<Entry>>
    decreases |lines|
  {
    if lines == [] then Some([])
    else if lines[0].indent != indent then None
    else
      var n := Deeper(lines[1..], indent);
      var children, rest := lines[1..][..n], lines[1..][n..];
      var tail := ParseBlock(rest, indent);
      if tail.None? then None
      else if lines[0].value.Some? then
        if n > 0 then None else Some([Entry(lines[0].key, Scalar(lines[0].value.value))] + tail.value)
      else
        var block := ParseBlock(children, indent + 2);
        if block.None? then None else Some([Entry(lines[0].key, Block(block.value))] + tail.value)
  }

  function ReadLines(lines: seq<string>): Option<seq<Line>> {
    if lines == [] then Some([])
    else
      var head, tail := ReadLine(lines[0]), ReadLines(lines[1..]);
      if head.None? || tail.None? then None else Some([head.value] + tail.value)
  }

  function Parse(lines: seq<string>): Option<seq<Entry>> {
    var read := ReadLines(lines);
    if read.None? then None else ParseBlock(read.value, 0)
  }

  /* ---------- round trip ---------- */

  predicate ProperKey(key: string) {
    key != "" && key[0] != ' ' && forall i :: 0 <= i < |key| ==> key[i] != ':' && key[i] != '\n'
  }

  predicate Proper(entries: seq<Entry>) {
    forall e :: e in entries ==> ProperEntry(e)
  }

  predicate ProperEntry(e: Entry) {
    ProperKey(e.key) && if e.node.Block? then Proper(e.node.entries) else OneLine(e.node.text)
  }

  /** The lines of a block, before they are turned into text. */
  function Lines(entries: seq<Entry>, indent: nat): seq<Line> {
    if entries == [] then [] else EntryLines(entries[0], indent) + Lines(entries[1..], indent)
  }

  function EntryLines(e: Entry, indent: nat): seq<Line> {
    match e.node
    case Scalar(text) => [Line(indent, e.key, Some(text))]
    case Block(entries) => [Line(indent, e.key, None)] + Lines(entries, indent + 2)
  }

  lemma {:induction false} LeadingSpacesOf(n: nat, s: string)
    requires s != [] && s[0] != ' '
    ensures LeadingSpaces(Spaces(n) + s) == n
  {
    if n == 0 {
      assert Spaces(0) + s == s;
    } else {
      assert (Spaces(n) + s)[1..] == Spaces(n - 1) + s;
      LeadingSpacesOf(n - 1, s);
    }
  }

  lemma {:induction false} FirstColonOf(key: string, after: string)
    requires forall i :: 0 <= i < |key| ==> key[i] != ':'
    ensures FirstColon(key + ":" + after) == |key|
  {
    if key == [] {
      assert key + ":" + after == ":" + after;
    } else {
      assert (key + ":" + after)[1..] == key[1..] + ":" + after;
      FirstColonOf(key[1..], after);
    }
  }

  lemma ReadPrinted(indent: nat, key: string, value: Option<string>)
    requires ProperKey(key)
    ensures var after := if value.None? then "" else " " + value.value;
            ReadLine(Spaces(indent) + key + ":" + after) == Some(Line(indent, key, value))
  {
    var after := if value.None? then "" else " " + value.value;
    var rest := key + ":" + after;
    var s := Spaces(indent) + key + ":" + after;
    assert s == Spaces(indent) + rest;
    LeadingSpacesOf(indent, rest);
    assert s[indent..] == rest;
    FirstColonOf(key, after);
    assert rest[..|key|] == key && rest[|key| + 1..] == after;
  }

  lemma {:induction false} ReadLinesAppend(a: seq<string>, b: seq<string>)
    requires ReadLines(a).Some? && ReadLines(b).Some?
    ensures ReadLines(a + b) == Some(ReadLines(a).value + ReadLines(b).value)
  {
    if a == [] {
      assert a + b == b;
      assert [] + ReadLines(b).value == ReadLines(b).value;
    } else {
      assert (a + b)[1..] == a[1..] + b && (a + b)[0] == a[0];
      ReadLinesAppend(a[1..], b);
      var head := [ReadLine(a[0]).value];
      assert head + (ReadLines(a[1..]).value + ReadLines(b).value)
          == (head + ReadLines(a[1..]).value) + ReadLines(b).value;
    }
  }

  lemma {:induction false} PrintedLinesRead(entries: seq<Entry>, indent: nat)
    requires Proper(entries)
    ensures ReadLines(Print(entries, indent)) == Some(Lines(entries, indent))
  {
    if entries != [] {
      PrintedEntryReads(entries[0], indent);
      PrintedLinesRead(entries[1..], indent);
      ReadLinesAppend(PrintEntry(entries[0], indent), Print(entries[1..], indent));
    }
  }

  lemma {:induction false} PrintedEntryReads(e: Entry, indent: nat)
    requires ProperEntry(e)
    ensures ReadLines(PrintEntry(e, indent)) == Some(EntryLines(e, indent))
  {
    match e.node
    case Scalar(text) =>
      ReadPrinted(indent, e.key, Some(text));
      var line := Spaces(indent) + e.key + ": " + text;
      assert Spaces(indent) + e.key + ":" + (" " + text) == line;
      assert [line][1..] == [] && ReadLines([]) == Some([]);
      assert EntryLines(e, indent) + [] == EntryLines(e, indent);
    case Block(entries) =>
      ReadPrinted(indent, e.key, None);
      assert Spaces(indent) + e.key + ":" + "" == Spaces(indent) + e.key + ":";
      PrintedLinesRead(entries, indent + 2);
      ReadLinesAppend([Spaces(indent) + e.key + ":"], Print(entries, indent + 2));
  }

  ghost predicate AllFrom(lines: seq<Line>, indent: nat) {
    forall i :: 0 <= i < |lines| ==> lines[i].indent >= indent
  }

  lemma {:induction false} LinesIndent(entries: seq<Entry>, indent: nat)
    ensures AllFrom(Lines(entries, indent), indent)
    ensures entries != [] ==> Lines(entries, indent) != [] && Lines(entries, indent)[0].indent == indent
  {
    if entries != [] {
      LinesIndent(entries[1..], indent);
      if entries[0].node.Block? {
        LinesIndent(entries[0].node.entries, indent + 2);
      }
    }
  }

  lemma {:induction false} DeeperSplits(inner: seq<Line>, rest: seq<Line>, indent: nat)
    requires AllFrom(inner, indent + 1) && (rest != [] ==> rest[0].indent <= indent)
    ensures Deeper(inner + rest, indent) == |inner|
  {
    if inner == [] {
      assert inner + rest == rest;
    } else {
      assert (inner + rest)[1..] == inner[1..] + rest;
      DeeperSplits(inner[1..], rest, indent);
    }
  }

  lemma SplitAt(inner: seq<Line>, rest: seq<Line>)
    ensures (inner + rest)[..|inner|] == inner && (inner + rest)[|inner|..] == rest
  {
  }

  lemma FirstEntry(e: Entry, indent: nat, rest: seq<Line>)
    ensures var lines := EntryLines(e, indent) + rest;
      && lines != [] && lines[0] == Line(indent, e.key, if e.node.Block? then None else Some(e.node.text))
      && lines[1..] == (if e.node.Block? then Lines(e.node.entries, indent + 2) else []) + rest
  {
  }

  lemma {:induction false} ParseEntry(lines: seq<Line>, e: Entry, inner: seq<Line>, rest: seq<Line>, indent: nat,
                                      others: seq<Entry>)
    requires lines != [] && lines[0] == Line(indent, e.key, if e.node.Block? then None else Some(e.node.text))
    requires lines[1..] == inner + rest && Deeper(lines[1..], indent) == |inner|
    requires lines[1..][..|inner|] == inner && lines[1..][|inner|..] == rest
    requires if e.node.Block? then ParseBlock(inner, indent + 2) == Some(e.node.entries) else inner == []
    requires ParseBlock(rest, indent) == Some(others)
    ensures ParseBlock(lines, indent) == Some([e] + others)
  {
  }

  lemma {:induction false} ParseLines(entries: seq<Entry>, indent: nat)
    ensures ParseBlock(Lines(entries, indent), indent) == Some(entries)
  {
    if entries != [] {
      var e, lines := entries[0], Lines(entries, indent);
      var inner := if e.node.Block? then Lines(e.node.entries, indent + 2) else [];
      var rest := Lines(entries[1..], indent);
      FirstEntry(e, indent, rest);
      if e.node.Block? {
        LinesIndent(e.node.entries, indent + 2);
        ParseLines(e.node.entries, indent + 2);
      }
      LinesIndent(entries[1..], indent);
      DeeperSplits(inner, rest, indent);
      ParseLines(entries[1..], indent);
      SplitAt(inner, rest);
      ParseEntry(lines, e, inner, rest, indent, entries[1..]);
      assert entries == [e] + entries[1..];
    }
  }

  lemma {:induction false} PrintedOnOneLineEach(entries: seq<Entry>, indent: nat)
    requires Proper(entries)
    ensures forall line :: line in Print(entries, indent) ==> OneLine(line)
  {
    if entries != [] {
      var e := entries[0];
      assert ProperEntry(e);
      if e.node.Block? {
        PrintedOnOneLineEach(e.node.entries, indent + 2);
        assert OneLine(Spaces(indent) + e.key + ":");
      } else {
        assert OneLine(Spaces(indent) + e.key + ": " + e.node.text);
      }
      PrintedOnOneLineEach(entries[1..], indent);
    }
  }

  /** Reading back the printed text gives the same tree. */
  lemma RoundTrip(entries: seq<Entry>)
    requires Proper(entries)
    ensures Parse(SplitLines(Unlines(Print(entries, 0)))) == Some(entries)
  {
    PrintedOnOneLineEach(entries, 0);
    SplitOfUnlines(Print(entries, 0));
    PrintedLinesRead(entries, 0);
    ParseLines(entries, 0);
  }

  lemma {:induction false} PrintAppend(a: seq<Entry>, b: seq<Entry>, indent: nat)
    ensures Print(a + b, indent) == Print(a, indent) + Print(b, indent)
  {
    if a == [] {
      assert a + b == b;
    } else {
      assert (a + b)[1..] == a[1..] + b && (a + b)[0] == a[0];
      PrintAppend(a[1..], b, indent);
    }
  }
}
