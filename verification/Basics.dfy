/** Small value types and string predicates shared by the component models. */
module Basics {

  datatype Option<+T> = None | Some(value: T)

  function Max(a: int, b: int): int {
    if a < b then b else a
  }

  /** Python's `needle in s` on strings. */
  predicate Contains(s: string, needle: string) {
    exists i :: 0 <= i <= |s| - |needle| && OccursAt(s, needle, i)
  }

  predicate OccursAt(s: string, needle: string, i: int)
    requires 0 <= i <= |s| - |needle|
  {
    s[i..i + |needle|] == needle
  }

  lemma InfixContains(before: string, needle: string, after: string)
    ensures Contains(before + needle + after, needle)
  {
    var s := before + needle + after;
    assert s[|before|..|before| + |needle|] == needle;
    assert OccursAt(s, needle, |before|);
  }

  /** ASCII part of Python's str.lower. */
  function LowerChar(c: char): char {
    if 'A' <= c <= 'Z' then c - 'A' + 'a' else c
  }

  function Lower(s: string): (t: string)
    ensures |t| == |s|
    ensures forall i :: 0 <= i < |s| ==> t[i] == LowerChar(s[i])
  {
    seq(|s|, i requires 0 <= i < |s| => LowerChar(s[i]))
  }

  predicate ReadsAt(text: string, word: string, i: nat)
    requires i + |word| <= |text|
  {
    Lower(text[i..i + |word|]) == word
  }

  /** The word occurs in the text, in upper or lower case. */
  predicate Says(text: string, word: string) {
    exists i: nat :: i + |word| <= |text| && ReadsAt(text, word, i)
  }

  lemma SaysIffLowerContains(text: string, word: string)
    ensures Says(text, word) <==> Contains(Lower(text), word)
  {
    forall i: nat | i + |word| <= |text| ensures ReadsAt(text, word, i) <==> OccursAt(Lower(text), word, i) {
      assert Lower(text[i..i + |word|]) == Lower(text)[i..i + |word|];
    }
    if Contains(Lower(text), word) {
      var i :| 0 <= i <= |Lower(text)| - |word| && OccursAt(Lower(text), word, i);
      assert ReadsAt(text, word, i);
    }
  }

  predicate IsSpace(c: char) {
    c == ' ' || c == '\t' || c == '\n' || c == '\r'
  }

  /** ASCII part of Python's str.strip. */
  function Strip(s: string): (t: string)
    ensures t == [] || (!IsSpace(t[0]) && !IsSpace(t[|t| - 1]))
    ensures s == [] || (!IsSpace(s[0]) && !IsSpace(s[|s| - 1])) ==> t == s
    decreases |s|
  {
    if s == [] then []
    else if IsSpace(s[0]) then Strip(s[1..])
    else if IsSpace(s[|s| - 1]) then Strip(s[..|s| - 1])
    else s
  }

  /** Everything outside the part from `i` to `j` is blank, and the part neither begins nor ends with a blank. */
  ghost predicate IsCore(s: string, i: nat, j: nat) {
    && i <= j <= |s|
    && (forall k :: 0 <= k < i ==> IsSpace(s[k])) && (forall k :: j <= k < |s| ==> IsSpace(s[k]))
    && (i < j ==> !IsSpace(s[i]) && !IsSpace(s[j - 1]))
  }

  lemma CoreOfTail(s: string, i: nat, j: nat)
    requires s != [] && IsSpace(s[0]) && IsCore(s[1..], i, j)
    ensures IsCore(s, i + 1, j + 1) && s[i + 1..j + 1] == s[1..][i..j]
  {
    var t := s[1..];
    assert forall k :: 0 <= k < |t| ==> t[k] == s[k + 1];
    forall k | 1 <= k < i + 1 || j + 1 <= k < |s| ensures IsSpace(s[k]) {
      assert IsSpace(t[k - 1]);
    }
  }

  lemma CoreOfFront(s: string, i: nat, j: nat)
    requires s != [] && IsSpace(s[|s| - 1]) && IsCore(s[..|s| - 1], i, j)
    ensures IsCore(s, i, j) && s[i..j] == s[..|s| - 1][i..j]
  {
  }

  /** Stripping takes away blanks at both ends, and nothing else. */
  lemma {:induction false} StripIs(s: string) returns (i: nat, j: nat)
    ensures IsCore(s, i, j) && Strip(s) == s[i..j]
    decreases |s|
  {
    if s == [] {
      i, j := 0, 0;
    } else if IsSpace(s[0]) {
      i, j := StripIs(s[1..]);
      CoreOfTail(s, i, j);
      i, j := i + 1, j + 1;
    } else if IsSpace(s[|s| - 1]) {
      i, j := StripIs(s[..|s| - 1]);
      CoreOfFront(s, i, j);
    } else {
      i, j := 0, |s|;
    }
  }

  /** Equal up to blanks around and letter case. */
  predicate SameText(a: string, b: string) {
    Lower(Strip(a)) == Lower(Strip(b))
  }

  predicate Blank(s: string) {
    Strip(s) == ""
  }

  /** Comparison form of cluster labels and API host names. */
  function Normalize(s: string): (t: string)
    ensures Strip(t) == t && Lower(t) == t
  {
    Lower(Strip(s))
  }

  /* ---------- lines ---------- */

  /** Python's `"\n".join(lines) + "\n"` for at least one line. */
  function Unlines(lines: seq<string>): string {
    if lines == [] then "" else lines[0] + "\n" + Unlines(lines[1..])
  }

  predicate OneLine(line: string) {
    forall i :: 0 <= i < |line| ==> line[i] != '\n'
  }

  function LineEnd(text: string): (n: nat)
    ensures n <= |text|
  {
    if text == [] || text[0] == '\n' then 0 else 1 + LineEnd(text[1..])
  }

  /** Python's splitlines on text whose only line separator is the newline. */
  function SplitLines(text: string): seq<string>
    decreases |text|
  {
    if text == [] then []
    else
      var n := LineEnd(text);
      [text[..n]] + if n == |text| then [] else SplitLines(text[n + 1..])
  }

  lemma {:induction false} LineEndOf(line: string, rest: string)
    requires OneLine(line)
    ensures LineEnd(line + "\n" + rest) == |line|
  {
    if line == [] {
      assert line + "\n" + rest == "\n" + rest;
    } else {
      assert (line + "\n" + rest)[1..] == line[1..] + "\n" + rest;
      LineEndOf(line[1..], rest);
    }
  }

  lemma {:induction false} SplitOfUnlines(lines: seq<string>)
    requires forall line :: line in lines ==> OneLine(line)
    ensures SplitLines(Unlines(lines)) == lines
  {
    if lines != [] {
      var rest := Unlines(lines[1..]);
      var text := lines[0] + "\n" + rest;
      LineEndOf(lines[0], rest);
      assert text[..|lines[0]|] == lines[0] && text[|lines[0]| + 1..] == rest;
      SplitOfUnlines(lines[1..]);
    }
  }
}
