/** Merging skip fragments such as `-k 'not slow'` into pytest arguments, on split argument lists. */
module PytestSkip {
  import opened Basics
  import opened KeywordExpr

  /* ---------- the arguments ---------- */

  predicate IsQuoteMark(c: char) {
    c == '\'' || c == '"'
  }

  /** Python's strip("'\""). */
  function StripQuotes(s: string): string
    decreases |s|
  {
    if s == "" then ""
    else if IsQuoteMark(s[0]) then StripQuotes(s[1..])
    else if IsQuoteMark(s[|s| - 1]) then StripQuotes(s[..|s| - 1])
    else s
  }

  /** Only quote marks are stripped, and all of them at both ends. */
  lemma {:induction false} StripQuotesIs(s: string) returns (i: nat, j: nat)
    ensures i <= j <= |s| && StripQuotes(s) == s[i..j]
    ensures (forall k :: 0 <= k < i ==> IsQuoteMark(s[k])) && (forall k :: j <= k < |s| ==> IsQuoteMark(s[k]))
    ensures i < j ==> !IsQuoteMark(s[i]) && !IsQuoteMark(s[j - 1])
    decreases |s|
  {
    if s == "" {
      i, j := 0, 0;
    } else if IsQuoteMark(s[0]) {
      i, j := StripQuotesIs(s[1..]);
      assert forall k :: 1 <= k < |s| ==> s[k] == s[1..][k - 1];
      i, j := i + 1, j + 1;
    } else if IsQuoteMark(s[|s| - 1]) {
      i, j := StripQuotesIs(s[..|s| - 1]);
      assert forall k :: 0 <= k < |s| - 1 ==> s[k] == s[..|s| - 1][k];
    } else {
      i, j := 0, |s|;
    }
  }

  /** Index of the first `-k` that has an argument. */
  function KeywordAt(tokens: seq<string>): Option<nat> {
    if |tokens| < 2 then None
    else if tokens[0] == "-k" then Some(0)
    else var rest := KeywordAt(tokens[1..]); if rest.None? then None else Some(rest.value + 1)
  }

  lemma {:induction false} KeywordAtIsFirst(tokens: seq<string>)
    ensures KeywordAt(tokens).Some? ==> KeywordAt(tokens).value + 1 < |tokens|
    ensures KeywordAt(tokens).Some? ==> tokens[KeywordAt(tokens).value] == "-k"
    ensures KeywordAt(tokens).Some? ==> forall j :: 0 <= j < KeywordAt(tokens).value ==> tokens[j] != "-k"
    ensures KeywordAt(tokens).None? ==> forall j :: 0 <= j < |tokens| - 1 ==> tokens[j] != "-k"
  {
    if |tokens| >= 2 && tokens[0] != "-k" {
      KeywordAtIsFirst(tokens[1..]);
      assert forall j :: 1 <= j < |tokens| ==> tokens[j] == tokens[1..][j - 1];
    }
  }

  /** The `-k` expression of an argument list, "" when there is none. */
  function KeywordOf(tokens: seq<string>): string {
    KeywordAtIsFirst(tokens);
    if KeywordAt(tokens).None? then "" else StripQuotes(tokens[KeywordAt(tokens).value + 1])
  }

  function Conjoin(existing: string, skip: string): string {
    "(" + existing + ") and " + skip
  }

  function Merge(tokens: seq<string>, fragment: seq<string>): seq<string> {
    KeywordAtIsFirst(tokens);
    var skip := KeywordOf(fragment);
    if skip == "" || KeywordAt(tokens).None? then tokens + fragment
    else
      var i := KeywordAt(tokens).value;
      var existing := KeywordOf(tokens);
      if Contains(existing, skip) then tokens
      else tokens[..i] + ["-k", Conjoin(existing, skip)] + tokens[i + 2..]
  }

  /** The merge as it is written: an index loop over each list. */
  method MergePytestKSkip(tokens: seq<string>, fragment: seq<string>) returns (merged: seq<string>)
    ensures merged == Merge(tokens, fragment)
  {
    var skip := "";
    var i := 0;
    KeywordAtIsFirst(fragment);
    while i < |fragment|
      invariant 0 <= i <= |fragment| && skip == ""
      invariant forall j :: 0 <= j < i && j + 1 < |fragment| ==> fragment[j] != "-k"
    {
      if fragment[i] == "-k" && i + 1 < |fragment| {
        skip := StripQuotes(fragment[i + 1]);
        assert KeywordAt(fragment) == Some(i);
        break;
      }
      i := i + 1;
    }
    if skip == "" {
      return tokens + fragment;
    }
    KeywordAtIsFirst(tokens);
    i := 0;
    while i < |tokens|
      invariant 0 <= i <= |tokens|
      invariant forall j :: 0 <= j < i && j + 1 < |tokens| ==> tokens[j] != "-k"
    {
      if tokens[i] == "-k" && i + 1 < |tokens| {
        assert KeywordAt(tokens) == Some(i);
        var existing := StripQuotes(tokens[i + 1]);
        if Contains(existing, skip) {
          return tokens;
        }
        return tokens[..i] + ["-k", Conjoin(existing, skip)] + tokens[i + 2..];
      }
      i := i + 1;
    }
    return tokens + fragment;
  }

  /* ---------- meaning ---------- */

  predicate Chooses(expr: string, test: string -> bool) {
    Parse(expr).Some? && Selects(Parse(expr).value, test)
  }

  lemma {:induction false} LexingMeansNoQuotes(s: string)
    requires Lex(s).Some?
    ensures forall i :: 0 <= i < |s| ==> !IsQuoteMark(s[i])
    decreases |s|
  {
    if s != "" {
      if IsWordChar(s[0]) {
        var n := WordLength(s);
        LexingMeansNoQuotes(s[n..]);
        assert forall i :: n <= i < |s| ==> s[i] == s[n..][i - n];
      } else {
        LexingMeansNoQuotes(s[1..]);
        assert forall i :: 1 <= i < |s| ==> s[i] == s[1..][i - 1];
      }
    }
  }

  lemma ParsableIsUnquoted(s: string)
    requires Parse(s).Some?
    ensures StripQuotes(s) == s && s != ""
  {
    LexingMeansNoQuotes(s);
    assert ParseOr([]).Fail?;
  }

  lemma AndIsLexed()
    ensures Lex(" and ") == Some([And])
  {
    LexBlank();
    WordIsLexed("and");
    LexExtends(" ", "and");
    LexExtends(" and", " ");
    assert " " + "and" == " and" && " and" + " " == " and ";
    assert [] + [And] + [] == [And];
  }

  lemma CloseAndIsLexed()
    ensures Lex(") and ") == Some([Close, And])
  {
    LexOne(')', Close);
    AndIsLexed();
    LexExtends(")", " and ");
    assert ")" + " and " == ") and " && [Close] + [And] == [Close, And];
  }

  lemma LexConjoined(existing: string, skip: string)
    requires Lex(existing).Some? && Lex(skip).Some?
    ensures Lex(Conjoin(existing, skip)) == Some([Open] + Lex(existing).value + [Close, And] + Lex(skip).value)
  {
    LexOne('(', Open);
    LexExtends("(", existing);
    CloseAndIsLexed();
    var head, joint := "(" + existing, ") and ";
    assert !IsWordChar(joint[0]) && !IsWordChar(joint[|joint| - 1]);
    LexTwice(head, joint, skip);
  }

  lemma LexTwice(a: string, b: string, c: string)
    requires Lex(a).Some? && Lex(b).Some? && Lex(c).Some? && b != "" && Seam(a, b) && Seam(b, c)
    ensures Lex(a + b + c) == Some(Lex(a).value + Lex(b).value + Lex(c).value)
  {
    LexExtends(a, b);
    assert (a + b)[|a + b| - 1] == b[|b| - 1];
    LexExtends(a + b, c);
  }

  /** The top-level alternatives of an expression, as pytest reads it. */
  function AlternativesOf(expr: string): seq<Expr> {
    if Lex(expr).None? then [] else Alternatives(Lex(expr).value)
  }

  predicate ChoosesFirst(expr: string, test: string -> bool) {
    AlternativesOf(expr) != [] && Selects(AlternativesOf(expr)[0], test)
  }

  predicate ChoosesOther(expr: string, test: string -> bool) {
    AlternativesOf(expr) != [] && SelectsSome(AlternativesOf(expr)[1..], test)
  }

  lemma ChoosesSome(expr: string, test: string -> bool)
    requires Parse(expr).Some?
    ensures Chooses(expr, test) <==> ChoosesFirst(expr, test) || ChoosesOther(expr, test)
  {
    AlternativesSelect(Lex(expr).value, test);
  }

  /** A conjunction is its own first alternative, and there is no other. */
  lemma ConjunctionIsAlone(expr: string, test: string -> bool)
    requires IsConjunction(expr)
    ensures Parse(expr).Some? && !ChoosesOther(expr, test) && (ChoosesFirst(expr, test) <==> Chooses(expr, test))
  {
    ConjunctionParses(expr);
    assert FurtherAlternatives([]) == [];
    assert AlternativesOf(expr) == [ParseAnd(Lex(expr).value).expr];
  }

  /** The merged text, under pytest's precedence: the existing expression is conjoined to the first alternative of the
      fragment only, the others stand beside it. */
  lemma ConjoinedTextSelects(existing: string, skip: string, test: string -> bool)
    requires Parse(existing).Some? && Parse(skip).Some?
    ensures Parse(Conjoin(existing, skip)).Some?
    ensures Chooses(Conjoin(existing, skip), test) <==>
              (Chooses(existing, test) && ChoosesFirst(skip, test)) || ChoosesOther(skip, test)
  {
    LexConjoined(existing, skip);
    ParenthesisedAnd(Lex(existing).value, Lex(skip).value, test);
  }

  /** So a merged conjunction selects exactly what both parts select. */
  lemma ConjoinedTextSelectsBoth(existing: string, skip: string, test: string -> bool)
    requires Parse(existing).Some? && IsConjunction(skip)
    ensures Parse(Conjoin(existing, skip)).Some?
    ensures Chooses(Conjoin(existing, skip), test) <==> Chooses(existing, test) && Chooses(skip, test)
  {
    ConjunctionIsAlone(skip, test);
    ConjoinedTextSelects(existing, skip, test);
  }

  /** One merge outside the substring test: the text of the result. */
  lemma MergedText(tokens: seq<string>, fragment: seq<string>)
    requires KeywordAt(tokens).Some?
    requires Parse(KeywordOf(tokens)).Some? && Parse(KeywordOf(fragment)).Some?
    requires !Contains(KeywordOf(tokens), KeywordOf(fragment))
    ensures var merged := KeywordOf(Merge(tokens, fragment));
      && KeywordAt(Merge(tokens, fragment)) == KeywordAt(tokens)
      && merged == Conjoin(KeywordOf(tokens), KeywordOf(fragment)) && Parse(merged).Some?
  {
    var text := Conjoin(KeywordOf(tokens), KeywordOf(fragment));
    ParsableIsUnquoted(KeywordOf(fragment));
    ConjoinedTextSelects(KeywordOf(tokens), KeywordOf(fragment), name => true);
    ParsableIsUnquoted(text);
    KeywordReplaced(tokens, text);
  }

  lemma KeywordReplaced(tokens: seq<string>, text: string)
    requires KeywordAt(tokens).Some?
    ensures KeywordAt(tokens).value + 1 < |tokens|
    ensures var i := KeywordAt(tokens).value;
      && KeywordAt(tokens[..i] + ["-k", text] + tokens[i + 2..]) == Some(i)
      && KeywordOf(tokens[..i] + ["-k", text] + tokens[i + 2..]) == StripQuotes(text)
  {
    KeywordAtIsFirst(tokens);
    var i := KeywordAt(tokens).value;
    var merged := tokens[..i] + ["-k", text] + tokens[i + 2..];
    assert merged[i] == "-k" && merged[i + 1] == text;
    forall j | 0 <= j < i ensures merged[j] != "-k" {
      assert merged[j] == tokens[j];
    }
    KeywordIsHere(merged, i);
  }

  lemma {:induction false} KeywordIsHere(tokens: seq<string>, i: nat)
    requires i + 1 < |tokens| && tokens[i] == "-k" && forall j :: 0 <= j < i ==> tokens[j] != "-k"
    ensures KeywordAt(tokens) == Some(i)
  {
    if i > 0 {
      forall j | 0 <= j < i - 1 ensures tokens[1..][j] != "-k" {
        assert tokens[1..][j] == tokens[j + 1];
      }
      KeywordIsHere(tokens[1..], i - 1);
    }
  }

  /** With a conjunction, such a merge selects both. */
  lemma MergeSelectsBoth(tokens: seq<string>, fragment: seq<string>, test: string -> bool)
    requires KeywordAt(tokens).Some?
    requires Parse(KeywordOf(tokens)).Some? && IsConjunction(KeywordOf(fragment))
    requires !Contains(KeywordOf(tokens), KeywordOf(fragment))
    ensures var merged := KeywordOf(Merge(tokens, fragment));
      && KeywordAt(Merge(tokens, fragment)) == KeywordAt(tokens)
      && merged == Conjoin(KeywordOf(tokens), KeywordOf(fragment)) && Parse(merged).Some?
      && (Chooses(merged, test) <==> Chooses(KeywordOf(tokens), test) && Chooses(KeywordOf(fragment), test))
  {
    ConjunctionParses(KeywordOf(fragment));
    MergedText(tokens, fragment);
    ConjoinedTextSelectsBoth(KeywordOf(tokens), KeywordOf(fragment), test);
  }

  /** When the substring test fires, the arguments stay as they are. */
  lemma FoundFragmentIsDropped(tokens: seq<string>, fragment: seq<string>)
    requires KeywordAt(tokens).Some? && Parse(KeywordOf(fragment)).Some?
    requires Contains(KeywordOf(tokens), KeywordOf(fragment))
    ensures Merge(tokens, fragment) == tokens
  {
    ParsableIsUnquoted(KeywordOf(fragment));
  }

  /** The selection of an expression lies within that of another. */
  ghost predicate Implies(expr: string, other: string) {
    forall test: string -> bool :: Chooses(expr, test) ==> Chooses(other, test)
  }

  /** So do the selections of all its alternatives but the first. */
  ghost predicate OthersImply(expr: string, other: string) {
    forall test: string -> bool :: ChoosesOther(expr, test) ==> Chooses(other, test)
  }

  /** The expression of the merged arguments chooses, for every test, what both expressions choose. */
  ghost predicate SelectsBoth(tokens: seq<string>, fragment: seq<string>) {
    forall test: string -> bool :: Chooses(KeywordOf(Merge(tokens, fragment)), test) <==>
      Chooses(KeywordOf(tokens), test) && Chooses(KeywordOf(fragment), test)
  }

  /** One merge selects both exactly if, where the fragment's text is found in the expression, the expression already
      implies it, and elsewhere the fragment's alternatives but the first imply the expression. */
  lemma MergeSelectsBothIff(tokens: seq<string>, fragment: seq<string>)
    requires KeywordAt(tokens).Some? && Parse(KeywordOf(tokens)).Some? && Parse(KeywordOf(fragment)).Some?
    ensures SelectsBoth(tokens, fragment) <==>
              if Contains(KeywordOf(tokens), KeywordOf(fragment))
              then Implies(KeywordOf(tokens), KeywordOf(fragment))
              else OthersImply(KeywordOf(fragment), KeywordOf(tokens))
  {
    if Contains(KeywordOf(tokens), KeywordOf(fragment)) {
      FoundFragmentIsDropped(tokens, fragment);
    } else {
      MergedText(tokens, fragment);
      forall test: string -> bool
        ensures (Chooses(KeywordOf(Merge(tokens, fragment)), test) <==>
                  Chooses(KeywordOf(tokens), test) && Chooses(KeywordOf(fragment), test))
           <==> (ChoosesOther(KeywordOf(fragment), test) ==> Chooses(KeywordOf(tokens), test))
      {
        ConjoinedTextSelects(KeywordOf(tokens), KeywordOf(fragment), test);
        ChoosesSome(KeywordOf(fragment), test);
      }
    }
  }

  /** Merging the same fragment again changes nothing. */
  lemma MergeTwice(tokens: seq<string>, fragment: seq<string>, test: string -> bool)
    requires KeywordAt(tokens).Some? && KeywordAt(fragment).Some?
    requires Parse(KeywordOf(tokens)).Some? && IsConjunction(KeywordOf(fragment))
    ensures Merge(Merge(tokens, fragment), fragment) == Merge(tokens, fragment)
  {
    var existing, skip := KeywordOf(tokens), KeywordOf(fragment);
    if !Contains(existing, skip) {
      MergeSelectsBoth(tokens, fragment, test);
      InfixContains("(" + existing + ") and ", skip, "");
      assert "(" + existing + ") and " + skip + "" == Conjoin(existing, skip);
    }
  }

  /* ---------- folding fragments ---------- */

  function MergeAll(tokens: seq<string>, fragments: seq<seq<string>>): seq<string>
    decreases fragments
  {
    if fragments == [] then tokens else MergeAll(Merge(tokens, fragments[0]), fragments[1..])
  }

  /** Each fragment is a conjunction; the substring test fires for it only if it has been merged before. */
  ghost predicate Distinct(tokens: seq<string>, done: set<string>, fragments: seq<seq<string>>)
    decreases fragments
  {
    fragments != [] ==>
      var skip := KeywordOf(fragments[0]);
      && KeywordAt(fragments[0]).Some? && IsConjunction(skip)
      && (Contains(KeywordOf(tokens), skip) ==> skip in done)
      && Distinct(Merge(tokens, fragments[0]), done + {skip}, fragments[1..])
  }

  lemma MergeStep(tokens: seq<string>, done: set<string>, fragment: seq<string>, test: string -> bool)
    requires KeywordAt(tokens).Some? && Parse(KeywordOf(tokens)).Some?
    requires KeywordAt(fragment).Some? && IsConjunction(KeywordOf(fragment))
    requires Contains(KeywordOf(tokens), KeywordOf(fragment)) ==> KeywordOf(fragment) in done
    requires forall skip :: skip in done && Chooses(KeywordOf(tokens), test) ==> Chooses(skip, test)
    ensures var merged := Merge(tokens, fragment);
      && KeywordAt(merged).Some? && Parse(KeywordOf(merged)).Some?
      && (Chooses(KeywordOf(merged), test) <==> Chooses(KeywordOf(tokens), test) && Chooses(KeywordOf(fragment), test))
  {
    ConjunctionParses(KeywordOf(fragment));
    ParsableIsUnquoted(KeywordOf(fragment));
    if !Contains(KeywordOf(tokens), KeywordOf(fragment)) {
      MergeSelectsBoth(tokens, fragment, test);
    }
  }

  /** The merged expression selects exactly the tests chosen by the original and by every fragment. */
  lemma {:induction false} MergeAllSelectsAll(tokens: seq<string>, done: set<string>, fragments: seq<seq<string>>,
                                              test: string -> bool)
    requires KeywordAt(tokens).Some? && Parse(KeywordOf(tokens)).Some? && Distinct(tokens, done, fragments)
    requires forall skip :: skip in done && Chooses(KeywordOf(tokens), test) ==> Chooses(skip, test)
    ensures Parse(KeywordOf(MergeAll(tokens, fragments))).Some?
    ensures Chooses(KeywordOf(MergeAll(tokens, fragments)), test) <==>
              && Chooses(KeywordOf(tokens), test)
              && forall k :: 0 <= k < |fragments| ==> Chooses(KeywordOf(fragments[k]), test)
    decreases |fragments|
  {
    if fragments != [] {
      var skip := KeywordOf(fragments[0]);
      MergeStep(tokens, done, fragments[0], test);
      MergeAllSelectsAll(Merge(tokens, fragments[0]), done + {skip}, fragments[1..], test);
      assert forall k :: 1 <= k < |fragments| ==> fragments[k] == fragments[1..][k - 1];
    }
  }

  lemma {:induction false} FirstFragmentPlace(tokens: seq<string>, fragment: seq<string>)
    requires "-k" !in tokens && KeywordAt(fragment).Some?
    ensures KeywordAt(tokens).None?
    ensures KeywordAt(tokens + fragment) == Some(|tokens| + KeywordAt(fragment).value)
  {
    KeywordAtIsFirst(tokens);
    KeywordAtIsFirst(fragment);
    if tokens == [] {
      assert tokens + fragment == fragment;
    } else {
      FirstFragmentPlace(tokens[1..], fragment);
      assert (tokens + fragment)[0] == tokens[0] && (tokens + fragment)[1..] == tokens[1..] + fragment;
    }
  }

  /** Arguments without a `-k` take over the first fragment's expression. */
  lemma FirstFragmentIsTaken(tokens: seq<string>, fragment: seq<string>)
    requires "-k" !in tokens && KeywordAt(fragment).Some?
    ensures Merge(tokens, fragment) == tokens + fragment
    ensures KeywordAt(Merge(tokens, fragment)).Some? && KeywordOf(Merge(tokens, fragment)) == KeywordOf(fragment)
  {
    FirstFragmentPlace(tokens, fragment);
    KeywordAtIsFirst(fragment);
    var i := KeywordAt(fragment).value;
    assert (tokens + fragment)[|tokens| + i + 1] == fragment[i + 1];
  }

  lemma MergeAllCons(tokens: seq<string>, first: seq<string>, rest: seq<seq<string>>)
    ensures MergeAll(tokens, [first] + rest) == MergeAll(Merge(tokens, first), rest)
  {
    assert ([first] + rest)[1..] == rest;
  }

  /** ... and then select exactly the tests that every fragment chooses. */
  lemma MergeAllFromNone(tokens: seq<string>, first: seq<string>, rest: seq<seq<string>>, test: string -> bool)
    requires "-k" !in tokens && KeywordAt(first).Some? && IsConjunction(KeywordOf(first))
    requires Distinct(tokens + first, {KeywordOf(first)}, rest)
    ensures var all := MergeAll(tokens, [first] + rest);
      && Parse(KeywordOf(all)).Some?
      && (Chooses(KeywordOf(all), test) <==>
            Chooses(KeywordOf(first), test) && forall k :: 0 <= k < |rest| ==> Chooses(KeywordOf(rest[k]), test))
  {
    FirstFragmentIsTaken(tokens, first);
    MergeAllCons(tokens, first, rest);
    ParsesAsConjunction(first);
    MergeAllSelectsAll(tokens + first, {KeywordOf(first)}, rest, test);
  }

  lemma ParsesAsConjunction(fragment: seq<string>)
    requires IsConjunction(KeywordOf(fragment))
    ensures Parse(KeywordOf(fragment)).Some?
  {
    ConjunctionParses(KeywordOf(fragment));
  }

  /* ---------- where the substring test goes wrong ---------- */

  /** The test looks at text, not at conjuncts: `not foo` is taken to be part of `not foobar`, so the fragment is
      dropped and a test named foo still runs. */
  lemma SubstringTestDropsFragment()
    ensures Merge(["-k", "not foobar"], ["-k", "not foo"]) == ["-k", "not foobar"]
    ensures Chooses("not foobar", name => name == "foo") && !Chooses("not foo", name => name == "foo")
  {
    FoobarIsKept();
    BothParse();
    var isFoo := (name: string) => name == "foo";
    assert "foobar" != "foo";
    assert Selects(Negation(Name("foobar")), isFoo) && !Selects(Negation(Name("foo")), isFoo);
  }

  lemma BothParse()
    ensures Parse("not foobar") == Some(Negation(Name("foobar"))) && Parse("not foo") == Some(Negation(Name("foo")))
  {
    NotParses("foobar");
    NotParses("foo");
    assert "not " + "foobar" == "not foobar" && "not " + "foo" == "not foo";
  }

  lemma FoobarIsKept()
    ensures Merge(["-k", "not foobar"], ["-k", "not foo"]) == ["-k", "not foobar"]
  {
    InfixContains("", "not foo", "bar");
    assert "" + "not foo" + "bar" == "not foobar";
    var tokens, fragment := ["-k", "not foobar"], ["-k", "not foo"];
    assert KeywordAt(tokens) == Some(0) && KeywordAt(fragment) == Some(0);
    assert tokens[1] == "not foobar" && fragment[1] == "not foo";
    assert KeywordOf(tokens) == "not foobar" && KeywordOf(fragment) == "not foo";
  }

  lemma NotParses(word: string)
    requires IsName(word)
    ensures Parse("not " + word) == Some(Negation(Name(word)))
  {
    NotIsLexed();
    WordIsLexed(word);
    var negation := "not ";
    assert !IsWordChar(negation[|negation| - 1]);
    LexExtends(negation, word);
    NegationIsParsed(word);
  }

  lemma NotIsLexed()
    ensures Lex("not ") == Some([Not])
  {
    WordIsLexed("not");
    LexBlank();
    LexExtends("not", " ");
    assert "not" + " " == "not " && [Not] + [] == [Not];
  }

  lemma NegationIsParsed(word: string)
    ensures ParseOr([Not] + [Word(word)]) == Got(Negation(Name(word)), [])
  {
    var ts := [Not] + [Word(word)];
    assert ts[1..] == [Word(word)] && [Word(word)][1..] == [];
    var e := Negation(Name(word));
    assert ParseNot([Word(word)]) == Got(Name(word), []);
    assert ParseNot(ts) == Got(e, []);
    assert AndTail(e, []) == Got(e, []) && ParseAnd(ts) == Got(e, []);
    assert OrTail(e, []) == Got(e, []) && ParseOr(ts) == Got(e, []);
  }

  /* ---------- where the missing parentheses go wrong ---------- */

  predicate IsName(word: string) {
    word != "" && word != "or" && word != "and" && word != "not" && forall i :: 0 <= i < |word| ==> IsWordChar(word[i])
  }

  lemma LexOr()
    ensures Lex(" or ") == Some([Or])
  {
    LexBlank();
    WordIsLexed("or");
    LexExtends(" ", "or");
    LexExtends(" or", " ");
    assert " " + "or" == " or" && " or" + " " == " or ";
    assert [] + [Or] + [] == [Or];
  }

  lemma TwoAlternatives(left: string, right: string)
    ensures var ts := [Word(left), Or, Word(right)];
      && ParseOr(ts) == Got(Either(Name(left), Name(right)), [])
      && Alternatives(ts) == [Name(left), Name(right)]
  {
    var ts, last := [Word(left), Or, Word(right)], [Word(right)];
    assert ts[1..] == [Or, Word(right)] && ts[1..][1..] == last && last[1..] == [];
    assert ParseAnd(last) == Got(Name(right), []);
    assert Alternatives(last) == [Name(right)] + FurtherAlternatives([]);
    assert ParseAnd(ts) == Got(Name(left), ts[1..]);
    assert OrTail(Name(left), ts[1..]) == OrTail(Either(Name(left), Name(right)), []);
  }

  lemma OrAlternatives(left: string, right: string)
    requires IsName(left) && IsName(right)
    ensures Parse(left + " or " + right).Some?
    ensures AlternativesOf(left + " or " + right) == [Name(left), Name(right)]
  {
    WordIsLexed(left);
    WordIsLexed(right);
    LexOr();
    var joint := " or ";
    assert !IsWordChar(joint[0]) && !IsWordChar(joint[|joint| - 1]);
    LexTwice(left, joint, right);
    assert [Word(left)] + [Or] + [Word(right)] == [Word(left), Or, Word(right)];
    TwoAlternatives(left, right);
  }

  /** A test that the second name of `b or c` matches is chosen by the merged arguments whatever they chose before. */
  lemma AlternativeEscapes(tokens: seq<string>, fragment: seq<string>, left: string, right: string,
                           test: string -> bool)
    requires KeywordAt(tokens).Some? && Parse(KeywordOf(tokens)).Some? && IsName(left) && IsName(right)
    requires KeywordOf(fragment) == left + " or " + right && !Contains(KeywordOf(tokens), KeywordOf(fragment))
    requires test(right)
    ensures Chooses(KeywordOf(Merge(tokens, fragment)), test)
    ensures SelectsBoth(tokens, fragment) ==> Chooses(KeywordOf(tokens), test)
  {
    OrAlternatives(left, right);
    MergedText(tokens, fragment);
    assert Selects(AlternativesOf(KeywordOf(fragment))[1..][0], test);
    ConjoinedTextSelects(KeywordOf(tokens), KeywordOf(fragment), test);
  }

  lemma KeywordPair(expr: string)
    requires Parse(expr).Some?
    ensures KeywordAt(["-k", expr]) == Some(0) && KeywordOf(["-k", expr]) == expr
  {
    ParsableIsUnquoted(expr);
    assert ["-k", expr][1] == expr;
  }

  /** The same for any two arguments: a test that the existing name does not match is chosen all the same. */
  lemma OrFragmentEscapes(name: string, left: string, right: string)
    requires IsName(name) && IsName(left) && IsName(right) && right != name && |name| < |left| + 4 + |right|
    ensures var tokens, fragment := ["-k", name], ["-k", left + " or " + right];
      && KeywordOf(Merge(tokens, fragment)) == Conjoin(name, left + " or " + right)
      && Chooses(KeywordOf(Merge(tokens, fragment)), word => word == right) && !Chooses(name, word => word == right)
  {
    var text := left + " or " + right;
    NameIsParsed(name);
    OrAlternatives(left, right);
    KeywordPair(name);
    KeywordPair(text);
    assert !Contains(name, text);
    MergedText(["-k", name], ["-k", text]);
    AlternativeEscapes(["-k", name], ["-k", text], left, right, word => word == right);
  }

  /** For instance `a` merged with `b or c`. */
  lemma ForInstance()
    ensures KeywordOf(Merge(["-k", "a"], ["-k", "b or c"])) == "(a) and b or c"
    ensures Chooses("(a) and b or c", word => word == "c") && !Chooses("a", word => word == "c")
  {
    assert "b" + " or " + "c" == "b or c" && "(" + "a" + ") and " + "b or c" == "(a) and b or c";
    OrFragmentEscapes("a", "b", "c");
  }

  lemma NameIsParsed(word: string)
    requires IsName(word)
    ensures Parse(word) == Some(Name(word))
  {
    WordIsLexed(word);
    var ts, e := [Word(word)], Name(word);
    assert ts[1..] == [];
    assert ParseAnd(ts) == Got(e, []) && OrTail(e, []) == Got(e, []);
  }
}
