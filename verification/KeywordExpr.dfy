/** pytest's `-k` expressions: their lexer, their grammar (`or` below `and` below `not`), and what they select. */
module KeywordExpr {
  import opened Basics

  datatype Token = Open | Close | Or | And | Not | Word(name: string)

  datatype Expr =
    | Name(name: string)
    | Negation(arg: Expr)
    | Both(left: Expr, right: Expr)
    | Either(left: Expr, right: Expr)

  /** Is a test selected, given which names match it? */
  predicate Selects(e: Expr, test: string -> bool) {
    match e
    case Name(name) => test(name)
    case Negation(arg) => !Selects(arg, test)
    case Both(left, right) => Selects(left, test) && Selects(right, test)
    case Either(left, right) => Selects(left, test) || Selects(right, test)
  }

  /* ---------- lexer ---------- */

  predicate IsWordChar(c: char) {
    || 'a' <= c <= 'z' || 'A' <= c <= 'Z' || '0' <= c <= '9'
    || c == '_' || c == ':' || c == '+' || c == '-' || c == '.' || c == '[' || c == ']' || c == '\\' || c == '/'
  }

  function WordLength(s: string): (n: nat)
    ensures n <= |s| && forall i :: 0 <= i < n ==> IsWordChar(s[i])
  {
    if s == [] || !IsWordChar(s[0]) then 0 else 1 + WordLength(s[1..])
  }

  function Classify(word: string): Token {
    if word == "or" then Or else if word == "and" then And else if word == "not" then Not else Word(word)
  }

  function Lex(s: string): Option<seq<Token>>
    decreases |s|
  {
    if s == [] then Some([]) else Emit(s, Lex(s[TokenLength(s)..]))
  }

  /** The characters taken in one step: a word, or a single one. */
  function TokenLength(s: string): (n: nat)
    requires s != ""
    ensures 1 <= n <= |s|
  {
    if IsWordChar(s[0]) then WordLength(s) else 1
  }

  /** The step itself, in front of the tokens that follow. */
  function Emit(s: string, rest: Option<seq<Token>>): Option<seq<Token>>
    requires s != ""
  {
    if s[0] == ' ' || s[0] == '\t' then rest
    else if s[0] == '(' then Prepend(Open, rest)
    else if s[0] == ')' then Prepend(Close, rest)
    else if IsWordChar(s[0]) then Prepend(Classify(s[..WordLength(s)]), rest)
    else None
  }

  function Prepend(t: Token, rest: Option<seq<Token>>): Option<seq<Token>> {
    if rest.None? then None else Some([t] + rest.value)
  }

  /* ---------- grammar ---------- */

  datatype Parsed = Fail | Got(expr: Expr, rest: seq<Token>)

  function ParseOr(ts: seq<Token>): (p: Parsed)
    ensures p.Got? ==> |p.rest| < |ts|
    decreases |ts|, 5
  {
    var first := ParseAnd(ts);
    if first.Fail? then Fail else OrTail(first.expr, first.rest)
  }

  function OrTail(left: Expr, ts: seq<Token>): (p: Parsed)
    ensures p.Got? ==> |p.rest| <= |ts|
    decreases |ts|, 4
  {
    if ts == [] || !ts[0].Or? then Got(left, ts)
    else
      var next := ParseAnd(ts[1..]);
      if next.Fail? then Fail else OrTail(Either(left, next.expr), next.rest)
  }

  function ParseAnd(ts: seq<Token>): (p: Parsed)
    ensures p.Got? ==> |p.rest| < |ts|
    decreases |ts|, 3
  {
    var first := ParseNot(ts);
    if first.Fail? then Fail else AndTail(first.expr, first.rest)
  }

  function AndTail(left: Expr, ts: seq<Token>): (p: Parsed)
    ensures p.Got? ==> |p.rest| <= |ts|
    decreases |ts|, 2
  {
    if ts == [] || !ts[0].And? then Got(left, ts)
    else
      var next := ParseNot(ts[1..]);
      if next.Fail? then Fail else AndTail(Both(left, next.expr), next.rest)
  }

  function ParseNot(ts: seq<Token>): (p: Parsed)
    ensures p.Got? ==> |p.rest| < |ts|
    decreases |ts|, 1
  {
    if ts == [] then Fail
    else match ts[0]
      case Not =>
        var arg := ParseNot(ts[1..]);
        if arg.Fail? then Fail else Got(Negation(arg.expr), arg.rest)
      case Open =>
        var inner := ParseOr(ts[1..]);
        if inner.Fail? || inner.rest == [] || !inner.rest[0].Close? then Fail else Got(inner.expr, inner.rest[1..])
      case Word(name) => Got(Name(name), ts[1..])
      case _ => Fail
  }

  /** The expression a text stands for, if it is a complete one. */
  function Parse(s: string): Option<Expr> {
    var ts := Lex(s);
    if ts.None? then None
    else
      var p := ParseOr(ts.value);
      if p.Got? && p.rest == [] then Some(p.expr) else None
  }

  /** A text without `or` at the top level: a conjunction of negations, names and parenthesised expressions. */
  predicate IsConjunction(s: string) {
    var ts := Lex(s);
    ts.Some? && var p := ParseAnd(ts.value); p.Got? && p.rest == []
  }

  lemma ConjunctionParses(s: string)
    requires IsConjunction(s)
    ensures Parse(s) == Some(ParseAnd(Lex(s).value).expr)
  {
    var e := ParseAnd(Lex(s).value).expr;
    assert OrTail(e, []) == Got(e, []);
  }

  /* ---------- parsing in context ---------- */

  /** Tokens that cannot continue an expression. */
  predicate Stops(more: seq<Token>) {
    more == [] || (!more[0].And? && !more[0].Or?)
  }

  lemma {:induction false} ParseOrExtends(ts: seq<Token>, more: seq<Token>)
    requires ParseOr(ts).Got? && (ParseOr(ts).rest != [] || Stops(more))
    ensures ParseOr(ts + more) == Got(ParseOr(ts).expr, ParseOr(ts).rest + more)
    decreases |ts|, 5
  {
    var first := ParseAnd(ts);
    ParseAndExtends(ts, more);
    OrTailExtends(first.expr, first.rest, more);
  }

  lemma {:induction false} OrTailExtends(left: Expr, ts: seq<Token>, more: seq<Token>)
    requires OrTail(left, ts).Got? && (OrTail(left, ts).rest != [] || Stops(more))
    ensures OrTail(left, ts + more) == Got(OrTail(left, ts).expr, OrTail(left, ts).rest + more)
    decreases |ts|, 4
  {
    if ts == [] {
      assert ts + more == more;
    } else if ts[0].Or? {
      assert (ts + more)[1..] == ts[1..] + more;
      ParseAndExtends(ts[1..], more);
      var next := ParseAnd(ts[1..]);
      OrTailExtends(Either(left, next.expr), next.rest, more);
    }
  }

  lemma {:induction false} ParseAndExtends(ts: seq<Token>, more: seq<Token>)
    requires ParseAnd(ts).Got? && (ParseAnd(ts).rest != [] || Stops(more))
    ensures ParseAnd(ts + more) == Got(ParseAnd(ts).expr, ParseAnd(ts).rest + more)
    decreases |ts|, 3
  {
    var first := ParseNot(ts);
    ParseNotExtends(ts, more);
    AndTailExtends(first.expr, first.rest, more);
  }

  lemma {:induction false} AndTailExtends(left: Expr, ts: seq<Token>, more: seq<Token>)
    requires AndTail(left, ts).Got? && (AndTail(left, ts).rest != [] || Stops(more))
    ensures AndTail(left, ts + more) == Got(AndTail(left, ts).expr, AndTail(left, ts).rest + more)
    decreases |ts|, 2
  {
    if ts == [] {
      assert ts + more == more;
    } else if ts[0].And? {
      assert (ts + more)[1..] == ts[1..] + more;
      ParseNotExtends(ts[1..], more);
      var next := ParseNot(ts[1..]);
      AndTailExtends(Both(left, next.expr), next.rest, more);
    }
  }

  lemma {:induction false} ParseNotExtends(ts: seq<Token>, more: seq<Token>)
    requires ParseNot(ts).Got?
    ensures ParseNot(ts + more) == Got(ParseNot(ts).expr, ParseNot(ts).rest + more)
    decreases |ts|, 1
  {
    assert (ts + more)[1..] == ts[1..] + more;
    if ts[0].Not? {
      ParseNotExtends(ts[1..], more);
    } else if ts[0].Open? {
      var inner := ParseOr(ts[1..]);
      ParseOrExtends(ts[1..], more);
      assert (inner.rest + more)[1..] == inner.rest[1..] + more;
    }
  }

  /** A conjunction gives the same answer whatever it is conjoined to. */
  lemma {:induction false} AndTailConjoins(e: Expr, left: Expr, ts: seq<Token>, test: string -> bool)
    requires AndTail(left, ts).Got?
    ensures var joined := AndTail(Both(e, left), ts);
            && joined.Got? && joined.rest == AndTail(left, ts).rest
            && Selects(joined.expr, test) == (Selects(e, test) && Selects(AndTail(left, ts).expr, test))
    decreases |ts|
  {
    if ts != [] && ts[0].And? {
      var next := ParseNot(ts[1..]);
      AndTailConjoins(e, Both(left, next.expr), next.rest, test);
      AndTailRegroups(e, left, next.expr, next.rest, test);
    }
  }

  /** Both groupings of three conjuncts lead to the same selection. */
  lemma {:induction false} AndTailRegroups(a: Expr, b: Expr, c: Expr, ts: seq<Token>, test: string -> bool)
    requires AndTail(Both(a, Both(b, c)), ts).Got?
    ensures var joined := AndTail(Both(Both(a, b), c), ts);
            && joined.Got? && joined.rest == AndTail(Both(a, Both(b, c)), ts).rest
            && Selects(joined.expr, test) == Selects(AndTail(Both(a, Both(b, c)), ts).expr, test)
    decreases |ts|
  {
    SameSelection(Both(a, Both(b, c)), Both(Both(a, b), c), ts, test);
  }

  lemma {:induction false} SameSelection(x: Expr, y: Expr, ts: seq<Token>, test: string -> bool)
    requires AndTail(x, ts).Got? && Selects(x, test) == Selects(y, test)
    ensures AndTail(y, ts).Got? && AndTail(y, ts).rest == AndTail(x, ts).rest
    ensures Selects(AndTail(y, ts).expr, test) == Selects(AndTail(x, ts).expr, test)
    decreases |ts|
  {
    if ts != [] && ts[0].And? {
      var next := ParseNot(ts[1..]);
      SameSelection(Both(x, next.expr), Both(y, next.expr), next.rest, test);
    }
  }

  /* ---------- alternatives ---------- */

  /** The operands of the `or`s at the top level. */
  function Alternatives(ts: seq<Token>): seq<Expr>
    decreases |ts|
  {
    var first := ParseAnd(ts);
    if first.Fail? then [] else [first.expr] + FurtherAlternatives(first.rest)
  }

  function FurtherAlternatives(ts: seq<Token>): seq<Expr>
    decreases |ts|
  {
    if ts == [] || !ts[0].Or? then [] else Alternatives(ts[1..])
  }

  predicate SelectsSome(es: seq<Expr>, test: string -> bool) {
    exists i :: 0 <= i < |es| && Selects(es[i], test)
  }

  lemma OneMoreAlternative(e: Expr, es: seq<Expr>, test: string -> bool)
    ensures SelectsSome([e] + es, test) == (Selects(e, test) || SelectsSome(es, test))
  {
    if Selects(e, test) {
      assert Selects(([e] + es)[0], test);
    } else if SelectsSome(es, test) {
      var i :| 0 <= i < |es| && Selects(es[i], test);
      assert Selects(([e] + es)[i + 1], test);
    }
  }

  lemma {:induction false} OrTailSelects(left: Expr, ts: seq<Token>, test: string -> bool)
    requires OrTail(left, ts).Got?
    ensures Selects(OrTail(left, ts).expr, test) == (Selects(left, test) || SelectsSome(FurtherAlternatives(ts), test))
    decreases |ts|
  {
    if ts != [] && ts[0].Or? {
      var next := ParseAnd(ts[1..]);
      OrTailSelects(Either(left, next.expr), next.rest, test);
      OneMoreAlternative(next.expr, FurtherAlternatives(next.rest), test);
    }
  }

  lemma {:induction false} OrTailFits(left: Expr, other: Expr, ts: seq<Token>)
    requires OrTail(left, ts).Got?
    ensures OrTail(other, ts).Got? && OrTail(other, ts).rest == OrTail(left, ts).rest
    decreases |ts|
  {
    if ts != [] && ts[0].Or? {
      var next := ParseAnd(ts[1..]);
      OrTailFits(Either(left, next.expr), Either(other, next.expr), next.rest);
    }
  }

  /** An expression selects what some alternative selects. */
  lemma AlternativesSelect(ts: seq<Token>, test: string -> bool)
    requires ParseOr(ts).Got?
    ensures Alternatives(ts) != []
    ensures Selects(ParseOr(ts).expr, test) ==
              (Selects(Alternatives(ts)[0], test) || SelectsSome(Alternatives(ts)[1..], test))
  {
    var first := ParseAnd(ts);
    OrTailSelects(first.expr, first.rest, test);
    assert Alternatives(ts)[1..] == FurtherAlternatives(first.rest);
  }

  /** `( E ) and S` at token level: the conjunction binds the first alternative only. */
  lemma ParenthesisedAnd(es: seq<Token>, ss: seq<Token>, test: string -> bool)
    requires ParseOr(es).Got? && ParseOr(es).rest == []
    requires ParseOr(ss).Got? && ParseOr(ss).rest == []
    ensures Alternatives(ss) != []
    ensures var p := ParseOr([Open] + es + [Close, And] + ss);
            && p.Got? && p.rest == []
            && Selects(p.expr, test) ==
                 ((Selects(ParseOr(es).expr, test) && Selects(Alternatives(ss)[0], test))
                  || SelectsSome(Alternatives(ss)[1..], test))
  {
    var ts := [Open] + es + [Close, And] + ss;
    var first := ParseAnd(ss);
    FirstIsConjoined(es, ss, test);
    var joined := ParseAnd(ts);
    OrTailFits(first.expr, joined.expr, first.rest);
    OrTailSelects(joined.expr, first.rest, test);
    assert Alternatives(ss)[1..] == FurtherAlternatives(first.rest);
  }

  lemma FirstIsConjoined(es: seq<Token>, ss: seq<Token>, test: string -> bool)
    requires ParseOr(es).Got? && ParseOr(es).rest == [] && ParseAnd(ss).Got?
    ensures var p := ParseAnd([Open] + es + [Close, And] + ss);
            && p.Got? && p.rest == ParseAnd(ss).rest
            && Selects(p.expr, test) == (Selects(ParseOr(es).expr, test) && Selects(ParseAnd(ss).expr, test))
  {
    var ts := [Open] + es + [Close, And] + ss;
    var e, n := ParseOr(es).expr, ParseNot(ss);
    ParseOrExtends(es, [Close, And] + ss);
    assert ts[1..] == es + ([Close, And] + ss);
    assert ([] + ([Close, And] + ss))[1..] == [And] + ss;
    assert ParseNot(ts) == Got(e, [And] + ss);
    assert ([And] + ss)[1..] == ss;
    AndTailConjoins(e, n.expr, n.rest, test);
    assert AndTail(e, [And] + ss) == AndTail(Both(e, n.expr), n.rest);
  }

  /* ---------- lexing in context ---------- */

  /** No word runs across the seam between two texts. */
  predicate Seam(a: string, b: string) {
    a == "" || b == "" || !IsWordChar(a[|a| - 1]) || !IsWordChar(b[0])
  }

  lemma {:induction false} WordLengthExtends(a: string, b: string)
    requires Seam(a, b) || WordLength(a) < |a|
    ensures WordLength(a + b) == if a == "" then WordLength(b) else WordLength(a)
  {
    if a == "" {
      assert a + b == b;
    } else {
      assert (a + b)[1..] == a[1..] + b && (a + b)[0] == a[0];
      if IsWordChar(a[0]) {
        if |a| == 1 {
          assert a[1..] == "" && (a + b)[1..] == b;
        } else {
          WordLengthExtends(a[1..], b);
        }
      }
    }
  }

  lemma PrependExtends(t: Token, ts: seq<Token>, more: seq<Token>)
    ensures Prepend(t, Some(ts + more)) == Some(Prepend(t, Some(ts)).value + more)
  {
    assert [t] + (ts + more) == ([t] + ts) + more;
  }

  lemma EmitExtends(a: string, b: string, ts: seq<Token>, more: seq<Token>)
    requires a != "" && Seam(a, b) && Emit(a, Some(ts)).Some?
    ensures TokenLength(a + b) == TokenLength(a) && (a + b)[TokenLength(a)..] == a[TokenLength(a)..] + b
    ensures Emit(a + b, Some(ts + more)) == Some(Emit(a, Some(ts)).value + more)
  {
    assert (a + b)[0] == a[0];
    if IsWordChar(a[0]) {
      WordLengthExtends(a, b);
      assert (a + b)[..WordLength(a)] == a[..WordLength(a)];
      PrependExtends(Classify(a[..WordLength(a)]), ts, more);
    } else {
      PrependExtends(Open, ts, more);
      PrependExtends(Close, ts, more);
    }
  }

  lemma {:induction false} LexExtends(a: string, b: string)
    requires Lex(a).Some? && Lex(b).Some? && Seam(a, b)
    ensures Lex(a + b) == Some(Lex(a).value + Lex(b).value)
    decreases |a|
  {
    if a == "" {
      assert a + b == b && [] + Lex(b).value == Lex(b).value;
    } else {
      var rest := a[TokenLength(a)..];
      LexExtends(rest, b);
      EmitExtends(a, b, Lex(rest).value, Lex(b).value);
    }
  }

  lemma LexOne(c: char, t: Token)
    requires (c == '(' && t == Open) || (c == ')' && t == Close)
    ensures Lex([c]) == Some([t])
  {
    assert [c][1..] == "" && [t] + [] == [t];
  }

  lemma LexBlank()
    ensures Lex(" ") == Some([])
  {
    assert " "[1..] == "";
  }

  lemma {:induction false} WordIsLexed(word: string)
    requires word != "" && forall i :: 0 <= i < |word| ==> IsWordChar(word[i])
    ensures WordLength(word) == |word| && Lex(word) == Some([Classify(word)])
  {
    if |word| > 1 {
      WordIsLexed(word[1..]);
    } else {
      assert word[1..] == "";
    }
    assert IsWordChar(word[0]) && word[..|word|] == word && word[|word|..] == "";
    var t := Classify(word);
    assert Lex(word) == Prepend(t, Lex(""));
    assert [t] + [] == [t];
  }
}
