/** Python's order on strings, and `sorted` on lists of them. */
module Ordering {

  predicate LexLeq(a: string, b: string) {
    a == [] || (b != [] && (a[0] < b[0] || (a[0] == b[0] && LexLeq(a[1..], b[1..]))))
  }

  /** Up to some place the strings are equal; there the first one ends, or has the smaller letter. */
  lemma {:induction false} LexLeqIff(a: string, b: string)
    ensures LexLeq(a, b) <==> exists n :: LessAt(a, b, n)
  {
    if a == [] || b == [] || a[0] != b[0] {
      assert LexLeq(a, b) ==> LessAt(a, b, 0);
    } else {
      LexLeqIff(a[1..], b[1..]);
      if n :| LessAt(a[1..], b[1..], n) {
        assert a[..n + 1] == [a[0]] + a[1..][..n] && b[..n + 1] == [b[0]] + b[1..][..n];
        assert LessAt(a, b, n + 1);
      }
      if n :| LessAt(a, b, n) {
        assert n > 0;
        assert a[1..][..n - 1] == a[..n][1..] && b[1..][..n - 1] == b[..n][1..];
        assert LessAt(a[1..], b[1..], n - 1);
      }
    }
  }

  predicate LessAt(a: string, b: string, n: int) {
    0 <= n <= |a| && n <= |b| && a[..n] == b[..n] && (n == |a| || (n < |b| && a[n] < b[n]))
  }

  lemma {:induction false} LexTotal(a: string, b: string)
    ensures LexLeq(a, b) || LexLeq(b, a)
    ensures LexLeq(a, b) && LexLeq(b, a) ==> a == b
  {
    if a != [] && b != [] && a[0] == b[0] {
      LexTotal(a[1..], b[1..]);
      assert a == [a[0]] + a[1..] && b == [b[0]] + b[1..];
    }
  }

  lemma {:induction false} LexTransitive(a: string, b: string, c: string)
    requires LexLeq(a, b) && LexLeq(b, c)
    ensures LexLeq(a, c)
  {
    if a != [] && a[0] == b[0] == c[0] {
      LexTransitive(a[1..], b[1..], c[1..]);
    }
  }

  ghost predicate Ascending(names: seq<string>) {
    forall i, j :: 0 <= i < j < |names| ==> LexLeq(names[i], names[j])
  }

  function Insert(name: string, names: seq<string>): (r: seq<string>)
    ensures multiset(r) == multiset{name} + multiset(names)
  {
    if names == [] then [name]
    else if LexLeq(name, names[0]) then [name] + names
    else
      assert names == [names[0]] + names[1..];
      [names[0]] + Insert(name, names[1..])
  }

  function Sorted(names: seq<string>): (r: seq<string>)
    ensures multiset(r) == multiset(names)
  {
    if names == [] then []
    else
      assert names == [names[0]] + names[1..];
      Insert(names[0], Sorted(names[1..]))
  }

  lemma {:induction false} InsertKeepsOrder(name: string, names: seq<string>)
    requires Ascending(names)
    ensures Ascending(Insert(name, names))
  {
    if names != [] {
      LexTotal(name, names[0]);
      var r := Insert(name, names);
      if LexLeq(name, names[0]) {
        forall j | 0 <= j < |names| ensures LexLeq(name, names[j]) {
          if j > 0 { LexTransitive(name, names[0], names[j]); }
        }
      } else {
        InsertKeepsOrder(name, names[1..]);
        var rest := Insert(name, names[1..]);
        forall j | 0 <= j < |rest| ensures LexLeq(names[0], rest[j]) {
          assert rest[j] in multiset(rest);
          assert rest[j] == name || rest[j] in names[1..];
        }
      }
    }
  }

  /** `Sorted` really sorts; that it is a permutation is part of its contract. */
  lemma {:induction false} SortedAscends(names: seq<string>)
    ensures Ascending(Sorted(names))
  {
    if names != [] {
      SortedAscends(names[1..]);
      InsertKeepsOrder(names[0], Sorted(names[1..]));
    }
  }
}
