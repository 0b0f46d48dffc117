/** sort.Strings: one order on strings, and the one ordered list of a multiset of them. */
module Sorting {
  predicate Before(a: string, b: string) {
    a == "" || (b != "" && (a[0] < b[0] || (a[0] == b[0] && Before(a[1..], b[1..]))))
  }

  ghost predicate FirstDiffer(a: string, b: string, i: int) {
    0 <= i < |a| && i < |b| && a[..i] == b[..i] && a[i] != b[i]
  }

  ghost predicate Precedes(a: string, b: string) {
    a <= b || exists i :: FirstDiffer(a, b, i) && a[i] < b[i]
  }

  lemma PrecedesOnward(c: char, a: string, b: string)
    ensures Precedes([c] + a, [c] + b) <==> Precedes(a, b)
  {
    var x, y := [c] + a, [c] + b;
    assert x[1..] == a && y[1..] == b;
    assert x <= y <==> a <= b;
    if i :| FirstDiffer(x, y, i) && x[i] < y[i] {
      assert a[..i - 1] == x[..i][1..] && b[..i - 1] == y[..i][1..];
      assert FirstDiffer(a, b, i - 1) && a[i - 1] < b[i - 1];
    }
    if i :| FirstDiffer(a, b, i) && a[i] < b[i] {
      assert x[..i + 1] == [c] + a[..i] && y[..i + 1] == [c] + b[..i];
      assert FirstDiffer(x, y, i + 1) && x[i + 1] < y[i + 1];
    }
  }

  /** The order is that of the first characters to differ; a prefix comes first. */
  lemma {:induction false} BeforeIs(a: string, b: string)
    ensures Before(a, b) <==> Precedes(a, b)
  {
    if a != "" && b != "" {
      if a[0] == b[0] {
        hide Precedes;
        BeforeIs(a[1..], b[1..]);
        assert a == [a[0]] + a[1..] && b == [b[0]] + b[1..];
        PrecedesOnward(a[0], a[1..], b[1..]);
      } else {
        assert a[0] < b[0] ==> FirstDiffer(a, b, 0);
        assert !(a <= b);
      }
    }
  }

  lemma {:induction false} BeforeIsTotal(a: string, b: string)
    ensures Before(a, b) || Before(b, a)
    ensures Before(a, b) && Before(b, a) ==> a == b
  {
    if a != "" && b != "" && a[0] == b[0] {
      BeforeIsTotal(a[1..], b[1..]);
      assert a == [a[0]] + a[1..] && b == [b[0]] + b[1..];
    }
  }

  lemma {:induction false} BeforeIsTransitive(a: string, b: string, c: string)
    requires Before(a, b) && Before(b, c)
    ensures Before(a, c)
  {
    if a != "" && a[0] == b[0] == c[0] {
      BeforeIsTransitive(a[1..], b[1..], c[1..]);
    }
  }

  function Insert(k: string, ks: seq<string>): (r: seq<string>)
    ensures multiset(r) == multiset(ks) + multiset{k}
  {
    if ks == [] then [k]
    else if Before(k, ks[0]) then [k] + ks
    else
      assert ks == [ks[0]] + ks[1..];
      [ks[0]] + Insert(k, ks[1..])
  }

  function Sorted(ks: seq<string>): (r: seq<string>)
    ensures multiset(r) == multiset(ks)
  {
    if ks == [] then []
    else
      assert ks == ks[..|ks| - 1] + [ks[|ks| - 1]];
      Insert(ks[|ks| - 1], Sorted(ks[..|ks| - 1]))
  }

  predicate InOrder(ks: seq<string>) {
    forall i, j :: 0 <= i < j < |ks| ==> Before(ks[i], ks[j])
  }

  lemma {:induction false} InsertKeepsOrder(k: string, ks: seq<string>)
    requires InOrder(ks)
    ensures InOrder(Insert(k, ks))
  {
    if ks != [] {
      BeforeIsTotal(k, ks[0]);
      if Before(k, ks[0]) {
        forall j | 1 <= j < |ks|
          ensures Before(k, ks[j])
        {
          BeforeIsTransitive(k, ks[0], ks[j]);
        }
      } else {
        InsertKeepsOrder(k, ks[1..]);
        var rest := Insert(k, ks[1..]);
        forall j | 0 <= j < |rest|
          ensures Before(ks[0], rest[j])
        {
          assert rest[j] in multiset(rest);
        }
      }
    }
  }

  lemma {:induction false} SortedIsInOrder(ks: seq<string>)
    ensures InOrder(Sorted(ks))
  {
    if ks != [] {
      SortedIsInOrder(ks[..|ks| - 1]);
      InsertKeepsOrder(ks[|ks| - 1], Sorted(ks[..|ks| - 1]));
    }
  }

  lemma SameFirst(a: seq<string>, b: seq<string>)
    requires InOrder(a) && InOrder(b) && multiset(a) == multiset(b) && a != []
    ensures b != [] && a[0] == b[0]
  {
    hide Before;
    assert a[0] in multiset(b);
    assert b[0] in multiset(a);
    var i :| 0 <= i < |b| && b[i] == a[0];
    var j :| 0 <= j < |a| && a[j] == b[0];
    BeforeIsTotal(a[0], b[0]);
  }

  /** Order leaves no choice: two ordered lists of the same strings are the same list. */
  lemma {:induction false} OrderIsUnique(a: seq<string>, b: seq<string>)
    requires InOrder(a) && InOrder(b) && multiset(a) == multiset(b)
    ensures a == b
  {
    hide Before;
    if a == [] {
      assert |multiset(b)| == 0;
    } else {
      SameFirst(a, b);
      assert a == [a[0]] + a[1..] && b == [b[0]] + b[1..];
      assert multiset(a) - multiset{a[0]} == multiset(a[1..]) && multiset(b) - multiset{b[0]} == multiset(b[1..]);
      OrderIsUnique(a[1..], b[1..]);
    }
  }
}
