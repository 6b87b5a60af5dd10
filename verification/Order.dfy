/** Sorting by a total preorder, and the orders the queries and the migration runner use. */
module Order {

  ghost predicate TotalPreorder<T(!new)>(le: (T, T) -> bool) {
    && (forall a, b :: le(a, b) || le(b, a))
    && (forall a, b, c :: le(a, b) && le(b, c) ==> le(a, c))
  }

  ghost predicate SortedBy<T>(le: (T, T) -> bool, s: seq<T>) {
    forall i, j :: 0 <= i < j < |s| ==> le(s[i], s[j])
  }

  function Insert<T>(le: (T, T) -> bool, x: T, s: seq<T>): (r: seq<T>)
    ensures multiset(r) == multiset(s) + multiset{x}
  {
    if s == [] || le(x, s[0]) then [x] + s
    else
      assert s == [s[0]] + s[1..];
      [s[0]] + Insert(le, x, s[1..])
  }

  function Sort<T>(le: (T, T) -> bool, s: seq<T>): (r: seq<T>)
    ensures multiset(r) == multiset(s)
  {
    if s == [] then []
    else
      assert s == [s[0]] + s[1..];
      Insert(le, s[0], Sort(le, s[1..]))
  }

  lemma {:induction false} InsertSorts<T(!new)>(le: (T, T) -> bool, x: T, s: seq<T>)
    requires TotalPreorder(le) && SortedBy(le, s)
    ensures SortedBy(le, Insert(le, x, s))
  {
    if s == [] {
    } else if le(x, s[0]) {
      assert forall i :: 0 < i < |s| ==> le(s[0], s[i]);
    } else {
      var r := Insert(le, x, s[1..]);
      InsertSorts(le, x, s[1..]);
      forall i | 0 <= i < |r|
        ensures le(s[0], r[i])
      {
        assert r[i] in multiset(r);
        if r[i] != x {
          assert r[i] in multiset(s[1..]);
        }
      }
    }
  }

  lemma {:induction false} SortSorts<T(!new)>(le: (T, T) -> bool, s: seq<T>)
    requires TotalPreorder(le)
    ensures SortedBy(le, Sort(le, s))
  {
    if s != [] {
      SortSorts(le, s[1..]);
      InsertSorts(le, s[0], Sort(le, s[1..]));
    }
  }

  // ---------------------------------------------------------------- strings, character by character

  predicate StringLe(a: string, b: string) {
    a == [] || (b != [] && (a[0] < b[0] || (a[0] == b[0] && StringLe(a[1..], b[1..]))))
  }

  lemma {:induction false} StringLeTotal(a: string, b: string)
    ensures StringLe(a, b) || StringLe(b, a)
  {
    if a != [] && b != [] {
      StringLeTotal(a[1..], b[1..]);
    }
  }

  lemma {:induction false} StringLeTransitive(a: string, b: string, c: string)
    requires StringLe(a, b) && StringLe(b, c)
    ensures StringLe(a, c)
  {
    if a != [] {
      if a[0] == b[0] == c[0] {
        StringLeTransitive(a[1..], b[1..], c[1..]);
      }
    }
  }

  lemma {:induction false} StringLeAntisymmetric(a: string, b: string)
    requires StringLe(a, b) && StringLe(b, a)
    ensures a == b
  {
    if a != [] && b != [] {
      StringLeAntisymmetric(a[1..], b[1..]);
      assert a == [a[0]] + a[1..] && b == [b[0]] + b[1..];
    }
  }

  lemma StringOrder()
    ensures TotalPreorder(StringLe)
  {
    forall a, b
      ensures StringLe(a, b) || StringLe(b, a)
    {
      StringLeTotal(a, b);
    }
    forall a, b, c | StringLe(a, b) && StringLe(b, c)
      ensures StringLe(a, c)
    {
      StringLeTransitive(a, b, c);
    }
  }

  // ---------------------------------------------------------------- what the order on strings is

  /** A proper prefix, or smaller at the first place where they differ. */
  ghost predicate LexBefore(a: string, b: string) {
    (|a| < |b| && a <= b) || exists k :: FirstSmaller(a, b, k)
  }

  ghost predicate FirstSmaller(a: string, b: string, k: int) {
    0 <= k < |a| && k < |b| && a[..k] == b[..k] && a[k] < b[k]
  }

  ghost predicate NotAfter(a: string, b: string) {
    a == b || LexBefore(a, b)
  }

  lemma LexUnderHead(c: char, a: string, b: string)
    ensures LexBefore([c] + a, [c] + b) <==> LexBefore(a, b)
  {
    var a', b' := [c] + a, [c] + b;
    assert a' <= b' <==> a <= b by {
      assert a'[1..] == a && b'[1..] == b;
    }
    forall k | FirstSmaller(a, b, k)
      ensures FirstSmaller(a', b', k + 1)
    {
      assert a'[..k + 1] == [c] + a[..k] && b'[..k + 1] == [c] + b[..k];
    }
    forall k | FirstSmaller(a', b', k)
      ensures FirstSmaller(a, b, k - 1)
    {
      assert a[..k - 1] == a'[..k][1..] && b[..k - 1] == b'[..k][1..];
    }
  }

  lemma AtTheHead(a: string, b: string, k: int)
    requires FirstSmaller(a, b, k)
    ensures a[0] < b[0] || a[0] == b[0]
  {
    assert a[..k + 1][0] == a[0] && b[..k + 1][0] == b[0];
    assert a[..k + 1] == a[..k] + [a[k]] && b[..k + 1] == b[..k] + [b[k]];
  }

  /** Main result: the comparison every sorted listing uses is the lexicographic one. */
  lemma {:induction false} StringLeIsLexicographic(a: string, b: string)
    ensures StringLe(a, b) <==> NotAfter(a, b)
  {
    if a != [] && b != [] {
      if a[0] == b[0] {
        StringLeIsLexicographic(a[1..], b[1..]);
        LexUnderHead(a[0], a[1..], b[1..]);
        assert a == [a[0]] + a[1..] && b == [b[0]] + b[1..];
      } else {
        assert a[0] < b[0] ==> FirstSmaller(a, b, 0);
        forall k | FirstSmaller(a, b, k)
          ensures a[0] < b[0]
        {
          AtTheHead(a, b, k);
        }
      }
    }
  }
}
