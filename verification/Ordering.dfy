/** Strictly sorted sequences over a total order, as canonical forms of finite sets. */
module Ordering {

  /** Irreflexive, transitive and total. */
  ghost predicate StrictOrder<T(!new)>(less: (T, T) -> bool) {
    && (forall x :: !less(x, x))
    && (forall x, y, z :: less(x, y) && less(y, z) ==> less(x, z))
    && (forall x, y :: less(x, y) || x == y || less(y, x))
  }

  predicate StrictlySorted<T>(less: (T, T) -> bool, s: seq<T>) {
    forall i, j :: 0 <= i < j < |s| ==> less(s[i], s[j])
  }

  /** What a single pass over neighbours checks. */
  predicate NeighboursSorted<T>(less: (T, T) -> bool, s: seq<T>) {
    forall i :: 0 < i < |s| ==> less(s[i - 1], s[i])
  }

  lemma {:induction false} NeighboursSuffice<T(!new)>(less: (T, T) -> bool, s: seq<T>)
    requires StrictOrder(less) && NeighboursSorted(less, s)
    ensures StrictlySorted(less, s)
  {
    if |s| > 1 {
      var front, last := s[..|s| - 1], |s| - 1;
      assert NeighboursSorted(less, front) by {
        forall i | 0 < i < |front|
          ensures less(front[i - 1], front[i])
        {
          assert less(s[i - 1], s[i]);
        }
      }
      NeighboursSuffice(less, front);
      forall i, j | 0 <= i < j < |s|
        ensures less(s[i], s[j])
      {
        if j < last {
          assert less(front[i], front[j]);
        } else {
          assert less(s[last - 1], s[last]);
          if i < last - 1 {
            assert less(front[i], front[last - 1]);
          }
        }
      }
    }
  }

  /** A strictly sorted sequence is determined by its elements. */
  lemma {:induction false} SortedUnique<T(!new)>(less: (T, T) -> bool, a: seq<T>, b: seq<T>)
    requires StrictOrder(less) && StrictlySorted(less, a) && StrictlySorted(less, b)
    requires forall x :: x in a <==> x in b
    ensures a == b
  {
    assert a != [] ==> a[0] in a;
    assert b != [] ==> b[0] in b;
    if a == [] {
    } else {
      assert a[0] == b[0];
      forall x
        ensures x in a[1..] <==> x in b[1..]
      {
        TailElements(less, a, x);
        TailElements(less, b, x);
      }
      SortedUnique(less, a[1..], b[1..]);
      assert a == [a[0]] + a[1..] && b == [b[0]] + b[1..];
    }
  }

  lemma TailElements<T(!new)>(less: (T, T) -> bool, s: seq<T>, x: T)
    requires StrictOrder(less) && StrictlySorted(less, s) && s != []
    ensures StrictlySorted(less, s[1..])
    ensures x in s[1..] <==> x in s && x != s[0]
  {
  }

  function Insert<T(==)>(less: (T, T) -> bool, s: seq<T>, x: T): seq<T> {
    if s == [] then [x]
    else if less(x, s[0]) then [x] + s
    else if x == s[0] then s
    else [s[0]] + Insert(less, s[1..], x)
  }

  lemma {:induction false} InsertSorted<T(!new)>(less: (T, T) -> bool, s: seq<T>, x: T)
    requires StrictOrder(less) && StrictlySorted(less, s)
    ensures StrictlySorted(less, Insert(less, s, x))
    ensures forall y :: y in Insert(less, s, x) <==> y in s || y == x
  {
    if s == [] || less(x, s[0]) {
      assert forall i :: 0 < i < |s| ==> less(s[0], s[i]);
    } else if x != s[0] {
      TailElements(less, s, x);
      InsertSorted(less, s[1..], x);
      var rest := Insert(less, s[1..], x);
      assert s == [s[0]] + s[1..];
      forall i | 0 <= i < |rest|
        ensures less(s[0], rest[i])
      {
        assert rest[i] in rest;
        TailElements(less, s, rest[i]);
        if rest[i] in s[1..] {
          var j :| 0 <= j < |s[1..]| && s[1..][j] == rest[i];
          assert less(s[0], s[j + 1]);
        }
      }
    }
  }

  /** `sorted` of a set: whatever order the elements come in, the result is the sorted sequence. */
  method SortedOf<T(==, !new)>(less: (T, T) -> bool, elements: set<T>) returns (s: seq<T>)
    requires StrictOrder(less)
    ensures StrictlySorted(less, s)
    ensures forall x :: x in s <==> x in elements
  {
    s := [];
    var rest := elements;
    while rest != {}
      invariant rest <= elements && StrictlySorted(less, s)
      invariant forall x :: x in s <==> x in elements - rest
      decreases rest
    {
      var x :| x in rest;
      InsertSorted(less, s, x);
      s, rest := Insert(less, s, x), rest - {x};
    }
  }

  // ----- strings

  /** Code-point order, which is also byte order of the UTF-8 encodings. */
  predicate StringLess(a: string, b: string) {
    b != [] && (a == [] || a[0] < b[0] || (a[0] == b[0] && StringLess(a[1..], b[1..])))
  }

  /** The strings agree up to `n`, and there the first ends or has the smaller character. */
  predicate SmallerAt(a: string, b: string, n: nat) {
    n <= |a| && n < |b| && (forall i :: 0 <= i < n ==> a[i] == b[i]) && (n == |a| || a[n] < b[n])
  }

  /** Lexicographic order, said without recursion. */
  lemma {:induction false} StringLessIff(a: string, b: string)
    ensures StringLess(a, b) <==> exists n :: 0 <= n <= |a| && SmallerAt(a, b, n)
  {
    if a == [] || b == [] || a[0] != b[0] {
      assert StringLess(a, b) <==> SmallerAt(a, b, 0);
    } else {
      var x, y := a[1..], b[1..];
      StringLessIff(x, y);
      if n :| 0 <= n <= |x| && SmallerAt(x, y, n) {
        assert forall i :: 1 <= i <= n ==> a[i] == x[i - 1] && b[i] == y[i - 1];
        assert SmallerAt(a, b, n + 1);
      }
      if n :| 0 <= n <= |a| && SmallerAt(a, b, n) {
        assert SmallerAt(x, y, n - 1);
      }
    }
  }

  /** A strictly sorted list of at most two given strings. */
  lemma TwoSorted(a: string, b: string, s: seq<string>)
    requires StrictlySorted(StringLess, s) && StringLess(a, b) && forall x <- s :: x == a || x == b
    ensures s == [] || s == [a] || s == [b] || s == [a, b]
  {
    StringOrder();
    SortedUnique(StringLess, s, (if a in s then [a] else []) + (if b in s then [b] else []));
  }

  lemma {:induction false} StringTotal(a: string, b: string)
    ensures !StringLess(a, a)
    ensures StringLess(a, b) || a == b || StringLess(b, a)
  {
    if a == [] {
    } else {
      StringTotal(a[1..], a[1..]);
      if b != [] && a[0] == b[0] {
        StringTotal(a[1..], b[1..]);
        assert a == [a[0]] + a[1..] && b == [b[0]] + b[1..];
      }
    }
  }

  lemma {:induction false} StringTransitive(a: string, b: string, c: string)
    requires StringLess(a, b) && StringLess(b, c)
    ensures StringLess(a, c)
  {
    if a != [] && a[0] == b[0] == c[0] {
      StringTransitive(a[1..], b[1..], c[1..]);
    }
  }

  lemma StringOrder()
    ensures StrictOrder(StringLess)
  {
    forall a, b
      ensures !StringLess(a, a)
      ensures StringLess(a, b) || a == b || StringLess(b, a)
    {
      StringTotal(a, b);
    }
    forall a, b, c | StringLess(a, b) && StringLess(b, c)
      ensures StringLess(a, c)
    {
      StringTransitive(a, b, c);
    }
  }
}
