// Total orders, Python's sorted() on a set, and the order of strings.
module Ordering {
  ghost predicate TotalOrder<T(!new)>(le: (T, T) -> bool) {
    && (forall a, b :: le(a, b) || le(b, a))
    && (forall a, b :: le(a, b) && le(b, a) ==> a == b)
    && (forall a, b, c :: le(a, b) && le(b, c) ==> le(a, c))
  }

  ghost predicate Least<T>(le: (T, T) -> bool, s: set<T>, x: T) {
    x in s && forall y :: y in s ==> le(x, y)
  }

  lemma {:induction false} LeastExists<T(!new)>(le: (T, T) -> bool, s: set<T>)
    requires TotalOrder(le) && s != {}
    ensures exists x :: Least(le, s, x)
    decreases |s|
  {
    var x :| x in s;
    assert le(x, x);
    if s == {x} {
      assert Least(le, s, x);
    } else {
      assert |s - {x}| < |s|;
      LeastExists(le, s - {x});
      var y :| Least(le, s - {x}, y);
      assert Least(le, s, if le(y, x) then y else x);
    }
  }

  // The elements of the set in increasing order.
  ghost function SortedSet<T(!new)>(le: (T, T) -> bool, s: set<T>): seq<T>
    requires TotalOrder(le)
    decreases |s|
  {
    if s == {} then []
    else
      LeastExists(le, s);
      var x :| Least(le, s, x);
      assert |s - {x}| == |s| - 1;
      [x] + SortedSet(le, s - {x})
  }

  ghost predicate Increasing<T>(le: (T, T) -> bool, r: seq<T>) {
    forall i, j :: 0 <= i < j < |r| ==> le(r[i], r[j]) && r[i] != r[j]
  }

  lemma {:induction false} SortedSetFacts<T(!new)>(le: (T, T) -> bool, s: set<T>)
    requires TotalOrder(le)
    ensures forall x :: x in SortedSet(le, s) <==> x in s
    ensures |SortedSet(le, s)| == |s| && Increasing(le, SortedSet(le, s))
    decreases |s|
  {
    if s != {} {
      LeastExists(le, s);
      var x :| Least(le, s, x);
      FirstIsLeast(le, s, x);
      assert |s - {x}| == |s| - 1;
      SortedSetFacts(le, s - {x});
    }
  }

  method Minimum<T(!new, ==)>(le: (T, T) -> bool, s: set<T>) returns (x: T)
    requires TotalOrder(le) && s != {}
    ensures Least(le, s, x)
  {
    x :| x in s;
    var rest := s - {x};
    assert le(x, x);
    while rest != {}
      invariant x in s && rest <= s
      invariant forall y :: y in s && y !in rest ==> le(x, y)
      decreases |rest|
    {
      var y :| y in rest;
      rest := rest - {y};
      if le(y, x) {
        x := y;
      }
    }
  }

  // sorted(s)
  method Sorted<T(!new, ==)>(le: (T, T) -> bool, s: set<T>) returns (r: seq<T>)
    requires TotalOrder(le)
    ensures r == SortedSet(le, s)
  {
    hide TotalOrder, Least;
    r := [];
    var rest := s;
    while rest != {}
      invariant r + SortedSet(le, rest) == SortedSet(le, s)
      decreases |rest|
    {
      var x := Minimum(le, rest);
      FirstIsLeast(le, rest, x);
      SetLess(rest, x);
      assert r + [x] + SortedSet(le, rest - {x}) == r + SortedSet(le, rest);
      r, rest := r + [x], rest - {x};
    }
    assert r + [] == r;
  }

  lemma SetLess<T>(s: set<T>, x: T)
    ensures x in s ==> |s - {x}| < |s|
  {
  }

  lemma FirstIsLeast<T(!new)>(le: (T, T) -> bool, s: set<T>, x: T)
    requires TotalOrder(le) && Least(le, s, x)
    ensures SortedSet(le, s) == [x] + SortedSet(le, s - {x}) && x in s
  {
  }

  // There is only one increasing list of the elements of a set.
  lemma {:induction false} OnlyIncreasing<T(!new)>(le: (T, T) -> bool, s: set<T>, r: seq<T>)
    requires TotalOrder(le) && Increasing(le, r) && forall x :: x in r <==> x in s
    ensures r == SortedSet(le, s)
    decreases |r|
  {
    if r == [] {
      assert s == {};
    } else {
      var x, rest := r[0], r[1..];
      assert x in r;
      assert forall y :: y in r ==> le(x, y);
      assert r == [x] + rest;
      assert forall y :: y in rest <==> y in s - {x};
      FirstIsLeast(le, s, x);
      OnlyIncreasing(le, s - {x}, rest);
    }
  }

  // ------------------------------------------------------------------ strings

  // Python's < on str: by code point, a proper prefix first.
  predicate Less(a: string, b: string) {
    if b == "" then false
    else if a == "" then true
    else a[0] < b[0] || (a[0] == b[0] && Less(a[1..], b[1..]))
  }

  predicate AtMost(a: string, b: string) {
    a == b || Less(a, b)
  }

  lemma {:induction false} LessIrreflexive(a: string)
    ensures !Less(a, a)
  {
    if a != "" {
      LessIrreflexive(a[1..]);
    }
  }

  lemma {:induction false} LessTransitive(a: string, b: string, c: string)
    requires Less(a, b) && Less(b, c)
    ensures Less(a, c)
  {
    if a != "" && a[0] == b[0] && b[0] == c[0] {
      LessTransitive(a[1..], b[1..], c[1..]);
    }
  }

  lemma {:induction false} LessTotal(a: string, b: string)
    ensures Less(a, b) || a == b || Less(b, a)
  {
    if a != "" && b != "" && a[0] == b[0] {
      LessTotal(a[1..], b[1..]);
      assert a == [a[0]] + a[1..] && b == [b[0]] + b[1..];
    }
  }

  // The texts agree up to a place at which the first one ends or is smaller.
  ghost predicate SmallerAt(a: string, b: string, k: nat) {
    && k < |b| && k <= |a| && (forall i :: 0 <= i < k ==> a[i] == b[i])
    && (k == |a| || a[k] < b[k])
  }

  lemma SmallerNext(a: string, b: string, k: nat)
    requires a != "" && b != "" && a[0] == b[0]
    ensures SmallerAt(a, b, k + 1) <==> SmallerAt(a[1..], b[1..], k)
  {
    assert forall i :: 0 <= i < |a| - 1 ==> a[1..][i] == a[i + 1];
    assert forall i :: 0 <= i < |b| - 1 ==> b[1..][i] == b[i + 1];
    if SmallerAt(a[1..], b[1..], k) {
      assert forall i :: 0 < i < k + 1 ==> a[i] == a[1..][i - 1] && b[i] == b[1..][i - 1];
    }
  }

  // The first difference decides.
  lemma {:induction false} LessIff(a: string, b: string)
    ensures Less(a, b) <==> exists k: nat :: SmallerAt(a, b, k)
  {
    if a == "" || b == "" || a[0] != b[0] {
      assert SmallerAt(a, b, 0) <==> Less(a, b);
    } else {
      LessIff(a[1..], b[1..]);
      if k: nat :| SmallerAt(a, b, k) {
        SmallerNext(a, b, k - 1);
      }
      if k: nat :| SmallerAt(a[1..], b[1..], k) {
        SmallerNext(a, b, k);
      }
    }
  }

  lemma StringsAreOrdered()
    ensures TotalOrder(AtMost)
  {
    forall a, b
      ensures AtMost(a, b) || AtMost(b, a)
      ensures AtMost(a, b) && AtMost(b, a) ==> a == b
    {
      LessTotal(a, b);
      if Less(a, b) && Less(b, a) {
        LessTransitive(a, b, a);
        LessIrreflexive(a);
      }
    }
    forall a, b, c | AtMost(a, b) && AtMost(b, c)
      ensures AtMost(a, c)
    {
      if a != b && b != c {
        LessTransitive(a, b, c);
      }
    }
  }

  lemma {:induction false} LessAfterPrefix(p: string, a: string, b: string)
    ensures Less(p + a, p + b) == Less(a, b)
  {
    if p == "" {
      assert p + a == a && p + b == b;
    } else {
      assert (p + a)[1..] == p[1..] + a && (p + b)[1..] == p[1..] + b;
      LessAfterPrefix(p[1..], a, b);
    }
  }

  // A difference inside equally long prefixes decides.
  lemma {:induction false} LessInPrefix(p: string, q: string, a: string, b: string)
    requires |p| == |q| && p != q
    ensures Less(p + a, q + b) == Less(p, q)
  {
    assert (p + a)[1..] == p[1..] + a && (q + b)[1..] == q[1..] + b;
    if p[0] == q[0] {
      assert p == [p[0]] + p[1..] && q == [q[0]] + q[1..];
      LessInPrefix(p[1..], q[1..], a, b);
    }
  }
}
