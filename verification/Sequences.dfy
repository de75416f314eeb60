// Filters and stable sorting over sequences.
module Sequences {
  ghost predicate Distinct<T>(xs: seq<T>) {
    forall i, j :: 0 <= i < j < |xs| ==> xs[i] != xs[j]
  }

  function Filter<T>(xs: seq<T>, keep: T -> bool): seq<T> {
    if xs == [] then []
    else if keep(xs[0]) then [xs[0]] + Filter(xs[1..], keep)
    else Filter(xs[1..], keep)
  }

  lemma {:induction false} FilterAppend<T>(xs: seq<T>, ys: seq<T>, keep: T -> bool)
    ensures Filter(xs + ys, keep) == Filter(xs, keep) + Filter(ys, keep)
  {
    if xs == [] {
      assert xs + ys == ys;
    } else {
      assert (xs + ys)[1..] == xs[1..] + ys;
      FilterAppend(xs[1..], ys, keep);
    }
  }

  lemma FilterNext<T>(xs: seq<T>, i: nat, keep: T -> bool)
    requires i < |xs|
    ensures Filter(xs[..i + 1], keep) == Filter(xs[..i], keep) + if keep(xs[i]) then [xs[i]] else []
  {
    assert xs[..i + 1] == xs[..i] + [xs[i]];
    FilterAppend(xs[..i], [xs[i]], keep);
    assert [xs[i]][1..] == [];
  }

  lemma {:induction false} FilterMember<T>(xs: seq<T>, keep: T -> bool, x: T)
    ensures x in Filter(xs, keep) <==> x in xs && keep(x)
  {
    if xs != [] {
      FilterMember(xs[1..], keep, x);
    }
  }

  lemma {:induction false} FilterNone<T>(xs: seq<T>, keep: T -> bool)
    ensures Filter(xs, keep) == [] <==> forall i :: 0 <= i < |xs| ==> !keep(xs[i])
  {
    if xs != [] {
      FilterNone(xs[1..], keep);
    }
  }

  lemma {:induction false} FilterAll<T>(xs: seq<T>, keep: T -> bool)
    requires forall i :: 0 <= i < |xs| ==> keep(xs[i])
    ensures Filter(xs, keep) == xs
  {
    if xs != [] {
      FilterAll(xs[1..], keep);
    }
  }

  // Element i is the only one that is kept.
  ghost predicate Only<T>(xs: seq<T>, keep: T -> bool, i: int) {
    0 <= i < |xs| && forall j :: 0 <= j < |xs| ==> (keep(xs[j]) <==> j == i)
  }

  lemma {:induction false} FilterOne<T>(xs: seq<T>, keep: T -> bool) returns (i: int)
    requires |Filter(xs, keep)| == 1
    ensures Only(xs, keep, i) && xs[i] == Filter(xs, keep)[0]
  {
    if keep(xs[0]) {
      FilterNone(xs[1..], keep);
      assert forall j :: 0 < j < |xs| ==> xs[j] == xs[1..][j - 1];
      i := 0;
    } else {
      i := FilterOne(xs[1..], keep);
      assert forall j :: 0 < j < |xs| ==> xs[j] == xs[1..][j - 1];
      i := i + 1;
    }
  }

  lemma {:induction false} FilterOnly<T>(xs: seq<T>, keep: T -> bool, i: int)
    requires Only(xs, keep, i)
    ensures Filter(xs, keep) == [xs[i]]
  {
    assert forall j :: 0 < j < |xs| ==> xs[j] == xs[1..][j - 1];
    if i == 0 {
      FilterNone(xs[1..], keep);
    } else {
      FilterOnly(xs[1..], keep, i - 1);
    }
  }

  function Not<T>(test: T -> bool): T -> bool {
    x => !test(x)
  }

  function Both<T>(p: T -> bool, q: T -> bool): T -> bool {
    x => p(x) && q(x)
  }

  function Drop<T>(xs: seq<T>, test: T -> bool): seq<T> {
    Filter(xs, Not(test))
  }

  lemma {:induction false} FilterSame<T>(xs: seq<T>, p: T -> bool, q: T -> bool)
    requires forall i :: 0 <= i < |xs| ==> p(xs[i]) == q(xs[i])
    ensures Filter(xs, p) == Filter(xs, q)
  {
    if xs != [] {
      FilterSame(xs[1..], p, q);
    }
  }

  // Filtering twice keeps what both keep.
  lemma {:induction false} FilterTwice<T>(xs: seq<T>, p: T -> bool, q: T -> bool)
    ensures Filter(Filter(xs, p), q) == Filter(xs, Both(p, q))
  {
    if xs != [] {
      FilterTwice(xs[1..], p, q);
      if p(xs[0]) {
        assert ([xs[0]] + Filter(xs[1..], p))[1..] == Filter(xs[1..], p);
      }
    }
  }

  // The first element that passes the test is taken out.
  function RemoveFirst<T>(xs: seq<T>, test: T -> bool): seq<T> {
    if xs == [] then []
    else if test(xs[0]) then xs[1..]
    else [xs[0]] + RemoveFirst(xs[1..], test)
  }

  lemma {:induction false} RemoveSole<T>(xs: seq<T>, test: T -> bool)
    requires |Filter(xs, test)| <= 1
    ensures RemoveFirst(xs, test) == Drop(xs, test)
  {
    if xs != [] {
      if test(xs[0]) {
        FilterNone(xs[1..], test);
        FilterAll(xs[1..], Not(test));
      } else {
        RemoveSole(xs[1..], test);
      }
    }
  }

  // Filtering first cannot make another filter find more.
  lemma {:induction false} FilterFewer<T>(xs: seq<T>, p: T -> bool, q: T -> bool)
    ensures |Filter(Filter(xs, p), q)| <= |Filter(xs, q)|
  {
    if xs != [] {
      FilterFewer(xs[1..], p, q);
      if p(xs[0]) {
        assert ([xs[0]] + Filter(xs[1..], p))[1..] == Filter(xs[1..], p);
      }
    }
  }
}
