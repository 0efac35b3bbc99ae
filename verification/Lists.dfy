/** Lists that are scanned and erased from. */
module Lists {

  function Filter<T(==)>(s: seq<T>, keep: set<T>): seq<T> {
    if s == [] then []
    else Filter(s[..|s| - 1], keep) + if s[|s| - 1] in keep then [s[|s| - 1]] else []
  }

  /** `t` holds exactly what `keep` has of `s`. */
  ghost predicate Members<T>(t: seq<T>, s: seq<T>, keep: set<T>) {
    && (forall x :: x in t ==> x in s && x in keep) && (forall x :: x in s && x in keep ==> x in t)
    && |t| <= |s|
  }

  lemma {:induction false} FilterMembers<T>(s: seq<T>, keep: set<T>)
    ensures Members(Filter(s, keep), s, keep)
  {
    if s != [] {
      FilterMembers(s[..|s| - 1], keep);
      assert s == s[..|s| - 1] + [s[|s| - 1]];
    }
  }

  lemma {:induction false} FilterTwice<T>(s: seq<T>, a: set<T>, b: set<T>)
    ensures Filter(Filter(s, a), b) == Filter(s, a * b)
  {
    if s != [] {
      FilterTwice(s[..|s| - 1], a, b);
      var front := Filter(s[..|s| - 1], a);
      if s[|s| - 1] in a {
        assert (front + [s[|s| - 1]])[..|front|] == front;
      } else {
        assert front + [] == front;
      }
    }
  }

  lemma {:induction false} FilterSame<T>(s: seq<T>, a: set<T>, b: set<T>)
    requires forall x :: x in s ==> (x in a <==> x in b)
    ensures Filter(s, a) == Filter(s, b)
  {
    if s != [] {
      FilterSame(s[..|s| - 1], a, b);
    }
  }

  lemma {:induction false} FilterAll<T>(s: seq<T>, keep: set<T>)
    requires forall x :: x in s ==> x in keep
    ensures Filter(s, keep) == s
  {
    if s != [] {
      FilterAll(s[..|s| - 1], keep);
      assert s == s[..|s| - 1] + [s[|s| - 1]];
    }
  }

  /** Filtering twice is filtering by what both keep of the list. */
  lemma FilterBoth<T>(s: seq<T>, a: set<T>, b: set<T>, both: set<T>)
    requires forall x :: x in s ==> (x in both <==> x in a && x in b)
    ensures Filter(Filter(s, a), b) == Filter(s, both)
  {
    FilterTwice(s, a, b);
    FilterSame(s, a * b, both);
  }

  lemma {:induction false} FilterNone<T>(s: seq<T>, keep: set<T>)
    requires forall x :: x in s ==> x !in keep
    ensures Filter(s, keep) == []
  {
    if s != [] {
      FilterNone(s[..|s| - 1], keep);
      assert s[|s| - 1] in s;
    }
  }

  ghost function Without<T>(s: seq<T>, x: T): set<T> {
    set y | y in s && y != x
  }

  ghost predicate Distinct<T>(s: seq<T>) {
    forall i, j :: 0 <= i < j < |s| ==> s[i] != s[j]
  }

  lemma {:induction false} FilterDistinct<T>(s: seq<T>, keep: set<T>)
    requires Distinct(s)
    ensures Distinct(Filter(s, keep))
  {
    if s != [] {
      FilterDistinct(s[..|s| - 1], keep);
      FilterMembers(s[..|s| - 1], keep);
    }
  }

  lemma FilterAround<T>(s: seq<T>, a: seq<T>, x: T, b: seq<T>, keep: set<T>)
    requires s == a + [x] + b
    requires x !in keep && (forall k :: 0 <= k < |a| ==> a[k] in keep) && forall k :: 0 <= k < |b| ==> b[k] in keep
    ensures Filter(s, keep) == a + b
  {
    FilterConcat(a + [x], b, keep);
    FilterConcat(a, [x], keep);
    FilterNone([x], keep);
    FilterAll(a, keep);
    FilterAll(b, keep);
    assert a + [] == a;
  }

  lemma OthersStay<T>(s: seq<T>, i: nat)
    requires Distinct(s) && i < |s|
    ensures forall k :: 0 <= k < |s| && k != i ==> s[k] in Without(s, s[i])
    ensures s[i] !in Without(s, s[i])
  {
  }

  lemma EraseOne<T>(s: seq<T>, i: nat)
    requires Distinct(s) && i < |s|
    ensures s[..i] + s[i + 1..] == Filter(s, Without(s, s[i]))
  {
    hide *;
    OthersStay(s, i);
    assert s == s[..i] + [s[i]] + s[i + 1..];
    FilterAround(s, s[..i], s[i], s[i + 1..], Without(s, s[i]));
  }

  lemma EraseKeepsDistinct<T>(s: seq<T>, i: nat)
    requires Distinct(s) && i < |s|
    ensures Distinct(s[..i] + s[i + 1..])
  {
  }

  lemma {:induction false} FilterConcat<T>(a: seq<T>, b: seq<T>, keep: set<T>)
    ensures Filter(a + b, keep) == Filter(a, keep) + Filter(b, keep)
    decreases |b|
  {
    if b == [] {
      assert a + b == a;
    } else {
      assert (a + b)[..|a + b| - 1] == a + b[..|b| - 1];
      FilterConcat(a, b[..|b| - 1], keep);
    }
  }

  // ---- erasing while scanning -------------------------------------------

  /** A list being scanned and erased from: the elements in `done` are dealt
      with, those to keep are in front, and the next comes behind them. */
  ghost predicate Erasing<T>(was: seq<T>, keep: set<T>, done: seq<T>, list: seq<T>, kept: seq<T>) {
    done <= was && kept == Filter(done, keep) && list == kept + was[|done|..]
  }

  lemma EraseStarts<T>(was: seq<T>, keep: set<T>)
    ensures Erasing(was, keep, [], was, [])
  {
  }

  lemma EraseNext<T>(was: seq<T>, keep: set<T>, done: seq<T>, list: seq<T>, kept: seq<T>)
    requires Erasing(was, keep, done, list, kept) && |kept| < |list|
    ensures var x := list[|kept|];
            && x in was
            && if x in keep then Erasing(was, keep, done + [x], list, kept + [x])
               else Erasing(was, keep, done + [x], list[..|kept|] + list[|kept| + 1..], kept)
  {
    var n := |done|;
    var x := list[|kept|];
    assert x == was[n] && was[n..] == [x] + was[n + 1..];
    assert done + [x] == was[..n + 1] && (done + [x])[..n] == done;
    assert list[..|kept|] == kept && list[|kept| + 1..] == was[n + 1..];
    if x in keep {
      assert kept + [x] + was[n + 1..] == list;
    } else {
      assert kept + [] == kept;
    }
  }

  lemma EraseEnds<T>(was: seq<T>, keep: set<T>, done: seq<T>, list: seq<T>, kept: seq<T>)
    requires Erasing(was, keep, done, list, kept) && |kept| == |list|
    ensures done == was && list == kept == Filter(was, keep)
  {
    assert done == was;
  }

  lemma {:induction false} FilterShrinks<T>(s: seq<T>, keep: set<T>)
    ensures |Filter(s, keep)| <= |s|
    ensures |Filter(s, keep)| < |s| <==> exists x :: x in s && x !in keep
  {
    if s != [] {
      FilterShrinks(s[..|s| - 1], keep);
      assert s == s[..|s| - 1] + [s[|s| - 1]];
    }
  }
}
