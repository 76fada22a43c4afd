/** Order-preserving filtering and positions in sequences, used to state FIFO order. */
module Sequences {

  /** No element occurs twice. */
  ghost predicate Distinct<T>(s: seq<T>)
  {
    forall i, j :: 0 <= i < j < |s| ==> s[i] != s[j]
  }

  /** The elements of `s` that are not in `drop`, in their order in `s`. */
  function Filter<T>(s: seq<T>, drop: set<T>): seq<T>
    decreases |s|
  {
    if s == [] then []
    else Filter(s[..|s| - 1], drop) + (if s[|s| - 1] in drop then [] else [s[|s| - 1]])
  }

  /** The index of the first occurrence of `x` in `s`. */
  function Position<T(==)>(s: seq<T>, x: T): (i: nat)
    requires x in s
    ensures i < |s| && s[i] == x
    ensures forall k :: 0 <= k < i ==> s[k] != x
  {
    if s[0] == x then 0 else 1 + Position(s[1..], x)
  }

  lemma {:induction false} FilterMembers<T>(s: seq<T>, drop: set<T>)
    ensures forall x :: x in Filter(s, drop) <==> x in s && x !in drop
    decreases |s|
  {
    if s != [] {
      var s' := s[..|s| - 1];
      FilterMembers(s', drop);
      assert s == s' + [s[|s| - 1]];
    }
  }

  lemma {:induction false} FilterAppend<T>(a: seq<T>, b: seq<T>, drop: set<T>)
    ensures Filter(a + b, drop) == Filter(a, drop) + Filter(b, drop)
    decreases |b|
  {
    if b == [] {
      assert a + b == a;
    } else {
      var b' := b[..|b| - 1];
      assert (a + b)[..|a + b| - 1] == a + b';
      assert (a + b)[|a + b| - 1] == b[|b| - 1];
      FilterAppend(a, b', drop);
    }
  }

  /** Filtering out elements that do not occur changes nothing. */
  lemma {:induction false} FilterNothing<T>(s: seq<T>, drop: set<T>)
    requires forall x :: x in s ==> x !in drop
    ensures Filter(s, drop) == s
    decreases |s|
  {
    if s != [] {
      var s' := s[..|s| - 1];
      FilterNothing(s', drop);
      assert s == s' + [s[|s| - 1]];
    }
  }

  /** Dropping one occurrence-free element from a sequence where it occurs once. */
  lemma FilterOne<T>(a: seq<T>, x: T, b: seq<T>)
    requires x !in a && x !in b
    ensures Filter(a + [x] + b, {x}) == a + b
  {
    var ax := a + [x];
    FilterAppend(ax, b, {x});
    FilterSingleDropped(a, x);
    FilterNothing(b, {x});
  }

  lemma FilterSingleDropped<T>(a: seq<T>, x: T)
    requires x !in a
    ensures Filter(a + [x], {x}) == a
  {
    var ax := a + [x];
    assert ax[..|ax| - 1] == a;
    assert ax[|ax| - 1] == x;
    FilterNothing(a, {x});
  }

  /** Filtering by a union is filtering twice. */
  lemma {:induction false} FilterUnion<T>(s: seq<T>, a: set<T>, b: set<T>)
    ensures Filter(s, a + b) == Filter(Filter(s, a), b)
    decreases |s|
  {
    if s != [] {
      var s' := s[..|s| - 1];
      var x := s[|s| - 1];
      FilterUnion(s', a, b);
      FilterAppend(Filter(s', a), if x in a then [] else [x], b);
      if x !in a {
        assert Filter([x], b) == Filter([], b) + (if x in b then [] else [x]);
      }
    }
  }

  lemma {:induction false} FilterDistinct<T>(s: seq<T>, drop: set<T>)
    requires Distinct(s)
    ensures Distinct(Filter(s, drop))
    decreases |s|
  {
    if s != [] {
      var s' := s[..|s| - 1];
      var x := s[|s| - 1];
      assert Distinct(s');
      FilterDistinct(s', drop);
      FilterMembers(s', drop);
      assert x !in s';
    }
  }

  /** An element of a duplicate-free sequence occurs on neither side of itself. */
  lemma DistinctSplit<T>(a: seq<T>, x: T, b: seq<T>)
    requires Distinct(a + [x] + b)
    ensures x !in a && x !in b
  {
    var s := a + [x] + b;
    assert s[|a|] == x;
    forall k | 0 <= k < |a| ensures a[k] != x {
      assert s[k] == a[k];
    }
    forall k | 0 <= k < |b| ensures b[k] != x {
      assert s[|a| + 1 + k] == b[k];
    }
  }

  lemma PositionAppend<T>(a: seq<T>, b: seq<T>, x: T)
    requires x in a
    ensures x in a + b && Position(a + b, x) == Position(a, x)
  {
    var p := Position(a, x);
    var q := Position(a + b, x);
    assert (a + b)[p] == x;
    assert a[q] == x || q >= |a|;
  }

  lemma PositionAfter<T>(a: seq<T>, b: seq<T>, x: T)
    requires x !in a && x in b
    ensures x in a + b && Position(a + b, x) == |a| + Position(b, x)
  {
    var p := Position(b, x);
    var q := Position(a + b, x);
    assert (a + b)[|a| + p] == x;
    assert q >= |a|;
    assert b[q - |a|] == x;
  }

  /** Filtering keeps the relative order of the elements it keeps. */
  lemma {:induction false} FilterKeepsOrder<T>(s: seq<T>, drop: set<T>, i: nat, j: nat)
    requires Distinct(s)
    requires i < j < |s| && s[i] !in drop && s[j] !in drop
    ensures s[i] in Filter(s, drop) && s[j] in Filter(s, drop)
    ensures Position(Filter(s, drop), s[i]) < Position(Filter(s, drop), s[j])
    decreases |s|
  {
    var s' := s[..|s| - 1];
    var f' := Filter(s', drop);
    var tail := if s[|s| - 1] in drop then [] else [s[|s| - 1]];
    assert Filter(s, drop) == f' + tail;
    FilterMembers(s', drop);
    assert s[i] == s'[i];
    if j == |s| - 1 {
      assert s[j] !in s' by {
        forall k | 0 <= k < |s'| ensures s'[k] != s[j] {
          assert s'[k] == s[k];
        }
      }
      PositionAppend(f', tail, s[i]);
      PositionAfter(f', tail, s[j]);
    } else {
      assert s[j] == s'[j];
      assert Distinct(s');
      FilterKeepsOrder(s', drop, i, j);
      PositionAppend(f', tail, s[i]);
      PositionAppend(f', tail, s[j]);
    }
  }
}
