/** Order-preserving sequence combinators: the `filter`, `map` and `concat`
    steps out of which the pipeline is composed. */
module Seqs {

  /** The elements of `s` that satisfy `f`, in their original order. */
  function Filter<T(!new)>(f: T -> bool, s: seq<T>): (r: seq<T>)
    ensures |r| <= |s|
    ensures forall i :: 0 <= i < |r| ==> f(r[i])
  {
    if s == [] then [] else (if f(s[0]) then [s[0]] else []) + Filter(f, s[1..])
  }

  /** Every element that passes `f` is kept as often as it occurs in `s`, and
      no other element is kept. */
  lemma {:induction false} FilterMultiset<T(!new)>(f: T -> bool, s: seq<T>)
    ensures forall x :: multiset(Filter(f, s))[x] == if f(x) then multiset(s)[x] else 0
    decreases |s|
  {
    if s != [] {
      FilterMultiset(f, s[1..]);
      assert s == [s[0]] + s[1..];
    }
  }

  /** In terms of membership: an element is kept exactly when it occurs in `s`
      and passes `f`. */
  lemma FilterMembers<T(!new)>(f: T -> bool, s: seq<T>)
    ensures forall x :: x in Filter(f, s) <==> x in s && f(x)
  {
    FilterMultiset(f, s);
    assert forall x :: x in Filter(f, s) <==> multiset(Filter(f, s))[x] > 0;
    assert forall x :: x in s <==> multiset(s)[x] > 0;
  }

  /** `a` can be obtained from `b` by deleting elements, without reordering. */
  ghost predicate IsSubsequence<T>(a: seq<T>, b: seq<T>)
    decreases |b|
  {
    a == [] ||
    (b != [] && ((a[0] == b[0] && IsSubsequence(a[1..], b[1..])) || IsSubsequence(a, b[1..])))
  }

  /** Filtering keeps the survivors in input order. */
  lemma {:induction false} FilterIsSubsequence<T(!new)>(f: T -> bool, s: seq<T>)
    ensures IsSubsequence(Filter(f, s), s)
    decreases |s|
  {
    if s != [] {
      FilterIsSubsequence(f, s[1..]);
      var r := Filter(f, s);
      if f(s[0]) {
        assert r[0] == s[0] && r[1..] == Filter(f, s[1..]);
      } else {
        assert r == Filter(f, s[1..]);
      }
    }
  }

  /** Filtering distributes over concatenation; with `FilterSingleton` this pins
      down the result of `Filter` completely, order included. */
  lemma {:induction false} FilterAppend<T(!new)>(f: T -> bool, a: seq<T>, b: seq<T>)
    ensures Filter(f, a + b) == Filter(f, a) + Filter(f, b)
    decreases |a|
  {
    if a == [] {
      assert a + b == b;
    } else {
      assert (a + b)[1..] == a[1..] + b;
      FilterAppend(f, a[1..], b);
    }
  }

  lemma FilterSingleton<T(!new)>(f: T -> bool, x: T)
    ensures Filter(f, [x]) == if f(x) then [x] else []
  {
    assert [x][1..] == [];
  }

  /** Nothing survives when no element passes. */
  lemma {:induction false} FilterNone<T(!new)>(f: T -> bool, s: seq<T>)
    requires forall i :: 0 <= i < |s| ==> !f(s[i])
    ensures Filter(f, s) == []
    decreases |s|
  {
    if s != [] {
      FilterNone(f, s[1..]);
    }
  }

  /** `f` applied to every element of `s`, in order. */
  function Map<T, U>(f: T -> U, s: seq<T>): (r: seq<U>)
    ensures |r| == |s|
    ensures forall i :: 0 <= i < |s| ==> r[i] == f(s[i])
  {
    if s == [] then [] else [f(s[0])] + Map(f, s[1..])
  }

  lemma {:induction false} MapAppend<T, U>(f: T -> U, a: seq<T>, b: seq<T>)
    ensures Map(f, a + b) == Map(f, a) + Map(f, b)
  {
    var l, r := Map(f, a + b), Map(f, a) + Map(f, b);
    assert |l| == |r|;
    forall i | 0 <= i < |l|
      ensures l[i] == r[i]
    {
      if i < |a| {
        assert (a + b)[i] == a[i];
      } else {
        assert (a + b)[i] == b[i - |a|];
      }
    }
  }

  /** An image of a filtered sequence is the image of some element that passed. */
  lemma MapFilterMembers<T(!new), U>(f: T -> U, p: T -> bool, s: seq<T>, y: U)
    ensures y in Map(f, Filter(p, s)) <==> exists i :: 0 <= i < |s| && p(s[i]) && f(s[i]) == y
  {
    var kept := Filter(p, s);
    var r := Map(f, kept);
    FilterMembers(p, s);
    if y in r {
      var j :| 0 <= j < |r| && r[j] == y;
      assert kept[j] in s;
      var i :| 0 <= i < |s| && s[i] == kept[j];
      assert p(s[i]) && f(s[i]) == y;
    }
    if exists i :: 0 <= i < |s| && p(s[i]) && f(s[i]) == y {
      var i :| 0 <= i < |s| && p(s[i]) && f(s[i]) == y;
      assert s[i] in kept;
      var j :| 0 <= j < |kept| && kept[j] == s[i];
      assert r[j] == y;
    }
  }

  /** The concatenation of the blocks of `ss`, in order. */
  function Flatten<T(!new)>(ss: seq<seq<T>>): (r: seq<T>)
    ensures forall x :: x in r <==> exists i :: 0 <= i < |ss| && x in ss[i]
  {
    if ss == [] then []
    else
      assert forall i :: 1 <= i < |ss| ==> ss[i] == ss[1..][i - 1];
      ss[0] + Flatten(ss[1..])
  }

  /** Flattening blocks of two elements each: element `2i` and `2i + 1` of the
      result are the two elements of block `i`. */
  lemma {:induction false} FlattenPairs<T(!new)>(ss: seq<seq<T>>)
    requires forall i :: 0 <= i < |ss| ==> |ss[i]| == 2
    ensures |Flatten(ss)| == 2 * |ss|
    ensures forall i :: 0 <= i < |ss| ==> Flatten(ss)[2 * i] == ss[i][0] && Flatten(ss)[2 * i + 1] == ss[i][1]
    decreases |ss|
  {
    if ss != [] {
      FlattenPairs(ss[1..]);
      var r := Flatten(ss);
      assert r == ss[0] + Flatten(ss[1..]);
      forall i | 1 <= i < |ss|
        ensures r[2 * i] == ss[i][0] && r[2 * i + 1] == ss[i][1]
      {
        assert ss[i] == ss[1..][i - 1];
        assert r[2 * i] == Flatten(ss[1..])[2 * (i - 1)];
        assert r[2 * i + 1] == Flatten(ss[1..])[2 * (i - 1) + 1];
      }
    }
  }

  lemma {:induction false} FlattenAppend<T(!new)>(a: seq<seq<T>>, b: seq<seq<T>>)
    ensures Flatten(a + b) == Flatten(a) + Flatten(b)
    decreases |a|
  {
    if a == [] {
      assert a + b == b;
    } else {
      assert (a + b)[1..] == a[1..] + b;
      FlattenAppend(a[1..], b);
    }
  }
}
