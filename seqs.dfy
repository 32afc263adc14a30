/** Sequence operations that the components use through JavaScript's Array
    methods: `filter`, `map` and `reduce` with `+`, together with the notion of
    an order-preserving subsequence that states what `filter` keeps. */
module Seqs {

  datatype Option<+T> = None | Some(value: T)

  /** Array.prototype.filter: the elements of `s` that satisfy `p`, in order. */
  function Filter<T(!new)>(p: T -> bool, s: seq<T>): (r: seq<T>)
    ensures |r| <= |s|
    ensures forall i :: 0 <= i < |r| ==> p(r[i])
    ensures (forall i :: 0 <= i < |s| ==> p(s[i])) ==> r == s
    decreases |s|
  {
    if s == [] then []
    else if p(s[0]) then [s[0]] + Filter(p, s[1..])
    else Filter(p, s[1..])
  }

  /** `Filter(p, s)` holds each element satisfying `p` as often as `s` does,
      and no other element. */
  lemma {:induction false} FilterCounts<T(!new)>(p: T -> bool, s: seq<T>)
    ensures forall x :: multiset(Filter(p, s))[x] == if p(x) then multiset(s)[x] else 0
    ensures forall x :: x in Filter(p, s) <==> x in s && p(x)
    decreases |s|
  {
    if s != [] {
      FilterCounts(p, s[1..]);
      assert s == [s[0]] + s[1..];
    }
  }

  /** Array.prototype.map. */
  function Map<T, U>(f: T -> U, s: seq<T>): (r: seq<U>)
    ensures |r| == |s|
    ensures forall i :: 0 <= i < |s| ==> r[i] == f(s[i])
    decreases |s|
  {
    if s == [] then [] else [f(s[0])] + Map(f, s[1..])
  }

  /** Array.prototype.reduce((sum, x) => sum + f(x), 0): a left fold from 0. */
  function SumBy<T(!new)>(f: T -> real, s: seq<T>): (r: real)
    ensures s == [] ==> r == 0.0
    ensures (forall x :: x in s ==> 0.0 <= f(x)) ==> 0.0 <= r && forall x :: x in s ==> f(x) <= r
    decreases |s|
  {
    if s == [] then 0.0
    else
      assert forall x :: x in s ==> x in s[..|s| - 1] || x == s[|s| - 1];
      SumBy(f, s[..|s| - 1]) + f(s[|s| - 1])
  }

  /** `i` is the position of the first element of `s` satisfying `p`. */
  predicate IsFirst<T>(p: T -> bool, s: seq<T>, i: int)
  {
    0 <= i < |s| && p(s[i]) && forall j :: 0 <= j < i ==> !p(s[j])
  }

  /** Array.prototype.findIndex: the first position satisfying `p`, or -1. */
  function FindIndex<T>(p: T -> bool, s: seq<T>): (k: int)
    ensures k < 0 ==> k == -1 && forall i :: 0 <= i < |s| ==> !p(s[i])
    ensures k >= 0 ==> IsFirst(p, s, k)
    decreases |s|
  {
    if s == [] then -1
    else if p(s[0]) then 0
    else
      var k := FindIndex(p, s[1..]);
      if k < 0 then -1 else k + 1
  }

  /** Array.prototype.find: the first element satisfying `p`, if any. */
  function Find<T>(p: T -> bool, s: seq<T>): (r: Option<T>)
    ensures r.None? <==> forall i :: 0 <= i < |s| ==> !p(s[i])
    ensures r.Some? ==> exists i :: IsFirst(p, s, i) && s[i] == r.value
  {
    var k := FindIndex(p, s);
    if k < 0 then None else Some(s[k])
  }

  /** `idx` lists, strictly increasing, the positions in `b` at which the
      elements of `a` are found. */
  ghost predicate Embeds<T>(idx: seq<int>, a: seq<T>, b: seq<T>)
  {
    && |idx| == |a|
    && (forall k :: 0 <= k < |idx| ==> 0 <= idx[k] < |b| && a[k] == b[idx[k]])
    && (forall k, l :: 0 <= k < l < |idx| ==> idx[k] < idx[l])
  }

  /** `a` is obtained from `b` by dropping elements, keeping the order of the rest. */
  ghost predicate IsSubsequence<T>(a: seq<T>, b: seq<T>)
  {
    exists idx :: Embeds(idx, a, b)
  }

  /** Positions one further on, as when an element is put in front. */
  function Shift(idx: seq<int>): (r: seq<int>)
    ensures |r| == |idx| && forall k :: 0 <= k < |idx| ==> r[k] == idx[k] + 1
  {
    Map((i: int) => i + 1, idx)
  }

  /** An embedding into the tail of `s` is, shifted by one, an embedding into `s`. */
  lemma ShiftEmbeds<T>(idx: seq<int>, a: seq<T>, s: seq<T>)
    requires s != [] && Embeds(idx, a, s[1..])
    ensures Embeds(Shift(idx), a, s)
    ensures forall k :: 0 <= k < |idx| ==> 1 <= Shift(idx)[k]
  {
    var sh := Shift(idx);
    forall k | 0 <= k < |sh|
      ensures 0 <= sh[k] < |s| && a[k] == s[sh[k]]
    {
      assert s[1..][idx[k]] == s[idx[k] + 1];
    }
  }

  /** Position 0 in front of an embedding that avoids position 0 embeds one
      more leading element. */
  lemma ConsEmbeds<T>(idx: seq<int>, a: seq<T>, s: seq<T>)
    requires s != [] && Embeds(idx, a, s)
    requires forall k :: 0 <= k < |idx| ==> 1 <= idx[k]
    ensures Embeds([0] + idx, [s[0]] + a, s)
  {
    var c, b := [0] + idx, [s[0]] + a;
    assert forall k :: 1 <= k < |c| ==> c[k] == idx[k - 1] && b[k] == a[k - 1];
  }

  /** The positions in `s` of the elements that `Filter(p, s)` keeps. */
  lemma {:induction false} FilterPositions<T(!new)>(p: T -> bool, s: seq<T>) returns (idx: seq<int>)
    ensures Embeds(idx, Filter(p, s), s)
    decreases |s|
  {
    if s == [] {
      idx := [];
    } else {
      var tail := FilterPositions(p, s[1..]);
      ShiftEmbeds(tail, Filter(p, s[1..]), s);
      if p(s[0]) {
        ConsEmbeds(Shift(tail), Filter(p, s[1..]), s);
        idx := [0] + Shift(tail);
      } else {
        idx := Shift(tail);
      }
    }
  }

  /** What `filter` keeps is a subsequence of what it was given. */
  lemma FilterIsSubsequence<T(!new)>(p: T -> bool, s: seq<T>)
    ensures IsSubsequence(Filter(p, s), s)
  {
    var idx := FilterPositions(p, s);
  }

  /** Filtering distributes over concatenation. */
  lemma {:induction false} FilterConcat<T(!new)>(p: T -> bool, a: seq<T>, b: seq<T>)
    ensures Filter(p, a + b) == Filter(p, a) + Filter(p, b)
    decreases |a|
  {
    if a == [] {
      assert a + b == b;
    } else {
      assert (a + b)[0] == a[0] && (a + b)[1..] == a[1..] + b;
      FilterConcat(p, a[1..], b);
    }
  }

  /** Filtering depends only on which elements the predicate accepts. */
  lemma {:induction false} FilterExtensional<T(!new)>(p: T -> bool, q: T -> bool, s: seq<T>)
    requires forall x :: p(x) == q(x)
    ensures Filter(p, s) == Filter(q, s)
    decreases |s|
  {
    if s != [] {
      FilterExtensional(p, q, s[1..]);
    }
  }

  /** Filtering keeps nothing when no element satisfies the predicate. */
  lemma {:induction false} FilterNone<T(!new)>(p: T -> bool, s: seq<T>)
    requires forall i :: 0 <= i < |s| ==> !p(s[i])
    ensures Filter(p, s) == []
    decreases |s|
  {
    if s != [] {
      FilterNone(p, s[1..]);
    }
  }

  /** Two filters in a row keep what one filter by the conjunction keeps. */
  lemma {:induction false} FilterFilter<T(!new)>(p: T -> bool, q: T -> bool, both: T -> bool, s: seq<T>)
    requires forall x :: both(x) == (p(x) && q(x))
    ensures Filter(q, Filter(p, s)) == Filter(both, s)
    decreases |s|
  {
    if s != [] {
      FilterFilter(p, q, both, s[1..]);
    }
  }

  /** No element occurs twice. */
  predicate NoDup<T(==)>(s: seq<T>)
  {
    forall i, j :: 0 <= i < j < |s| ==> s[i] != s[j]
  }

  /** Putting in front an element that does not occur keeps a sequence
      duplicate-free. */
  lemma ConsNoDup<T>(x: T, s: seq<T>)
    requires x !in s && NoDup(s)
    ensures NoDup([x] + s)
  {
    var c := [x] + s;
    forall i, j | 0 <= i < j < |c|
      ensures c[i] != c[j]
    {
      assert c[j] == s[j - 1];
      if i > 0 {
        assert c[i] == s[i - 1];
      }
    }
  }

  /** Filtering a duplicate-free sequence leaves it duplicate-free. */
  lemma {:induction false} FilterNoDup<T(!new)>(p: T -> bool, s: seq<T>)
    requires NoDup(s)
    ensures NoDup(Filter(p, s))
    decreases |s|
  {
    if s != [] {
      assert NoDup(s[1..]) by {
        forall i, j | 0 <= i < j < |s| - 1
          ensures s[1..][i] != s[1..][j]
        {
          assert s[1..][i] == s[i + 1] && s[1..][j] == s[j + 1];
        }
      }
      FilterNoDup(p, s[1..]);
      if p(s[0]) {
        FilterCounts(p, s[1..]);
        assert s[0] !in s[1..] by {
          forall k | 0 <= k < |s| - 1
            ensures s[1..][k] != s[0]
          {
            assert s[1..][k] == s[k + 1];
          }
        }
        ConsNoDup(s[0], Filter(p, s[1..]));
      }
    }
  }

  /** The sum of a concatenation is the sum of the sums: the fold's order of
      accumulation does not matter for addition. */
  lemma {:induction false} SumByConcat<T(!new)>(f: T -> real, a: seq<T>, b: seq<T>)
    ensures SumBy(f, a + b) == SumBy(f, a) + SumBy(f, b)
    decreases |b|
  {
    if b != [] {
      var init := b[..|b| - 1];
      assert (a + b)[..|a + b| - 1] == a + init;
      assert (a + b)[|a + b| - 1] == b[|b| - 1];
      SumByConcat(f, a, init);
    } else {
      assert a + b == a;
    }
  }

  /** A weaker predicate keeps at least as many elements. */
  lemma {:induction false} FilterLengthMonotonic<T(!new)>(p: T -> bool, q: T -> bool, s: seq<T>)
    requires forall x :: p(x) ==> q(x)
    ensures |Filter(p, s)| <= |Filter(q, s)|
    decreases |s|
  {
    if s != [] {
      FilterLengthMonotonic(p, q, s[1..]);
    }
  }

  /** Two predicates that never hold together keep no more than `s` holds. */
  lemma {:induction false} FilterLengthDisjoint<T(!new)>(p: T -> bool, q: T -> bool, s: seq<T>)
    requires forall x :: !(p(x) && q(x))
    ensures |Filter(p, s)| + |Filter(q, s)| <= |s|
    decreases |s|
  {
    if s != [] {
      FilterLengthDisjoint(p, q, s[1..]);
    }
  }
}
