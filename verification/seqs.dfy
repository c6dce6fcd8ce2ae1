/** Generic sequence vocabulary shared by the storefront model: the
    order-preserving filter that JavaScript's `Array.prototype.filter`
    performs, subsequences, duplicate-freedom and first-appearance
    de-duplication (what `[...new Set(xs)]` computes). */
module Seqs {

  /** Keeps the elements of `s` that satisfy `f`, in their original order. */
  function Filter<T(!new)>(s: seq<T>, f: T -> bool): (r: seq<T>)
    ensures forall x :: x in r <==> x in s && f(x)
    ensures |r| <= |s|
  {
    if |s| == 0 then []
    else (if f(s[0]) then [s[0]] else []) + Filter(s[1..], f)
  }

  /** `idx` lists, in strictly increasing order, positions of `b` that spell out `a`. */
  ghost predicate IsEmbedding<T>(a: seq<T>, b: seq<T>, idx: seq<nat>)
  {
    && |idx| == |a|
    && (forall k :: 0 <= k < |idx| ==> idx[k] < |b| && b[idx[k]] == a[k])
    && (forall k, l :: 0 <= k < l < |idx| ==> idx[k] < idx[l])
  }

  /** `a` is obtained from `b` by deleting elements, keeping the rest in order. */
  ghost predicate IsSubsequence<T>(a: seq<T>, b: seq<T>)
  {
    exists idx :: IsEmbedding(a, b, idx)
  }

  /** Shifting an embedding of `a` into `b` by one position embeds `a` into `[x] + b`. */
  function Shift(idx: seq<nat>): (r: seq<nat>)
    ensures |r| == |idx|
    ensures forall k :: 0 <= k < |r| ==> r[k] == idx[k] + 1
  {
    seq(|idx|, k requires 0 <= k < |idx| => idx[k] + 1)
  }

  /** An embedding survives putting one more element in front of the host. */
  lemma EmbeddingShifts<T>(a: seq<T>, b: seq<T>, x: T, idx: seq<nat>)
    requires IsEmbedding(a, b, idx)
    ensures IsEmbedding(a, [x] + b, Shift(idx))
  {
    var sh := Shift(idx);
    forall k | 0 <= k < |sh|
      ensures sh[k] < |[x] + b| && ([x] + b)[sh[k]] == a[k]
    {
      assert ([x] + b)[idx[k] + 1] == b[idx[k]];
    }
  }

  /** Matching a common first element extends an embedding. */
  lemma EmbeddingConses<T>(a: seq<T>, b: seq<T>, x: T, idx: seq<nat>)
    requires IsEmbedding(a, b, idx)
    ensures IsEmbedding([x] + a, [x] + b, [0] + Shift(idx))
  {
    EmbeddingShifts(a, b, x, idx);
    var sh := Shift(idx);
    var full := [0] + sh;
    forall k | 0 <= k < |full|
      ensures full[k] < |[x] + b| && ([x] + b)[full[k]] == ([x] + a)[k]
    {
      if k > 0 {
        assert full[k] == sh[k - 1];
        assert ([x] + a)[k] == a[k - 1];
      }
    }
  }

  lemma {:induction false} FilterIsSubsequence<T(!new)>(s: seq<T>, f: T -> bool)
    ensures IsSubsequence(Filter(s, f), s)
  {
    if |s| == 0 {
      assert IsEmbedding(Filter(s, f), s, []);
    } else {
      FilterIsSubsequence(s[1..], f);
      var tail := Filter(s[1..], f);
      var idx :| IsEmbedding(tail, s[1..], idx);
      assert s == [s[0]] + s[1..];
      if f(s[0]) {
        EmbeddingConses(tail, s[1..], s[0], idx);
        assert Filter(s, f) == [s[0]] + tail;
        assert IsEmbedding(Filter(s, f), s, [0] + Shift(idx));
      } else {
        EmbeddingShifts(tail, s[1..], s[0], idx);
        assert Filter(s, f) == tail;
        assert IsEmbedding(Filter(s, f), s, Shift(idx));
      }
    }
  }

  /** Filtering by a predicate that every element satisfies changes nothing. */
  lemma {:induction false} FilterKeepsAll<T(!new)>(s: seq<T>, f: T -> bool)
    requires forall x :: x in s ==> f(x)
    ensures Filter(s, f) == s
  {
    if |s| > 0 {
      assert s[0] in s;
      assert forall x :: x in s[1..] ==> x in s;
      FilterKeepsAll(s[1..], f);
      assert s == [s[0]] + s[1..];
    }
  }

  /** Filtering keeps every copy of a kept element and no copy of a dropped one. */
  lemma {:induction false} FilterCount<T(!new)>(s: seq<T>, f: T -> bool, x: T)
    ensures multiset(Filter(s, f))[x] == if f(x) then multiset(s)[x] else 0
  {
    if |s| > 0 {
      assert s == [s[0]] + s[1..];
      FilterCount(s[1..], f, x);
    }
  }

  /** `FilterCount` for every element at once. */
  lemma FilterCounts<T(!new)>(s: seq<T>, f: T -> bool)
    ensures forall x :: multiset(Filter(s, f))[x] == if f(x) then multiset(s)[x] else 0
  {
    forall x
      ensures multiset(Filter(s, f))[x] == if f(x) then multiset(s)[x] else 0
    {
      FilterCount(s, f, x);
    }
  }

  /** Every prefix of a subsequence of `b` is a subsequence of `b`. */
  lemma PrefixIsSubsequence<T>(a: seq<T>, b: seq<T>, n: nat)
    requires IsSubsequence(a, b) && n <= |a|
    ensures IsSubsequence(a[..n], b)
  {
    var idx :| IsEmbedding(a, b, idx);
    assert IsEmbedding(a[..n], b, idx[..n]);
  }

  /** Two predicates that agree on the elements of `s` filter it identically. */
  lemma {:induction false} FilterAgrees<T(!new)>(s: seq<T>, f: T -> bool, g: T -> bool)
    requires forall x :: x in s ==> f(x) == g(x)
    ensures Filter(s, f) == Filter(s, g)
  {
    if |s| > 0 {
      assert s[0] in s;
      assert forall x :: x in s[1..] ==> x in s;
      FilterAgrees(s[1..], f, g);
    }
  }

  /** Filtering distributes over concatenation. */
  lemma {:induction false} FilterAppend<T(!new)>(a: seq<T>, b: seq<T>, f: T -> bool)
    ensures Filter(a + b, f) == Filter(a, f) + Filter(b, f)
  {
    if |a| > 0 {
      assert (a + b)[0] == a[0];
      assert (a + b)[1..] == a[1..] + b;
      FilterAppend(a[1..], b, f);
    } else {
      assert a + b == b;
    }
  }

  /** Filtering a duplicate-free sequence leaves it duplicate-free. */
  lemma {:induction false} FilterNoDuplicates<T(!new)>(s: seq<T>, f: T -> bool)
    requires NoDuplicates(s)
    ensures NoDuplicates(Filter(s, f))
  {
    if |s| > 0 {
      assert NoDuplicates(s[1..]);
      FilterNoDuplicates(s[1..], f);
      var tail := Filter(s[1..], f);
      if f(s[0]) {
        assert Filter(s, f) == [s[0]] + tail;
        assert s[0] !in tail;
      }
    }
  }

  /** No element occurs twice. */
  predicate NoDuplicates<T(==)>(s: seq<T>)
  {
    forall i, j :: 0 <= i < j < |s| ==> s[i] != s[j]
  }

  /** Position of the first occurrence of `x` in `s`, or `|s|` when there is none. */
  function FirstIndex<T(==)>(s: seq<T>, x: T): (i: nat)
    ensures i <= |s|
    ensures i < |s| <==> x in s
    ensures i < |s| ==> s[i] == x
    ensures x !in s[..i]
  {
    if |s| == 0 then 0
    else if s[0] == x then 0
    else
      var k := FirstIndex(s[1..], x);
      assert s[..k + 1] == [s[0]] + s[1..][..k];
      1 + k
  }

  /** The elements of `s`, each kept at its first appearance only. */
  function Distinct<T(==,!new)>(s: seq<T>): (r: seq<T>)
    ensures NoDuplicates(r)
    ensures forall x :: x in r <==> x in s
    ensures forall i, j :: 0 <= i < j < |r| ==> FirstIndex(s, r[i]) < FirstIndex(s, r[j])
  {
    if |s| == 0 then []
    else
      var init, last := s[..|s| - 1], s[|s| - 1];
      assert s == init + [last];
      var d := Distinct(init);
      if last in init then
        DistinctSkipsSeen(init, last, d);
        d
      else
        DistinctAppendsNew(init, last, d, d + [last]);
        d + [last]
  }

  /** First occurrences in `init + [last]`: those of `init` stay put, and a
      new `last` first occurs at the end. */
  lemma FirstIndexAppend<T>(init: seq<T>, last: T, x: T)
    ensures x in init ==> FirstIndex(init + [last], x) == FirstIndex(init, x)
    ensures x !in init && x == last ==> FirstIndex(init + [last], x) == |init|
  {
    var s := init + [last];
    assert s[..|init|] == init;
    if x in init {
      var k := FirstIndex(init, x);
      assert s[k] == x;
      assert s[..k] == init[..k];
    } else if x == last {
      assert s[|init|] == x;
    }
  }

  /** Inductive step of `Distinct` when the last element was already seen. */
  lemma DistinctSkipsSeen<T(!new)>(init: seq<T>, last: T, d: seq<T>)
    requires last in init
    requires forall x :: x in d <==> x in init
    requires forall i, j :: 0 <= i < j < |d| ==> FirstIndex(init, d[i]) < FirstIndex(init, d[j])
    ensures forall x :: x in d <==> x in init + [last]
    ensures forall i, j :: 0 <= i < j < |d| ==>
      FirstIndex(init + [last], d[i]) < FirstIndex(init + [last], d[j])
  {
    forall i, j | 0 <= i < j < |d|
      ensures FirstIndex(init + [last], d[i]) < FirstIndex(init + [last], d[j])
    {
      assert d[i] in d && d[j] in d;
      FirstIndexAppend(init, last, d[i]);
      FirstIndexAppend(init, last, d[j]);
    }
  }

  /** Inductive step of `Distinct` when the last element appears for the first time. */
  lemma DistinctAppendsNew<T(!new)>(init: seq<T>, last: T, d: seq<T>, r: seq<T>)
    requires last !in init
    requires NoDuplicates(d)
    requires forall x :: x in d <==> x in init
    requires forall i, j :: 0 <= i < j < |d| ==> FirstIndex(init, d[i]) < FirstIndex(init, d[j])
    requires r == d + [last]
    ensures NoDuplicates(r)
    ensures forall x :: x in r <==> x in init + [last]
    ensures forall i, j :: 0 <= i < j < |r| ==>
      FirstIndex(init + [last], r[i]) < FirstIndex(init + [last], r[j])
  {
    assert last !in d;
    forall i, j | 0 <= i < j < |r|
      ensures r[i] != r[j]
      ensures FirstIndex(init + [last], r[i]) < FirstIndex(init + [last], r[j])
    {
      assert r[i] == d[i] && d[i] in d;
      FirstIndexAppend(init, last, r[i]);
      FirstIndexAppend(init, last, r[j]);
      if j < |d| {
        assert r[j] == d[j] && d[j] in d;
      } else {
        assert r[j] == last;
      }
    }
  }
}
