/** Order-preserving selection over sequences: the behaviour of JavaScript's
    `Array.prototype.filter`, which both menu screens use (to delete by id and
    to select one course), together with the facts the screens rely on. */
module Sequences {

  /** `idx` lists, in strictly increasing order, the positions of `b` at which
      the elements of `a` are found: `a` is `b` with some elements left out. */
  ghost predicate Embeds<T>(idx: seq<nat>, a: seq<T>, b: seq<T>) {
    && |idx| == |a|
    && (forall k :: 0 <= k < |idx| ==> idx[k] < |b| && a[k] == b[idx[k]])
    && (forall k, l :: 0 <= k < l < |idx| ==> idx[k] < idx[l])
  }

  /** `a` is an order-preserving subsequence of `b`. */
  ghost predicate IsSubseq<T>(a: seq<T>, b: seq<T>) {
    exists idx :: Embeds(idx, a, b)
  }

  /** Number of positions of `xs` whose element satisfies `p`, counted
      directly over the index set rather than by filtering. */
  ghost function CountWhere<T>(xs: seq<T>, p: T -> bool): nat {
    |set i | 0 <= i < |xs| && p(xs[i])|
  }

  /** The elements of `xs` that satisfy `p`, in the order they have in `xs`. */
  function Filter<T(!new)>(xs: seq<T>, p: T -> bool): (r: seq<T>)
    ensures |r| <= |xs|
    ensures forall i :: 0 <= i < |r| ==> p(r[i])
    ensures forall x :: x in r <==> x in xs && p(x)
    ensures forall x :: multiset(r)[x] == if p(x) then multiset(xs)[x] else 0
    ensures (forall i :: 0 <= i < |xs| ==> p(xs[i])) ==> r == xs
  {
    if xs == [] then []
    else
      assert xs == [xs[0]] + xs[1..];
      var rest := Filter(xs[1..], p);
      if p(xs[0]) then [xs[0]] + rest else rest
  }

  /** Filtering a non-empty sequence decides its first element and
      filters the rest. */
  lemma FilterCons<T(!new)>(xs: seq<T>, p: T -> bool)
    requires xs != []
    ensures Filter(xs, p) == (if p(xs[0]) then [xs[0]] else []) + Filter(xs[1..], p)
  {
  }

  /** Concatenation is associative. A proof helper for `FilterAppend`:
      stated there in place of its own assertion, the step runs out of
      resources, because `Filter`'s quantified postconditions are in scope. */
  lemma ConcatAssoc<T>(a: seq<T>, b: seq<T>, c: seq<T>)
    ensures a + (b + c) == (a + b) + c
  {
  }

  /** Filtering distributes over concatenation. */
  lemma {:induction false} FilterAppend<T(!new)>(a: seq<T>, b: seq<T>, p: T -> bool)
    ensures Filter(a + b, p) == Filter(a, p) + Filter(b, p)
    decreases |a|
  {
    if a == [] {
      assert a + b == b;
    } else {
      var ab := a + b;
      assert ab[0] == a[0] && ab[1..] == a[1..] + b;
      FilterAppend(a[1..], b, p);
      FilterCons(ab, p);
      FilterCons(a, p);
      var head: seq<T> := if p(a[0]) then [a[0]] else [];
      var x, y := Filter(a[1..], p), Filter(b, p);
      assert Filter(ab, p) == head + (x + y);
      assert Filter(a, p) == head + x;
      ConcatAssoc(head, x, y);
    }
  }

  /** Filters with predicates that agree on the input agree. */
  lemma {:induction false} FilterCongruent<T(!new)>(xs: seq<T>, p: T -> bool, q: T -> bool)
    requires forall x :: x in xs ==> p(x) == q(x)
    ensures Filter(xs, p) == Filter(xs, q)
    decreases |xs|
  {
    if xs != [] {
      assert xs[0] in xs;
      assert forall x :: x in xs[1..] ==> x in xs;
      FilterCongruent(xs[1..], p, q);
    }
  }

  /** Filtering twice with the same predicate is filtering once. */
  lemma FilterIdempotent<T(!new)>(xs: seq<T>, p: T -> bool)
    ensures Filter(Filter(xs, p), p) == Filter(xs, p)
  {
  }

  /** Every position moved one place to the right. */
  function Shift(idx: seq<nat>): (r: seq<nat>)
  {
    seq(|idx|, k requires 0 <= k < |idx| => idx[k] + 1)
  }

  /** Prepending an element to `b` that `a` skips, or that `a` starts with. */
  lemma EmbedsCons<T>(idx: seq<nat>, a: seq<T>, b: seq<T>, x: T)
    requires Embeds(idx, a, b)
    ensures Embeds(Shift(idx), a, [x] + b)
    ensures Embeds([0] + Shift(idx), [x] + a, [x] + b)
  {
    var sh := Shift(idx);
    assert forall k :: 0 <= k < |sh| ==> ([x] + b)[sh[k]] == b[idx[k]];
    var full := [0] + sh;
    forall k | 0 <= k < |full|
      ensures full[k] < |[x] + b| && ([x] + a)[k] == ([x] + b)[full[k]]
    {
      if k > 0 {
        assert full[k] == sh[k - 1];
        assert ([x] + a)[k] == a[k - 1];
      }
    }
  }

  /** Builds the position list witnessing that a filter result is a
      subsequence of its input. */
  lemma {:induction false} FilterEmbedding<T(!new)>(xs: seq<T>, p: T -> bool) returns (idx: seq<nat>)
    ensures Embeds(idx, Filter(xs, p), xs)
    decreases |xs|
  {
    if xs == [] {
      idx := [];
    } else {
      var inner := FilterEmbedding(xs[1..], p);
      EmbedsCons(inner, Filter(xs[1..], p), xs[1..], xs[0]);
      assert xs == [xs[0]] + xs[1..];
      idx := if p(xs[0]) then [0] + Shift(inner) else Shift(inner);
    }
  }

  /** The result of a filter is an order-preserving subsequence of its input. */
  lemma FilterIsSubseq<T(!new)>(xs: seq<T>, p: T -> bool)
    ensures IsSubseq(Filter(xs, p), xs)
  {
    var idx := FilterEmbedding(xs, p);
  }

  /** The positions from `k` on that pass the test are position `k`, if it
      passes, and those from `k + 1` on. */
  lemma IndexSetStep<T>(xs: seq<T>, p: T -> bool, k: nat)
    requires k < |xs|
    ensures |set i | k <= i < |xs| && p(xs[i])|
         == (if p(xs[k]) then 1 else 0) + |set i | k + 1 <= i < |xs| && p(xs[i])|
  {
    var s := set i | k <= i < |xs| && p(xs[i]);
    var s' := set i | k + 1 <= i < |xs| && p(xs[i]);
    if p(xs[k]) {
      assert s == s' + {k};
      assert k !in s';
    } else {
      assert s == s';
    }
  }

  /** Counting over the suffix of `xs` that starts at position `k`. */
  lemma {:induction false} SuffixCount<T(!new)>(xs: seq<T>, p: T -> bool, k: nat)
    requires k <= |xs|
    ensures |Filter(xs[k..], p)| == |set i | k <= i < |xs| && p(xs[i])|
    decreases |xs| - k
  {
    if k < |xs| {
      SuffixCount(xs, p, k + 1);
      IndexSetStep(xs, p, k);
      var t := xs[k..];
      assert t[0] == xs[k] && t[1..] == xs[k + 1..];
      assert |Filter(t, p)| == (if p(xs[k]) then 1 else 0) + |Filter(xs[k + 1..], p)|;
    }
  }

  /** When exactly one position passes the test, the count is one. */
  lemma CountWhereOne<T>(xs: seq<T>, p: T -> bool, k: nat)
    requires k < |xs| && p(xs[k])
    requires forall i :: 0 <= i < |xs| && i != k ==> !p(xs[i])
    ensures CountWhere(xs, p) == 1
  {
    assert (set i | 0 <= i < |xs| && p(xs[i])) == {k};
  }

  /** The length of a filter result is the number of positions whose
      element satisfies the predicate. */
  lemma FilterLength<T(!new)>(xs: seq<T>, p: T -> bool)
    ensures |Filter(xs, p)| == CountWhere(xs, p)
  {
    SuffixCount(xs, p, 0);
    assert xs[0..] == xs;
  }

  /** When every element satisfies exactly one of three predicates, the
      three filters together keep as many elements as the input has. */
  lemma {:induction false} FilterPartition3<T(!new)>(xs: seq<T>, p: T -> bool, q: T -> bool, r: T -> bool)
    requires forall x :: x in xs ==>
               (p(x) && !q(x) && !r(x)) || (!p(x) && q(x) && !r(x)) || (!p(x) && !q(x) && r(x))
    ensures |Filter(xs, p)| + |Filter(xs, q)| + |Filter(xs, r)| == |xs|
    decreases |xs|
  {
    if xs != [] {
      assert xs[0] in xs;
      assert forall x :: x in xs[1..] ==> x in xs;
      FilterPartition3(xs[1..], p, q, r);
    }
  }
}
