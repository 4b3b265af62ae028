/** The array operations the page components use on their lists: `filter`,
    `slice(-n).reverse()`, `slice(0, n)`, `Array.from(new Set(..))` and the
    removal of one entry by index. */
module Seqs {

  datatype Option<T> = None | Some(value: T)

  /** `xs` can be obtained from `ys` by deleting entries (order is kept). */
  predicate IsSubseq<T(==)>(xs: seq<T>, ys: seq<T>)
    decreases |ys|
  {
    if |xs| == 0 then true
    else if |ys| == 0 then false
    else if xs[0] == ys[0] then IsSubseq(xs[1..], ys[1..])
    else IsSubseq(xs, ys[1..])
  }

  /** `xs.filter(p)`. */
  function Filter<T>(xs: seq<T>, p: T -> bool): (r: seq<T>)
    ensures |r| <= |xs|
    ensures forall i :: 0 <= i < |r| ==> r[i] in xs && p(r[i])
    ensures forall i :: 0 <= i < |xs| && p(xs[i]) ==> xs[i] in r
  {
    if |xs| == 0 then [] else (if p(xs[0]) then [xs[0]] else []) + Filter(xs[1..], p)
  }

  /** Filtering keeps the order of what it keeps. */
  lemma {:induction false} FilterIsSubseq<T>(xs: seq<T>, p: T -> bool)
    ensures IsSubseq(Filter(xs, p), xs)
  {
    if |xs| > 0 {
      FilterIsSubseq(xs[1..], p);
      var r := Filter(xs, p);
      if p(xs[0]) {
        assert r[0] == xs[0] && r[1..] == Filter(xs[1..], p);
      } else {
        assert r == Filter(xs[1..], p);
        SubseqDropHead(r, xs);
      }
    }
  }

  lemma {:induction false} SubseqDropHead<T>(r: seq<T>, xs: seq<T>)
    requires |xs| > 0 && IsSubseq(r, xs[1..])
    ensures IsSubseq(r, xs)
    decreases |xs|, |r|
  {
    if |r| > 0 && r[0] == xs[0] {
      SubseqTail(r, xs[1..]);
    }
  }

  lemma {:induction false} SubseqTail<T>(r: seq<T>, xs: seq<T>)
    requires |r| > 0 && IsSubseq(r, xs)
    ensures IsSubseq(r[1..], xs)
    decreases |xs|, |r|
  {
    if r[0] == xs[0] {
      if |r| > 1 { SubseqDropHead(r[1..], xs); }
    } else {
      SubseqTail(r, xs[1..]);
      SubseqDropHead(r[1..], xs);
    }
  }

  /** The complement of a test. */
  function Not<T>(p: T -> bool): T -> bool
  {
    x => !p(x)
  }

  /** Filtering twice with complementary predicates splits a list into two
      parts that together are a permutation of it. */
  lemma {:induction false} FilterPartition<T>(xs: seq<T>, p: T -> bool)
    ensures multiset(Filter(xs, p)) + multiset(Filter(xs, Not(p))) == multiset(xs)
  {
    if |xs| > 0 {
      FilterPartition(xs[1..], p);
      PartitionStep(xs, p(xs[0]), Filter(xs, p), Filter(xs, Not(p)), Filter(xs[1..], p), Filter(xs[1..], Not(p)));
    }
  }

  /** Putting the head of `xs` on exactly one of two parts of its tail makes
      them parts of `xs`. */
  lemma PartitionStep<T>(xs: seq<T>, left: bool, fa: seq<T>, fb: seq<T>, a: seq<T>, b: seq<T>)
    requires |xs| > 0 && multiset(a) + multiset(b) == multiset(xs[1..])
    requires fa == (if left then [xs[0]] else []) + a
    requires fb == (if !left then [xs[0]] else []) + b
    ensures multiset(fa) + multiset(fb) == multiset(xs)
  {
    assert xs == [xs[0]] + xs[1..];
  }

  /** Filtering keeps every copy of what passes `p` and no copy of anything
      else. */
  lemma {:induction false} FilterCounts<T>(xs: seq<T>, p: T -> bool)
    ensures forall x :: multiset(Filter(xs, p))[x] == if p(x) then multiset(xs)[x] else 0
  {
    if |xs| > 0 {
      FilterCounts(xs[1..], p);
      CountStep(xs, p, Filter(xs, p), Filter(xs[1..], p));
    }
  }

  /** One step of FilterCounts: the head of `xs` is kept exactly when it passes. */
  lemma CountStep<T>(xs: seq<T>, p: T -> bool, fr: seq<T>, r: seq<T>)
    requires |xs| > 0
    requires forall x :: multiset(r)[x] == if p(x) then multiset(xs[1..])[x] else 0
    requires fr == (if p(xs[0]) then [xs[0]] else []) + r
    ensures forall x :: multiset(fr)[x] == if p(x) then multiset(xs)[x] else 0
  {
    assert xs == [xs[0]] + xs[1..];
  }

  /** Filtering with a test every entry passes keeps the whole list. */
  lemma {:induction false} FilterKeepsAll<T>(xs: seq<T>, p: T -> bool)
    requires forall i :: 0 <= i < |xs| ==> p(xs[i])
    ensures Filter(xs, p) == xs
  {
    if |xs| > 0 {
      FilterKeepsAll(xs[1..], p);
    }
  }

  /** Filtering an extended list is filtering the list, then the new entry. */
  lemma {:induction false} FilterSnoc<T>(xs: seq<T>, x: T, p: T -> bool)
    ensures Filter(xs + [x], p) == Filter(xs, p) + (if p(x) then [x] else [])
  {
    if |xs| > 0 {
      assert (xs + [x])[1..] == xs[1..] + [x];
      FilterSnoc(xs[1..], x, p);
    } else {
      assert xs + [x] == [x];
    }
  }

  /** Filtering with a test no entry passes keeps nothing. */
  lemma {:induction false} FilterDropsAll<T>(xs: seq<T>, p: T -> bool)
    requires forall i :: 0 <= i < |xs| ==> !p(xs[i])
    ensures Filter(xs, p) == []
  {
    if |xs| > 0 {
      FilterDropsAll(xs[1..], p);
    }
  }

  /** Filtering distributes over concatenation. */
  lemma {:induction false} FilterAppend<T>(xs: seq<T>, ys: seq<T>, p: T -> bool)
    ensures Filter(xs + ys, p) == Filter(xs, p) + Filter(ys, p)
  {
    if |xs| > 0 {
      assert (xs + ys)[1..] == xs[1..] + ys;
      FilterAppend(xs[1..], ys, p);
    } else {
      assert xs + ys == ys;
    }
  }

  /** A list made of entries that pass `p` followed by entries that fail it
      filters back into those two parts, and never has a passing entry after
      a failing one. */
  lemma SplitAtBoundary<T>(front: seq<T>, back: seq<T>, p: T -> bool)
    requires forall i :: 0 <= i < |front| ==> p(front[i])
    requires forall i :: 0 <= i < |back| ==> !p(back[i])
    ensures Filter(front + back, p) == front
    ensures Filter(front + back, Not(p)) == back
    ensures forall i, j :: 0 <= i < j < |front + back| && !p((front + back)[i]) ==> !p((front + back)[j])
  {
    PassingPart(front, back, p);
    FailingPart(front, back, p);
  }

  /** The passing entries of such a list are its front. */
  lemma PassingPart<T>(front: seq<T>, back: seq<T>, p: T -> bool)
    requires forall i :: 0 <= i < |front| ==> p(front[i])
    requires forall i :: 0 <= i < |back| ==> !p(back[i])
    ensures Filter(front + back, p) == front
  {
    FilterAppend(front, back, p);
    FilterKeepsAll(front, p);
    FilterDropsAll(back, p);
    assert Filter(front, p) + Filter(back, p) == front + [];
  }

  /** The failing entries of such a list are its back. */
  lemma FailingPart<T>(front: seq<T>, back: seq<T>, p: T -> bool)
    requires forall i :: 0 <= i < |front| ==> p(front[i])
    requires forall i :: 0 <= i < |back| ==> !p(back[i])
    ensures Filter(front + back, Not(p)) == back
  {
    FilterAppend(front, back, Not(p));
    FilterDropsAll(front, Not(p));
    FilterKeepsAll(back, Not(p));
    assert Filter(front, Not(p)) + Filter(back, Not(p)) == [] + back;
  }

  /** `[...xs.filter(p), ...xs.filter(x => !p(x))]`: a stable partition. The
      result is a permutation of `xs`; no entry passing `p` comes after one
      that fails it; and the entries passing `p`, like those failing it, are in
      the order they had in `xs`. */
  function FlaggedFirst<T>(xs: seq<T>, p: T -> bool): (r: seq<T>)
    ensures |r| == |xs|
    ensures multiset(r) == multiset(xs)
    ensures forall i, j :: 0 <= i < j < |r| && !p(r[i]) ==> !p(r[j])
    ensures Filter(r, p) == Filter(xs, p)
    ensures Filter(r, Not(p)) == Filter(xs, Not(p))
  {
    FilterPartition(xs, p);
    SplitAtBoundary(Filter(xs, p), Filter(xs, Not(p)), p);
    assert |multiset(Filter(xs, p) + Filter(xs, Not(p)))| == |multiset(xs)|;
    Filter(xs, p) + Filter(xs, Not(p))
  }

  function Reverse<T>(xs: seq<T>): (r: seq<T>)
    ensures |r| == |xs|
    ensures forall i :: 0 <= i < |xs| ==> r[i] == xs[|xs| - 1 - i]
  {
    if |xs| == 0 then [] else Reverse(xs[1..]) + [xs[0]]
  }

  /** `xs.slice(-n).reverse()` for n > 0: the last n entries, newest first. */
  function NewestFirst<T>(xs: seq<T>, n: nat): (r: seq<T>)
    requires n > 0
    ensures |r| == if |xs| < n then |xs| else n
    ensures forall i :: 0 <= i < |r| ==> r[i] == xs[|xs| - 1 - i]
  {
    var last := if |xs| < n then xs else xs[|xs| - n..];
    Reverse(last)
  }

  /** `xs.slice(0, n)`. */
  function Take<T>(xs: seq<T>, n: nat): (r: seq<T>)
    ensures |r| == if |xs| < n then |xs| else n
    ensures r <= xs
  {
    if |xs| < n then xs else xs[..n]
  }

  /** `Array.from(new Set(xs))`: the first occurrence of every value, in order. */
  function Dedup<T(==)>(xs: seq<T>): (r: seq<T>)
    ensures forall i :: 0 <= i < |r| ==> r[i] in xs
    ensures forall i :: 0 <= i < |xs| ==> xs[i] in r
    ensures forall i, j :: 0 <= i < j < |r| ==> r[i] != r[j]
  {
    if |xs| == 0 then []
    else
      var d := Dedup(xs[..|xs| - 1]);
      assert xs == xs[..|xs| - 1] + [xs[|xs| - 1]];
      if xs[|xs| - 1] in d then d else d + [xs[|xs| - 1]]
  }

  /** Deduplication keeps a subsequence of its input; DedupFirstOrder states
      that the values come in the order of their first occurrences. */
  lemma {:induction false} DedupIsSubseq<T>(xs: seq<T>)
    ensures IsSubseq(Dedup(xs), xs)
  {
    if |xs| > 0 {
      var front := xs[..|xs| - 1];
      DedupIsSubseq(front);
      var d := Dedup(front);
      if xs[|xs| - 1] in d {
        SubseqAppendRight(d, front, [xs[|xs| - 1]]);
      } else {
        SubseqAppendBoth(d, front, xs[|xs| - 1]);
      }
      assert front + [xs[|xs| - 1]] == xs;
    }
  }

  /** The index at which `x` first occurs in `xs`. */
  function FirstIndex<T(==)>(xs: seq<T>, x: T): (i: nat)
    requires x in xs
    ensures i < |xs| && xs[i] == x
    ensures forall k :: 0 <= k < i ==> xs[k] != x
  {
    if xs[0] == x then 0 else 1 + FirstIndex(xs[1..], x)
  }

  /** An index with no earlier occurrence is the first index. */
  lemma FirstIndexAt<T>(xs: seq<T>, x: T, i: int)
    requires 0 <= i < |xs| && xs[i] == x
    requires forall k :: 0 <= k < i ==> xs[k] != x
    ensures FirstIndex(xs, x) == i
  {
  }

  /** Every value of `r` occurs in `xs`, and `r` lists them in the order of
      their first occurrences in `xs`. */
  predicate InFirstOrder<T(==)>(r: seq<T>, xs: seq<T>)
  {
    && (forall i :: 0 <= i < |r| ==> r[i] in xs)
    && (forall i, j :: 0 <= i < j < |r| ==> FirstIndex(xs, r[i]) < FirstIndex(xs, r[j]))
  }

  /** Deduplication lists the values in the order they first occur. */
  lemma {:induction false} DedupFirstOrder<T>(xs: seq<T>)
    ensures InFirstOrder(Dedup(xs), xs)
  {
    if |xs| > 0 {
      var front := xs[..|xs| - 1];
      DedupFirstOrder(front);
      assert xs == front + [xs[|xs| - 1]];
      FirstOrderStep(xs, front, Dedup(front), Dedup(xs));
    }
  }

  /** One step of DedupFirstOrder: `r` is `d`, or `d` and a value new to `xs`. */
  lemma FirstOrderStep<T>(xs: seq<T>, front: seq<T>, d: seq<T>, r: seq<T>)
    requires |xs| > 0 && xs == front + [xs[|xs| - 1]]
    requires InFirstOrder(d, front)
    requires r == d || (r == d + [xs[|xs| - 1]] && xs[|xs| - 1] !in front)
    ensures InFirstOrder(r, xs)
  {
    var n := |xs| - 1;
    forall i | 0 <= i < |d| ensures d[i] in xs && FirstIndex(xs, d[i]) == FirstIndex(front, d[i]) < n {
      var f := FirstIndex(front, d[i]);
      assert xs[f] == front[f];
      FirstIndexAt(xs, d[i], f);
    }
    if r != d {
      FirstIndexAt(xs, xs[n], n);
    }
  }

  lemma {:induction false} SubseqAppendRight<T>(r: seq<T>, xs: seq<T>, ys: seq<T>)
    requires IsSubseq(r, xs)
    ensures IsSubseq(r, xs + ys)
    decreases |xs|
  {
    if |r| > 0 {
      assert (xs + ys)[1..] == xs[1..] + ys;
      if r[0] == xs[0] {
        SubseqAppendRight(r[1..], xs[1..], ys);
      } else {
        SubseqAppendRight(r, xs[1..], ys);
      }
    }
  }

  lemma {:induction false} SubseqAppendBoth<T>(r: seq<T>, xs: seq<T>, x: T)
    requires IsSubseq(r, xs)
    ensures IsSubseq(r + [x], xs + [x])
    decreases |xs|
  {
    if |r| == 0 {
      if |xs| > 0 {
        assert (xs + [x])[1..] == xs[1..] + [x];
        SubseqAppendBoth(r, xs[1..], x);
        SubseqDropHead(r + [x], xs + [x]);
      }
    } else {
      assert (xs + [x])[1..] == xs[1..] + [x];
      assert (r + [x])[1..] == r[1..] + [x];
      if r[0] == xs[0] {
        SubseqAppendBoth(r[1..], xs[1..], x);
      } else {
        SubseqAppendBoth(r, xs[1..], x);
      }
    }
  }

  /** `xs.filter((_, j) => j !== i)`: drops entry i, a no-op when i is out of range. */
  function RemoveAt<T>(xs: seq<T>, i: int): (r: seq<T>)
    ensures 0 <= i < |xs| ==> |r| == |xs| - 1
    ensures 0 <= i < |xs| ==> forall k :: 0 <= k < i ==> r[k] == xs[k]
    ensures 0 <= i < |xs| ==> forall k :: i <= k < |r| ==> r[k] == xs[k + 1]
    ensures !(0 <= i < |xs|) ==> r == xs
  {
    if 0 <= i < |xs| then xs[..i] + xs[i + 1..] else xs
  }
}
