/**
 Python list idioms the application is built from: the filtering list
 comprehension `[x for x in s if p(x)]`, the stride-2 slices `s[::2]` and
 `s[1::2]`, and the substring test `t in s` on strings.
 */
module Sequences {

  /** `[x for x in s if p(x)]` */
  function Filter<T(!new)>(s: seq<T>, p: T -> bool): (r: seq<T>)
    ensures |r| <= |s|
    ensures forall x :: x in r <==> x in s && p(x)
  {
    if |s| == 0 then []
    else
      var rest := Filter(s[1..], p);
      assert forall x :: x in s <==> x == s[0] || x in s[1..];
      (if p(s[0]) then [s[0]] else []) + rest
  }

  /** `idx` lists, in increasing order, positions of `b` that spell out `a`. */
  ghost predicate Embedding<T>(idx: seq<nat>, a: seq<T>, b: seq<T>)
  {
    && |idx| == |a|
    && (forall i :: 0 <= i < |idx| ==> idx[i] < |b| && a[i] == b[idx[i]])
    && (forall i, j :: 0 <= i < j < |idx| ==> idx[i] < idx[j])
  }

  /** `a` is an order-preserving subsequence of `b`. */
  ghost predicate IsSubsequence<T>(a: seq<T>, b: seq<T>)
  {
    exists idx :: Embedding(idx, a, b)
  }

  /** Every position moved one place to the right. */
  function Shift(idx: seq<nat>): (r: seq<nat>)
    ensures |r| == |idx|
    ensures forall i :: 0 <= i < |r| ==> r[i] == idx[i] + 1
  {
    seq(|idx|, i requires 0 <= i < |idx| => idx[i] + 1)
  }

  lemma ShiftMembers(idx: seq<nat>)
    ensures 0 !in Shift(idx)
    ensures forall k :: k in idx <==> k + 1 in Shift(idx)
  {
  }

  lemma ShiftEmbedding<T>(idx: seq<nat>, a: seq<T>, s: seq<T>)
    requires |s| > 0 && Embedding(idx, a, s[1..])
    ensures Embedding(Shift(idx), a, s)
    ensures Embedding([0] + Shift(idx), [s[0]] + a, s)
  {
  }

  /** The comprehension keeps exactly the positions of `s` whose element
      satisfies `p`, in their original order, duplicates included. */
  lemma {:induction false} FilterPositions<T(!new)>(s: seq<T>, p: T -> bool) returns (idx: seq<nat>)
    ensures Embedding(idx, Filter(s, p), s)
    ensures forall k :: 0 <= k < |s| ==> (k in idx <==> p(s[k]))
  {
    if |s| == 0 {
      idx := [];
    } else {
      var tail := FilterPositions(s[1..], p);
      ShiftEmbedding(tail, Filter(s[1..], p), s);
      ShiftMembers(tail);
      var shifted := Shift(tail);
      assert forall k :: 1 <= k < |s| ==> s[k] == s[1..][k - 1];
      if p(s[0]) {
        idx := [0] + shifted;
        assert Filter(s, p) == [s[0]] + Filter(s[1..], p);
      } else {
        idx := shifted;
        assert Filter(s, p) == Filter(s[1..], p);
      }
      assert forall k :: 1 <= k < |s| ==> (k in idx <==> k - 1 in tail);
    }
  }

  lemma FilterIsSubsequence<T(!new)>(s: seq<T>, p: T -> bool)
    ensures IsSubsequence(Filter(s, p), s)
  {
    var idx := FilterPositions(s, p);
  }

  /** A comprehension whose condition holds of every element copies the list. */
  lemma {:induction false} FilterAll<T(!new)>(s: seq<T>, p: T -> bool)
    requires forall x :: x in s ==> p(x)
    ensures Filter(s, p) == s
  {
    if |s| > 0 {
      FilterAll(s[1..], p);
      assert s == [s[0]] + s[1..];
    }
  }

  /** A comprehension whose condition fails on every element is empty. */
  lemma {:induction false} FilterNone<T(!new)>(s: seq<T>, p: T -> bool)
    requires forall x :: x in s ==> !p(x)
    ensures Filter(s, p) == []
  {
    if |s| > 0 {
      FilterNone(s[1..], p);
    }
  }

  /** Conditions that agree on the elements of `s` keep the same elements. */
  lemma {:induction false} FilterAgree<T(!new)>(s: seq<T>, p: T -> bool, q: T -> bool)
    requires forall x :: x in s ==> p(x) == q(x)
    ensures Filter(s, p) == Filter(s, q)
  {
    if |s| > 0 {
      FilterAgree(s[1..], p, q);
    }
  }

  /** Two comprehensions in a row are one comprehension over the conjunction. */
  lemma {:induction false} FilterFilter<T(!new)>(s: seq<T>, p: T -> bool, q: T -> bool, pq: T -> bool)
    requires forall x :: x in s ==> pq(x) == (p(x) && q(x))
    ensures Filter(Filter(s, p), q) == Filter(s, pq)
  {
    if |s| > 0 {
      FilterFilter(s[1..], p, q, pq);
      if p(s[0]) {
        assert Filter(s, p) == [s[0]] + Filter(s[1..], p);
        assert Filter(s, p)[1..] == Filter(s[1..], p);
      } else {
        assert Filter(s, p) == Filter(s[1..], p);
      }
    }
  }

  /** `s[::2]`: the elements at even positions. */
  function EvenIndexed<T>(s: seq<T>): (r: seq<T>)
    ensures |r| == (|s| + 1) / 2
    ensures forall i :: 0 <= i < |r| ==> r[i] == s[2 * i]
  {
    if |s| <= 1 then s
    else
      var rest := EvenIndexed(s[2..]);
      [s[0]] + rest
  }

  /** `s[1::2]`: the elements at odd positions. */
  function OddIndexed<T>(s: seq<T>): (r: seq<T>)
    ensures |r| == |s| / 2
    ensures forall i :: 0 <= i < |r| ==> r[i] == s[2 * i + 1]
  {
    if |s| == 0 then [] else EvenIndexed(s[1..])
  }

  /** Alternates the elements of `a` and `b`, starting with `a`'s first. */
  function Interleave<T>(a: seq<T>, b: seq<T>): (r: seq<T>)
    ensures |r| == |a| + |b|
    decreases |a| + |b|
  {
    if |a| == 0 then b else [a[0]] + Interleave(b, a[1..])
  }

  /** Reading the even and the odd positions alternately gives `s` back. */
  lemma {:induction false} InterleaveSplit<T>(s: seq<T>)
    ensures Interleave(EvenIndexed(s), OddIndexed(s)) == s
    decreases |s|
  {
    if |s| >= 2 {
      InterleaveSplit(s[2..]);
      assert EvenIndexed(s) == [s[0]] + EvenIndexed(s[2..]);
      if |s| == 2 {
        assert OddIndexed(s) == [s[1]];
      } else {
        assert OddIndexed(s) == [s[1]] + OddIndexed(s[2..]) by {
          assert s[1..][2..] == s[3..] && s[2..][1..] == s[3..];
        }
      }
      assert s == [s[0], s[1]] + s[2..];
    } else if |s| == 1 {
      assert OddIndexed(s) == [];
    }
  }

  /** `t` occurs in `s` starting at some position. */
  ghost predicate OccursIn<T>(t: seq<T>, s: seq<T>)
  {
    exists i :: 0 <= i <= |s| - |t| && s[i..][..|t|] == t
  }

  /** An occurrence is at the front or in the tail. */
  lemma OccursStep<T>(t: seq<T>, s: seq<T>)
    requires |s| >= |t|
    ensures OccursIn(t, s) <==> s[..|t|] == t || (|s| > 0 && OccursIn(t, s[1..]))
  {
    if s[..|t|] == t {
      assert s[0..][..|t|] == t;
    }
    if |s| > 0 && OccursIn(t, s[1..]) {
      var i :| 0 <= i <= |s| - 1 - |t| && s[1..][i..][..|t|] == t;
      assert s[i + 1..] == s[1..][i..];
    }
    if OccursIn(t, s) && s[..|t|] != t {
      var i :| 0 <= i <= |s| - |t| && s[i..][..|t|] == t;
      assert i > 0;
      assert s[1..][i - 1..] == s[i..];
    }
  }

  /** Python's `t in s` on strings: `t` occurs in `s` as a contiguous piece. */
  predicate Contains<T(==)>(s: seq<T>, t: seq<T>)
    ensures Contains(s, t) <==> OccursIn(t, s)
    decreases |s|
  {
    if |s| < |t| then false
    else
      OccursStep(t, s);
      s[..|t|] == t || (|s| > 0 && Contains(s[1..], t))
  }
}
