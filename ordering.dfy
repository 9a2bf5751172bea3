/**
 The ordering Python's `sorted` uses on `str` values, and `sorted(set(xs))`:
 the strictly increasing enumeration of the distinct strings of `xs`.
 */
module Ordering {

  /** `a` and `b` agree before position `k` and `a` has the smaller code point there. */
  ghost predicate DiffersBelowAt(a: string, b: string, k: int)
  {
    0 <= k < |a| && k < |b| && a[..k] == b[..k] && a[k] < b[k]
  }

  /** The order by first difference: `a` is a proper prefix of `b`, or at the
      first position where they differ `a` has the smaller code point. */
  ghost predicate FirstDifferenceBelow(a: string, b: string)
  {
    || (|a| < |b| && a == b[..|a|])
    || exists k :: DiffersBelowAt(a, b, k)
  }

  lemma DiffersBelowAtShift(a: string, b: string, k: int)
    requires |a| > 0 && |b| > 0 && a[0] == b[0] && k >= 1
    ensures DiffersBelowAt(a, b, k) <==> DiffersBelowAt(a[1..], b[1..], k - 1)
  {
    if k <= |a| && k <= |b| {
      assert a[..k] == [a[0]] + a[1..][..k - 1];
      assert b[..k] == [b[0]] + b[1..][..k - 1];
    }
  }

  lemma DiffersBelowAtHead(a: string, b: string, k: int)
    requires |a| > 0 && |b| > 0 && a[0] != b[0]
    ensures DiffersBelowAt(a, b, k) <==> k == 0 && a[0] < b[0]
  {
    assert a[..0] == b[..0];
    if 0 < k <= |a| && k <= |b| {
      assert a[..k][0] == a[0] && b[..k][0] == b[0];
    }
  }

  lemma ProperPrefixShift(a: string, b: string)
    requires |a| > 0 && |b| > 0 && a[0] == b[0]
    ensures (|a| < |b| && a == b[..|a|]) <==> (|a| - 1 < |b| - 1 && a[1..] == b[1..][..|a| - 1])
  {
    if |a| < |b| {
      assert a == [a[0]] + a[1..];
      assert b[..|a|] == [b[0]] + b[1..][..|a| - 1];
    }
  }

  /** `FirstDifferenceBelow` on two non-empty strings is decided by their heads and tails. */
  lemma FirstDifferenceStep(a: string, b: string)
    requires |a| > 0 && |b| > 0
    ensures FirstDifferenceBelow(a, b) <==>
      if a[0] != b[0] then a[0] < b[0] else FirstDifferenceBelow(a[1..], b[1..])
  {
    if a[0] == b[0] {
      ProperPrefixShift(a, b);
      assert !DiffersBelowAt(a, b, 0);
      forall k | k >= 0 ensures DiffersBelowAt(a, b, k + 1) <==> DiffersBelowAt(a[1..], b[1..], k) {
        DiffersBelowAtShift(a, b, k + 1);
      }
      if exists k :: DiffersBelowAt(a, b, k) {
        var k :| DiffersBelowAt(a, b, k);
        assert DiffersBelowAt(a[1..], b[1..], k - 1);
      }
    } else {
      forall k ensures DiffersBelowAt(a, b, k) <==> k == 0 && a[0] < b[0] {
        DiffersBelowAtHead(a, b, k);
      }
      if a[0] < b[0] {
        assert DiffersBelowAt(a, b, 0);
      }
    }
  }

  /** Python's `a < b` on `str`: lexicographic by code point, a proper prefix first. */
  predicate Below(a: string, b: string)
    ensures Below(a, b) <==> FirstDifferenceBelow(a, b)
    decreases |a|
  {
    if |a| == 0 then |b| > 0
    else if |b| == 0 then false
    else
      FirstDifferenceStep(a, b);
      if a[0] != b[0] then a[0] < b[0]
      else Below(a[1..], b[1..])
  }

  lemma {:induction false} BelowIrreflexive(a: string)
    ensures !Below(a, a)
    decreases |a|
  {
    if |a| > 0 {
      BelowIrreflexive(a[1..]);
    }
  }

  lemma {:induction false} BelowTransitive(a: string, b: string, c: string)
    requires Below(a, b) && Below(b, c)
    ensures Below(a, c)
    decreases |a|
  {
    if |a| > 0 && a[0] == b[0] && b[0] == c[0] {
      BelowTransitive(a[1..], b[1..], c[1..]);
    }
  }

  lemma {:induction false} BelowTotal(a: string, b: string)
    ensures a == b || Below(a, b) || Below(b, a)
    decreases |a|
  {
    if |a| > 0 && |b| > 0 && a[0] == b[0] {
      BelowTotal(a[1..], b[1..]);
      if a[1..] == b[1..] {
        assert a == [a[0]] + a[1..] && b == [b[0]] + b[1..];
      }
    }
  }

  lemma BelowAsymmetric(a: string, b: string)
    requires Below(a, b)
    ensures !Below(b, a)
  {
    if Below(b, a) {
      BelowTransitive(a, b, a);
      BelowIrreflexive(a);
    }
  }

  /** Strictly increasing, hence also free of duplicates. */
  predicate StrictlySorted(s: seq<string>)
  {
    forall i, j :: 0 <= i < j < |s| ==> Below(s[i], s[j])
  }

  /** Adds `x` to a strictly sorted sequence at its place, unless it is already there. */
  function Insert(x: string, s: seq<string>): (r: seq<string>)
    requires StrictlySorted(s)
    ensures StrictlySorted(r)
    ensures forall y :: y in r <==> y == x || y in s
  {
    if |s| == 0 then [x]
    else if x == s[0] then s
    else if Below(x, s[0]) then
      assert forall j :: 0 <= j < |s| ==> Below(x, s[j]) by {
        forall j | 0 <= j < |s| ensures Below(x, s[j]) {
          if j > 0 { BelowTransitive(x, s[0], s[j]); }
        }
      }
      [x] + s
    else
      BelowTotal(x, s[0]);
      var tail := Insert(x, s[1..]);
      assert forall y :: y in s[1..] ==> Below(s[0], y);
      [s[0]] + tail
  }

  /** `sorted(set(xs))` */
  function SortedSet(xs: seq<string>): (r: seq<string>)
    ensures StrictlySorted(r)
    ensures forall y :: y in r <==> y in xs
  {
    if |xs| == 0 then []
    else
      var rest := SortedSet(xs[1..]);
      assert forall y :: y in xs <==> y == xs[0] || y in xs[1..];
      Insert(xs[0], rest)
  }

  /** The tail of a strictly sorted sequence holds everything but its head. */
  lemma TailElements(s: seq<string>)
    requires StrictlySorted(s) && |s| > 0
    ensures forall y :: y in s[1..] <==> y in s && y != s[0]
  {
    forall y | y in s[1..] ensures y != s[0] {
      var i :| 1 <= i < |s| && s[i] == y;
      assert Below(s[0], s[i]);
      BelowIrreflexive(s[0]);
    }
  }

  /** A strictly sorted sequence lists as many strings as it holds distinct ones. */
  lemma {:induction false} DistinctCount(s: seq<string>)
    requires StrictlySorted(s)
    ensures |set x | x in s| == |s|
    decreases |s|
  {
    if |s| > 0 {
      DistinctCount(s[1..]);
      TailElements(s);
      assert (set x | x in s) == (set x | x in s[1..]) + {s[0]};
    }
  }

  /** A strictly sorted sequence is determined by its elements, so `SortedSet(xs)`
      is the one and only sorted, duplicate-free listing of the strings of `xs`. */
  lemma {:induction false} StrictlySortedUnique(a: seq<string>, b: seq<string>)
    requires StrictlySorted(a) && StrictlySorted(b)
    requires forall y :: y in a <==> y in b
    ensures a == b
    decreases |a|
  {
    assert |a| > 0 ==> a[0] in b;
    assert |b| > 0 ==> b[0] in a;
    if |a| > 0 && |b| > 0 {
      if a[0] != b[0] {
        assert a[0] in b && b[0] in a;
        var j :| 0 <= j < |b| && b[j] == a[0];
        var k :| 0 <= k < |a| && a[k] == b[0];
        assert Below(b[0], a[0]);
        assert Below(a[0], b[0]);
        BelowAsymmetric(a[0], b[0]);
      }
      TailElements(a);
      TailElements(b);
      StrictlySortedUnique(a[1..], b[1..]);
      assert a == [a[0]] + a[1..] && b == [b[0]] + b[1..];
    }
  }
}
