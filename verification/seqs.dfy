/** Sequence vocabulary shared by the cleaning, keyword and comment models. */
module Seqs {

  datatype Option<+T> = None | Some(value: T)

  function Min(a: int, b: int): int {
    if a <= b then a else b
  }

  /** No element occurs twice. */
  predicate Distinct<T(==)>(s: seq<T>) {
    forall i, j :: 0 <= i < j < |s| ==> s[i] != s[j]
  }

  /** The elements that `drop` rejects removed, the others kept in order. */
  function Without<T>(s: seq<T>, drop: T -> bool): seq<T>
    decreases |s|
  {
    if |s| == 0 then []
    else if drop(s[0]) then Without(s[1..], drop)
    else [s[0]] + Without(s[1..], drop)
  }

  /** Filtering distributes over concatenation. */
  lemma {:induction false} WithoutAppend<T>(a: seq<T>, b: seq<T>, drop: T -> bool)
    ensures Without(a + b, drop) == Without(a, drop) + Without(b, drop)
    decreases |a|
  {
    if |a| > 0 {
      assert (a + b)[0] == a[0];
      assert (a + b)[1..] == a[1..] + b;
      WithoutAppend(a[1..], b, drop);
    } else {
      assert a + b == b;
    }
  }

  /** Filtering keeps a sequence none of whose elements is dropped. */
  lemma {:induction false} WithoutKeepsAll<T>(s: seq<T>, drop: T -> bool)
    requires forall i :: 0 <= i < |s| ==> !drop(s[i])
    ensures Without(s, drop) == s
    decreases |s|
  {
    if |s| > 0 {
      WithoutKeepsAll(s[1..], drop);
      assert s == [s[0]] + s[1..];
    }
  }

  lemma AppendAssociative<T>(x: seq<T>, y: seq<T>, z: seq<T>)
    ensures (x + y) + z == x + (y + z)
  {
  }

  /** Two duplicate-free sequences with no common element concatenate to a duplicate-free one. */
  lemma DistinctAppend<T>(x: seq<T>, y: seq<T>)
    requires Distinct(x) && Distinct(y)
    requires forall i, j :: 0 <= i < |x| && 0 <= j < |y| ==> x[i] != y[j]
    ensures Distinct(x + y)
  {
    forall i, j | 0 <= i < j < |x + y|
      ensures (x + y)[i] != (x + y)[j]
    {
      if j < |x| {
        assert (x + y)[i] == x[i] && (x + y)[j] == x[j];
      } else if i < |x| {
        assert (x + y)[i] == x[i] && (x + y)[j] == y[j - |x|];
      } else {
        assert (x + y)[i] == y[i - |x|] && (x + y)[j] == y[j - |x|];
      }
    }
  }

  /** `order` lists each index 0 .. n-1 exactly once: the outcome of a shuffle of n items. */
  predicate IsPermutation(order: seq<nat>, n: nat) {
    && |order| == n
    && (forall i :: 0 <= i < n ==> order[i] < n)
    && Distinct(order)
  }

  /** The identity arrangement, always a valid shuffle outcome. */
  function Identity(n: nat): (order: seq<nat>)
    ensures IsPermutation(order, n)
  {
    seq(n, i requires 0 <= i < n => i)
  }

  lemma {:induction false} DistinctCardinality<T>(s: seq<T>)
    requires Distinct(s)
    ensures |set x | x in s| == |s|
  {
    if |s| > 0 {
      var init := s[..|s| - 1];
      DistinctCardinality(init);
      assert (set x | x in s) == (set x | x in init) + {s[|s| - 1]};
    }
  }

  /** The indices 0 .. n-1 as a set. */
  function Below(n: nat): (r: set<nat>)
    ensures forall i :: i in r <==> 0 <= i < n
    ensures |r| == n
  {
    if n == 0 then {} else Below(n - 1) + {n - 1}
  }

  lemma {:induction false} SubsetCardinality<T>(a: set<T>, b: set<T>)
    requires a <= b
    ensures |a| <= |b|
    decreases |a|
  {
    if a != {} {
      var x :| x in a;
      SubsetCardinality(a - {x}, b - {x});
    }
  }

  /** A shuffle outcome reaches every index: no item is lost by the rearrangement. */
  lemma PermutationIsOnto(order: seq<nat>, n: nat, k: nat)
    requires IsPermutation(order, n)
    requires k < n
    ensures exists i :: 0 <= i < n && order[i] == k
  {
    var hit := set x | x in order;
    DistinctCardinality(order);
    if k !in hit {
      SubsetCardinality(hit, Below(n) - {k});
      assert false;
    }
  }

  /** `xs` rearranged so that position i holds `xs[order[i]]` (Python's random.shuffle). */
  function Permute<T>(xs: seq<T>, order: seq<nat>): (r: seq<T>)
    requires IsPermutation(order, |xs|)
    ensures |r| == |xs|
    ensures forall i :: 0 <= i < |r| ==> r[i] in xs
    ensures forall k :: 0 <= k < |xs| ==> xs[k] in r
    ensures Distinct(xs) ==> Distinct(r)
  {
    var r := seq(|xs|, i requires 0 <= i < |xs| => xs[order[i]]);
    assert forall k :: 0 <= k < |xs| ==> xs[k] in r by {
      forall k | 0 <= k < |xs|
        ensures xs[k] in r
      {
        PermutationIsOnto(order, |xs|, k);
        var i :| 0 <= i < |xs| && order[i] == k;
        assert r[i] == xs[k];
      }
    }
    r
  }

  /** At most the first `n` elements (Python's `s[:n]`). */
  function Take<T>(s: seq<T>, n: nat): (r: seq<T>)
    ensures |r| == Min(n, |s|)
    ensures r <= s
  {
    s[..Min(n, |s|)]
  }

  /** `pat` appears as a contiguous block of `s`; Python's `pat in s` for strings. */
  predicate Occurs<T(==)>(pat: seq<T>, s: seq<T>)
    ensures Occurs(pat, s) ==> |pat| <= |s|
    ensures pat == [] ==> Occurs(pat, s)
    ensures pat == s ==> Occurs(pat, s)
    decreases |s|
  {
    |pat| <= |s| && (s[..|pat|] == pat || Occurs(pat, s[1..]))
  }

  /** Position-based reference definition of an occurrence. */
  ghost predicate OccursAt<T>(pat: seq<T>, s: seq<T>, i: int) {
    0 <= i && i + |pat| <= |s| && s[i..i + |pat|] == pat
  }

  /** The scanning definition agrees with the positional one, in both directions. */
  lemma {:induction false} OccursIffSomePosition<T>(pat: seq<T>, s: seq<T>)
    ensures Occurs(pat, s) <==> exists i :: OccursAt(pat, s, i)
    decreases |s|
  {
    if Occurs(pat, s) {
      if s[..|pat|] == pat {
        assert OccursAt(pat, s, 0);
      } else {
        OccursIffSomePosition(pat, s[1..]);
        var i :| OccursAt(pat, s[1..], i);
        assert s[1..][i..i + |pat|] == s[i + 1..i + 1 + |pat|];
        assert OccursAt(pat, s, i + 1);
      }
    }
    if i :| OccursAt(pat, s, i) {
      if i == 0 {
        assert s[..|pat|] == pat;
      } else {
        assert s[1..][i - 1..i - 1 + |pat|] == s[i..i + |pat|];
        assert OccursAt(pat, s[1..], i - 1);
        OccursIffSomePosition(pat, s[1..]);
      }
    }
  }
}
