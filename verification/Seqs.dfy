/**
 * Facts about sequences that several modules share: repetition, the first occurrence of a value, taking it out, and
 * sequences without repeats.
 */
module Seqs {

  predicate Distinct<T(==)>(xs: seq<T>) {
    forall i, j :: 0 <= i < j < |xs| ==> xs[i] != xs[j]
  }

  function Repeat<T>(x: T, n: nat): (r: seq<T>)
    ensures |r| == n && forall i :: 0 <= i < n ==> r[i] == x
  {
    seq(n, _ => x)
  }

  lemma HeadOrTail<T>(xs: seq<T>)
    requires xs != []
    ensures forall x :: x in xs <==> x == xs[0] || x in xs[1..]
  {
    assert xs == [xs[0]] + xs[1..];
  }

  lemma DistinctConcat<T>(a: seq<T>, b: seq<T>)
    requires Distinct(a) && Distinct(b) && forall x :: x in a ==> x !in b
    ensures Distinct(a + b)
  {
    assert forall i :: 0 <= i < |a| ==> a[i] in a;
    assert forall j :: 0 <= j < |b| ==> b[j] in b;
  }

  /** A sequence without repeats has as many values as places. */
  lemma {:induction false} DistinctSize<T>(xs: seq<T>, values: set<T>)
    requires Distinct(xs) && forall x :: x in values <==> x in xs
    ensures |values| == |xs|
  {
    if xs == [] {
      assert values == {};
    } else {
      HeadOrTail(xs);
      assert xs[0] !in xs[1..];
      DistinctSize(xs[1..], values - {xs[0]});
    }
  }

  /** xs without the first occurrence of x. */
  function Without<T(==)>(xs: seq<T>, x: T): (r: seq<T>)
    ensures forall y :: y in r ==> y in xs
    ensures forall y :: y in xs && y != x ==> y in r
    ensures x !in xs ==> r == xs
  {
    if xs == [] then []
    else if xs[0] == x then xs[1..]
    else
      var rest := Without(xs[1..], x);
      HeadOrTail(xs);
      [xs[0]] + rest
  }

  lemma {:induction false} WithoutDistinct<T>(xs: seq<T>, x: T)
    requires Distinct(xs)
    ensures Distinct(Without(xs, x)) && x !in Without(xs, x)
  {
    if xs != [] {
      assert forall i :: 0 < i < |xs| ==> xs[i] == xs[1..][i - 1];
      assert xs[0] !in xs[1..];
      if xs[0] != x {
        WithoutDistinct(xs[1..], x);
      }
    }
  }

  lemma {:induction false} WithoutAt<T>(xs: seq<T>, x: T, i: nat)
    requires i < |xs| && xs[i] == x && x !in xs[..i]
    ensures Without(xs, x) == xs[..i] + xs[i + 1..]
  {
    if i > 0 {
      assert xs[..i][0] == xs[0];
      assert xs[..i][1..] == xs[1..][..i - 1];
      assert xs[1..][i - 1] == xs[i];
      WithoutAt(xs[1..], x, i - 1);
    }
  }

  lemma SplicedMembers<T>(xs: seq<T>, i: nat, x: T)
    requires i <= |xs| && Distinct(xs) && x !in xs
    ensures Distinct(xs[..i] + [x] + xs[i..])
    ensures forall y :: y in xs[..i] + [x] + xs[i..] <==> y == x || y in xs
  {
    assert xs == xs[..i] + xs[i..];
    assert forall y :: y in xs <==> y in xs[..i] || y in xs[i..];
  }

  /** The position of the first occurrence. */
  function PositionOf<T(==)>(xs: seq<T>, x: T): (i: nat)
    requires x in xs
    ensures i < |xs| && xs[i] == x && x !in xs[..i]
  {
    if xs[0] == x then 0
    else
      var i := 1 + PositionOf(xs[1..], x);
      assert xs[..i] == [xs[0]] + xs[1..][..i - 1];
      i
  }

  /** The first occurrence is the only one before which there is none. */
  lemma {:induction false} PositionAt<T>(xs: seq<T>, x: T, i: nat)
    requires i < |xs| && xs[i] == x && x !in xs[..i]
    ensures PositionOf(xs, x) == i
  {
    if i > 0 {
      assert xs[..i][0] == xs[0];
      assert xs[..i][1..] == xs[1..][..i - 1];
      PositionAt(xs[1..], x, i - 1);
    }
  }
}
