/** Weighted sums over sequences.  A thread population is a sequence of program counters, so
    "how many threads are in this region" and "how much work is left" are both sums. */
module Sums {

  ghost function Sum<T>(w: T -> int, xs: seq<T>): int
  {
    if xs == [] then 0 else w(xs[0]) + Sum(w, xs[1..])
  }

  /** One thread moves: the sum changes by the difference of its two weights. */
  lemma {:induction false} SumUpdate<T>(w: T -> int, xs: seq<T>, i: nat, x: T)
    requires i < |xs|
    ensures Sum(w, xs[i := x]) == Sum(w, xs) - w(xs[i]) + w(x)
  {
    if i == 0 {
      assert xs[0 := x][1..] == xs[1..];
    } else {
      assert xs[i := x][1..] == xs[1..][i - 1 := x];
      SumUpdate(w, xs[1..], i - 1, x);
    }
  }

  /** With non-negative weights no member weighs more than the whole. */
  lemma {:induction false} SumMember<T>(w: T -> int, xs: seq<T>, i: nat)
    requires i < |xs|
    requires forall x :: x in xs ==> 0 <= w(x)
    ensures w(xs[i]) <= Sum(w, xs)
  {
    SumNonNegative(w, xs[1..]);
    if i > 0 {
      SumMember(w, xs[1..], i - 1);
    }
  }

  /** Nor do two members. */
  lemma {:induction false} SumTwo<T>(w: T -> int, xs: seq<T>, i: nat, j: nat)
    requires i < j < |xs| && forall x :: x in xs ==> 0 <= w(x)
    ensures w(xs[i]) + w(xs[j]) <= Sum(w, xs)
  {
    if i == 0 {
      assert xs[1..][j - 1] == xs[j];
      SumMember(w, xs[1..], j - 1);
    } else {
      SumTwo(w, xs[1..], i - 1, j - 1);
    }
  }

  lemma {:induction false} SumNonNegative<T>(w: T -> int, xs: seq<T>)
    requires forall x :: x in xs ==> 0 <= w(x)
    ensures 0 <= Sum(w, xs)
  {
    if xs != [] {
      SumNonNegative(w, xs[1..]);
    }
  }

  /** A positive sum has a positive member. */
  lemma {:induction false} SumWitness<T>(w: T -> int, xs: seq<T>) returns (i: nat)
    requires 0 < Sum(w, xs)
    ensures i < |xs| && 0 < w(xs[i])
  {
    if 0 < w(xs[0]) {
      i := 0;
    } else {
      i := SumWitness(w, xs[1..]);
      i := i + 1;
    }
  }

  /** Weights that grow by at most `slack` per member grow the sum by at most `slack` per member. */
  lemma {:induction false} SumPointwise<T>(v: T -> int, xs: seq<T>, w: T -> int, ys: seq<T>, slack: int)
    requires |xs| == |ys|
    requires forall i :: 0 <= i < |xs| ==> v(xs[i]) <= w(ys[i]) + slack
    ensures Sum(v, xs) <= Sum(w, ys) + slack * |xs|
  {
    if xs != [] {
      assert v(xs[0]) <= w(ys[0]) + slack;
      forall i | 0 <= i < |xs[1..]|
        ensures v(xs[1..][i]) <= w(ys[1..][i]) + slack
      {
        assert v(xs[i + 1]) <= w(ys[i + 1]) + slack;
      }
      SumPointwise(v, xs[1..], w, ys[1..], slack);
      assert slack * |xs| == slack * |xs[1..]| + slack;
    }
  }

  /** A population in which everybody weighs the same. */
  lemma {:induction false} SumConstant<T>(w: T -> int, xs: seq<T>, c: int)
    requires forall x :: x in xs ==> w(x) == c
    ensures Sum(w, xs) == c * |xs|
  {
    if xs != [] {
      SumConstant(w, xs[1..], c);
      assert c * |xs| == c * |xs[1..]| + c;
    }
  }
}
