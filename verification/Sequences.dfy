/** Sequences without repetition. */
module Sequences {

  ghost predicate NoRepeats<T>(xs: seq<T>)
  {
    forall i, j :: 0 <= i < j < |xs| ==> xs[i] != xs[j]
  }

  ghost function Range(n: nat): set<int>
  {
    if n == 0 then {} else Range(n - 1) + {n}
  }

  lemma {:induction false} InRange(n: nat, x: int)
    ensures x in Range(n) <==> 1 <= x <= n
  {
    if n > 0 {
      InRange(n - 1, x);
    }
  }

  lemma {:induction false} RangeSize(n: nat)
    ensures |Range(n)| == n
  {
    if n > 0 {
      RangeSize(n - 1);
      InRange(n - 1, n);
    }
  }

  lemma {:induction false} NoRepeatsSize<T>(xs: seq<T>)
    requires NoRepeats(xs)
    ensures |set x | x in xs| == |xs|
  {
    if xs != [] {
      NoRepeatsSize(xs[1..]);
      assert (set x | x in xs) == (set x | x in xs[1..]) + {xs[0]};
    }
  }

  /** Pigeonhole: distinct numbers from 1..n are at most n, and n of them are all of 1..n. */
  lemma Pigeonhole(xs: seq<int>, n: nat)
    requires NoRepeats(xs)
    requires forall x :: x in xs ==> 1 <= x <= n
    ensures |xs| <= n
    ensures |xs| == n ==> forall x :: 1 <= x <= n ==> x in xs
  {
    var members := set x | x in xs;
    NoRepeatsSize(xs);
    RangeSize(n);
    forall x ensures x in Range(n) <==> 1 <= x <= n {
      InRange(n, x);
    }
    SubsetSize(members, Range(n));
    if |xs| == n {
      forall x | 1 <= x <= n ensures x in xs {
        if x !in xs {
          SubsetSize(members, Range(n) - {x});
          assert false;
        }
      }
    }
  }

  lemma {:induction false} SubsetSize<T>(a: set<T>, b: set<T>)
    requires a <= b
    ensures |a| <= |b|
  {
    if a != {} {
      var x :| x in a;
      SubsetSize(a - {x}, b - {x});
    }
  }
}
