/**
 * Sums of real-valued terms over a finite set of users. The source sums over
 * hash sets, whose iteration order is unspecified; in exact arithmetic the
 * order does not matter, which `SetSumRemove` makes precise.
 */
module Sums {

  import opened Graph

  /** The sum of `f` over `s`, peeling off an arbitrary element. */
  ghost function SetSum(s: set<User>, f: User -> real): real
    decreases s
  {
    if s == {} then 0.0 else var x :| x in s; f(x) + SetSum(s - {x}, f)
  }

  /** Any element may be peeled off first: the sum does not depend on the order. */
  lemma {:induction false} SetSumRemove(s: set<User>, f: User -> real, y: User)
    requires y in s
    ensures SetSum(s, f) == f(y) + SetSum(s - {y}, f)
    decreases s
  {
    var x :| x in s && SetSum(s, f) == f(x) + SetSum(s - {x}, f);
    if x != y {
      SetSumRemove(s - {x}, f, y);
      SetSumRemove(s - {y}, f, x);
      assert s - {x} - {y} == s - {y} - {x};
    }
  }

  /** Adding a new element adds its term. */
  lemma SetSumAdd(s: set<User>, f: User -> real, y: User)
    requires y !in s
    ensures SetSum(s + {y}, f) == SetSum(s, f) + f(y)
  {
    SetSumRemove(s + {y}, f, y);
    assert s + {y} - {y} == s;
  }

  /** Two functions that agree on `s` have the same sum over `s`. */
  lemma {:induction false} SetSumCongruent(s: set<User>, f: User -> real, h: User -> real)
    requires forall x :: x in s ==> f(x) == h(x)
    ensures SetSum(s, f) == SetSum(s, h)
    decreases s
  {
    if s != {} {
      var x :| x in s;
      SetSumRemove(s, f, x);
      SetSumRemove(s, h, x);
      SetSumCongruent(s - {x}, f, h);
    }
  }

  /** Summing a term that is `k` on every element of `s` gives |s| times `k`. */
  lemma {:induction false} SetSumConstant(s: set<User>, f: User -> real, k: real)
    requires forall x :: x in s ==> f(x) == k
    ensures SetSum(s, f) == |s| as real * k
    decreases s
  {
    if s != {} {
      var x :| x in s;
      SetSumRemove(s, f, x);
      SetSumConstant(s - {x}, f, k);
      assert |s - {x}| == |s| - 1;
    }
  }

  /** A sum of non-negative terms is non-negative. */
  lemma {:induction false} SetSumNonNegative(s: set<User>, f: User -> real)
    requires forall x :: x in s ==> f(x) >= 0.0
    ensures SetSum(s, f) >= 0.0
    decreases s
  {
    if s != {} {
      var x :| x in s;
      SetSumRemove(s, f, x);
      SetSumNonNegative(s - {x}, f);
    }
  }
}
