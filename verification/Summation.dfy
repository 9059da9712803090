/** Sums of a natural-valued measure over a sequence of threads. */
module Summation {

  function Sum<T>(s: seq<T>, f: T -> nat): nat {
    if s == [] then 0 else f(s[0]) + Sum(s[1..], f)
  }

  /** Replacing one element moves the sum by exactly that element's difference. */
  lemma {:induction false} SumUpdate<T>(s: seq<T>, i: nat, x: T, f: T -> nat)
    requires i < |s|
    ensures Sum(s[i := x], f) + f(s[i]) == Sum(s, f) + f(x)
  {
    if i == 0 {
      assert s[0 := x][1..] == s[1..];
    } else {
      assert s[i := x][1..] == s[1..][i - 1 := x];
      SumUpdate(s[1..], i - 1, x, f);
    }
  }

  lemma {:induction false} SumMember<T>(s: seq<T>, i: nat, f: T -> nat)
    requires i < |s|
    ensures f(s[i]) <= Sum(s, f)
  {
    if i > 0 {
      SumMember(s[1..], i - 1, f);
    }
  }

  /** Two different positions contribute separately. */
  lemma {:induction false} SumTwo<T>(s: seq<T>, i: nat, j: nat, f: T -> nat)
    requires i < j < |s|
    ensures f(s[i]) + f(s[j]) <= Sum(s, f)
  {
    if i == 0 {
      SumMember(s[1..], j - 1, f);
    } else {
      SumTwo(s[1..], i - 1, j - 1, f);
    }
  }

  lemma {:induction false} SumBound<T>(s: seq<T>, f: T -> nat)
    requires forall k :: 0 <= k < |s| ==> f(s[k]) <= 1
    ensures Sum(s, f) <= |s|
  {
    if s != [] {
      forall k | 0 <= k < |s[1..]| ensures f(s[1..][k]) <= 1 {
        assert s[1..][k] == s[k + 1];
      }
      SumBound(s[1..], f);
    }
  }

  lemma {:induction false} SumZero<T>(s: seq<T>, f: T -> nat)
    requires forall k :: 0 <= k < |s| ==> f(s[k]) == 0
    ensures Sum(s, f) == 0
  {
    if s != [] {
      forall k | 0 <= k < |s[1..]| ensures f(s[1..][k]) == 0 {
        assert s[1..][k] == s[k + 1];
      }
      SumZero(s[1..], f);
    }
  }
}
