/** Sums of an integer measure over a sequence: what accounting totals are compared with. */
module Sums {

  function Sum<T>(s: seq<T>, f: T -> int): int {
    if s == [] then 0 else Sum(s[..|s| - 1], f) + f(s[|s| - 1])
  }

  lemma {:induction false} SumUpdate<T>(s: seq<T>, f: T -> int, i: nat, x: T)
    requires i < |s|
    ensures Sum(s[i := x], f) == Sum(s, f) - f(s[i]) + f(x)
  {
    var n := |s| - 1;
    if i == n {
      assert s[i := x][..n] == s[..n];
    } else {
      assert s[i := x][..n] == s[..n][i := x];
      SumUpdate(s[..n], f, i, x);
    }
  }

  /** A sum of non-negative terms bounds every one of its terms. */
  lemma {:induction false} SumBoundsTerms<T>(s: seq<T>, f: T -> int)
    requires forall i :: 0 <= i < |s| ==> f(s[i]) >= 0
    ensures 0 <= Sum(s, f)
    ensures forall i :: 0 <= i < |s| ==> f(s[i]) <= Sum(s, f)
  {
    if s != [] {
      SumBoundsTerms(s[..|s| - 1], f);
    }
  }

  /** A sum is monotone in its measure. */
  lemma {:induction false} SumMonotone<T>(s: seq<T>, f: T -> int, g: T -> int)
    requires forall i :: 0 <= i < |s| ==> f(s[i]) <= g(s[i])
    ensures Sum(s, f) <= Sum(s, g)
  {
    if s != [] {
      SumMonotone(s[..|s| - 1], f, g);
    }
  }

  /** Terms of at most c add up to at most c times the length. */
  lemma {:induction false} SumAtMost<T>(s: seq<T>, f: T -> int, c: int)
    requires forall i :: 0 <= i < |s| ==> f(s[i]) <= c
    ensures Sum(s, f) <= c * |s|
  {
    if s != [] {
      SumAtMost(s[..|s| - 1], f, c);
    }
  }

  lemma {:induction false} SumAtLeast<T>(s: seq<T>, f: T -> int, c: int)
    requires forall i :: 0 <= i < |s| ==> c <= f(s[i])
    ensures c * |s| <= Sum(s, f)
  {
    if s != [] {
      SumAtLeast(s[..|s| - 1], f, c);
    }
  }

  /** A sum below c times the length has a term below c. */
  lemma SumBelow<T>(s: seq<T>, f: T -> int, c: int) returns (i: nat)
    requires Sum(s, f) < c * |s|
    ensures i < |s| && f(s[i]) < c
  {
    if forall i :: 0 <= i < |s| ==> c <= f(s[i]) {
      SumAtLeast(s, f, c);
    }
    i :| 0 <= i < |s| && f(s[i]) < c;
  }

  /** Terms of the same value c add up to c times the length. */
  lemma {:induction false} SumConstant<T>(s: seq<T>, f: T -> int, c: int)
    requires forall i :: 0 <= i < |s| ==> f(s[i]) == c
    ensures Sum(s, f) == c * |s|
  {
    if s != [] {
      SumConstant(s[..|s| - 1], f, c);
    }
  }
}
