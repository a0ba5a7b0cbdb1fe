/** Machine integer widths, optional values, and sizes of sets. */
module Common {

  const TWO32: int := 0x1_0000_0000
  const TWO64: int := 0x1_0000_0000_0000_0000

  /** Conversion to uint32_t. */
  function U32(x: int): nat { x % TWO32 }

  /** Conversion to uint64_t. */
  function U64(x: int): nat { x % TWO64 }

  datatype Option<+T> = None | Some(value: T)

  function Min(a: int, b: int): int { if a < b then a else b }
  function Max(a: int, b: int): int { if a < b then b else a }

  /** The first position whose key is x, or -1. */
  function First<T>(s: seq<T>, key: T -> int, x: int): (r: int)
    ensures -1 <= r < |s|
    ensures r >= 0 ==> key(s[r]) == x && forall j :: 0 <= j < r ==> key(s[j]) != x
    ensures r < 0 ==> forall j :: 0 <= j < |s| ==> key(s[j]) != x
  {
    if s == [] then -1
    else if key(s[0]) == x then 0
    else
      var r := First(s[1..], key, x);
      assert forall j :: 1 <= j < |s| ==> s[j] == s[1..][j - 1];
      if r < 0 then -1 else r + 1
  }

  lemma SubsetSize(a: set<int>, b: set<int>)
    requires a <= b
    ensures |a| <= |b|
  {
    assert b == a + (b - a);
  }

  /** The numbers from 1 to n. */
  ghost function UpTo(n: nat): (s: set<int>)
    ensures |s| == n && forall x :: x in s <==> 1 <= x <= n
  {
    if n == 0 then {} else UpTo(n - 1) + {n}
  }
}
