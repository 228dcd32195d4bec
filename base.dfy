/** Small value types and helpers shared by the scorer and the leaderboard model. */
module Base {

  datatype Option<T> = None | Some(value: T)

  function MinReal(a: real, b: real): real { if a <= b then a else b }

  function MaxReal(a: real, b: real): real { if a >= b then a else b }

  function MinInt(a: int, b: int): int { if a <= b then a else b }

  function MaxInt(a: int, b: int): int { if a >= b then a else b }

  /** Python's `s[:n]`: a non-negative `n` keeps at most `n` items, a negative
      one drops the last `-n` items. */
  function PyPrefix<T>(s: seq<T>, n: int): (r: seq<T>)
    ensures |r| <= |s| && r == s[..|r|]
    ensures n >= 0 ==> |r| == MinInt(n, |s|)
    ensures n < 0 ==> |r| == MaxInt(0, |s| + n)
  {
    if n >= 0 then s[..MinInt(n, |s|)] else s[..MaxInt(0, |s| + n)]
  }
}
