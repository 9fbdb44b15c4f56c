/** Small helpers shared by the other modules. */
module Prelude {

  datatype Option<+T> = None | Some(value: T)

  /** The zero-or-one element sequence of an option. */
  function Opt<T>(o: Option<T>): seq<T> {
    match o
    case None => []
    case Some(v) => [v]
  }

  function Max(a: int, b: int): int { if a < b then b else a }

  function Min(a: int, b: int): int { if a < b then a else b }

  function MaxReal(a: real, b: real): real { if a < b then b else a }

  /** Integer types of the C++ sources, as ranges. */
  const INT64_MIN: int := -0x8000_0000_0000_0000
  const INT64_MAX: int := 0x7fff_ffff_ffff_ffff
  const INT32_MIN: int := -0x8000_0000
  const INT32_MAX: int := 0x7fff_ffff

  type Int64 = x: int | INT64_MIN <= x <= INT64_MAX
  type Int32 = x: int | INT32_MIN <= x <= INT32_MAX
  type Int8 = x: int | -128 <= x <= 127

  /** C++ integer division truncates toward zero; the divisor is positive wherever it is used. */
  function TruncDiv(a: int, b: int): int
    requires b > 0
  {
    if a >= 0 then a / b else -((-a) / b)
  }

  /** C++ remainder: the sign follows the dividend. */
  function TruncMod(a: int, b: int): int
    requires b > 0
  {
    a - b * TruncDiv(a, b)
  }

  /** Index of the first occurrence of `c` at or after `from`, or the length when there is none. */
  function IndexFrom(s: string, c: char, from: nat): (n: nat)
    requires from <= |s|
    ensures from <= n <= |s|
    ensures forall i :: from <= i < n ==> s[i] != c
    ensures n < |s| ==> s[n] == c
    decreases |s| - from
  {
    if from == |s| || s[from] == c then from else IndexFrom(s, c, from + 1)
  }

  /** Index of the first occurrence of `c`, or the length when there is none. */
  function IndexOf(s: string, c: char): (n: nat)
    ensures n <= |s|
    ensures forall i :: 0 <= i < n ==> s[i] != c
    ensures n < |s| ==> s[n] == c
  {
    IndexFrom(s, c, 0)
  }

  /** The first occurrence is determined by what surrounds it. */
  lemma IndexOfIs(s: string, c: char, n: nat)
    requires n < |s| && s[n] == c && forall i :: 0 <= i < n ==> s[i] != c
    ensures IndexOf(s, c) == n
  {
  }

  lemma IndexOfAbsent(s: string, c: char)
    requires c !in s
    ensures IndexOf(s, c) == |s|
  {
  }
}
