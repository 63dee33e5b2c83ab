/**
 * The C-level types the plugin's decisions rest on: a 32-bit `int`, its
 * conversion to `size_t`, NUL-terminated strings, and the `strcmp` and
 * `strncmp` comparisons used to classify file types and the LANG value.
 */
module CStr {
  /** A C `int`: 32-bit two's complement. */
  newtype Int32 = x: int | -0x8000_0000 <= x < 0x8000_0000

  /**
   * 2^64: the model assumes a 64-bit target (LP64 Linux, LLP64 Windows),
   * where `size_t` is an unsigned 64-bit integer. On a 32-bit target it has
   * 32 bits, and a negative `int` converts to at least 2^31 there as well.
   */
  const SIZE_T_MODULUS: int := 0x1_0000_0000_0000_0000

  /**
   * The usual arithmetic conversion of an `int` operand compared with a
   * `size_t` one: the value modulo 2^64, so a negative `int` becomes huge.
   */
  function ToSizeT(x: Int32): (r: nat)
    ensures r < SIZE_T_MODULUS
    ensures (r - x as int) % SIZE_T_MODULUS == 0
    ensures x < 0 ==> r >= SIZE_T_MODULUS - 0x8000_0000
  {
    if x < 0 then x as int + SIZE_T_MODULUS else x as int
  }

  /** A C string holds no NUL before its terminator. */
  predicate NoNul(s: string) {
    forall i :: 0 <= i < |s| ==> s[i] != '\0'
  }

  /** The characters of a NUL-terminated string, terminator excluded. */
  type CString = s: string | NoNul(s)

  /** The character at position `i`, reading the terminating NUL past the end. */
  function CharAt(s: CString, i: nat): (c: char)
    ensures c == '\0' <==> i >= |s|
  {
    if i < |s| then s[i] else '\0'
  }

  /** `strcmp(a, b)`: the difference of the first differing characters, or 0. */
  function StrCmp(a: CString, b: CString): int
    decreases |a|
  {
    if CharAt(a, 0) != CharAt(b, 0) then CharAt(a, 0) as int - CharAt(b, 0) as int
    else if |a| == 0 then 0
    else StrCmp(a[1..], b[1..])
  }

  /** `strncmp(a, b, n)`: as `strcmp`, looking at no more than `n` characters. */
  function StrNCmp(a: CString, b: CString, n: nat): int
    decreases n
  {
    if n == 0 then 0
    else if CharAt(a, 0) != CharAt(b, 0) then CharAt(a, 0) as int - CharAt(b, 0) as int
    else if |a| == 0 then 0
    else StrNCmp(a[1..], b[1..], n - 1)
  }

  /** The first `n` characters of `s`, or all of them when it is shorter. */
  function Prefix(s: string, n: nat): (p: string)
    ensures |p| <= n && p <= s
    ensures |s| >= n ==> |p| == n
    ensures |s| < n ==> p == s
  {
    if |s| <= n then s else s[..n]
  }

  /** `strcmp` reports 0 exactly for equal strings: the test is exact and case-sensitive. */
  lemma {:induction false} StrCmpZeroIff(a: CString, b: CString)
    ensures StrCmp(a, b) == 0 <==> a == b
    decreases |a|
  {
    if CharAt(a, 0) == CharAt(b, 0) && |a| > 0 {
      StrCmpZeroIff(a[1..], b[1..]);
      assert a == [a[0]] + a[1..];
      assert b == [b[0]] + b[1..];
    }
  }

  /** `strncmp(a, b, n)` reports 0 exactly when the first `n` characters agree, a terminator included. */
  lemma {:induction false} StrNCmpZeroIff(a: CString, b: CString, n: nat)
    ensures StrNCmp(a, b, n) == 0 <==> Prefix(a, n) == Prefix(b, n)
    decreases n
  {
    if n > 0 && CharAt(a, 0) == CharAt(b, 0) && |a| > 0 {
      StrNCmpZeroIff(a[1..], b[1..], n - 1);
      assert Prefix(a, n) == [a[0]] + Prefix(a[1..], n - 1);
      assert Prefix(b, n) == [b[0]] + Prefix(b[1..], n - 1);
    } else if n > 0 && CharAt(a, 0) != CharAt(b, 0) {
      if |a| > 0 && |b| > 0 {
        assert Prefix(a, n)[0] != Prefix(b, n)[0];
      }
    }
  }
}
