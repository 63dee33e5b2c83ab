/**
 * The GLib key file as the plugin uses it: text stored under a (group, key)
 * pair, with integers written as decimal text by the integer setter and read
 * back by the integer getter.
 */
module KeyFiles {
  import opened Wrappers
  import opened CStr

  /** An in-memory key file: the value text stored under each (group, key). */
  type KeyFile = map<(string, string), CString>

  /** `g_key_file_get_string`: the stored text, or None (NULL) when the key is absent. */
  function GetString(kf: KeyFile, group: string, key: string): (r: Option<CString>)
    ensures r.Some? <==> (group, key) in kf
    ensures r.Some? ==> r.value == kf[(group, key)]
  {
    if (group, key) in kf then Some(kf[(group, key)]) else None
  }

  /** `g_key_file_set_string`: stores `value` under (group, key), replacing any previous value. */
  function SetString(kf: KeyFile, group: string, key: string, value: CString): (r: KeyFile)
    ensures GetString(r, group, key) == Some(value)
    ensures r.Keys == kf.Keys + {(group, key)}
    ensures forall g, k :: (g, k) != (group, key) ==> GetString(r, g, k) == GetString(kf, g, k)
  {
    kf[(group, key) := value]
  }

  predicate IsDigit(c: char) {
    '0' <= c <= '9'
  }

  predicate AllDigits(s: string) {
    forall i :: 0 <= i < |s| ==> IsDigit(s[i])
  }

  function DigitChar(d: nat): (c: char)
    requires d < 10
    ensures IsDigit(c)
  {
    ('0' as int + d) as char
  }

  function DigitValue(c: char): (d: nat)
    requires IsDigit(c)
    ensures d < 10 && DigitChar(d) == c
  {
    c as int - '0' as int
  }

  /** The decimal digits of `n`, most significant first, without leading zeros. */
  function Digits(n: nat): (s: string)
    ensures |s| > 0 && AllDigits(s)
    ensures |s| > 1 ==> s[0] != '0'
  {
    if n < 10 then [DigitChar(n)] else Digits(n / 10) + [DigitChar(n % 10)]
  }

  /** The number a non-empty run of decimal digits denotes. */
  function DigitsValue(s: string): nat
    requires AllDigits(s)
  {
    if |s| == 0 then 0 else 10 * DigitsValue(s[..|s| - 1]) + DigitValue(s[|s| - 1])
  }

  /** Reading the digits of a number gives the number back. */
  lemma {:induction false} DigitsRoundTrip(n: nat)
    ensures DigitsValue(Digits(n)) == n
  {
    if n >= 10 {
      var s := Digits(n);
      assert s[..|s| - 1] == Digits(n / 10);
      DigitsRoundTrip(n / 10);
    }
  }

  /** The text `g_key_file_set_integer` stores: "%d" formatting. */
  function IntegerText(n: int): (s: CString)
    ensures |s| > 0
  {
    if n < 0 then "-" + Digits(-n) else Digits(n)
  }

  /** The integer a canonical decimal text ("-"? digits) denotes, or None for any other text. */
  function ParseInteger(s: string): Option<int> {
    if |s| > 1 && s[0] == '-' && AllDigits(s[1..]) then Some(-(DigitsValue(s[1..]) as int))
    else if |s| > 0 && AllDigits(s) then Some(DigitsValue(s))
    else None
  }

  /** Parsing the text of an integer gives the integer back. */
  lemma IntegerTextRoundTrip(n: int)
    ensures ParseInteger(IntegerText(n)) == Some(n)
  {
    if n < 0 {
      assert IntegerText(n)[1..] == Digits(-n);
      DigitsRoundTrip(-n);
    } else {
      DigitsRoundTrip(n);
    }
  }

  /** `g_key_file_set_integer`: stores the decimal text of `value`. */
  function SetInteger(kf: KeyFile, group: string, key: string, value: Int32): (r: KeyFile)
    ensures r.Keys == kf.Keys + {(group, key)}
    ensures forall g, k :: (g, k) != (group, key) ==> GetString(r, g, k) == GetString(kf, g, k)
  {
    SetString(kf, group, key, IntegerText(value as int))
  }

  /** The text is an integer that fits a C `int`. */
  predicate ReadsAsInt(text: string) {
    ParseInteger(text).Some? && -0x8000_0000 <= ParseInteger(text).value < 0x8000_0000
  }

  /**
   * `g_key_file_get_integer`: the stored integer; 0 when the key is absent,
   * its text is not an integer, or the integer does not fit an `int`.
   */
  function GetInteger(kf: KeyFile, group: string, key: string): (r: Int32)
    ensures (group, key) !in kf ==> r == 0
    ensures (group, key) in kf && ReadsAsInt(kf[(group, key)]) ==>
              r as int == ParseInteger(kf[(group, key)]).value
    ensures (group, key) in kf && !ReadsAsInt(kf[(group, key)]) ==> r == 0
  {
    match GetString(kf, group, key)
    case None => 0
    case Some(text) =>
      match ParseInteger(text)
      case Some(n) => if -0x8000_0000 <= n < 0x8000_0000 then n as Int32 else 0
      case None => 0
  }

  /** An integer stored with the setter is read back unchanged by the getter. */
  lemma IntegerRoundTrip(kf: KeyFile, group: string, key: string, value: Int32)
    ensures GetInteger(SetInteger(kf, group, key, value), group, key) == value
  {
    IntegerTextRoundTrip(value as int);
  }
}
