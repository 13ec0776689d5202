/**
 * The PHP builtins the plugin's core leans on, written out so that their
 * edge cases are explicit: `empty()` on strings, `intval()` on strings,
 * integer-to-string conversion in concatenation, `strtolower`, `str_replace`
 * of one character, `strpos(...) === 0` / `!== false` and `strtok`.
 *
 * PHP strings are byte strings; here a `string` holds one character per
 * byte, so `strlen($s)` is `|s|`.
 */
module Php {

  /** A PHP value that may be missing: an unset array key, `false` from a lookup. */
  datatype Option<T> = None | Some(value: T)

  /** The 64-bit integer range of PHP_INT_MIN .. PHP_INT_MAX. */
  const PhpIntMax: int := 0x7FFF_FFFF_FFFF_FFFF
  const PhpIntMin: int := -0x8000_0000_0000_0000

  /** `empty($s)` for a string `$s`: true for "" and for "0". */
  predicate Empty(s: string) {
    s == "" || s == "0"
  }

  // ---------------------------------------------------------------------
  // Decimal digits: integer to string and back
  // ---------------------------------------------------------------------

  predicate IsDigit(c: char) {
    '0' <= c <= '9'
  }

  predicate AllDigits(s: string) {
    forall i :: 0 <= i < |s| ==> IsDigit(s[i])
  }

  function DigitChar(d: int): (c: char)
    requires 0 <= d < 10
    ensures IsDigit(c) && c as int - '0' as int == d
  {
    ('0' as int + d) as char
  }

  function DigitValue(c: char): (d: nat)
    requires IsDigit(c)
    ensures d < 10 && DigitChar(d) == c
  {
    c as int - '0' as int
  }

  /** The decimal text of a natural number, as PHP writes it: no sign, no leading zero. */
  function NatToString(n: nat): (s: string)
    ensures |s| >= 1 && AllDigits(s)
    ensures s[0] == '0' ==> n == 0
    ensures n < 10 <==> |s| == 1
  {
    if n < 10 then [DigitChar(n)] else NatToString(n / 10) + [DigitChar(n % 10)]
  }

  /** The value of a run of decimal digits, read left to right. */
  function DigitsValue(ds: string): nat
    requires AllDigits(ds)
  {
    if ds == [] then 0 else DigitsValue(ds[..|ds| - 1]) * 10 + DigitValue(ds[|ds| - 1])
  }

  lemma {:induction false} NatToStringRoundTrip(n: nat)
    ensures DigitsValue(NatToString(n)) == n
  {
    var s := NatToString(n);
    if n >= 10 {
      assert s[..|s| - 1] == NatToString(n / 10);
      NatToStringRoundTrip(n / 10);
    } else {
      assert s[..|s| - 1] == [];
    }
  }

  /** Distinct numbers have distinct decimal texts. */
  lemma NatToStringInjective(a: nat, b: nat)
    requires NatToString(a) == NatToString(b)
    ensures a == b
  {
    NatToStringRoundTrip(a);
    NatToStringRoundTrip(b);
  }

  /** `(string)$n` for an integer `$n`, as in `'eeform_submission_' . $id`. */
  function IntToString(n: int): (s: string)
    ensures |s| >= 1
    ensures s[0] == '-' <==> n < 0
  {
    if n < 0 then "-" + NatToString(-n) else NatToString(n)
  }

  lemma IntToStringInjective(a: int, b: int)
    requires IntToString(a) == IntToString(b)
    ensures a == b
  {
    if a < 0 {
      assert IntToString(a)[1..] == NatToString(-a);
      assert IntToString(b)[1..] == NatToString(-b);
      NatToStringInjective(-a, -b);
    } else {
      NatToStringInjective(a, b);
    }
  }

  // ---------------------------------------------------------------------
  // intval() on a string
  // ---------------------------------------------------------------------

  /** The whitespace PHP skips in front of a numeric string. */
  predicate IsSpace(c: char) {
    c == ' ' || c == '\t' || c == '\n' || c == '\r' || c == '\U{000B}' || c == '\U{000C}'
  }

  function SkipSpace(s: string): (t: string)
    ensures |t| <= |s| && t == s[|s| - |t|..]
    ensures t == [] || !IsSpace(t[0])
    ensures forall i :: 0 <= i < |s| - |t| ==> IsSpace(s[i])
  {
    if s != [] && IsSpace(s[0]) then SkipSpace(s[1..]) else s
  }

  /** The longest prefix of `s` made of decimal digits. */
  function LeadingDigits(s: string): (d: string)
    ensures |d| <= |s| && d == s[..|d|] && AllDigits(d)
    ensures |d| == |s| || !IsDigit(s[|d|])
  {
    if s != [] && IsDigit(s[0]) then [s[0]] + LeadingDigits(s[1..]) else []
  }

  /** A value outside the 64-bit range saturates, as PHP does for an overflowing numeric string. */
  function Saturate(v: int): (r: int)
    ensures PhpIntMin <= r <= PhpIntMax
    ensures PhpIntMin <= v <= PhpIntMax ==> r == v
  {
    if v > PhpIntMax then PhpIntMax else if v < PhpIntMin then PhpIntMin else v
  }

  /**
   * `intval($s)` for a string: skip leading whitespace, read an optional sign
   * and the leading decimal digits, ignore the rest; no digits gives 0.
   */
  function IntVal(s: string): (r: int)
    ensures PhpIntMin <= r <= PhpIntMax
  {
    var t := SkipSpace(s);
    if t != [] && t[0] == '-' then Saturate(0 - DigitsValue(LeadingDigits(t[1..])))
    else if t != [] && t[0] == '+' then Saturate(DigitsValue(LeadingDigits(t[1..])))
    else Saturate(DigitsValue(LeadingDigits(t)))
  }

  lemma LeadingDigitsOfDigits(s: string)
    requires AllDigits(s)
    ensures LeadingDigits(s) == s
  {
  }

  /** `intval(strval($n)) == $n` for every PHP integer. */
  lemma IntValOfIntToString(n: int)
    requires PhpIntMin <= n <= PhpIntMax
    ensures IntVal(IntToString(n)) == n
  {
    var m: nat := if n < 0 then -n else n;
    var ds := NatToString(m);
    LeadingDigitsOfDigits(ds);
    NatToStringRoundTrip(m);
    var s := IntToString(n);
    assert !IsSpace(s[0]);
    assert SkipSpace(s) == s;
    if n < 0 {
      assert s[1..] == ds;
      assert IntVal(s) == Saturate(0 - m);
    } else {
      assert s == ds && s[0] != '-' && s[0] != '+';
      assert IntVal(s) == Saturate(m);
    }
  }

  // ---------------------------------------------------------------------
  // Other string builtins
  // ---------------------------------------------------------------------

  /** `strncmp($prefix, $s, strlen($prefix)) === 0`, and `strpos($s, $prefix) === 0`. */
  predicate StartsWith(s: string, prefix: string) {
    |prefix| <= |s| && s[..|prefix|] == prefix
  }

  /** The middle of a concatenation of three strings, cut out again. */
  lemma StripAffixes(prefix: string, middle: string, suffix: string)
    ensures var s := prefix + middle + suffix;
            s[|prefix|..|s| - |suffix|] == middle
  {
  }

  predicate EndsWith(s: string, suffix: string) {
    |suffix| <= |s| && s[|s| - |suffix|..] == suffix
  }

  /** `strpos($s, $sub) !== false`. */
  function Contains(s: string, sub: string): (b: bool)
    ensures b <==> exists i :: 0 <= i <= |s| - |sub| && StartsWith(s[i..], sub)
  {
    if StartsWith(s, sub) then
      assert StartsWith(s[0..], sub);
      true
    else if s == [] then
      false
    else
      var b := Contains(s[1..], sub);
      assert b ==> exists i :: 0 <= i <= |s| - |sub| && StartsWith(s[i..], sub) by {
        if b {
          var j :| 0 <= j <= |s| - 1 - |sub| && StartsWith(s[1..][j..], sub);
          assert s[1..][j..] == s[j + 1..];
        }
      }
      assert (exists i :: 0 <= i <= |s| - |sub| && StartsWith(s[i..], sub)) ==> b by {
        if exists i :: 0 <= i <= |s| - |sub| && StartsWith(s[i..], sub) {
          var i :| 0 <= i <= |s| - |sub| && StartsWith(s[i..], sub);
          assert i != 0;
          assert s[1..][i - 1..] == s[i..];
        }
      }
      b
  }

  /** `strtolower` on one byte: only ASCII letters change. */
  function LowerChar(c: char): (l: char)
    ensures !('A' <= l <= 'Z')
    ensures !('A' <= c <= 'Z') ==> l == c
  {
    if 'A' <= c <= 'Z' then (c as int + 32) as char else c
  }

  function StrToLower(s: string): (r: string)
    ensures |r| == |s| && forall i :: 0 <= i < |s| ==> r[i] == LowerChar(s[i])
  {
    if s == [] then [] else [LowerChar(s[0])] + StrToLower(s[1..])
  }

  /** `str_replace($from, $to, $s)` for one-character `$from` and `$to`. */
  function ReplaceChar(s: string, from: char, to: char): (r: string)
    ensures |r| == |s| && forall i :: 0 <= i < |s| ==> r[i] == (if s[i] == from then to else s[i])
  {
    if s == [] then [] else [if s[0] == from then to else s[0]] + ReplaceChar(s[1..], from, to)
  }

  /** The part of `s` before the first `delim`, or all of `s` when there is none. */
  function UpTo(s: string, delim: char): (t: string)
    ensures |t| <= |s| && t == s[..|t|] && delim !in t
    ensures |t| == |s| || s[|t|] == delim
  {
    if s == [] || s[0] == delim then [] else [s[0]] + UpTo(s[1..], delim)
  }

  /**
   * A first call `strtok($s, $delim)`: skip the delimiters in front, then
   * return the text up to the next delimiter; `false` when nothing is left.
   */
  function StrTok(s: string, delim: char): (r: Option<string>)
    ensures r.None? <==> forall i :: 0 <= i < |s| ==> s[i] == delim
    ensures r.Some? ==> r.value != [] && delim !in r.value
  {
    if s == [] then None
    else if s[0] == delim then
      var r := StrTok(s[1..], delim);
      assert forall i :: 1 <= i < |s| ==> s[i] == s[1..][i - 1];
      r
    else Some(UpTo(s, delim))
  }

  /**
   * For a request URI that does not begin with the delimiter, `strtok` gives
   * exactly the text before the first delimiter, and `false` only for "".
   */
  lemma StrTokIsPrefix(s: string, delim: char)
    requires s == [] || s[0] != delim
    ensures s == [] ==> StrTok(s, delim) == None
    ensures s != [] ==> StrTok(s, delim).Some?
    ensures s != [] ==> var t := StrTok(s, delim).value;
                        StartsWith(s, t) && delim !in t && (|t| == |s| || s[|t|] == delim)
  {
  }
}
