/** The two JavaScript number/string conversions the enrichment step relies on:
    `parseInt(string, radix)` and `Number.prototype.toString(radix)`, on
    integer values. A parse that finds no digits yields `NaN`, modelled as None. */
module JsNumbers {
  import opened Wrappers

  /** StrWhiteSpaceChar of ECMAScript: white space and line terminators,
      which parseInt skips before the number. */
  predicate IsJsSpace(c: char) {
    || c == '\t' || c == '\n' || c == '\U{000B}' || c == '\U{000C}' || c == '\r'
    || c == ' ' || c == '\U{00A0}' || c == '\U{1680}'
    || ('\U{2000}' <= c <= '\U{200A}')
    || c == '\U{2028}' || c == '\U{2029}' || c == '\U{202F}' || c == '\U{205F}'
    || c == '\U{3000}' || c == '\U{FEFF}'
  }

  /** Drops the leading white space of `s`. */
  function TrimStart(s: string): (r: string)
    ensures |r| <= |s| && r == s[|s| - |r|..]
    ensures |r| > 0 ==> !IsJsSpace(r[0])
    ensures forall i :: 0 <= i < |s| - |r| ==> IsJsSpace(s[i])
  {
    if |s| > 0 && IsJsSpace(s[0]) then TrimStart(s[1..]) else s
  }

  /** Value of a digit character in the largest radix (36); 36 for a
      character that is a digit in no radix. */
  function DigitValue(c: char): (v: nat)
    ensures v <= 36
  {
    if '0' <= c <= '9' then c as int - '0' as int
    else if 'a' <= c <= 'z' then c as int - 'a' as int + 10
    else if 'A' <= c <= 'Z' then c as int - 'A' as int + 10
    else 36
  }

  predicate IsDigit(c: char, radix: int) {
    DigitValue(c) < radix
  }

  predicate IsUpper(c: char) {
    'A' <= c <= 'Z'
  }

  /** The lower-case digit character for `d`, as toString(radix) prints it. */
  function DigitChar(d: nat): (c: char)
    requires d < 36
    ensures DigitValue(c) == d
    ensures !IsUpper(c) && !IsJsSpace(c) && c != '-'
  {
    if d < 10 then ('0' as int + d) as char else ('a' as int + d - 10) as char
  }

  /** Length of the longest prefix of `s` made of digits of `radix`. */
  function DigitPrefixLength(s: string, radix: int): (n: nat)
    ensures n <= |s|
    ensures forall i :: 0 <= i < n ==> IsDigit(s[i], radix)
    ensures n < |s| ==> !IsDigit(s[n], radix)
  {
    if |s| > 0 && IsDigit(s[0], radix) then 1 + DigitPrefixLength(s[1..], radix) else 0
  }

  /** Positional (most significant digit first) value of a digit string. */
  function DigitsValue(s: string, radix: int): int {
    if |s| == 0 then 0 else DigitsValue(s[..|s| - 1], radix) * radix + DigitValue(s[|s| - 1])
  }

  /** `parseInt(input, radix)`: skip white space, take an optional sign, strip
      a "0x"/"0X" prefix when the radix is 16 or unspecified (0), then read the
      longest run of digits; NaN (None) when the radix is out of range or no
      digit is found. */
  function ParseInt(input: string, radix: int): Option<int> {
    var trimmed := TrimStart(input);
    var sign := if |trimmed| > 0 && trimmed[0] == '-' then -1 else 1;
    var unsigned := if |trimmed| > 0 && (trimmed[0] == '-' || trimmed[0] == '+') then trimmed[1..] else trimmed;
    if radix != 0 && (radix < 2 || 36 < radix) then None
    else
      var stripPrefix := radix == 0 || radix == 16;
      var hasPrefix := stripPrefix && |unsigned| >= 2 && unsigned[0] == '0' && (unsigned[1] == 'x' || unsigned[1] == 'X');
      var body := if hasPrefix then unsigned[2..] else unsigned;
      var base := if hasPrefix then 16 else if radix == 0 then 10 else radix;
      var n := DigitPrefixLength(body, base);
      if n == 0 then None else Some(sign * DigitsValue(body[..n], base))
  }

  /** A digit string with no superfluous leading zero and no upper-case letter. */
  predicate IsCanonicalDigits(s: string, radix: int) {
    && |s| >= 1
    && (forall i :: 0 <= i < |s| ==> IsDigit(s[i], radix) && !IsUpper(s[i]))
    && (|s| > 1 ==> s[0] != '0')
  }

  /** What toString(radix) prints for an integer: canonical digits, preceded by
      '-' for a negative value (never "-0"). */
  predicate IsCanonicalRadixString(s: string, radix: int) {
    || IsCanonicalDigits(s, radix)
    || (|s| >= 2 && s[0] == '-' && IsCanonicalDigits(s[1..], radix) && s[1..] != "0")
  }

  /** Lower-case hexadecimal digits of a natural number, without padding. */
  function NatToHexDigits(n: nat): (s: string)
    ensures IsCanonicalDigits(s, 16)
    ensures s == "0" <==> n == 0
    decreases n
  {
    if n < 16 then [DigitChar(n)]
    else NatToHexDigits(n / 16) + [DigitChar(n % 16)]
  }

  /** `Number.prototype.toString(16)` on an integer value. */
  function ToHexString(n: int): (s: string)
    ensures IsCanonicalRadixString(s, 16)
    ensures s[0] == '-' <==> n < 0
  {
    if n < 0 then "-" + NatToHexDigits(-n) else NatToHexDigits(n)
  }

  /** Reading back the digits toString(16) prints yields the number. */
  lemma {:induction false} DigitsValueOfHexDigits(n: nat)
    ensures DigitsValue(NatToHexDigits(n), 16) == n
    decreases n
  {
    var s := NatToHexDigits(n);
    if n < 16 {
      assert s[..|s| - 1] == [];
    } else {
      assert s[..|s| - 1] == NatToHexDigits(n / 16);
      DigitsValueOfHexDigits(n / 16);
    }
  }

  /** parseInt(n.toString(16), 16) == n for every integer n. */
  lemma ParseIntOfHexString(n: int)
    ensures ParseInt(ToHexString(n), 16) == Some(n)
  {
    var s := ToHexString(n);
    var digits := if n < 0 then NatToHexDigits(-n) else NatToHexDigits(n);
    assert s == if n < 0 then "-" + digits else digits;
    assert !IsJsSpace(s[0]);
    assert TrimStart(s) == s;
    var unsigned := if s[0] == '-' then s[1..] else s;
    assert unsigned == digits;
    DigitPrefixOfConcat(digits, [], 16);
    assert digits + [] == digits;
    assert digits[..|digits|] == digits;
    DigitsValueOfHexDigits(if n < 0 then -n else n);
  }

  /** parseInt stops at the first character that is not a digit: whatever
      follows a run of decimal digits does not change the result. */
  lemma ParseIntStopsAtNonDigit(digits: string, rest: string)
    requires |digits| >= 1 && forall i :: 0 <= i < |digits| ==> IsDigit(digits[i], 10)
    requires |rest| == 0 || !IsDigit(rest[0], 10)
    ensures ParseInt(digits + rest, 10) == Some(DigitsValue(digits, 10))
  {
    var s := digits + rest;
    DigitStartsPlain(s);
    DigitPrefixOfConcat(digits, rest, 10);
    ParseIntUnsigned(s, 10);
    assert s[..|digits|] == digits;
  }

  /** A string starting with a decimal digit has no white space or sign to skip. */
  lemma DigitStartsPlain(s: string)
    requires |s| > 0 && IsDigit(s[0], 10)
    ensures TrimStart(s) == s && s[0] != '-' && s[0] != '+'
  {
  }

  /** Without white space, sign or hex prefix, parseInt reads the longest
      digit prefix. */
  lemma ParseIntUnsigned(s: string, radix: int)
    requires 2 <= radix <= 36 && radix != 16
    requires TrimStart(s) == s && (|s| > 0 ==> s[0] != '-' && s[0] != '+')
    ensures var n := DigitPrefixLength(s, radix);
            ParseInt(s, radix) == if n == 0 then None else Some(DigitsValue(s[..n], radix))
  {
  }


  /** A string that starts with something other than white space, a sign or
      a decimal digit parses to NaN in base 10. */
  lemma ParseIntDecimalNoDigits(s: string)
    requires |s| > 0 && !IsJsSpace(s[0]) && s[0] != '-' && s[0] != '+' && !IsDigit(s[0], 10)
    ensures ParseInt(s, 10).None?
  {
    assert TrimStart(s) == s;
  }

  lemma {:induction false} DigitPrefixOfConcat(digits: string, rest: string, radix: int)
    requires forall i :: 0 <= i < |digits| ==> IsDigit(digits[i], radix)
    requires |rest| == 0 || !IsDigit(rest[0], radix)
    ensures DigitPrefixLength(digits + rest, radix) == |digits|
    decreases |digits|
  {
    if |digits| > 0 {
      assert (digits + rest)[1..] == digits[1..] + rest;
      DigitPrefixOfConcat(digits[1..], rest, radix);
    } else {
      assert digits + rest == rest;
    }
  }
}
