/**
 * The few string primitives of JavaScript the scripts rely on, written out on `seq<char>`:
 * `String(n)` for integers, `padStart(2, "0")`, `trim()` and `parseInt(s, 10)`.
 */
module Text {
  import opened Collections

  predicate IsDigit(c: char) {
    '0' <= c <= '9'
  }

  predicate AllDigits(s: string) {
    forall i :: 0 <= i < |s| ==> IsDigit(s[i])
  }

  function DigitChar(d: nat): (c: char)
    requires d < 10
    ensures IsDigit(c)
  {
    ('0' as int + d) as char
  }

  function DigitValue(c: char): (d: nat)
    requires IsDigit(c)
    ensures d < 10
  {
    c as int - '0' as int
  }

  /** `String(n)` for a non-negative integer: its decimal digits, without leading zeros. */
  function NatToString(n: nat): (s: string)
    ensures AllDigits(s) && |s| >= 1
    ensures |s| == 1 <==> n < 10
    ensures 10 <= n < 100 ==> |s| == 2
    ensures |s| > 1 ==> s[0] != '0'
  {
    if n < 10 then [DigitChar(n)] else NatToString(n / 10) + [DigitChar(n % 10)]
  }

  /** `String(i)` for any integer: a minus sign before the digits of a negative number. */
  function IntToString(i: int): (s: string)
    ensures |s| >= 1 && (IsDigit(s[0]) || s[0] == '-')
  {
    if i < 0 then "-" + NatToString(-i) else NatToString(i)
  }

  /** The number a string of decimal digits denotes, most significant digit first. */
  function DigitsValue(s: string): nat
    requires AllDigits(s)
  {
    if s == [] then 0 else DigitsValue(s[..|s| - 1]) * 10 + DigitValue(s[|s| - 1])
  }

  /** Reading back what `String(n)` wrote gives `n`. */
  lemma {:induction false} NatToStringValue(n: nat)
    ensures DigitsValue(NatToString(n)) == n
  {
    if n >= 10 {
      var s := NatToString(n);
      assert s[..|s| - 1] == NatToString(n / 10);
      NatToStringValue(n / 10);
    }
  }

  /** Zeros in front of a digit string do not change its value. */
  lemma {:induction false} LeadingZeroValue(s: string)
    requires AllDigits(s)
    ensures AllDigits("0" + s) && DigitsValue("0" + s) == DigitsValue(s)
  {
    if s != [] {
      var t := "0" + s;
      assert t[..|t| - 1] == "0" + s[..|s| - 1];
      LeadingZeroValue(s[..|s| - 1]);
    }
  }

  /** `s.padStart(2, "0")`: strings shorter than two characters get zeros in front. */
  function PadStart2(s: string): (r: string)
    ensures |r| == if |s| >= 2 then |s| else 2
  {
    if |s| >= 2 then s else if |s| == 1 then "0" + s else "00"
  }

  /** Padding only puts zeros in front: the string itself ends the result. */
  lemma PadStart2Keeps(s: string)
    ensures var r := PadStart2(s);
            r[|r| - |s|..] == s && forall i :: 0 <= i < |r| - |s| ==> r[i] == '0'
  {
  }

  /** Padding a number's digits keeps them digits and keeps their value. */
  lemma PadStart2Value(n: nat)
    ensures AllDigits(PadStart2(NatToString(n)))
    ensures DigitsValue(PadStart2(NatToString(n))) == n
    ensures n < 100 ==> |PadStart2(NatToString(n))| == 2
  {
    NatToStringValue(n);
    if n < 10 {
      LeadingZeroValue(NatToString(n));
    }
  }

  /** The characters `String.prototype.trim` and `parseInt` treat as white space or line terminators. */
  predicate IsWhitespace(c: char) {
    c == '\t' || c == '\n' || c == '\U{000B}' || c == '\U{000C}' || c == '\r' || c == ' '
    || c == '\U{00A0}' || c == '\U{1680}' || ('\U{2000}' <= c <= '\U{200A}')
    || c == '\U{2028}' || c == '\U{2029}' || c == '\U{202F}' || c == '\U{205F}'
    || c == '\U{3000}' || c == '\U{FEFF}'
  }

  /** `s.trimStart()`. */
  function TrimStart(s: string): (r: string)
    ensures |r| <= |s| && r == s[|s| - |r|..]
    ensures forall i :: 0 <= i < |s| - |r| ==> IsWhitespace(s[i])
    ensures r != [] ==> !IsWhitespace(r[0])
  {
    if s != [] && IsWhitespace(s[0]) then TrimStart(s[1..]) else s
  }

  /** `s.trimEnd()`. */
  function TrimEnd(s: string): (r: string)
    ensures |r| <= |s| && r == s[..|r|]
    ensures forall i :: |r| <= i < |s| ==> IsWhitespace(s[i])
    ensures r != [] ==> !IsWhitespace(r[|r| - 1])
  {
    if s != [] && IsWhitespace(s[|s| - 1]) then TrimEnd(s[..|s| - 1]) else s
  }

  /** `s.trim()`: white space removed at both ends. */
  function Trim(s: string): (r: string)
    ensures r != [] ==> !IsWhitespace(r[0]) && !IsWhitespace(r[|r| - 1])
  {
    TrimEnd(TrimStart(s))
  }

  /** What `trim` keeps is one contiguous piece of the input: nothing inside is removed. */
  lemma TrimIsInfix(s: string)
    ensures var k := |s| - |TrimStart(s)|;
            k + |Trim(s)| <= |s| && Trim(s) == s[k..k + |Trim(s)|]
  {
    var t := TrimStart(s);
    var k := |s| - |t|;
    assert Trim(s) == t[..|Trim(s)|];
    assert t == s[k..];
  }

  /** A string trims to nothing exactly when it is all white space. */
  lemma TrimEmptyIffBlank(s: string)
    ensures Trim(s) == [] <==> forall i :: 0 <= i < |s| ==> IsWhitespace(s[i])
  {
    var t := TrimStart(s);
    TrimStartOfBlank(s);
    if Trim(s) != [] {
      TrimIsInfix(s);
      assert s[|s| - |t|] == Trim(s)[0];
    }
  }

  /** When nothing is left after `trim`, nothing was left after `trimStart` either. */
  lemma TrimStartOfBlank(s: string)
    ensures Trim(s) == [] ==> TrimStart(s) == []
  {
  }

  /** Trimming a trimmed string changes nothing. */
  lemma TrimIdempotent(s: string)
    ensures Trim(Trim(s)) == Trim(s)
  {
    var r := Trim(s);
    if r != [] {
      assert TrimStart(r) == r;
      assert TrimEnd(r) == r;
    }
  }

  /** The length of the run of decimal digits at the front of `s`. */
  function DigitRun(s: string): (k: nat)
    ensures k <= |s| && AllDigits(s[..k])
    ensures k < |s| ==> !IsDigit(s[k])
  {
    if s != [] && IsDigit(s[0]) then
      var k := 1 + DigitRun(s[1..]);
      assert s[..k] == [s[0]] + s[1..][..k - 1];
      k
    else 0
  }

  /**
   * `parseInt(s, 10)`: leading white space skipped, an optional sign, then the longest run
   * of decimal digits; `None` stands for `NaN`, the result when that run is empty.
   */
  function ParseInt(s: string): (r: Option<int>)
    ensures r.Some? ==> TrimStart(s) != []
  {
    var t := TrimStart(s);
    var negative := t != [] && t[0] == '-';
    var u := if t != [] && (t[0] == '-' || t[0] == '+') then t[1..] else t;
    var k := DigitRun(u);
    if k == 0 then None
    else
      var v: int := DigitsValue(u[..k]);
      Some(if negative then -v else v)
  }

  /** `parseInt` gives `NaN` exactly when no digit follows the white space and the optional sign. */
  lemma ParseIntNaN(s: string)
    ensures ParseInt(s).None? <==> var t := TrimStart(s);
                                   var u := if t != [] && (t[0] == '-' || t[0] == '+') then t[1..] else t;
                                   u == [] || !IsDigit(u[0])
  {
  }

  /** The digit run of a digit string followed by a non-digit is exactly that string. */
  lemma {:induction false} DigitRunOfDigits(d: string, rest: string)
    requires AllDigits(d)
    requires rest == [] || !IsDigit(rest[0])
    ensures DigitRun(d + rest) == |d|
  {
    if d != [] {
      assert (d + rest)[1..] == d[1..] + rest;
      DigitRunOfDigits(d[1..], rest);
    }
  }

  /**
   * `parseInt` reads back what `String` wrote, and stops at the first character that is
   * not a digit: `parseInt(String(i) + rest) == i` whenever `rest` does not go on with a digit.
   */
  lemma ParseIntOfIntToString(i: int, rest: string)
    requires rest == [] || !IsDigit(rest[0])
    ensures ParseInt(IntToString(i) + rest) == Some(i)
  {
    var n: nat := if i < 0 then -i else i;
    var sign := if i < 0 then "-" else "";
    assert IntToString(i) + rest == sign + NatToString(n) + rest;
    ParseIntOfDigits(sign, NatToString(n), rest);
    NatToStringValue(n);
  }

  /** A sign as `parseInt` accepts it before the digits: none, `-` or `+`. */
  predicate IsSign(sign: string) {
    sign == "" || sign == "-" || sign == "+"
  }

  /** The number that a sign followed by decimal digits stands for; `-0` is 0. */
  function SignedValue(sign: string, ds: string): int
    requires AllDigits(ds)
  {
    var v: int := DigitsValue(ds);
    if sign == "-" then -v else v
  }

  /**
   * `parseInt` of an optional sign, a run of digits (leading zeros allowed) and anything
   * that does not go on with a digit is the signed value of that run: `"00"` is 0, `"+5"`
   * is 5, `"1.5"` is 1 and `"5 min"` is 5.
   */
  lemma ParseIntOfDigits(sign: string, ds: string, rest: string)
    requires IsSign(sign) && AllDigits(ds) && ds != []
    requires rest == [] || !IsDigit(rest[0])
    ensures ParseInt(sign + ds + rest) == Some(SignedValue(sign, ds))
  {
    if sign == "" {
      assert sign + ds + rest == ds + rest;
      ParseIntOfUnsigned(ds, rest);
    } else {
      var s := sign + ds + rest;
      assert s[0] == sign[0] && s[1..] == ds + rest;
      ParseIntOfSigned(s, ds, rest);
    }
  }

  /** With a sign: `-` negates the digit run, `+` keeps it. */
  lemma ParseIntOfSigned(s: string, ds: string, rest: string)
    requires s != [] && (s[0] == '-' || s[0] == '+')
    requires AllDigits(ds) && ds != [] && s[1..] == ds + rest
    requires rest == [] || !IsDigit(rest[0])
    ensures var v: int := DigitsValue(ds);
            ParseInt(s) == Some(if s[0] == '-' then -v else v)
  {
    var u := s[1..];
    assert !IsWhitespace(s[0]);
    assert TrimStart(s) == s;
    DigitRunOfDigits(ds, rest);
    assert u[..|ds|] == ds;
  }

  /** Without a sign: the digit run up to the first non-digit. */
  lemma ParseIntOfUnsigned(ds: string, rest: string)
    requires AllDigits(ds) && ds != []
    requires rest == [] || !IsDigit(rest[0])
    ensures ParseInt(ds + rest) == Some(DigitsValue(ds) as int)
  {
    var u := ds + rest;
    assert !IsWhitespace(u[0]);
    DigitRunOfDigits(ds, rest);
    assert u[..|ds|] == ds;
  }

  /** A sign followed by no digit is not a number: `parseInt("-")` and `parseInt("+x")` are `NaN`. */
  lemma ParseIntOfBareSign(sign: string, rest: string)
    requires sign == "-" || sign == "+"
    requires rest == [] || !IsDigit(rest[0])
    ensures ParseInt(sign + rest).None?
  {
    var s := sign + rest;
    assert TrimStart(s) == s;
    assert s[1..] == rest;
  }
}
