/**
 * The pieces of JavaScript string and number semantics that the relay code relies on:
 * `String.prototype.trim`, `Number.parseInt(s, 10)` and the decimal text of a non-negative integer.
 */
module JsText {
  import opened Wrappers

  /** ECMAScript WhiteSpace and LineTerminator code points: what `trim` removes and `parseInt` skips. */
  predicate IsJsSpace(c: char) {
    c == '\t' || c == '\n' || c == '\U{000B}' || c == '\U{000C}' || c == '\r' || c == ' ' ||
    c == '\U{00A0}' || c == '\U{1680}' || ('\U{2000}' <= c <= '\U{200A}') ||
    c == '\U{2028}' || c == '\U{2029}' || c == '\U{202F}' || c == '\U{205F}' ||
    c == '\U{3000}' || c == '\U{FEFF}'
  }

  /** `s` with its leading white space removed. */
  function TrimStart(s: string): (r: string)
    ensures |r| <= |s| && r == s[|s| - |r|..]
    ensures r == [] || !IsJsSpace(r[0])
    ensures forall i :: 0 <= i < |s| - |r| ==> IsJsSpace(s[i])
    ensures |s| > 0 && !IsJsSpace(s[0]) ==> r == s
  {
    if |s| > 0 && IsJsSpace(s[0]) then
      var t := s[1..];
      var r := TrimStart(t);
      assert t[|t| - |r|..] == s[|s| - |r|..];
      assert forall i :: 0 <= i < |s| - |r| ==> IsJsSpace(s[i]) by {
        forall i | 0 <= i < |s| - |r| ensures IsJsSpace(s[i]) {
          if i > 0 { assert s[i] == t[i - 1]; }
        }
      }
      r
    else s
  }

  /** `s` with its trailing white space removed. */
  function TrimEnd(s: string): (r: string)
    ensures |r| <= |s| && r == s[..|r|]
    ensures r == [] || !IsJsSpace(r[|r| - 1])
    ensures forall i :: |r| <= i < |s| ==> IsJsSpace(s[i])
  {
    if |s| > 0 && IsJsSpace(s[|s| - 1]) then TrimEnd(s[..|s| - 1]) else s
  }

  /** `String.prototype.trim`. */
  function Trim(s: string): (r: string)
    ensures r == [] || (!IsJsSpace(r[0]) && !IsJsSpace(r[|r| - 1]))
    ensures (forall i :: 0 <= i < |s| ==> IsJsSpace(s[i])) <==> r == []
  {
    var t := TrimEnd(s);
    var r := TrimStart(t);
    if r == [] then
      assert forall i :: 0 <= i < |s| ==> IsJsSpace(s[i]) by {
        forall i | 0 <= i < |s| ensures IsJsSpace(s[i]) {
          if i < |t| { assert s[i] == t[i]; }
        }
      }
      r
    else
      var a := |t| - |r|;
      assert r[0] == t[a] == s[a];
      assert r[|r| - 1] == t[|t| - 1];
      assert !IsJsSpace(s[a]);
      r
  }

  /**
   * `trim` keeps a contiguous piece of `s` and removes only white space: everything before the
   * piece and everything after it is white space.
   */
  lemma TrimKeepsMiddle(s: string)
    ensures var r := Trim(s); var a := |TrimEnd(s)| - |r|;
      0 <= a && a + |r| <= |s| && r == s[a..a + |r|] &&
      (forall k :: 0 <= k < a ==> IsJsSpace(s[k])) && (forall k :: a + |r| <= k < |s| ==> IsJsSpace(s[k]))
  {
    var t := TrimEnd(s);
    var r := Trim(s);
    var a := |t| - |r|;
    assert r == TrimStart(t) == t[a..];
    assert t == s[..|t|];
    assert t[a..] == s[a..|t|];
    forall k | 0 <= k < |t| - |r| ensures IsJsSpace(s[k]) {
      assert s[k] == t[k];
    }
  }

  predicate IsDigit(c: char) {
    '0' <= c <= '9'
  }

  predicate AllDigits(s: string) {
    forall i :: 0 <= i < |s| ==> IsDigit(s[i])
  }

  function DigitValue(c: char): (d: nat)
    requires IsDigit(c)
    ensures d < 10
  {
    (c as int) - ('0' as int)
  }

  function DigitChar(d: nat): (c: char)
    requires d < 10
    ensures IsDigit(c) && DigitValue(c) == d
  {
    (('0' as int) + d) as char
  }

  /** The value of a string of decimal digits, most significant first. */
  function DecimalValue(ds: string): nat
    requires AllDigits(ds)
  {
    if ds == [] then 0 else 10 * DecimalValue(ds[..|ds| - 1]) + DigitValue(ds[|ds| - 1])
  }

  /** The length of the longest prefix of `s` made of decimal digits. */
  function DigitPrefixLength(s: string): (n: nat)
    ensures n <= |s| && AllDigits(s[..n])
    ensures n < |s| ==> !IsDigit(s[n])
  {
    if |s| > 0 && IsDigit(s[0]) then
      var n := 1 + DigitPrefixLength(s[1..]);
      assert s[..n] == [s[0]] + s[1..][..n - 1];
      n
    else 0
  }

  /** The digits at the front of `body`, read as a number; `None` when `body` does not start with a digit. */
  function ReadDigits(body: string): (r: Option<nat>)
    ensures r.None? <==> body == [] || !IsDigit(body[0])
  {
    var n := DigitPrefixLength(body);
    if n == 0 then None else Some(DecimalValue(body[..n]))
  }

  /**
   * `Number.parseInt(s, 10)`: leading white space is skipped, one optional sign is read, then the
   * longest run of decimal digits; `None` stands for NaN (no digit at all).
   */
  function ParseInt(s: string): (r: Option<int>)
  {
    ParseSigned(TrimStart(s))
  }

  /** `parseInt` after the white space: an optional sign, then the digits. */
  function ParseSigned(t: string): (r: Option<int>)
    ensures r.None? <==> ReadDigits(if |t| > 0 && (t[0] == '-' || t[0] == '+') then t[1..] else t).None?
  {
    if |t| > 0 && t[0] == '-' then
      (match ReadDigits(t[1..]) case None => None case Some(v) => Some(-(v as int)))
    else if |t| > 0 && t[0] == '+' then
      (match ReadDigits(t[1..]) case None => None case Some(v) => Some(v))
    else
      (match ReadDigits(t) case None => None case Some(v) => Some(v))
  }

  /** `String(n)` for a non-negative integer: its decimal digits without leading zeros. */
  function IntToDecimal(n: nat): (s: string)
    ensures |s| > 0 && AllDigits(s)
    ensures s[0] != '0' || n == 0
  {
    if n < 10 then [DigitChar(n)] else IntToDecimal(n / 10) + [DigitChar(n % 10)]
  }

  lemma {:induction false} DecimalValueOfIntToDecimal(n: nat)
    ensures DecimalValue(IntToDecimal(n)) == n
  {
    var s := IntToDecimal(n);
    if n >= 10 {
      DecimalValueOfIntToDecimal(n / 10);
      assert s[..|s| - 1] == IntToDecimal(n / 10);
    }
  }

  /** Reading back the decimal text of a non-negative integer gives the integer. */
  lemma ParseIntOfIntToDecimal(n: nat)
    ensures ParseInt(IntToDecimal(n)) == Some(n)
  {
    var s := IntToDecimal(n);
    assert !IsJsSpace(s[0]);
    assert TrimStart(s) == s;
    assert s[0] != '-' && s[0] != '+';
    var k := DigitPrefixLength(s);
    assert k == |s|;
    assert s[..k] == s;
    DecimalValueOfIntToDecimal(n);
  }

  /** Distinct non-negative integers have distinct decimal texts. */
  lemma IntToDecimalInjective(a: nat, b: nat)
    ensures IntToDecimal(a) == IntToDecimal(b) ==> a == b
  {
    if IntToDecimal(a) == IntToDecimal(b) {
      ParseIntOfIntToDecimal(a);
      ParseIntOfIntToDecimal(b);
    }
  }

  lemma {:induction false} DigitPrefixLengthOfDigitsThen(ds: string, rest: string)
    requires AllDigits(ds)
    requires rest == [] || !IsDigit(rest[0])
    ensures DigitPrefixLength(ds + rest) == |ds|
  {
    if ds != [] {
      assert (ds + rest)[1..] == ds[1..] + rest;
      DigitPrefixLengthOfDigitsThen(ds[1..], rest);
    }
  }

  /** `parseInt` of a run of digits followed by text that does not start with a digit reads the digits. */
  lemma ParseIntOfDigitsThen(ds: string, rest: string)
    requires |ds| > 0 && AllDigits(ds)
    requires rest == [] || !IsDigit(rest[0])
    ensures ParseInt(ds + rest) == Some(DecimalValue(ds))
  {
    var s := ds + rest;
    assert s[0] == ds[0] && IsDigit(s[0]);
    assert !IsJsSpace(s[0]) && s[0] != '-' && s[0] != '+';
    assert ParseInt(s) == ParseSigned(s);
    DigitPrefixLengthOfDigitsThen(ds, rest);
    assert s[..|ds|] == ds;
    assert ReadDigits(s) == Some(DecimalValue(ds));
  }

  /** `parseInt` skips a leading blank. */
  lemma ParseIntSkipsBlank(t: string)
    requires |t| > 0 && !IsJsSpace(t[0])
    ensures ParseInt(" " + t) == ParseInt(t)
  {
    assert (" " + t)[1..] == t;
    assert TrimStart(t) == t;
  }

  /** `parseInt` of text starting with a digit reads the digits. */
  lemma ParseIntOfDigitStart(t: string)
    requires |t| > 0 && IsDigit(t[0])
    ensures ParseInt(t) == Some(ReadDigits(t).value)
  {
    assert !IsJsSpace(t[0]) && t[0] != '-' && t[0] != '+';
    assert ParseInt(t) == ParseSigned(t);
  }

  /** `parseInt` reads a plus sign before the digits. */
  lemma ParseIntReadsPlus(t: string)
    requires |t| > 0 && IsDigit(t[0])
    ensures ParseInt("+" + t) == ParseInt(t)
  {
    ParseIntOfDigitStart(t);
    var plus := "+" + t;
    assert plus[0] == '+' && plus[1..] == t;
    assert !IsJsSpace(plus[0]);
    assert ParseInt(plus) == ParseSigned(plus);
    assert ReadDigits(t).Some?;
    assert ParseSigned(plus) == Some(ReadDigits(t).value);
  }

  /** `parseInt` reads a minus sign before the digits. */
  lemma ParseIntReadsMinus(t: string)
    requires |t| > 0 && IsDigit(t[0])
    ensures ParseInt("-" + t) == Some(-(ReadDigits(t).value as int))
  {
    var minus := "-" + t;
    assert minus[0] == '-' && minus[1..] == t;
    assert !IsJsSpace(minus[0]);
    assert ParseInt(minus) == ParseSigned(minus);
    assert ReadDigits(t).Some?;
  }
}
