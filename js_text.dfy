/** The few pieces of JavaScript's string and number semantics that the pages rely on:
    the `\s` and `\d` character classes, `s.replace(/\D/g, '')`, `parseInt(s, 10)` and the
    decimal rendering of an integer (`n.toString()`). */
module JsText {
  import opened Wrappers

  /** A character matched by `\s` in a JavaScript regular expression: ECMAScript's
      WhiteSpace (tab, vertical tab, form feed, the byte-order mark and the Unicode space
      separators) and LineTerminator (line feed, carriage return, U+2028, U+2029).
      `parseInt` skips leading characters of the same set. */
  predicate IsWhitespace(c: char) {
    var n := c as int;
    n == 0x09 || n == 0x0A || n == 0x0B || n == 0x0C || n == 0x0D || n == 0x20
    || n == 0xA0 || n == 0x1680 || (0x2000 <= n <= 0x200A) || n == 0x2028 || n == 0x2029
    || n == 0x202F || n == 0x205F || n == 0x3000 || n == 0xFEFF
  }

  /** A character matched by `\d`: the ASCII decimal digits only. */
  predicate IsDigit(c: char) {
    '0' <= c <= '9'
  }

  predicate AllDigits(s: string) {
    forall i :: 0 <= i < |s| ==> IsDigit(s[i])
  }

  function DigitValue(c: char): (d: nat)
    requires IsDigit(c)
    ensures d < 10
  {
    c as int - '0' as int
  }

  function DigitChar(d: nat): (c: char)
    requires d < 10
    ensures IsDigit(c) && DigitValue(c) == d
  {
    ('0' as int + d) as char
  }

  /** `s.replace(/\D/g, '')`: the digits of `s`, in order. */
  function DigitsOnly(s: string): (r: string)
    ensures AllDigits(r)
    ensures |r| <= |s|
  {
    if s == [] then []
    else (if IsDigit(s[0]) then [s[0]] else []) + DigitsOnly(s[1..])
  }

  /** Stripping distributes over concatenation, so the digits keep their order. */
  lemma {:induction false} DigitsOnlyAppend(a: string, b: string)
    ensures DigitsOnly(a + b) == DigitsOnly(a) + DigitsOnly(b)
  {
    if a != [] {
      assert (a + b)[1..] == a[1..] + b;
      DigitsOnlyAppend(a[1..], b);
    } else {
      assert a + b == b;
    }
  }

  /** A string of digits is left as it is, and one without digits vanishes. */
  lemma {:induction false} DigitsOnlyKeepsDigits(s: string)
    ensures AllDigits(s) ==> DigitsOnly(s) == s
    ensures (forall i :: 0 <= i < |s| ==> !IsDigit(s[i])) ==> DigitsOnly(s) == []
  {
    if s != [] {
      DigitsOnlyKeepsDigits(s[1..]);
    }
  }

  /** Nothing is deleted only when every character is a digit. */
  lemma {:induction false} DigitsOnlyKeepsAll(s: string)
    ensures |DigitsOnly(s)| == |s| <==> AllDigits(s)
  {
    if s != [] {
      DigitsOnlyKeepsAll(s[1..]);
      assert AllDigits(s) <==> IsDigit(s[0]) && AllDigits(s[1..]);
    }
  }

  /** `s` with its leading `\s` characters removed. */
  function TrimStart(s: string): (r: string)
    ensures |r| <= |s| && r == s[|s| - |r|..]
    ensures r != [] ==> !IsWhitespace(r[0])
    ensures forall i :: 0 <= i < |s| - |r| ==> IsWhitespace(s[i])
  {
    if s != [] && IsWhitespace(s[0]) then
      var r := TrimStart(s[1..]);
      assert forall i :: 1 <= i < |s| ==> s[i] == s[1..][i - 1];
      r
    else s
  }

  /** The length of the longest prefix of `s` made of digits. */
  function DigitPrefixLength(s: string): (n: nat)
    ensures n <= |s|
    ensures AllDigits(s[..n])
    ensures n < |s| ==> !IsDigit(s[n])
  {
    if s != [] && IsDigit(s[0]) then 1 + DigitPrefixLength(s[1..]) else 0
  }

  /** The number a string of decimal digits denotes, most significant digit first. */
  function DecimalValue(ds: string): nat
    requires AllDigits(ds)
  {
    if ds == [] then 0 else 10 * DecimalValue(ds[..|ds| - 1]) + DigitValue(ds[|ds| - 1])
  }

  /** `parseInt(s, 10)`: skip leading whitespace, read an optional sign, then the longest run
      of digits; `None` stands for NaN, the result when that run is empty. */
  function ParseInt(s: string): (r: Option<int>)
    ensures r.None? <==> DigitPrefixLength(Unsigned(TrimStart(s))) == 0
  {
    var t := TrimStart(s);
    var u := Unsigned(t);
    var n := DigitPrefixLength(u);
    if n == 0 then None
    else Some((if t != [] && t[0] == '-' then -1 else 1) * DecimalValue(u[..n]))
  }

  /** A trimmed string with its one optional leading sign removed. */
  function Unsigned(t: string): (u: string)
    ensures u == t || (t != [] && (t[0] == '-' || t[0] == '+') && u == t[1..])
  {
    if t != [] && (t[0] == '-' || t[0] == '+') then t[1..] else t
  }

  /** The decimal digits of `n`, without leading zeros. */
  function NatToDecimal(n: nat): (s: string)
    ensures s != [] && AllDigits(s)
  {
    if n < 10 then [DigitChar(n)] else NatToDecimal(n / 10) + [DigitChar(n % 10)]
  }

  /** `n.toString()` for an integer `n`. */
  function IntToDecimal(n: int): (s: string)
    ensures s != []
  {
    if n < 0 then "-" + NatToDecimal(-n) else NatToDecimal(n)
  }

  lemma {:induction false} DecimalValueOfNatToDecimal(n: nat)
    ensures DecimalValue(NatToDecimal(n)) == n
  {
    if n >= 10 {
      var s := NatToDecimal(n);
      assert s[..|s| - 1] == NatToDecimal(n / 10);
      DecimalValueOfNatToDecimal(n / 10);
    }
  }

  lemma {:induction false} DigitPrefixOfDigits(s: string)
    requires AllDigits(s)
    ensures DigitPrefixLength(s) == |s|
  {
    if s != [] {
      DigitPrefixOfDigits(s[1..]);
    }
  }

  /** A string that does not start with whitespace is left as it is. */
  lemma TrimStartOfNonSpace(s: string)
    requires s != [] && !IsWhitespace(s[0])
    ensures TrimStart(s) == s
  {
  }

  /** A string of digits parses to the number it denotes. */
  lemma ParseIntOfDigits(d: string)
    requires d != [] && AllDigits(d)
    ensures ParseInt(d) == Some(DecimalValue(d))
  {
    DigitPrefixOfDigits(d);
    assert d[..|d|] == d;
    TrimStartOfNonSpace(d);
  }

  /** A minus sign before a string of digits parses to the negated number. */
  lemma ParseIntOfNegatedDigits(d: string)
    requires d != [] && AllDigits(d)
    ensures ParseInt("-" + d) == Some(-(DecimalValue(d) as int))
  {
    DigitPrefixOfDigits(d);
    assert d[..|d|] == d;
    var s := "-" + d;
    TrimStartOfNonSpace(s);
    assert s[1..] == d;
    assert Unsigned(s) == d;
  }

  /** Rendering an integer in decimal and parsing it back gives the integer: the table number
      a guest picks on the reservation grid is the one sent to the backend. */
  lemma ParseIntOfIntToDecimal(n: int)
    ensures ParseInt(IntToDecimal(n)) == Some(n)
  {
    var m: nat := if n < 0 then -n else n;
    DecimalValueOfNatToDecimal(m);
    if n < 0 {
      ParseIntOfNegatedDigits(NatToDecimal(m));
    } else {
      ParseIntOfDigits(NatToDecimal(m));
    }
  }
}
