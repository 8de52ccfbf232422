/** The number conversions of JavaScript the client relies on:
    `parseInt(s)` without a radix, `String(n)` for natural numbers, and
    `Number(s)` for the strings a JSON backend sends as numbers. */
module JsNumbers {
  import opened Common

  /** The value of `c` as a digit in base `radix` (10 or 16). */
  function DigitValue(c: char, radix: nat): Option<nat>
  {
    if '0' <= c <= '9' then Some(c as int - '0' as int)
    else if radix == 16 && 'a' <= c <= 'f' then Some(c as int - 'a' as int + 10)
    else if radix == 16 && 'A' <= c <= 'F' then Some(c as int - 'A' as int + 10)
    else None
  }

  predicate IsDigitOf(c: char, radix: nat)
  {
    DigitValue(c, radix).Some?
  }

  /** Length of the longest prefix of `s` made of base-`radix` digits. */
  function DigitPrefixLen(s: string, radix: nat): (n: nat)
    ensures n <= |s|
    ensures forall i :: 0 <= i < n ==> IsDigitOf(s[i], radix)
    ensures n < |s| ==> !IsDigitOf(s[n], radix)
  {
    if s != [] && IsDigitOf(s[0], radix) then 1 + DigitPrefixLen(s[1..], radix) else 0
  }

  /** The number a string of base-`radix` digits denotes. */
  function DigitsValue(d: string, radix: nat): nat
    requires forall i :: 0 <= i < |d| ==> IsDigitOf(d[i], radix)
  {
    if d == [] then 0
    else
      assert IsDigitOf(d[|d| - 1], radix);
      DigitsValue(d[..|d| - 1], radix) * radix + DigitValue(d[|d| - 1], radix).value
  }

  /** The unsigned part of `parseInt`: base 16 after a `0x`/`0X` prefix,
      base 10 otherwise, and the value of the longest run of digits; no
      digits at all gives NaN (`None`). */
  function ParseUnsigned(u: string): Option<nat>
  {
    var hex := |u| >= 2 && u[0] == '0' && (u[1] == 'x' || u[1] == 'X');
    var radix := if hex then 16 else 10;
    var body := if hex then u[2..] else u;
    var n := DigitPrefixLen(body, radix);
    if n == 0 then None else Some(DigitsValue(body[..n], radix))
  }

  /** JavaScript `parseInt(s)` without a radix: skip leading white space,
      read an optional sign, then the unsigned part. A negative zero is
      the integer 0. */
  function ParseInt(s: string): (r: Option<int>)
    ensures AllWhite(s) ==> r.None?
    ensures r.Some? && r.value < 0 ==> TrimStart(s) != [] && TrimStart(s)[0] == '-'
  {
    var t := TrimStart(s);
    TrimStartShape(s);
    var negative := t != [] && t[0] == '-';
    var u := if t != [] && (t[0] == '-' || t[0] == '+') then t[1..] else t;
    match ParseUnsigned(u)
    case None => None
    case Some(v) =>
      var x: int := if negative then -(v as int) else v;
      Some(x)
  }

  /** `parseInt` ignores white space in front of the number. */
  lemma ParseIntAfterWhite(w: string, s: string)
    requires AllWhite(w)
    ensures ParseInt(w + s) == ParseInt(s)
  {
    TrimStartAfterWhite(w, s);
  }

  /** `String(n)` for a natural number. */
  function NatToString(n: nat): (s: string)
    ensures s != [] && forall i :: 0 <= i < |s| ==> '0' <= s[i] <= '9'
    ensures n > 0 ==> s[0] != '0'
  {
    if n < 10 then ["0123456789"[n]]
    else NatToString(n / 10) + ["0123456789"[n % 10]]
  }

  lemma {:induction false} NatToStringValue(n: nat, radix: nat)
    requires radix == 10
    ensures DigitsValue(NatToString(n), radix) == n
  {
    var s := NatToString(n);
    if n >= 10 {
      NatToStringValue(n / 10, radix);
      assert s[..|s| - 1] == NatToString(n / 10);
    } else {
      assert s[..0] == [];
    }
  }

  lemma {:induction false} DigitPrefixOfConcat(d: string, rest: string, radix: nat)
    requires forall i :: 0 <= i < |d| ==> IsDigitOf(d[i], radix)
    ensures DigitPrefixLen(d + rest, radix) == |d| + DigitPrefixLen(rest, radix)
  {
    if d != [] {
      assert (d + rest)[1..] == d[1..] + rest;
      DigitPrefixOfConcat(d[1..], rest, radix);
    } else {
      assert d + rest == rest;
    }
  }

  lemma ParseUnsignedOfDecimal(n: nat, rest: string)
    requires rest == [] || !('0' <= rest[0] <= '9')
    requires n == 0 && rest != [] ==> rest[0] != 'x' && rest[0] != 'X'
    ensures ParseUnsigned(NatToString(n) + rest) == Some(n)
  {
    var d := NatToString(n);
    var s := d + rest;
    assert !(|s| >= 2 && s[0] == '0' && (s[1] == 'x' || s[1] == 'X')) by {
      if |s| >= 2 && n == 0 {
        assert s[1] == rest[0];
      }
    }
    DigitPrefixOfConcat(d, rest, 10);
    assert rest != [] ==> !IsDigitOf(rest[0], 10);
    assert DigitPrefixLen(rest, 10) == 0;
    assert s[..|d|] == d;
    NatToStringValue(n, 10);
  }

  /** `parseInt` reads back what `String` wrote, and stops at the first
      character that is not a digit: `parseInt(String(n) + rest) == n`
      whenever `rest` does not continue the number (after a lone "0", an
      `x` would start a hexadecimal literal instead). */
  lemma ParseIntOfDecimal(n: nat, rest: string)
    requires rest == [] || !('0' <= rest[0] <= '9')
    requires n == 0 && rest != [] ==> rest[0] != 'x' && rest[0] != 'X'
    ensures ParseInt(NatToString(n) + rest) == Some(n)
  {
    var s := NatToString(n) + rest;
    assert s[0] == NatToString(n)[0];
    assert TrimStart(s) == s;
    ParseUnsignedOfDecimal(n, rest);
  }

  /** `Number(s)` for a string, restricted to what a JSON backend writes
      for an integer: surrounding white space is ignored, a blank string
      is 0, an optionally signed run of decimal digits is its value, and
      anything else is NaN (`None`). */
  function StringToNumber(s: string): (r: Option<int>)
    ensures IsBlank(s) ==> r == Some(0)
    ensures r.Some? && r.value < 0 ==> Trim(s) != [] && Trim(s)[0] == '-'
    ensures r.Some? && !IsBlank(s) ==> exists i :: 0 <= i < |Trim(s)| && '0' <= Trim(s)[i] <= '9'
  {
    var t := Trim(s);
    if t == [] then Some(0)
    else
      var negative := t[0] == '-';
      var body := if t[0] == '-' || t[0] == '+' then t[1..] else t;
      if body != [] && DigitPrefixLen(body, 10) == |body| then
        var v: int := DigitsValue(body, 10);
        Some(if negative then -v else v)
      else None
  }

  /** `Number` reads back what `String` wrote. */
  lemma StringToNumberOfDecimal(n: nat)
    ensures StringToNumber(NatToString(n)) == Some(n)
  {
    var d := NatToString(n);
    DecimalIsTrimmed(d);
    NatToStringValue(n, 10);
    StringToNumberOfDigits(d);
  }

  /** A trimmed run of decimal digits is read as its value. */
  lemma StringToNumberOfDigits(d: string)
    requires d != [] && forall i :: 0 <= i < |d| ==> '0' <= d[i] <= '9'
    requires Trim(d) == d
    ensures StringToNumber(d) == Some(DigitsValue(d, 10))
  {
    AllDigitsPrefix(d, 10);
    assert d[0] != '-' && d[0] != '+';
  }

  lemma DecimalIsTrimmed(d: string)
    requires d != [] && forall i :: 0 <= i < |d| ==> '0' <= d[i] <= '9'
    ensures Trim(d) == d
  {
    var first, last := d[0], d[|d| - 1];
    assert '0' <= first <= '9' && '0' <= last <= '9';
    assert !IsWhite(first) && !IsWhite(last);
    assert TrimStart(d) == d;
    assert TrimEnd(d) == d;
  }

  lemma AllDigitsPrefix(d: string, radix: nat)
    requires forall i :: 0 <= i < |d| ==> IsDigitOf(d[i], radix)
    ensures DigitPrefixLen(d, radix) == |d|
  {
    DigitPrefixOfConcat(d, [], radix);
    assert d + [] == d;
  }
}
