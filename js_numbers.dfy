/** JavaScript's global parseInt(string) with no radix argument, as the
    restock handler uses it: skip leading white space, read an optional sign,
    read a "0x"/"0X" prefix as base 16, then take the longest run of digits
    of that base. No digits gives NaN (None here). The value is an unbounded
    integer; the loss of precision of IEEE doubles above 2^53 and the
    distinction between 0 and -0 are not modelled. */
module JsNumbers {
  import opened Common

  /** The white space and line terminators parseInt skips. */
  predicate IsStrWhiteSpace(c: char) {
    || c == '\t' || c == '\n' || c == '\U{000B}' || c == '\U{000C}' || c == '\r' || c == ' '
    || c == '\U{00A0}' || c == '\U{1680}' || '\U{2000}' <= c <= '\U{200A}'
    || c == '\U{2028}' || c == '\U{2029}' || c == '\U{202F}' || c == '\U{205F}'
    || c == '\U{3000}' || c == '\U{FEFF}'
  }

  /** `s` without its leading white space. */
  function TrimStart(s: string): (r: string)
    ensures |r| <= |s|
    ensures r == [] || !IsStrWhiteSpace(r[0])
    ensures s != [] && !IsStrWhiteSpace(s[0]) ==> r == s
    ensures r == s[|s| - |r|..]
    ensures forall i :: 0 <= i < |s| - |r| ==> IsStrWhiteSpace(s[i])
  {
    if s != [] && IsStrWhiteSpace(s[0]) then
      var r := TrimStart(s[1..]);
      assert s[1..][|s| - 1 - |r|..] == s[|s| - |r|..];
      assert forall i :: 1 <= i < |s| - |r| ==> s[i] == s[1..][i - 1];
      r
    else s
  }

  predicate IsHexLetter(c: char) {
    'a' <= c <= 'f' || 'A' <= c <= 'F'
  }

  /** A digit of base 10 or base 16. */
  predicate IsRadixDigit(c: char, radix: nat) {
    IsDigit(c) || (radix == 16 && IsHexLetter(c))
  }

  function RadixDigitValue(c: char, radix: nat): (d: nat)
    requires radix == 10 || radix == 16
    requires IsRadixDigit(c, radix)
    ensures d < radix
  {
    if IsDigit(c) then DigitOf(c)
    else if 'a' <= c <= 'f' then c as int - 'a' as int + 10
    else c as int - 'A' as int + 10
  }

  /** The longest prefix of `s` made of digits of the base. */
  function DigitRun(s: string, radix: nat): (z: string)
    ensures z <= s
    ensures forall i :: 0 <= i < |z| ==> IsRadixDigit(z[i], radix)
    ensures |z| < |s| ==> !IsRadixDigit(s[|z|], radix)
  {
    if s != [] && IsRadixDigit(s[0], radix) then [s[0]] + DigitRun(s[1..], radix) else []
  }

  /** The value of a run of digits of the base, most significant first. */
  function RunValue(z: string, radix: nat): nat
    requires radix == 10 || radix == 16
    requires forall i :: 0 <= i < |z| ==> IsRadixDigit(z[i], radix)
  {
    if z == [] then 0 else RunValue(z[..|z| - 1], radix) * radix + RadixDigitValue(z[|z| - 1], radix)
  }

  /** The text after the sign: a "0x" or "0X" prefix selects base 16. */
  function ParseUnsigned(u: string): Option<nat>
  {
    var hex := |u| >= 2 && u[0] == '0' && (u[1] == 'x' || u[1] == 'X');
    var radix := if hex then 16 else 10;
    var z := DigitRun(if hex then u[2..] else u, radix);
    if z == [] then None else Some(RunValue(z, radix))
  }

  /** parseInt on text that starts with no white space: an optional sign,
      then the unsigned part. */
  function ParseSigned(t: string): Option<int>
  {
    if t != [] && t[0] == '-' then
      match ParseUnsigned(t[1..])
      case None => None
      case Some(v) => Some(-(v as int))
    else
      ParseUnsigned(if t != [] && t[0] == '+' then t[1..] else t)
  }

  /** parseInt(s); None stands for NaN. Blank text is NaN; text whose first
      non-blank character is a digit (and that does not open "0x") reads as a
      non-negative number; a minus sign never gives a positive one. */
  function ParseInt(s: string): (r: Option<int>)
    ensures TrimStart(s) == [] ==> r.None?
    ensures var t := TrimStart(s);
      t != [] && IsDigit(t[0]) && !(|t| >= 2 && t[0] == '0' && (t[1] == 'x' || t[1] == 'X')) ==>
        r.Some? && r.value >= 0
    ensures var t := TrimStart(s); t != [] && t[0] == '-' && r.Some? ==> r.value <= 0
  {
    ParseSigned(TrimStart(s))
  }

  /** In base 10 the digit reader agrees with DecimalValue. */
  lemma {:induction false} RunValueIsDecimalValue(z: string)
    requires AllDigits(z)
    ensures forall i :: 0 <= i < |z| ==> IsRadixDigit(z[i], 10)
    ensures RunValue(z, 10) == DecimalValue(z)
  {
    if z != [] {
      RunValueIsDecimalValue(z[..|z| - 1]);
    }
  }

  /** The digit run of a number's text followed by a non-digit is exactly
      that text. */
  lemma {:induction false} DigitRunOfDecimal(digits: string, rest: string)
    requires AllDigits(digits)
    requires rest == [] || !IsDigit(rest[0])
    ensures DigitRun(digits + rest, 10) == digits
  {
    if digits != [] {
      assert (digits + rest)[1..] == digits[1..] + rest;
      DigitRunOfDecimal(digits[1..], rest);
    }
  }

  /** The unsigned reader on a number's text followed by a non-digit. */
  lemma ParseUnsignedOfDecimal(n: nat, rest: string)
    requires rest == [] || !IsDigit(rest[0])
    requires n == 0 ==> rest == [] || (rest[0] != 'x' && rest[0] != 'X')
    ensures ParseUnsigned(Decimal(n) + rest) == Some(n)
  {
    var d := Decimal(n);
    var text := d + rest;
    assert text[0] == d[0];
    if |text| >= 2 {
      assert text[1] == if |d| >= 2 then d[1] else rest[0];
    }
    DigitRunOfDecimal(d, rest);
    RunValueIsDecimalValue(d);
    DecimalRoundTrip(n);
  }

  /** parseInt reads a number's decimal text back, ignoring whatever follows
      the digits ("12abc" gives 12, "1e3" gives 1), except that "0x" turns
      the text into a hexadecimal prefix. */
  lemma ParseIntReadsDecimal(n: nat, rest: string)
    requires rest == [] || !IsDigit(rest[0])
    requires n == 0 ==> rest == [] || (rest[0] != 'x' && rest[0] != 'X')
    ensures ParseInt(Decimal(n) + rest) == Some(n)
  {
    var text := Decimal(n) + rest;
    ParseUnsignedOfDecimal(n, rest);
    assert !IsStrWhiteSpace(text[0]) && text[0] != '-' && text[0] != '+' by {
      assert text[0] == Decimal(n)[0];
    }
    assert TrimStart(text) == text;
  }

  /** A leading minus sign negates whatever the rest reads as. */
  lemma ParseIntOfMinus(u: string)
    ensures ParseInt("-" + u) == if ParseUnsigned(u).Some? then Some(-(ParseUnsigned(u).value as int)) else None
  {
    var signed := "-" + u;
    assert signed[0] == '-' && signed[1..] == u;
    assert TrimStart(signed) == signed;
  }

  /** With a minus sign in front, the same text reads as the negation. */
  lemma ParseIntReadsNegatedDecimal(n: nat, rest: string)
    requires rest == [] || !IsDigit(rest[0])
    requires n == 0 ==> rest == [] || (rest[0] != 'x' && rest[0] != 'X')
    ensures ParseInt("-" + (Decimal(n) + rest)) == Some(-(n as int))
  {
    ParseUnsignedOfDecimal(n, rest);
    ParseIntOfMinus(Decimal(n) + rest);
  }

  /** Leading white space does not change the result. */
  lemma ParseIntSkipsWhiteSpace(c: char, s: string)
    requires IsStrWhiteSpace(c)
    ensures ParseInt([c] + s) == ParseInt(s)
  {
    var t := [c] + s;
    assert t != [] && t[0] == c && t[1..] == s;
    assert TrimStart(t) == TrimStart(s);
    assert ParseInt(t) == ParseSigned(TrimStart(s));
  }

  /** Text that starts with neither white space, a sign nor a digit is NaN;
      so is the empty string. */
  lemma ParseIntOfNonNumeric(s: string)
    requires s == [] || (!IsStrWhiteSpace(s[0]) && !IsDigit(s[0]) && s[0] != '-' && s[0] != '+')
    ensures ParseInt(s) == None
  {
    assert TrimStart(s) == s;
  }
}
