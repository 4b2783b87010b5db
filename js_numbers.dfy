/**
 * The two number/text conversions the import code relies on: the decimal
 * text of an integer (`String(n)`, template literals) and the global
 * `parseInt` with no radix argument.
 */
module JsNumbers {
  import opened Wrappers

  /** The decimal digit for d. */
  function DigitChar(d: nat): (c: char)
    requires d < 10
    ensures '0' <= c <= '9'
  {
    "0123456789"[d]
  }

  /** Decimal text of a natural number: no sign, no leading zero. */
  function NatToString(n: nat): (s: string)
    ensures |s| > 0
    ensures forall i :: 0 <= i < |s| ==> '0' <= s[i] <= '9'
    ensures |s| > 1 ==> s[0] != '0'
    decreases n
  {
    if n < 10 then [DigitChar(n)] else NatToString(n / 10) + [DigitChar(n % 10)]
  }

  /** `String(i)` for an integer-valued number: a `-` sign, then the decimal text. */
  function IntToString(i: int): string
  {
    if i < 0 then "-" + NatToString(-i) else NatToString(i)
  }

  /** The characters `parseInt` skips before the number (StrWhiteSpaceChar). */
  predicate IsStrWhiteSpace(c: char)
  {
    c == '\t' || c == '\n' || c == '\U{B}' || c == '\U{C}' || c == '\r' || c == ' '
    || c == '\U{A0}' || c == '\U{1680}' || ('\U{2000}' <= c <= '\U{200A}')
    || c == '\U{2028}' || c == '\U{2029}' || c == '\U{202F}' || c == '\U{205F}'
    || c == '\U{3000}' || c == '\U{FEFF}'
  }

  /** The text after the leading white space. */
  function TrimStart(s: string): (t: string)
    ensures |t| <= |s| && t == s[|s| - |t|..]
    ensures t == [] || !IsStrWhiteSpace(t[0])
  {
    if s != [] && IsStrWhiteSpace(s[0]) then TrimStart(s[1..]) else s
  }

  /** The value of c as a digit in bases up to 36, when it is one. */
  function DigitValue(c: char): Option<nat>
  {
    if '0' <= c <= '9' then Some(c as nat - '0' as nat)
    else if 'a' <= c <= 'z' then Some(c as nat - 'a' as nat + 10)
    else if 'A' <= c <= 'Z' then Some(c as nat - 'A' as nat + 10)
    else None
  }

  predicate IsDigitIn(c: char, radix: nat)
  {
    DigitValue(c).Some? && DigitValue(c).value < radix
  }

  /** Length of the longest prefix of s made of digits of the radix. */
  function DigitRun(s: string, radix: nat): (k: nat)
    ensures k <= |s|
    ensures forall i :: 0 <= i < k ==> IsDigitIn(s[i], radix)
    ensures k < |s| ==> !IsDigitIn(s[k], radix)
  {
    if s != [] && IsDigitIn(s[0], radix) then 1 + DigitRun(s[1..], radix) else 0
  }

  /** The value of a string of digits in the given radix, most significant first. */
  function RadixValue(s: string, radix: nat): nat
    requires forall i :: 0 <= i < |s| ==> IsDigitIn(s[i], radix)
  {
    if s == [] then 0
    else
      var front := s[..|s| - 1];
      var last := s[|s| - 1];
      assert IsDigitIn(last, radix);
      assert forall i :: 0 <= i < |front| ==> front[i] == s[i];
      AppendDigit(RadixValue(front, radix), radix, DigitValue(last).value)
  }

  /** The value of digits worth `high` followed by one more digit worth `low`. */
  function AppendDigit(high: nat, radix: nat, low: nat): nat
  {
    high * radix + low
  }

  /**
   * The digits after the sign: base 16 after a `0x`/`0X` prefix, base 10
   * otherwise, as many as there are; none at all is `NaN`, here `None`.
   */
  function ParseUnsigned(u: string): Option<nat>
  {
    var hex := |u| >= 2 && u[0] == '0' && (u[1] == 'x' || u[1] == 'X');
    var radix := if hex then 16 else 10;
    var v := if hex then u[2..] else u;
    var k := DigitRun(v, radix);
    if k == 0 then None else Some(RadixValue(v[..k], radix))
  }

  /** `parseInt(s)` with no radix: skip white space, read an optional sign, then the digits. */
  function ParseInt(s: string): Option<int>
  {
    var t := TrimStart(s);
    if t != [] && t[0] == '-' then
      match ParseUnsigned(t[1..])
      case None => None
      case Some(n) => Some(-(n as int))
    else if t != [] && t[0] == '+' then
      match ParseUnsigned(t[1..])
      case None => None
      case Some(n) => Some(n)
    else
      match ParseUnsigned(t)
      case None => None
      case Some(n) => Some(n)
  }

  lemma {:induction false} DecimalDigitsAreDigits(s: string)
    requires forall i :: 0 <= i < |s| ==> '0' <= s[i] <= '9'
    ensures DigitRun(s, 10) == |s|
  {
    if s != [] {
      DecimalDigitsAreDigits(s[1..]);
    }
  }

  /** Reading back the decimal text of n gives n. */
  lemma {:induction false} RadixValueOfNatToString(n: nat)
    ensures forall i :: 0 <= i < |NatToString(n)| ==> IsDigitIn(NatToString(n)[i], 10)
    ensures RadixValue(NatToString(n), 10) == n
    decreases n
  {
    var s := NatToString(n);
    if n >= 10 {
      var front := NatToString(n / 10);
      var d := n % 10;
      RadixValueOfNatToString(n / 10);
      DigitValueOfDigitChar(d);
      assert s == front + [DigitChar(d)];
      assert s[..|s| - 1] == front && s[|s| - 1] == DigitChar(d);
      assert RadixValue(s, 10) == RadixValue(front, 10) * 10 + d;
    } else {
      DigitValueOfDigitChar(n);
    }
  }

  lemma DigitValueOfDigitChar(d: nat)
    requires d < 10
    ensures DigitValue(DigitChar(d)) == Some(d)
  {
  }

  /** A non-empty run of decimal digits, without a hexadecimal prefix, reads as its decimal value. */
  lemma ParseUnsignedOfDigits(u: string)
    requires u != [] && forall i :: 0 <= i < |u| ==> '0' <= u[i] <= '9'
    ensures forall i :: 0 <= i < |u| ==> IsDigitIn(u[i], 10)
    ensures ParseUnsigned(u) == Some(RadixValue(u, 10))
  {
    DecimalDigitsAreDigits(u);
    var hex := |u| >= 2 && u[0] == '0' && (u[1] == 'x' || u[1] == 'X');
    assert !hex;
    var k := DigitRun(u, 10);
    assert k == |u| && u[..k] == u;
  }

  lemma ParseUnsignedOfNatToString(n: nat)
    ensures ParseUnsigned(NatToString(n)) == Some(n)
  {
    RadixValueOfNatToString(n);
    ParseUnsignedOfDigits(NatToString(n));
  }

  lemma TrimStartOfSignOrDigit(s: string)
    requires s != [] && (s[0] == '-' || '0' <= s[0] <= '9')
    ensures TrimStart(s) == s
  {
    assert !IsStrWhiteSpace(s[0]);
  }

  /** `parseInt(String(i)) === i` for every integer i. */
  lemma ParseIntOfIntToString(i: int)
    ensures ParseInt(IntToString(i)) == Some(i)
  {
    var n: nat := if i < 0 then -i else i;
    var d := NatToString(n);
    ParseUnsignedOfNatToString(n);
    var s := IntToString(i);
    TrimStartOfSignOrDigit(s);
    if i < 0 {
      assert s == "-" + d;
      assert s[1..] == d;
      assert ParseInt(s) == Some(-(n as int));
    } else {
      assert s == d;
      assert ParseInt(s) == Some(n);
    }
  }

  /** A `0x` prefix switches to base 16: `parseInt("0xC8")` is 200. */
  lemma ParseIntHexPrefix()
    ensures ParseInt("0xC8") == Some(200)
  {
    var u := "0xC8";
    assert TrimStart(u) == u by { assert !IsStrWhiteSpace(u[0]); }
    assert u[0] != '-' && u[0] != '+';
    ParseUnsignedHexC8();
  }

  lemma ParseUnsignedHexC8()
    ensures ParseUnsigned("0xC8") == Some(200)
  {
    var u := "0xC8";
    var v := "C8";
    assert |u| >= 2 && u[0] == '0' && u[1] == 'x';
    assert u[2..] == v;
    assert DigitValue('C') == Some(12) && DigitValue('8') == Some(8);
    assert DigitRun(v[2..], 16) == 0 by { assert v[2..] == []; }
    assert DigitRun(v[1..], 16) == 1 by { assert v[1..][1..] == v[2..]; }
    assert DigitRun(v, 16) == 2;
    assert v[..2] == v && v[..1] == "C" && "C"[..0] == [];
    assert RadixValue("C", 16) == 12;
    assert RadixValue(v, 16) == 12 * 16 + 8;
  }

  /** Leading white space is skipped and text after the digits is ignored. */
  lemma ParseIntTrailingText()
    ensures ParseInt(" 200px") == Some(200)
  {
    var u := "200px";
    assert " 200px"[1..] == u;
    assert TrimStart(u) == u by { assert !IsStrWhiteSpace(u[0]); }
    assert TrimStart(" 200px") == u;
    assert u[0] != '-' && u[0] != '+';
    ParseUnsignedTrailingText();
  }

  lemma ParseUnsignedTrailingText()
    ensures ParseUnsigned("200px") == Some(200)
  {
    var u := "200px";
    assert !(u[0] == '0');
    assert DigitRun(u, 10) == 3;
    assert u[..3] == "200" && "200"[..2] == "20" && "20"[..1] == "2";
    assert RadixValue("200", 10) == 200;
  }
}
