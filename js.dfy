/**
 * The JavaScript built-ins the game's handlers and log view rely on, stated
 * exactly for the values they meet: numbers (an integer, or NaN from a failed
 * `parseInt`), `toString` of an integer, `parseInt(s, 10)`, `String.prototype.trim`,
 * `String.prototype.padStart` and the truncating `%` operator.
 */
module Js {

  /** A JavaScript number as the game produces one: an integer, or NaN. */
  datatype Number = Num(value: int) | NaN

  /** JavaScript `+` on numbers: NaN absorbs every operand. */
  function Add(a: Number, b: Number): (r: Number)
    ensures r.Num? <==> a.Num? && b.Num?
    ensures r.Num? ==> r.value == a.value + b.value
  {
    if a.Num? && b.Num? then Num(a.value + b.value) else NaN
  }

  /** JavaScript `a > t`: a comparison with NaN is false. */
  predicate GreaterThan(a: Number, t: int) {
    a.Num? && a.value > t
  }

  /** JavaScript `a % b` for b > 0: the remainder of the division truncated toward zero, with the sign of a. */
  function Remainder(a: int, b: int): (r: int)
    requires b > 0
    ensures -b < r < b
    ensures a >= 0 ==> 0 <= r
    ensures a <= 0 ==> r <= 0
    ensures a >= 0 ==> r == a % b
  {
    if a >= 0 then a % b else -((-a) % b)
  }

  /** `%` is odd in its dividend; with the non-negative case this fixes every value. */
  lemma RemainderOdd(a: int, b: int)
    requires b > 0
    ensures Remainder(-a, b) == -Remainder(a, b)
  {
  }

  // ---------------------------------------------------------------- decimal digits

  predicate IsDigit(c: char) {
    '0' <= c <= '9'
  }

  predicate AllDigits(s: string) {
    forall i :: 0 <= i < |s| ==> IsDigit(s[i])
  }

  function DigitChar(d: nat): (c: char)
    requires d < 10
    ensures IsDigit(c) && c as int - '0' as int == d
  {
    ('0' as int + d) as char
  }

  function DigitValue(c: char): (d: nat)
    requires IsDigit(c)
    ensures d < 10 && DigitChar(d) == c
  {
    c as int - '0' as int
  }

  /** `n.toString()` for a non-negative integer: its decimal digits, without a leading zero. */
  function NatToString(n: nat): (s: string)
    ensures 1 <= |s| && AllDigits(s)
    ensures |s| == 1 <==> n < 10
    ensures n >= 100 ==> |s| >= 3
    ensures |s| > 1 ==> s[0] != '0'
    decreases n
  {
    if n < 10 then [DigitChar(n)] else NatToString(n / 10) + [DigitChar(n % 10)]
  }

  /** `i.toString()` for any integer: a minus sign in front of the digits of a negative one. */
  function IntToString(i: int): (s: string)
    ensures i >= 0 ==> s == NatToString(i)
    ensures i < 0 ==> s == "-" + NatToString(-i)
  {
    if i < 0 then "-" + NatToString(-i) else NatToString(i)
  }

  /** The template-literal text `${n}` of a number. */
  function NumberToString(n: Number): string {
    match n
    case Num(v) => IntToString(v)
    case NaN => "NaN"
  }

  /** The value a string of decimal digits denotes. */
  function ParseDigits(s: string): nat
    requires AllDigits(s)
    decreases |s|
  {
    if s == [] then 0 else 10 * ParseDigits(s[..|s| - 1]) + DigitValue(s[|s| - 1])
  }

  /** Reading back the digits of n gives n. */
  lemma {:induction false} ParseNatToString(n: nat)
    ensures ParseDigits(NatToString(n)) == n
    decreases n
  {
    var s := NatToString(n);
    if n < 10 {
      assert s[..|s| - 1] == [];
    } else {
      assert s[..|s| - 1] == NatToString(n / 10);
      ParseNatToString(n / 10);
    }
  }

  /** A leading zero does not change the value of a digit string. */
  lemma {:induction false} LeadingZero(s: string)
    requires AllDigits(s)
    ensures AllDigits("0" + s) && ParseDigits("0" + s) == ParseDigits(s)
    decreases |s|
  {
    var t := "0" + s;
    if s == [] {
      assert t[..|t| - 1] == [];
    } else {
      assert t[..|t| - 1] == "0" + s[..|s| - 1];
      LeadingZero(s[..|s| - 1]);
    }
  }

  // ---------------------------------------------------------------- padStart

  /** `s.padStart(n, c)`: fills on the left up to length n and never truncates. */
  function PadStart(s: string, n: nat, c: char): (r: string)
    ensures |r| == if |s| < n then n else |s|
    ensures r[|r| - |s|..] == s
    ensures forall i :: 0 <= i < |r| - |s| ==> r[i] == c
  {
    if |s| < n then seq(n - |s|, _ => c) + s else s
  }

  /** Padding a digit string with zeros keeps it a digit string of the same value. */
  lemma {:induction false} PadWithZeros(s: string, n: nat)
    requires AllDigits(s)
    ensures AllDigits(PadStart(s, n, '0'))
    ensures ParseDigits(PadStart(s, n, '0')) == ParseDigits(s)
    decreases n
  {
    if |s| < n {
      Zeros(n - |s|, s);
    }
  }

  /** Any number of leading zeros leaves the value of a digit string unchanged. */
  lemma {:induction false} Zeros(k: nat, s: string)
    requires AllDigits(s)
    ensures AllDigits(seq(k, _ => '0') + s)
    ensures ParseDigits(seq(k, _ => '0') + s) == ParseDigits(s)
    decreases k
  {
    if k > 0 {
      var z := seq(k - 1, _ => '0') + s;
      assert seq(k, _ => '0') + s == "0" + z;
      Zeros(k - 1, s);
      LeadingZero(z);
    } else {
      assert seq(k, _ => '0') + s == s;
    }
  }

  // ---------------------------------------------------------------- trim

  /** The characters `trim` and `parseInt` skip: WhiteSpace and LineTerminator of ECMA-262. */
  predicate IsWhitespace(c: char) {
    || c == '\t' || c == '\n' || c == '\U{B}' || c == '\U{C}' || c == '\r' || c == ' '
    || c == '\U{A0}' || c == '\U{1680}' || ('\U{2000}' <= c <= '\U{200A}')
    || c == '\U{2028}' || c == '\U{2029}' || c == '\U{202F}' || c == '\U{205F}'
    || c == '\U{3000}' || c == '\U{FEFF}'
  }

  /** Drops the white space at the front: what remains is a suffix that starts with another character. */
  function TrimStart(s: string): (r: string)
    ensures |r| <= |s| && r == s[|s| - |r|..]
    ensures forall i :: 0 <= i < |s| - |r| ==> IsWhitespace(s[i])
    ensures r != [] ==> !IsWhitespace(r[0])
    decreases |s|
  {
    if s != [] && IsWhitespace(s[0]) then TrimStart(s[1..]) else s
  }

  /** Drops the white space at the back: what remains is a prefix that ends with another character. */
  function TrimEnd(s: string): (r: string)
    ensures |r| <= |s| && r == s[..|r|]
    ensures forall i :: |r| <= i < |s| ==> IsWhitespace(s[i])
    ensures r != [] ==> !IsWhitespace(r[|r| - 1])
    decreases |s|
  {
    if s != [] && IsWhitespace(s[|s| - 1]) then TrimEnd(s[..|s| - 1]) else s
  }

  /** `s.trim()`. */
  function Trim(s: string): string {
    TrimEnd(TrimStart(s))
  }

  /** The trimmed string is a slice of the input that starts and ends with a character other than white space. */
  lemma TrimStripsBothEnds(s: string)
    ensures exists i, j :: 0 <= i <= j <= |s| && Trim(s) == s[i..j]
    ensures Trim(s) == [] || (!IsWhitespace(Trim(s)[0]) && !IsWhitespace(Trim(s)[|Trim(s)| - 1]))
  {
    var t := TrimStart(s);
    var r := TrimEnd(t);
    assert r == s[|s| - |t|..|s| - |t| + |r|];
    if r != [] {
      assert r[0] == t[0];
    }
  }

  /** `!s.trim()`: the string is empty once trimmed. */
  predicate IsBlank(s: string) {
    Trim(s) == ""
  }

  /** A string is blank exactly when every character of it is white space. */
  lemma BlankIffAllWhitespace(s: string)
    ensures IsBlank(s) <==> forall i :: 0 <= i < |s| ==> IsWhitespace(s[i])
  {
  }

  // ---------------------------------------------------------------- parseInt

  /** The longest prefix of decimal digits. */
  function DigitPrefix(s: string): (r: string)
    ensures |r| <= |s| && r == s[..|r|] && AllDigits(r)
    ensures |r| < |s| ==> !IsDigit(s[|r|])
    decreases |s|
  {
    if s != [] && IsDigit(s[0]) then [s[0]] + DigitPrefix(s[1..]) else []
  }

  /**
   * `parseInt(s, 10)`: skips leading white space, reads one optional sign (`+` or `-`),
   * then the longest run of decimal digits, and ignores the rest; NaN when that run is empty.
   */
  function ParseInt(s: string): Number {
    ParseSigned(TrimStart(s))
  }

  /** parseInt after the leading white space: the optional sign, then the digits. */
  function ParseSigned(t: string): Number {
    if t != [] && t[0] == '-' then Negate(ParseUnsigned(t[1..]))
    else if t != [] && t[0] == '+' then ParseUnsigned(t[1..])
    else ParseUnsigned(t)
  }

  /** parseInt after the sign: the value of the leading digits, NaN when there are none. */
  function ParseUnsigned(u: string): Number {
    var digits := DigitPrefix(u);
    if digits == [] then NaN else Num(ParseDigits(digits))
  }

  /** JavaScript unary minus on numbers. */
  function Negate(n: Number): Number {
    match n
    case Num(v) => Num(-v)
    case NaN => NaN
  }

  lemma {:induction false} TrimStartSkips(w: string, x: string)
    requires forall i :: 0 <= i < |w| ==> IsWhitespace(w[i])
    requires x == [] || !IsWhitespace(x[0])
    ensures TrimStart(w + x) == x
    decreases |w|
  {
    if w == [] {
      assert w + x == x;
    } else {
      assert (w + x)[1..] == w[1..] + x;
      TrimStartSkips(w[1..], x);
    }
  }

  lemma {:induction false} DigitPrefixOf(d: string, rest: string)
    requires AllDigits(d)
    requires rest == [] || !IsDigit(rest[0])
    ensures DigitPrefix(d + rest) == d
    decreases |d|
  {
    if d == [] {
      assert d + rest == rest;
    } else {
      assert (d + rest)[1..] == d[1..] + rest;
      DigitPrefixOf(d[1..], rest);
    }
  }

  /** parseInt skips the white space in front. */
  lemma ParseIntSkips(w: string, x: string)
    requires forall i :: 0 <= i < |w| ==> IsWhitespace(w[i])
    requires x == [] || !IsWhitespace(x[0])
    ensures ParseInt(w + x) == ParseSigned(x)
  {
    TrimStartSkips(w, x);
  }

  /**
   * parseInt reads leading white space and a run of digits, and stops at the first
   * character that is not a digit.
   */
  lemma ParseIntDigits(w: string, d: string, rest: string)
    requires forall i :: 0 <= i < |w| ==> IsWhitespace(w[i])
    requires d != [] && AllDigits(d)
    requires rest == [] || !IsDigit(rest[0])
    ensures ParseInt(w + d + rest) == Num(ParseDigits(d))
  {
    var x := d + rest;
    assert w + d + rest == w + x;
    assert x[0] == d[0];
    ParseIntSkips(w, x);
    DigitPrefixOf(d, rest);
    assert ParseSigned(x) == ParseUnsigned(x);
  }

  /** The same with a sign in front of the digits: `+` keeps the value, `-` negates it. */
  lemma ParseIntSigned(w: string, sign: char, d: string, rest: string)
    requires forall i :: 0 <= i < |w| ==> IsWhitespace(w[i])
    requires sign == '+' || sign == '-'
    requires d != [] && AllDigits(d)
    requires rest == [] || !IsDigit(rest[0])
    ensures ParseInt(w + [sign] + d + rest) == Num(if sign == '-' then -(ParseDigits(d) as int) else ParseDigits(d))
  {
    Regroup(w, [sign], d, rest);
    ParseIntSkips(w, [sign] + (d + rest));
    SignedDigits(sign, d, rest);
  }

  lemma SignedDigits(sign: char, d: string, rest: string)
    requires sign == '+' || sign == '-'
    requires d != [] && AllDigits(d)
    requires rest == [] || !IsDigit(rest[0])
    ensures ParseSigned([sign] + (d + rest)) == Num(if sign == '-' then -(ParseDigits(d) as int) else ParseDigits(d))
  {
    SignThenRest(sign, d + rest);
    DigitsThenRest(d, rest);
  }

  lemma Regroup(a: string, b: string, c: string, e: string)
    ensures a + b + c + e == a + (b + (c + e))
  {
  }

  lemma SignThenRest(sign: char, u: string)
    requires sign == '+' || sign == '-'
    ensures ParseSigned([sign] + u) == if sign == '-' then Negate(ParseUnsigned(u)) else ParseUnsigned(u)
  {
  }

  lemma DigitsThenRest(d: string, rest: string)
    requires d != [] && AllDigits(d)
    requires rest == [] || !IsDigit(rest[0])
    ensures ParseUnsigned(d + rest) == Num(ParseDigits(d))
  {
    DigitPrefixOf(d, rest);
  }

  /** With no digit after the white space and no sign, parseInt gives NaN. */
  lemma ParseIntNaN(w: string, rest: string)
    requires forall i :: 0 <= i < |w| ==> IsWhitespace(w[i])
    requires rest == [] || (!IsDigit(rest[0]) && !IsWhitespace(rest[0]) && rest[0] != '+' && rest[0] != '-')
    ensures ParseInt(w + rest) == NaN
  {
    ParseIntSkips(w, rest);
    DigitPrefixOf([], rest);
    assert [] + rest == rest;
  }

  /** The same after a sign: a sign alone, or a sign before a non-digit, is NaN. */
  lemma ParseIntSignedNaN(w: string, sign: char, rest: string)
    requires forall i :: 0 <= i < |w| ==> IsWhitespace(w[i])
    requires sign == '+' || sign == '-'
    requires rest == [] || !IsDigit(rest[0])
    ensures ParseInt(w + [sign] + rest) == NaN
  {
    var x := [sign] + rest;
    assert w + [sign] + rest == w + x;
    ParseIntSkips(w, x);
    DigitPrefixOf([], rest);
    assert [] + rest == rest;
    assert x[1..] == rest;
  }

  /** parseInt reads back what toString writes: `parseInt(String(i), 10) == i`. */
  lemma ParseIntToString(i: int)
    ensures ParseInt(IntToString(i)) == Num(i)
  {
    var s := NatToString(if i < 0 then -i else i);
    ParseNatToString(if i < 0 then -i else i);
    if i < 0 {
      ParseIntNegative(s);
    } else {
      ParseIntPositive(s);
    }
  }

  /** parseInt reads back the template-literal text of a number, NaN included. */
  lemma ParseIntNumberToString(n: Number)
    ensures ParseInt(NumberToString(n)) == n
  {
    match n
    case Num(v) => ParseIntToString(v);
    case NaN =>
      ParseIntNaN("", "NaN");
      assert "" + "NaN" == "NaN";
  }

  /** parseInt accepts the leading `+` of an effect such as "+4". */
  lemma ParseIntPlusSign(n: nat)
    ensures ParseInt("+" + NatToString(n)) == Num(n)
  {
    var s := NatToString(n);
    ParseNatToString(n);
    ParseIntExplicitPlus(s);
  }

  lemma ParseIntPositive(d: string)
    requires d != [] && AllDigits(d)
    ensures ParseInt(d) == Num(ParseDigits(d))
  {
    NoSpaceInFront(d);
    DigitsOnly(d);
  }

  lemma ParseIntNegative(d: string)
    requires d != [] && AllDigits(d)
    ensures ParseInt("-" + d) == Num(-(ParseDigits(d) as int))
  {
    NoSpaceInFront("-" + d);
    SignedOnly('-', d);
  }

  lemma ParseIntExplicitPlus(d: string)
    requires d != [] && AllDigits(d)
    ensures ParseInt("+" + d) == Num(ParseDigits(d))
  {
    NoSpaceInFront("+" + d);
    SignedOnly('+', d);
  }

  /** With nothing to skip, parseInt reads the sign at once. */
  lemma NoSpaceInFront(s: string)
    requires s != [] && !IsWhitespace(s[0])
    ensures ParseInt(s) == ParseSigned(s)
  {
  }

  lemma SignedOnly(sign: char, d: string)
    requires sign == '+' || sign == '-'
    requires d != [] && AllDigits(d)
    ensures ParseSigned([sign] + d) == Num(if sign == '-' then -(ParseDigits(d) as int) else ParseDigits(d))
  {
    SignThenRest(sign, d);
    DigitsOnly(d);
  }

  /** A string of digits reads as its value. */
  lemma DigitsOnly(d: string)
    requires d != [] && AllDigits(d)
    ensures ParseUnsigned(d) == Num(ParseDigits(d))
  {
    DigitPrefixOf(d, "");
    assert d + "" == d;
  }
}
