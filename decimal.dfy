/** JavaScript's rendering of integers (`Number.prototype.toString`) and its global
    `parseInt` with no radix argument. The routes parse ids and numeric query parameters
    with `parseInt`, and the client renders ids and numbers into URLs and drag ids
    with `toString`. */
module Decimal {
  import opened Wrappers

  predicate IsDigit(c: char) { '0' <= c <= '9' }

  function DigitChar(d: nat): (c: char)
    requires d < 10
    ensures IsDigit(c) && c as int - '0' as int == d
  {
    (48 + d) as char
  }

  /** Decimal digits of `n`, most significant first, without leading zeros. */
  function NatToString(n: nat): (s: string)
    ensures |s| >= 1
    ensures forall i :: 0 <= i < |s| ==> IsDigit(s[i])
    ensures |s| > 1 ==> s[0] != '0'
    ensures n > 0 ==> s[0] != '0'
    decreases n
  {
    if n < 10 then [DigitChar(n)] else NatToString(n / 10) + [DigitChar(n % 10)]
  }

  /** `n.toString()` for an integer-valued number. */
  function IntToString(n: int): (s: string)
    ensures |s| >= 1
    ensures (n < 0) == (s[0] == '-')
  {
    if n < 0 then "-" + NatToString(-n) else NatToString(n)
  }

  /** WhiteSpace and LineTerminator code points, which `parseInt` skips first. */
  predicate IsJsWhiteSpace(c: char) {
    c == '\t' || c == '\U{B}' || c == '\U{C}' || c == ' ' || c == '\U{A0}' || c == '\U{FEFF}'
    || c == '\n' || c == '\r' || c == '\U{2028}' || c == '\U{2029}'
    || c == '\U{1680}' || ('\U{2000}' <= c <= '\U{200A}') || c == '\U{202F}' || c == '\U{205F}'
    || c == '\U{3000}'
  }

  function TrimStart(s: string): (r: string)
    ensures |r| <= |s| && r == s[|s| - |r|..]
    ensures r == [] || !IsJsWhiteSpace(r[0])
    ensures s != [] && !IsJsWhiteSpace(s[0]) ==> r == s
  {
    if s != [] && IsJsWhiteSpace(s[0]) then TrimStart(s[1..]) else s
  }

  /** The value of `c` as a digit in base `radix` (10 or 16), if it is one. */
  function DigitIn(c: char, radix: nat): (d: Option<nat>)
    ensures d.Some? ==> d.value < radix
  {
    if '0' <= c <= '9' && (c as int - '0' as int) < radix then Some(c as int - '0' as int)
    else if 'a' <= c <= 'z' && (c as int - 'a' as int) + 10 < radix then Some(c as int - 'a' as int + 10)
    else if 'A' <= c <= 'Z' && (c as int - 'A' as int) + 10 < radix then Some(c as int - 'A' as int + 10)
    else None
  }

  predicate AllDigits(s: string, radix: nat) {
    forall i :: 0 <= i < |s| ==> DigitIn(s[i], radix).Some?
  }

  /** Length of the longest prefix of `s` made of base-`radix` digits. */
  function DigitPrefixLength(s: string, radix: nat): (n: nat)
    ensures n <= |s|
  {
    if s == [] || DigitIn(s[0], radix).None? then 0 else DigitPrefixLength(s[1..], radix) + 1
  }

  /** The prefix is made of digits and stops at the first character that is not one. */
  lemma {:induction false} DigitPrefixIsLongest(s: string, radix: nat)
    ensures var n := DigitPrefixLength(s, radix);
      && AllDigits(s[..n], radix)
      && (n < |s| ==> DigitIn(s[n], radix).None?)
  {
    if s != [] && DigitIn(s[0], radix).Some? {
      var k := DigitPrefixLength(s[1..], radix);
      DigitPrefixIsLongest(s[1..], radix);
      assert s[..k + 1] == [s[0]] + s[1..][..k];
    }
  }

  /** The number the digit string `s` denotes in base `radix`; only digit strings are
      ever passed in. */
  function ValueOf(s: string, radix: nat): nat
    requires radix == 10 || radix == 16
  {
    if s == [] then 0
    else
      var high := ValueOf(s[..|s| - 1], radix);
      var last := DigitIn(s[|s| - 1], radix).GetOr(0);
      if radix == 10 then high * 10 + last else high * 16 + last
  }

  /** The longest run of base-`radix` digits at the front of `body`, read as a number;
      `None` when `body` does not open with a digit. */
  function ReadDigitRun(body: string, radix: nat): Option<nat>
    requires radix == 10 || radix == 16
  {
    var end := DigitPrefixLength(body, radix);
    if end == 0 then None else Some(ValueOf(body[..end], radix))
  }

  /** The unsigned part of `parseInt`: base 16 after a `0x`/`0X` prefix, base 10
      otherwise. */
  function ReadMagnitude(u: string): Option<nat> {
    var hex := |u| >= 2 && u[0] == '0' && (u[1] == 'x' || u[1] == 'X');
    ReadDigitRun(if hex then u[2..] else u, if hex then 16 else 10)
  }

  /** What follows one leading sign, if there is one. */
  function AfterSign(t: string): string {
    if t != [] && (t[0] == '-' || t[0] == '+') then t[1..] else t
  }

  /** Global `parseInt(s)`: skip white space, take one sign, then read the magnitude;
      `None` stands for NaN. */
  function ParseInt(s: string): Option<int> {
    var t := TrimStart(s);
    var u := AfterSign(t);
    match ReadMagnitude(u)
    case None => None
    case Some(v) =>
      var n: int := v;
      if t != [] && t[0] == '-' then Some(-n) else Some(n)
  }

  lemma {:induction false} ValueOfNatToString(n: nat)
    ensures ValueOf(NatToString(n), 10) == n
    decreases n
  {
    var s := NatToString(n);
    if n >= 10 {
      ValueOfNatToString(n / 10);
      assert s[..|s| - 1] == NatToString(n / 10);
    }
  }

  lemma {:induction false} DigitPrefixOfDigits(s: string)
    requires forall i :: 0 <= i < |s| ==> IsDigit(s[i])
    ensures DigitPrefixLength(s, 10) == |s|
  {
    if s != [] {
      DigitPrefixOfDigits(s[1..]);
    }
  }

  /** The digits `toString` writes for a natural number read back, in base 10, as that number. */
  lemma ReadNatToString(m: nat)
    ensures var u := NatToString(m);
      && !(|u| >= 2 && u[0] == '0' && (u[1] == 'x' || u[1] == 'X'))
      && DigitPrefixLength(u, 10) == |u|
      && ValueOf(u[..|u|], 10) == m
  {
    var u := NatToString(m);
    ValueOfNatToString(m);
    DigitPrefixOfDigits(u);
    assert u[..|u|] == u;
  }

  /** A run of decimal digits with no hexadecimal prefix is read as a whole, in base 10. */
  lemma ReadDecimal(u: string)
    requires |u| >= 1 && forall i :: 0 <= i < |u| ==> IsDigit(u[i])
    requires !(|u| >= 2 && u[0] == '0' && (u[1] == 'x' || u[1] == 'X'))
    ensures ReadMagnitude(u) == Some(ValueOf(u, 10))
  {
    DigitPrefixOfDigits(u);
    assert u[..|u|] == u;
  }

  /** A string that opens with a non-zero digit is read by `parseInt` as its magnitude. */
  lemma ParseUnsigned(u: string, v: nat)
    requires u != [] && '1' <= u[0] <= '9' && ReadMagnitude(u) == Some(v)
    ensures ParseInt(u) == Some(v)
  {
    var t := TrimStart(u);
    assert t == u && t[0] != '-' && t[0] != '+';
    assert AfterSign(t) == u;
  }

  /** Behind a minus sign it is read as the negated magnitude. */
  lemma ParseMinus(u: string, v: nat)
    requires u != [] && '1' <= u[0] <= '9' && ReadMagnitude(u) == Some(v)
    ensures ParseInt("-" + u) == Some(-(v as int))
  {
    var s := "-" + u;
    assert s[1..] == u;
    assert TrimStart(s) == s;
    assert AfterSign(s) == u;
    assert ParseInt(s) == match ReadMagnitude(u) case None => None case Some(m) => Some(-(m as int));
  }

  lemma ParseZero()
    ensures ParseInt(IntToString(0)) == Some(0)
  {
    assert IntToString(0) == "0";
    assert ReadMagnitude("0") == Some(0);
  }

  /** Reading back what `toString` wrote gives the number again: the id a client puts in
      a URL or a drag id is the id the route or handler recovers with `parseInt`. */
  lemma ParseIntOfIntToString(n: int)
    ensures ParseInt(IntToString(n)) == Some(n)
  {
    if n == 0 {
      ParseZero();
    } else {
      var m := if n < 0 then -n else n;
      var u := NatToString(m);
      ReadNatToString(m);
      ValueOfNatToString(m);
      ReadDecimal(u);
      if n < 0 {
        ParseMinus(u, m);
        assert IntToString(n) == "-" + u;
      } else {
        ParseUnsigned(u, m);
        assert IntToString(n) == u;
      }
    }
  }

  lemma IntToStringInjective(a: int, b: int)
    ensures IntToString(a) == IntToString(b) <==> a == b
  {
    if IntToString(a) == IntToString(b) {
      ParseIntOfIntToString(a);
      ParseIntOfIntToString(b);
    }
  }
}
