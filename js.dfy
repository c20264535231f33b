/** The slice of the JavaScript runtime that the vector code relies on:
    values whose type is only known at run time, arguments that may be
    null or undefined, and the global function parseInt called without a
    radix. Numbers are modelled as reals; NaN is kept apart as a value of
    its own where the code tests for it. */
module Js {

  /** An optional value. */
  datatype Option<+T> = None | Some(value: T)

  /** An argument as a caller may pass it: null, undefined or a value. */
  datatype Arg<+T> = Null | Undefined | Given(value: T)

  /** A value as the vector constructor may find it in its input array:
      a number (NaN apart), a string, null, undefined, or anything else
      (an array, an object, a boolean), whose typeof is neither 'number'
      nor 'string'. */
  datatype JsValue = Number(n: real) | NaN | Text(s: string) | NullValue | UndefinedValue | Object

  /** ECMAScript white space and line terminators, which parseInt skips
      before the number: TAB, VT, FF, SP, NBSP, ZWNBSP, the other Zs
      characters, LF, CR, LS and PS. */
  predicate IsWhiteSpace(c: char) {
    var n := c as int;
    n == 0x09 || n == 0x0B || n == 0x0C || n == 0x20 || n == 0xA0 || n == 0xFEFF
    || n == 0x1680 || (0x2000 <= n <= 0x200A) || n == 0x202F || n == 0x205F || n == 0x3000
    || n == 0x0A || n == 0x0D || n == 0x2028 || n == 0x2029
  }

  /** Drops the leading white space of a string. */
  function TrimStart(s: string): string {
    if s != [] && IsWhiteSpace(s[0]) then TrimStart(s[1..]) else s
  }

  /** TrimStart removes a run of white space from the front and stops at
      the first character that is not white space. */
  lemma {:induction false} TrimStartFacts(s: string)
    ensures |TrimStart(s)| <= |s| && TrimStart(s) == s[|s| - |TrimStart(s)|..]
    ensures TrimStart(s) == [] || !IsWhiteSpace(TrimStart(s)[0])
    ensures forall k | 0 <= k < |s| - |TrimStart(s)| :: IsWhiteSpace(s[k])
  {
    if s != [] && IsWhiteSpace(s[0]) {
      TrimStartFacts(s[1..]);
      assert forall k | 1 <= k < |s| :: s[k] == s[1..][k - 1];
    }
  }

  /** The value of a character read as a digit in a radix up to 36
      (0-9, then a-z and A-Z for 10-35); 36 for any other character. */
  function DigitValue(c: char): (d: nat)
    ensures d <= 36
  {
    if '0' <= c <= '9' then c as int - '0' as int
    else if 'a' <= c <= 'z' then c as int - 'a' as int + 10
    else if 'A' <= c <= 'Z' then c as int - 'A' as int + 10
    else 36
  }

  predicate IsDigit(c: char, radix: nat) {
    DigitValue(c) < radix
  }

  /** The longest prefix of s made of digits of the radix. */
  function DigitPrefix(s: string, radix: nat): string {
    if s != [] && IsDigit(s[0], radix) then [s[0]] + DigitPrefix(s[1..], radix) else []
  }

  /** DigitPrefix is a prefix of digits that cannot be extended. */
  lemma {:induction false} DigitPrefixFacts(s: string, radix: nat)
    ensures |DigitPrefix(s, radix)| <= |s| && DigitPrefix(s, radix) == s[..|DigitPrefix(s, radix)|]
    ensures forall k | 0 <= k < |DigitPrefix(s, radix)| :: IsDigit(DigitPrefix(s, radix)[k], radix)
    ensures |DigitPrefix(s, radix)| == |s| || !IsDigit(s[|DigitPrefix(s, radix)|], radix)
  {
    if s != [] && IsDigit(s[0], radix) {
      DigitPrefixFacts(s[1..], radix);
      var p := DigitPrefix(s[1..], radix);
      assert DigitPrefix(s, radix) == [s[0]] + p;
      assert forall k | 1 <= k < |s| :: s[k] == s[1..][k - 1];
    }
  }

  /** The number a string of digits denotes, most significant digit first. */
  function DigitsValue(ds: string, radix: nat): nat {
    if ds == [] then 0 else DigitsValue(ds[..|ds| - 1], radix) * radix + DigitValue(ds[|ds| - 1])
  }

  /** parseInt(s) with the radix left out, as ECMA-262 defines it: skip
      leading white space, read an optional sign, read "0x" or "0X" as a
      switch to radix 16, then take the longest run of digits and ignore
      whatever follows. No digit at all gives NaN, here None. */
  function ParseInt(s: string): Option<int> {
    ParseSigned(TrimStart(s))
  }

  /** parseInt once the leading white space is gone: an optional sign,
      then the magnitude. */
  function ParseSigned(t: string): Option<int> {
    if t != [] && (t[0] == '-' || t[0] == '+') then
      match ParseMagnitude(t[1..])
      case None => None
      case Some(m) =>
        var v: int := if t[0] == '-' then -(m as int) else m;
        Some(v)
    else
      match ParseMagnitude(t)
      case None => None
      case Some(m) => Some(m)
  }

  /** The unsigned part: "0x" or "0X" switches to radix 16. */
  function ParseMagnitude(u: string): Option<nat> {
    if |u| >= 2 && u[0] == '0' && (u[1] == 'x' || u[1] == 'X') then ReadDigits(u[2..], 16)
    else ReadDigits(u, 10)
  }

  /** The longest run of digits at the start of u, read in the radix;
      the rest of u is ignored. */
  function ReadDigits(u: string, radix: nat): Option<nat> {
    var digits := DigitPrefix(u, radix);
    if digits == [] then None else Some(DigitsValue(digits, radix))
  }

  /** The character of a decimal digit. */
  function DecimalDigit(d: nat): (c: char)
    requires d < 10
    ensures IsDigit(c, 10) && DigitValue(c) == d
  {
    ('0' as int + d) as char
  }

  /** The decimal numeral of a natural number, without leading zeros. */
  function NatString(n: nat): (r: string)
    ensures r != [] && (n > 0 ==> r[0] != '0')
    ensures forall k | 0 <= k < |r| :: IsDigit(r[k], 10)
  {
    if n < 10 then [DecimalDigit(n)] else NatString(n / 10) + [DecimalDigit(n % 10)]
  }

  /** The decimal numeral of an integer, with a '-' when negative: what
      JavaScript prints for an integral number of moderate size. */
  function DecimalString(n: int): string {
    if n < 0 then "-" + NatString(-n) else NatString(n)
  }

  lemma {:induction false} DigitsValueOfNatString(n: nat)
    ensures DigitsValue(NatString(n), 10) == n
  {
    if n >= 10 {
      var p := NatString(n / 10);
      var d := DecimalDigit(n % 10);
      assert NatString(n) == p + [d];
      assert (p + [d])[..|p + [d]| - 1] == p;
      DigitsValueOfNatString(n / 10);
    }
  }

  lemma {:induction false} DigitPrefixOfDigits(ds: string, rest: string, radix: nat)
    requires forall k | 0 <= k < |ds| :: IsDigit(ds[k], radix)
    requires rest == [] || !IsDigit(rest[0], radix)
    ensures DigitPrefix(ds + rest, radix) == ds
  {
    if ds == [] {
      assert ds + rest == rest;
    } else {
      var s := ds + rest;
      assert s[0] == ds[0] && s[1..] == ds[1..] + rest;
      DigitPrefixOfDigits(ds[1..], rest, radix);
      assert [ds[0]] + ds[1..] == ds;
    }
  }

  lemma ParseMagnitudeOfNatString(m: nat, rest: string)
    requires rest == [] || !IsDigit(rest[0], 10)
    requires m == 0 ==> rest == [] || (rest[0] != 'x' && rest[0] != 'X')
    ensures ParseMagnitude(NatString(m) + rest) == Some(m)
  {
    var ds := NatString(m);
    var u := ds + rest;
    assert u[0] == ds[0];
    assert m == 0 ==> |ds| == 1 && (|u| >= 2 ==> u[1] == rest[0]);
    DigitPrefixOfDigits(ds, rest, 10);
    DigitsValueOfNatString(m);
  }

  lemma ParseSignedNegative(m: nat, u: string)
    requires ParseMagnitude(u) == Some(m)
    ensures ParseSigned("-" + u) == Some(-(m as int))
  {
    var t := "-" + u;
    assert t[0] == '-' && t[1..] == u;
  }

  lemma NegativeNumeral(n: int, rest: string)
    requires n < 0
    ensures DecimalString(n) + rest == "-" + (NatString(-n) + rest)
  {
  }

  lemma ParseSignedOfNatString(n: nat, rest: string)
    requires rest == [] || !IsDigit(rest[0], 10)
    requires n == 0 ==> rest == [] || (rest[0] != 'x' && rest[0] != 'X')
    ensures ParseSigned(NatString(n) + rest) == Some(n)
  {
    var t := NatString(n) + rest;
    assert t[0] == NatString(n)[0];
    assert t[0] != '-' && t[0] != '+';
    ParseMagnitudeOfNatString(n, rest);
  }

  lemma TrimStartOfNumeral(n: int, rest: string)
    ensures TrimStart(DecimalString(n) + rest) == DecimalString(n) + rest
  {
    var s := DecimalString(n) + rest;
    assert s[0] == '-' || IsDigit(s[0], 10);
  }

  /** parseInt reads back the decimal numeral of any integer, and stops at
      the first character that cannot continue it: "5.0" gives 5. */
  lemma ParseIntOfDecimalString(n: int, rest: string)
    requires rest == [] || !IsDigit(rest[0], 10)
    requires n == 0 ==> rest == [] || (rest[0] != 'x' && rest[0] != 'X')
    ensures ParseInt(DecimalString(n) + rest) == Some(n)
  {
    TrimStartOfNumeral(n, rest);
    if n < 0 {
      NegativeNumeral(n, rest);
      ParseMagnitudeOfNatString(-n, rest);
      ParseSignedNegative(-n, NatString(-n) + rest);
    } else {
      ParseSignedOfNatString(n, rest);
    }
  }

  lemma {:induction false} TrimStartSkipsWhiteSpace(w: string, s: string)
    requires forall k | 0 <= k < |w| :: IsWhiteSpace(w[k])
    ensures TrimStart(w + s) == TrimStart(s)
  {
    if w != [] {
      var ws := w + s;
      assert ws[0] == w[0] && IsWhiteSpace(w[0]);
      assert ws[1..] == w[1..] + s;
      assert TrimStart(ws) == TrimStart(ws[1..]);
      TrimStartSkipsWhiteSpace(w[1..], s);
    } else {
      assert w + s == s;
    }
  }

  /** Leading white space never changes what parseInt reads. */
  lemma ParseIntSkipsWhiteSpace(w: string, s: string)
    requires forall k | 0 <= k < |w| :: IsWhiteSpace(w[k])
    ensures ParseInt(w + s) == ParseInt(s)
  {
    TrimStartSkipsWhiteSpace(w, s);
  }

  /** A string that starts with neither white space, a sign nor a
      decimal digit is NaN. */
  lemma ParseIntWithoutDigits(s: string)
    requires s != [] && !IsWhiteSpace(s[0]) && s[0] != '-' && s[0] != '+' && !IsDigit(s[0], 10)
    ensures ParseInt(s) == None
  {
    assert TrimStart(s) == s;
  }

  /** "foo" is NaN. */
  lemma ParseIntFoo()
    ensures ParseInt("foo") == None
  {
    ParseIntWithoutDigits("foo");
  }

  /** A sign and the "0x" prefix: "-0x1A" is -26. */
  lemma ParseIntHex()
    ensures ParseInt("-0x1A") == Some(-26)
  {
    assert TrimStart("-0x1A") == "-0x1A";
    assert DigitPrefix("1A", 16) == "1A";
    assert DigitsValue("1A", 16) == 26 by {
      assert "1A"[..1] == "1";
      assert "1"[..0] == "";
    }
  }

  /** One-digit numerals. */
  lemma ParseIntSingleDigits()
    ensures ParseInt("1") == Some(1) && ParseInt("2") == Some(2)
  {
    ParseIntOfDecimalString(1, "");
    assert DecimalString(1) + "" == "1";
    ParseIntOfDecimalString(2, "");
    assert DecimalString(2) + "" == "2";
  }

  /** A fraction ends the digits: "5.0" is 5. */
  lemma ParseIntStopsAtFraction()
    ensures ParseInt("5.0") == Some(5)
  {
    assert DecimalString(5) + ".0" == "5.0";
    ParseIntOfDecimalString(5, ".0");
  }

  /** Whatever follows the digits is ignored: "12abc" is 12. */
  lemma ParseIntIgnoresTail()
    ensures ParseInt("12abc") == Some(12)
  {
    assert DecimalString(12) == "12";
    assert "12" + "abc" == "12abc";
    ParseIntOfDecimalString(12, "abc");
  }
}
