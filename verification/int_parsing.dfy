/** `parseInt(text, 10)` as JavaScript defines it, on unbounded integers:
    skip leading white space, take one optional sign, then the longest run of
    decimal digits; no digit at all gives NaN (here `None`). Whatever follows
    the digits is ignored. */
module IntParsing {
  import opened Web

  /** The characters `parseInt` skips at the front: ECMAScript's WhiteSpace
      (tab, vertical tab, form feed, no-break space, byte order mark and every
      space separator) and LineTerminator. */
  predicate IsJsWhiteSpace(c: char)
  {
    || c == '\t' || c == '\n' || c == '\U{000B}' || c == '\U{000C}' || c == '\r'
    || c == ' ' || c == '\U{00A0}' || c == '\U{1680}'
    || ('\U{2000}' <= c <= '\U{200A}')
    || c == '\U{2028}' || c == '\U{2029}' || c == '\U{202F}' || c == '\U{205F}'
    || c == '\U{3000}' || c == '\U{FEFF}'
  }

  predicate IsDigit(c: char)
  {
    '0' <= c <= '9'
  }

  predicate AllDigits(z: string)
  {
    forall i :: 0 <= i < |z| ==> IsDigit(z[i])
  }

  function DigitValue(c: char): (d: nat)
    requires IsDigit(c)
    ensures d < 10
  {
    c as int - '0' as int
  }

  function DigitChar(d: nat): (c: char)
    requires d < 10
    ensures IsDigit(c) && DigitValue(c) == d
  {
    ('0' as int + d) as char
  }

  /** Drops the leading white space. */
  function TrimStart(s: string): (r: string)
    ensures |r| <= |s| && r == s[|s| - |r|..]
    ensures forall i :: 0 <= i < |s| - |r| ==> IsJsWhiteSpace(s[i])
    ensures r == [] || !IsJsWhiteSpace(r[0])
  {
    if s != [] && IsJsWhiteSpace(s[0]) then TrimStart(s[1..]) else s
  }

  /** The longest prefix made of decimal digits. */
  function DigitPrefix(s: string): (z: string)
    ensures |z| <= |s| && z == s[..|z|]
    ensures AllDigits(z)
    ensures |z| == |s| || !IsDigit(s[|z|])
  {
    if s != [] && IsDigit(s[0]) then [s[0]] + DigitPrefix(s[1..]) else []
  }

  /** The number a run of decimal digits denotes, most significant first. */
  function ValueOf(z: string): nat
    requires AllDigits(z)
  {
    if z == [] then 0 else ValueOf(z[..|z| - 1]) * 10 + DigitValue(z[|z| - 1])
  }

  /** `parseInt(s, 10)`: past the white space, one optional sign and then the
      longest run of digits, negated after a minus; NaN when there is no
      digit there. */
  function ParseInt(s: string): (r: Option<int>)
    ensures var t := TrimStart(s);
            var signed := t != [] && (t[0] == '-' || t[0] == '+');
            var z := DigitPrefix(if signed then t[1..] else t);
            && (r == None <==> z == [])
            && (r.Some? ==> r.value == if signed && t[0] == '-' then -(ValueOf(z) as int) else ValueOf(z))
  {
    ParseSigned(TrimStart(s))
  }

  /** What `parseInt` does once the white space is gone: one optional sign,
      then the digits. */
  function ParseSigned(t: string): Option<int>
  {
    if t != [] && t[0] == '-' then
      match ParseDigits(t[1..])
      case None => None
      case Some(m) => Some(-m)
    else if t != [] && t[0] == '+' then
      ParseDigits(t[1..])
    else
      ParseDigits(t)
  }

  /** The value of the leading digits, NaN when there are none. */
  function ParseDigits(u: string): Option<int>
  {
    var z := DigitPrefix(u);
    if z == [] then None else Some(ValueOf(z))
  }

  /** `String(n)` for a natural number: its decimal digits, no leading zero. */
  function NaturalDigits(n: nat): (z: string)
    ensures z != [] && AllDigits(z)
  {
    if n < 10 then [DigitChar(n)] else NaturalDigits(n / 10) + [DigitChar(n % 10)]
  }

  /** `String(n)` (or a template literal) for an integer. */
  function Decimal(n: int): string
  {
    if n < 0 then "-" + NaturalDigits(-n) else NaturalDigits(n)
  }

  lemma {:induction false} ValueOfNaturalDigits(n: nat)
    ensures ValueOf(NaturalDigits(n)) == n
  {
    if n >= 10 {
      var z := NaturalDigits(n);
      var high := NaturalDigits(n / 10);
      assert z == high + [DigitChar(n % 10)];
      assert z[..|z| - 1] == high;
      ValueOfNaturalDigits(n / 10);
    }
  }

  lemma {:induction false} DigitPrefixStopsAtNonDigit(z: string, rest: string)
    requires AllDigits(z)
    requires rest == [] || !IsDigit(rest[0])
    ensures DigitPrefix(z + rest) == z
  {
    if z != [] {
      assert (z + rest)[1..] == z[1..] + rest;
      DigitPrefixStopsAtNonDigit(z[1..], rest);
    } else {
      assert z + rest == rest;
    }
  }

  /** Reading back the decimal form of any integer gives that integer, even
      when other text follows that does not start with a digit (so
      `parseInt("2abc", 10)` is 2). */
  lemma ParseDecimal(n: int, rest: string)
    requires rest == [] || !IsDigit(rest[0])
    ensures ParseInt(Decimal(n) + rest) == Some(n)
  {
    var m: nat := if n < 0 then -n else n;
    var z := NaturalDigits(m);
    ValueOfNaturalDigits(m);
    ParseUnsigned(z, rest);
    DecimalShape(n, rest);
    if n < 0 {
      ParseNegative(z + rest, m);
    } else {
      ParsePositive(z + rest, m);
    }
  }

  /** `Decimal(n) + rest` is a minus sign (for a negative `n`) followed by the
      digits of `|n|` and then `rest`; the digits start with a digit. */
  lemma DecimalShape(n: int, rest: string)
    ensures var z := NaturalDigits(if n < 0 then -n else n);
            && (z + rest)[0] == z[0]
            && (n < 0 ==> Decimal(n) + rest == ['-'] + (z + rest))
            && (n >= 0 ==> Decimal(n) + rest == z + rest)
  {
    var z := NaturalDigits(if n < 0 then -n else n);
    if n < 0 {
      assert Decimal(n) == ['-'] + z;
    }
  }

  /** A minus sign negates whatever the digits after it denote. */
  lemma ParseNegative(u: string, m: int)
    requires ParseDigits(u) == Some(m)
    ensures ParseInt(['-'] + u) == Some(-m)
  {
    var s := ['-'] + u;
    assert s[0] == '-' && s[1..] == u;
    SignOrDigitStart(s);
  }

  /** A plus sign in front of the decimal form of a natural number changes
      nothing: `parseInt("+7", 10)` is 7. */
  lemma ExplicitPlusSign(m: nat, rest: string)
    requires rest == [] || !IsDigit(rest[0])
    ensures ParseInt("+" + NaturalDigits(m) + rest) == Some(m)
  {
    var z := NaturalDigits(m);
    ValueOfNaturalDigits(m);
    ParseUnsigned(z, rest);
    assert "+" + z + rest == ['+'] + (z + rest);
    ParsePlus(z + rest, m);
  }

  /** A plus sign leaves whatever the digits after it denote. */
  lemma ParsePlus(u: string, m: int)
    requires ParseDigits(u) == Some(m)
    ensures ParseInt(['+'] + u) == Some(m)
  {
    var s := ['+'] + u;
    assert s[0] == '+' && s[1..] == u;
    SignOrDigitStart(s);
  }

  /** Text that starts with a digit is read as it stands. */
  lemma ParsePositive(u: string, m: int)
    requires u != [] && IsDigit(u[0])
    requires ParseDigits(u) == Some(m)
    ensures ParseInt(u) == Some(m)
  {
    SignOrDigitStart(u);
  }

  /** Text that starts with a sign or a digit has no white space to skip. */
  lemma SignOrDigitStart(s: string)
    requires s != [] && (s[0] == '-' || s[0] == '+' || IsDigit(s[0]))
    ensures ParseInt(s) == ParseSigned(s)
  {
    assert !IsJsWhiteSpace(s[0]);
  }

  lemma ParseUnsigned(z: string, rest: string)
    requires z != [] && AllDigits(z)
    requires rest == [] || !IsDigit(rest[0])
    ensures ParseDigits(z + rest) == Some(ValueOf(z))
  {
    DigitPrefixStopsAtNonDigit(z, rest);
  }

  /** Text whose first non-blank character is neither a sign nor a digit
      parses to NaN; a lone sign does too. */
  lemma NoLeadingDigitIsNaN(s: string)
    requires var t := TrimStart(s);
             t == [] || (!IsDigit(t[0]) && t[0] != '-' && t[0] != '+')
             || (|t| == 1 && (t[0] == '-' || t[0] == '+'))
    ensures ParseInt(s) == None
  {
  }

  /** The path segment a client builds from an undefined id is the word
      "undefined", which parses to NaN. */
  lemma UndefinedIsNaN()
    ensures ParseInt("undefined") == None
  {
    var u := "undefined";
    assert u[0] == 'u' && !IsJsWhiteSpace(u[0]);
    assert TrimStart(u) == u;
    NoLeadingDigitIsNaN(u);
  }

  /** Leading white space does not change the result. */
  lemma {:induction false} LeadingWhiteSpaceIgnored(ws: string, s: string)
    requires forall i :: 0 <= i < |ws| ==> IsJsWhiteSpace(ws[i])
    ensures ParseInt(ws + s) == ParseInt(s)
  {
    TrimStartSkips(ws, s);
  }

  lemma {:induction false} TrimStartSkips(ws: string, s: string)
    requires forall i :: 0 <= i < |ws| ==> IsJsWhiteSpace(ws[i])
    ensures TrimStart(ws + s) == TrimStart(s)
  {
    if ws != [] {
      assert (ws + s)[1..] == ws[1..] + s;
      TrimStartSkips(ws[1..], s);
    } else {
      assert ws + s == s;
    }
  }
}
