/**
 * The few string primitives of JavaScript the dice engine relies on:
 * `trim`, `toUpperCase`, `Number.prototype.toString`, `parseInt` /
 * `parseFloat` and `localeCompare`, restricted to what the engine needs.
 */
module Text {
  import opened Wrappers

  /** Characters removed by `String.prototype.trim`. */
  predicate IsSpace(c: char) {
    || c == ' ' || c == '\t' || c == '\n' || c == '\r'
    || c as int == 0x0B || c as int == 0x0C || c as int == 0xA0
    || c as int == 0x2028 || c as int == 0x2029 || c as int == 0xFEFF
  }

  /** Drops leading white space: the result is the longest suffix not starting with a space. */
  function TrimStart(s: string): (r: string)
    ensures |r| <= |s|
  {
    if s != [] && IsSpace(s[0]) then TrimStart(s[1..]) else s
  }

  /** Drops trailing white space: the result is the longest prefix not ending with a space. */
  function TrimEnd(s: string): (r: string)
    ensures |r| <= |s|
  {
    if s != [] && IsSpace(s[|s| - 1]) then TrimEnd(s[..|s| - 1]) else s
  }

  /** `TrimStart` removes a run of spaces and nothing else, and leaves no space in front. */
  lemma {:induction false} TrimStartDropsOnlySpaces(s: string)
    ensures var r := TrimStart(s);
      && r == s[|s| - |r|..]
      && (forall i :: 0 <= i < |s| - |r| ==> IsSpace(s[i]))
      && (r == [] || !IsSpace(r[0]))
  {
    if s != [] && IsSpace(s[0]) {
      TrimStartDropsOnlySpaces(s[1..]);
    }
  }

  /** `TrimEnd` removes a run of spaces and nothing else, and leaves no space at the end. */
  lemma {:induction false} TrimEndDropsOnlySpaces(s: string)
    ensures var r := TrimEnd(s);
      && r == s[..|r|]
      && (forall i :: |r| <= i < |s| ==> IsSpace(s[i]))
      && (r == [] || !IsSpace(r[|r| - 1]))
  {
    if s != [] && IsSpace(s[|s| - 1]) {
      TrimEndDropsOnlySpaces(s[..|s| - 1]);
    }
  }

  /** `s.trim()` */
  function Trim(s: string): string {
    TrimEnd(TrimStart(s))
  }

  /** Upper-casing of one character; only the ASCII letters are mapped. */
  function UpperChar(c: char): char {
    if 'a' <= c <= 'z' then (c as int - 32) as char else c
  }

  /** `s.toUpperCase()` */
  function Upper(s: string): string {
    seq(|s|, i requires 0 <= i < |s| => UpperChar(s[i]))
  }

  /** The comparison key used for target values: `x.toString().trim().toUpperCase()`. */
  function Normalize(s: string): string {
    Upper(Trim(s))
  }

  predicate IsDigit(c: char) {
    '0' <= c <= '9'
  }

  predicate AllDigits(s: string) {
    forall i :: 0 <= i < |s| ==> IsDigit(s[i])
  }

  function DigitChar(d: nat): (c: char)
    requires d < 10
    ensures IsDigit(c) && c as int - '0' as int == d
  {
    (d + '0' as int) as char
  }

  /** Decimal digits of a natural number, most significant first. */
  function NatToString(n: nat): (r: string)
    ensures |r| >= 1 && AllDigits(r)
    decreases n
  {
    if n < 10 then [DigitChar(n)] else NatToString(n / 10) + [DigitChar(n % 10)]
  }

  /** `n.toString()` for an integral number. */
  function IntToString(n: int): (r: string)
    ensures r != [] && (r[0] == '-' || IsDigit(r[0])) && IsDigit(r[|r| - 1])
  {
    if n < 0 then "-" + NatToString(-n) else NatToString(n)
  }

  /** Value of a string of decimal digits. */
  function DigitsValue(d: string): nat
    requires AllDigits(d)
  {
    if d == [] then 0 else DigitsValue(d[..|d| - 1]) * 10 + (d[|d| - 1] as int - '0' as int)
  }

  /** Length of the run of digits at the start of `s`. */
  function DigitPrefixLength(s: string): (k: nat)
    ensures k <= |s| && AllDigits(s[..k])
    ensures k < |s| ==> !IsDigit(s[k])
  {
    if s != [] && IsDigit(s[0]) then 1 + DigitPrefixLength(s[1..]) else 0
  }

  function ParseUnsigned(s: string): Option<nat> {
    var k := DigitPrefixLength(s);
    if k == 0 then None else Some(DigitsValue(s[..k]))
  }

  /**
   * `parseInt(s)` / `parseFloat(s)` on integral input: leading white space,
   * an optional sign, then the longest run of decimal digits; `None` is NaN.
   */
  function ParseNumber(s: string): (r: Option<int>)
    ensures var t := TrimStart(s);
      var u := if t != [] && (t[0] == '-' || t[0] == '+') then t[1..] else t;
      r.Some? <==> u != [] && IsDigit(u[0])
  {
    var t := TrimStart(s);
    if t != [] && t[0] == '-' then
      match ParseUnsigned(t[1..])
      case Some(v) => Some(-(v as int))
      case None => None
    else if t != [] && t[0] == '+' then
      match ParseUnsigned(t[1..])
      case Some(v) => Some(v)
      case None => None
    else
      ParseUnsigned(t)
  }

  /** Leading white space in front of a non-space is dropped by `TrimStart`, and nothing more. */
  lemma {:induction false} TrimStartSkipsPad(pad: string, x: string)
    requires forall i :: 0 <= i < |pad| ==> IsSpace(pad[i])
    requires x != [] && !IsSpace(x[0])
    ensures TrimStart(pad + x) == x
  {
    if pad != [] {
      assert (pad + x)[1..] == pad[1..] + x;
      TrimStartSkipsPad(pad[1..], x);
    }
  }

  lemma {:induction false} DigitPrefixOfDigits(digits: string, rest: string)
    requires AllDigits(digits)
    requires rest == [] || !IsDigit(rest[0])
    ensures DigitPrefixLength(digits + rest) == |digits|
  {
    if digits != [] {
      assert (digits + rest)[1..] == digits[1..] + rest;
      DigitPrefixOfDigits(digits[1..], rest);
    }
  }

  lemma ParseUnsignedReadsDigits(digits: string, rest: string)
    requires digits != [] && AllDigits(digits)
    requires rest == [] || !IsDigit(rest[0])
    ensures ParseUnsigned(digits + rest) == Some(DigitsValue(digits))
  {
    DigitPrefixOfDigits(digits, rest);
    assert (digits + rest)[..|digits|] == digits;
  }

  /** White space in front of a number does not change how it reads. */
  lemma ParseNumberSkipsPad(pad: string, x: string)
    requires forall i :: 0 <= i < |pad| ==> IsSpace(pad[i])
    requires x != [] && !IsSpace(x[0])
    ensures ParseNumber(pad + x) == ParseNumber(x)
  {
    TrimStartSkipsPad(pad, x);
    assert TrimStart(x) == x;
  }

  lemma ParseNumberOfDigits(digits: string, rest: string)
    requires digits != [] && AllDigits(digits)
    requires rest == [] || !IsDigit(rest[0])
    ensures ParseNumber(digits + rest) == Some(DigitsValue(digits) as int)
  {
    var u := digits + rest;
    ParseUnsignedReadsDigits(digits, rest);
    assert u[0] == digits[0];
    assert TrimStart(u) == u;
  }

  /** A text that starts with a sign is read as that sign applied to what follows it. */
  lemma ParseNumberOfSigned(x: string)
    requires x != [] && (x[0] == '-' || x[0] == '+')
    ensures ParseUnsigned(x[1..]).Some? ==>
      ParseNumber(x) == Some(if x[0] == '-' then -(ParseUnsigned(x[1..]).value as int) else ParseUnsigned(x[1..]).value as int)
  {
    assert !IsSpace(x[0]);
    assert TrimStart(x) == x;
  }

  /**
   * `parseInt` reads the whole run of digits after the optional sign,
   * leading zeros included, and ignores whatever follows it
   * (`ParseNumberSkipsPad` adds the leading white space).
   */
  lemma ParseNumberReadsLeadingDigits(sign: string, digits: string, rest: string)
    requires |sign| <= 1 && (sign != [] ==> sign[0] == '-' || sign[0] == '+')
    requires digits != [] && AllDigits(digits)
    requires rest == [] || !IsDigit(rest[0])
    ensures ParseNumber(sign + digits + rest)
         == Some(if sign != [] && sign[0] == '-' then -(DigitsValue(digits) as int) else DigitsValue(digits) as int)
  {
    SplitSign(sign, digits, rest);
    if sign == [] {
      ParseNumberOfDigits(digits, rest);
    } else {
      ParseUnsignedReadsDigits(digits, rest);
      ParseNumberOfSigned(sign + digits + rest);
    }
  }

  lemma SplitSign(sign: string, digits: string, rest: string)
    ensures sign == [] ==> sign + digits + rest == digits + rest
    ensures sign != [] ==> (sign + digits + rest)[0] == sign[0]
    ensures |sign| == 1 ==> (sign + digits + rest)[1..] == digits + rest
  {
  }

  lemma {:induction false} DigitsValueOfNatToString(n: nat)
    ensures DigitsValue(NatToString(n)) == n
    decreases n
  {
    var r := NatToString(n);
    if n >= 10 {
      DigitsValueOfNatToString(n / 10);
      assert r[..|r| - 1] == NatToString(n / 10);
    }
  }

  /** Reading back the decimal form of a number gives the number. */
  lemma ParseIntToString(n: int)
    ensures ParseNumber(IntToString(n)) == Some(n)
  {
    var s := IntToString(n);
    var d := NatToString(if n < 0 then -n else n);
    var k := DigitPrefixLength(d);
    assert k == |d|;
    assert d[..k] == d;
    DigitsValueOfNatToString(if n < 0 then -n else n);
    assert TrimStart(s) == s by {
      assert !IsSpace(s[0]);
    }
    if n < 0 {
      assert s[1..] == d;
    }
  }

  /** Decimal forms of numbers are left alone by trimming and upper-casing. */
  lemma NormalizeIntToString(n: int)
    ensures Normalize(IntToString(n)) == IntToString(n)
  {
    var s := IntToString(n);
    TrimKeepsUnpadded(s);
    SignedDigits(n);
    UpperKeepsNonLetters(s);
  }

  lemma TrimKeepsUnpadded(s: string)
    requires s != [] && !IsSpace(s[0]) && !IsSpace(s[|s| - 1])
    ensures Trim(s) == s
  {
    assert TrimStart(s) == s;
  }

  /** A single trailing blank after an unpadded string is trimmed away. */
  lemma TrimDropsTrailingBlank(s: string)
    requires s != [] && !IsSpace(s[0]) && !IsSpace(s[|s| - 1])
    ensures Trim(s + [' ']) == s
  {
    var t := s + [' '];
    assert t[0] == s[0];
    assert TrimStart(t) == t;
    assert t[..|t| - 1] == s;
    assert TrimEnd(t) == TrimEnd(s);
    assert TrimEnd(s) == s;
  }

  lemma SignedDigits(n: int)
    ensures forall i :: 0 <= i < |IntToString(n)| ==> IntToString(n)[i] == '-' || IsDigit(IntToString(n)[i])
  {
    var s := IntToString(n);
    var d := NatToString(if n < 0 then -n else n);
    forall i | 0 <= i < |s| ensures s[i] == '-' || IsDigit(s[i]) {
      if n < 0 && i > 0 { assert s[i] == d[i - 1]; }
    }
  }

  lemma UpperKeepsNonLetters(s: string)
    requires forall i :: 0 <= i < |s| ==> s[i] == '-' || IsDigit(s[i])
    ensures Upper(s) == s
  {
    assert forall i :: 0 <= i < |s| ==> Upper(s)[i] == s[i];
  }

  /** Code-unit order on strings (the model of `localeCompare`). */
  predicate LexLess(a: string, b: string) {
    if a == [] then b != []
    else if b == [] then false
    else if a[0] != b[0] then a[0] < b[0]
    else LexLess(a[1..], b[1..])
  }

  lemma {:induction false} LexLessIrreflexive(a: string)
    ensures !LexLess(a, a)
  {
    if a != [] { LexLessIrreflexive(a[1..]); }
  }

  lemma {:induction false} LexLessTransitive(a: string, b: string, c: string)
    requires LexLess(a, b) && LexLess(b, c)
    ensures LexLess(a, c)
  {
    if a != [] && b != [] && c != [] && a[0] == b[0] && b[0] == c[0] {
      LexLessTransitive(a[1..], b[1..], c[1..]);
    }
  }

  lemma {:induction false} LexLessTotal(a: string, b: string)
    ensures a == b || LexLess(a, b) || LexLess(b, a)
  {
    if a != [] && b != [] && a[0] == b[0] {
      LexLessTotal(a[1..], b[1..]);
      if a[1..] == b[1..] {
        assert a == [a[0]] + a[1..] && b == [b[0]] + b[1..];
      }
    }
  }

  /** `a.localeCompare(b)`: negative, zero or positive. */
  function LocaleCompare(a: string, b: string): (r: int)
    ensures r == 0 <==> a == b
    ensures r < 0 <==> LexLess(a, b)
  {
    LexLessIrreflexive(a);
    if a == b then 0 else if LexLess(a, b) then -1 else 1
  }
}
