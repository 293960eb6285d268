/**
 The JavaScript string built-ins the editor relies on, on `string = seq<char>`:
 `String.prototype.trim`, `replace(/,/g, '')`, `parseFloat` on decimal
 literals, and the decimal rendering of a non-negative integer inside a
 template literal (`s-${Date.now()}`).
 */
module JsText {
  import opened Wrappers

  /** The characters ECMAScript calls WhiteSpace or LineTerminator: the ones
      `trim` removes and `parseFloat` skips before the number. */
  predicate IsWhitespace(c: char) {
    || c == '\t' || c == '\n' || c == '\U{000B}' || c == '\U{000C}' || c == '\r' || c == ' '
    || c == '\U{00A0}' || c == '\U{1680}' || ('\U{2000}' <= c <= '\U{200A}')
    || c == '\U{2028}' || c == '\U{2029}' || c == '\U{202F}' || c == '\U{205F}'
    || c == '\U{3000}' || c == '\U{FEFF}'
  }

  /** Every character is white space (the empty string included). */
  predicate IsBlank(s: string) {
    forall i | 0 <= i < |s| :: IsWhitespace(s[i])
  }

  /** `s` with its leading white space removed. */
  function TrimStart(s: string): (r: string)
    ensures |r| <= |s| && r == s[|s| - |r|..]
    ensures IsBlank(s[..|s| - |r|])
    ensures r == [] || !IsWhitespace(r[0])
  {
    if |s| > 0 && IsWhitespace(s[0]) then
      var r := TrimStart(s[1..]);
      assert s[..|s| - |r|] == [s[0]] + s[1..][..|s| - 1 - |r|];
      assert s[|s| - |r|..] == s[1..][|s| - 1 - |r|..];
      r
    else
      assert s[..0] == [];
      s
  }

  /** `s` with its trailing white space removed. */
  function TrimEnd(s: string): (r: string)
    ensures |r| <= |s| && r == s[..|r|]
    ensures IsBlank(s[|r|..])
    ensures r == [] || !IsWhitespace(r[|r| - 1])
  {
    if |s| > 0 && IsWhitespace(s[|s| - 1]) then
      var r := TrimEnd(s[..|s| - 1]);
      assert s[|r|..] == s[..|s| - 1][|r|..] + [s[|s| - 1]];
      assert s[..|r|] == s[..|s| - 1][..|r|];
      r
    else
      assert s[|s|..] == [];
      s
  }

  /** `String.prototype.trim`. */
  function Trim(s: string): (r: string)
    ensures r == [] || (!IsWhitespace(r[0]) && !IsWhitespace(r[|r| - 1]))
  {
    TrimEnd(TrimStart(s))
  }

  /** `trim()` yields the empty string exactly when every character of the
      input is white space. */
  lemma TrimEmptyIffBlank(s: string)
    ensures Trim(s) == [] <==> IsBlank(s)
  {
    var t := TrimStart(s);
    if Trim(s) == [] {
      assert s[..|s| - |t|] == s;
    } else {
      var k := |s| - |t|;
      assert t[0] == s[k];
    }
  }

  /** No character of `s` is a comma. */
  predicate NoComma(s: string) {
    forall i | 0 <= i < |s| :: s[i] != ','
  }

  /** `replace(/,/g, '')`: every comma removed, all other characters kept in order. */
  function StripCommas(s: string): (r: string)
    ensures NoComma(r)
    ensures |r| <= |s|
  {
    if s == [] then []
    else if s[0] == ',' then StripCommas(s[1..])
    else [s[0]] + StripCommas(s[1..])
  }

  /** Text without commas is left as it is. */
  lemma {:induction false} StripCommasOfNoComma(s: string)
    requires NoComma(s)
    ensures StripCommas(s) == s
    decreases |s|
  {
    if s != [] {
      StripCommasOfNoComma(s[1..]);
      assert [s[0]] + s[1..] == s;
    }
  }

  /** One step of stripping, from the front. */
  lemma StripCommasCons(c: char, s: string)
    ensures StripCommas([c] + s) == (if c == ',' then [] else [c]) + StripCommas(s)
  {
    assert ([c] + s)[1..] == s;
    assert [c] + s != [];
    if c == ',' {
      assert [] + StripCommas(s) == StripCommas(s);
    }
  }

  /** Stripping distributes over concatenation: together with the one-character
      cases this pins the function down as "drop the commas, keep the rest". */
  lemma {:induction false} StripCommasAppend(a: string, b: string)
    ensures StripCommas(a + b) == StripCommas(a) + StripCommas(b)
    decreases |a|
  {
    if a == [] {
      assert a + b == b;
    } else {
      var head := if a[0] == ',' then [] else [a[0]];
      StripCommasAppend(a[1..], b);
      StripCommasCons(a[0], a[1..] + b);
      StripCommasCons(a[0], a[1..]);
      assert [a[0]] + (a[1..] + b) == a + b;
      assert [a[0]] + a[1..] == a;
      assert head + (StripCommas(a[1..]) + StripCommas(b)) == (head + StripCommas(a[1..])) + StripCommas(b);
    }
  }

  /** Every character left by stripping was in the input. */
  lemma {:induction false} StripCommasKeepsOnly(raw: string, c: char)
    requires c in StripCommas(raw)
    ensures c in raw
    decreases |raw|
  {
    if raw != [] {
      if c != raw[0] {
        StripCommasKeepsOnly(raw[1..], c);
      }
    }
  }

  /** Stripping twice is stripping once. */
  lemma StripCommasIdempotent(s: string)
    ensures StripCommas(StripCommas(s)) == StripCommas(s)
  {
    StripCommasOfNoComma(StripCommas(s));
  }

  predicate IsDigit(c: char) {
    '0' <= c <= '9'
  }

  predicate AllDigits(s: string) {
    forall i | 0 <= i < |s| :: IsDigit(s[i])
  }

  function DigitValue(c: char): (d: nat)
    requires IsDigit(c)
    ensures d < 10
  {
    (c as int) - ('0' as int)
  }

  function DigitChar(d: nat): (c: char)
    requires d < 10
    ensures IsDigit(c) && DigitValue(c) == d
  {
    (('0' as int) + d) as char
  }

  /** The number a run of decimal digits denotes, most significant first. */
  function DigitsValue(s: string): nat
    requires AllDigits(s)
  {
    if s == [] then 0 else DigitsValue(s[..|s| - 1]) * 10 + DigitValue(s[|s| - 1])
  }

  function Pow10(k: nat): (r: nat)
    ensures r >= 1
  {
    if k == 0 then 1 else 10 * Pow10(k - 1)
  }

  /** Length of the longest prefix of `s` made of decimal digits. */
  function DigitRun(s: string): (n: nat)
    ensures n <= |s|
    ensures AllDigits(s[..n])
    ensures n == |s| || !IsDigit(s[n])
  {
    if |s| > 0 && IsDigit(s[0]) then
      var n := 1 + DigitRun(s[1..]);
      assert s[..n] == [s[0]] + s[1..][..n - 1];
      n
    else 0
  }

  /** `m * 10^e` for a signed exponent. */
  function ScaleByPow10(m: real, e: int): real {
    if e >= 0 then m * (Pow10(e) as real) else m / (Pow10(-e) as real)
  }

  /** The signed exponent of an `ExponentPart` (`e`/`E`, optional sign, at
      least one digit) at the front of `s`, or 0 when `s` does not start with one
      (then the longest valid prefix ends before the `e`). */
  function ExponentPrefix(s: string): int {
    if |s| >= 2 && (s[0] == 'e' || s[0] == 'E') then
      var signed := s[1] == '+' || s[1] == '-';
      var digits := if signed then s[2..] else s[1..];
      var n := DigitRun(digits);
      if n == 0 then 0
      else if s[1] == '-' then -(DigitsValue(digits[..n]) as int)
      else DigitsValue(digits[..n]) as int
    else 0
  }

  /** Splits what follows the integer digits into the fraction digits (after
      a `.`, possibly none) and the remainder. */
  function FractionPart(rest: string): (r: (string, string))
    ensures AllDigits(r.0)
  {
    if |rest| > 0 && rest[0] == '.' then
      var k := DigitRun(rest[1..]);
      (rest[1..][..k], rest[1..][k..])
    else ([], rest)
  }

  /** The value of `i.f` for digit strings `i` and `f`. */
  function Mantissa(i: string, f: string): real
    requires AllDigits(i) && AllDigits(f)
  {
    (DigitsValue(i) as real) + (DigitsValue(f) as real) / (Pow10(|f|) as real)
  }

  /** The value of the longest prefix of `u` that is an unsigned decimal
      literal (`123`, `1.5`, `.5`, `5.`, optionally followed by an exponent),
      or None when no prefix is one. */
  function ParseUnsignedPrefix(u: string): Option<real> {
    var n := DigitRun(u);
    ParseAfterInteger(u[..n], u[n..])
  }

  /** The rest of an unsigned literal once its integer digits are read. */
  function ParseAfterInteger(intDigits: string, rest: string): Option<real>
    requires AllDigits(intDigits)
  {
    var f := FractionPart(rest);
    if intDigits == [] && f.0 == [] then None
    else Some(ScaleByPow10(Mantissa(intDigits, f.0), ExponentPrefix(f.1)))
  }

  /** `parseFloat` on decimal input: skip leading white space, read an optional
      sign, then the longest decimal-literal prefix; None stands for NaN. */
  function ParseFloat(s: string): Option<real> {
    var t := TrimStart(s);
    if |t| > 0 && t[0] == '-' then
      match ParseUnsignedPrefix(t[1..])
      case Some(m) => Some(-m)
      case None => None
    else if |t| > 0 && t[0] == '+' then ParseUnsignedPrefix(t[1..])
    else ParseUnsignedPrefix(t)
  }

  /** An unsigned literal needs a digit first, or a point followed by a digit. */
  lemma ParseUnsignedNeedsDigit(u: string)
    requires |u| > 0 ==> !IsDigit(u[0])
    requires |u| > 1 && u[0] == '.' ==> !IsDigit(u[1])
    ensures ParseUnsignedPrefix(u) == None
  {
    assert DigitRun(u) == 0;
    assert u[..0] == [];
    if |u| > 0 && u[0] == '.' {
      assert DigitRun(u[1..]) == 0;
    }
  }

  /** A string with no decimal digit in it is not a number. */
  lemma NoDigitIsNaN(s: string)
    requires forall i | 0 <= i < |s| :: !IsDigit(s[i])
    ensures ParseFloat(s) == None
  {
    var t := TrimStart(s);
    forall i | 0 <= i < |t|
      ensures !IsDigit(t[i])
    {
      assert t[i] == s[|s| - |t| + i];
    }
    if |t| > 0 && (t[0] == '-' || t[0] == '+') {
      ParseUnsignedNeedsDigit(t[1..]);
    } else {
      ParseUnsignedNeedsDigit(t);
    }
  }

  /** The digit run of a string stops exactly where its digits end. */
  lemma {:induction false} DigitRunOfDigits(a: string, rest: string)
    requires AllDigits(a)
    requires rest == [] || !IsDigit(rest[0])
    ensures DigitRun(a + rest) == |a|
    decreases |a|
  {
    if a == [] {
      assert a + rest == rest;
    } else {
      assert (a + rest)[1..] == a[1..] + rest;
      DigitRunOfDigits(a[1..], rest);
    }
  }

  /** A plain decimal `a.b` (no sign, no exponent, digits on at least one
      side of the point) is read exactly. */
  lemma ParsePlainDecimal(a: string, b: string)
    requires AllDigits(a) && AllDigits(b) && |a| + |b| > 0
    ensures ParseUnsignedPrefix(a + "." + b) == Some(Mantissa(a, b))
  {
    var u := a + "." + b;
    DigitRunOfDigits(a, "." + b);
    assert u == a + ("." + b);
    assert u[..|a|] == a;
    assert u[|a|..] == "." + b;
    FractionOfPointDigits(b);
    assert ExponentPrefix([]) == 0;
    assert ScaleByPow10(Mantissa(a, b), 0) == Mantissa(a, b);
    assert ParseAfterInteger(a, "." + b) == Some(Mantissa(a, b));
  }

  lemma FractionOfPointDigits(b: string)
    requires AllDigits(b)
    ensures FractionPart("." + b) == (b, [])
  {
    assert ("." + b)[1..] == b;
    DigitRunOfDigits(b, []);
    assert b + [] == b;
  }

  /** The decimal rendering of a non-negative integer, as `${n}` produces it
      for n below 10^21 (from there on JavaScript switches to exponent form,
      `1e+21`). */
  function DecimalString(n: nat): (r: string)
    ensures |r| >= 1 && AllDigits(r)
    ensures r[0] != '0' || n == 0
  {
    if n < 10 then [DigitChar(n)] else DecimalString(n / 10) + [DigitChar(n % 10)]
  }

  /** Reading back a rendered integer gives the integer. */
  lemma {:induction false} DecimalStringValue(n: nat)
    ensures DigitsValue(DecimalString(n)) == n
  {
    if n >= 10 {
      var s := DecimalString(n);
      assert s[..|s| - 1] == DecimalString(n / 10);
      DecimalStringValue(n / 10);
    }
  }

  /** Different integers render differently. */
  lemma DecimalStringInjective(a: nat, b: nat)
    requires DecimalString(a) == DecimalString(b)
    ensures a == b
  {
    DecimalStringValue(a);
    DecimalStringValue(b);
  }

  /** A run of digits alone is read as the integer it denotes. */
  lemma ParseDigitsOnly(a: string)
    requires AllDigits(a) && |a| > 0
    ensures ParseUnsignedPrefix(a) == Some(DigitsValue(a) as real)
  {
    DigitRunOfAll(a);
    assert a[..|a|] == a && a[|a|..] == [];
    ParseAfterAllDigits(a);
  }

  lemma DigitRunOfAll(a: string)
    requires AllDigits(a)
    ensures DigitRun(a) == |a|
  {
    DigitRunOfDigits(a, []);
    assert a + [] == a;
  }

  /** Integer digits with nothing after them. */
  lemma ParseAfterAllDigits(a: string)
    requires AllDigits(a) && |a| > 0
    ensures ParseAfterInteger(a, []) == Some(DigitsValue(a) as real)
  {
    var m := DigitsValue(a) as real;
    assert FractionPart([]) == ([], []);
    assert DigitsValue([]) == 0 && Pow10(0) == 1;
    assert Mantissa(a, []) == m;
    assert ExponentPrefix([]) == 0;
    assert ScaleByPow10(m, 0) == m;
  }

  /** Input starting with a digit is read by the unsigned-literal rule
      directly. */
  lemma ParseFloatUnsigned(s: string)
    requires |s| > 0 && IsDigit(s[0])
    ensures ParseFloat(s) == ParseUnsignedPrefix(s)
  {
    assert !IsWhitespace(s[0]);
    assert TrimStart(s) == s;
  }

  /** `parseFloat(String(n)) === n` for every non-negative integer. */
  lemma ParseFloatDecimalString(n: nat)
    ensures ParseFloat(DecimalString(n)) == Some(n as real)
  {
    var s := DecimalString(n);
    assert IsDigit(s[0]);
    ParseFloatUnsigned(s);
    ParseDigitsOnly(s);
    DecimalStringValue(n);
  }

  /** The three digits of `m < 1000`, zero-padded. */
  function ThreeDigits(m: nat): (r: string)
    requires m < 1000
    ensures |r| == 3 && AllDigits(r)
  {
    [DigitChar(m / 100), DigitChar(m / 10 % 10), DigitChar(m % 10)]
  }

  /** A whole number with a comma between groups of three digits, the way
      an English-style `toLocaleString()` writes it. */
  function GroupThousands(n: nat): string {
    if n < 1000 then DecimalString(n) else GroupThousands(n / 1000) + "," + ThreeDigits(n % 1000)
  }

  /** Decimal place arithmetic behind grouping by thousands. */
  lemma ThousandsArithmetic(n: nat)
    ensures n / 10 / 10 == n / 100 && n / 100 / 10 == n / 1000
    ensures n % 1000 / 100 == n / 100 % 10
    ensures n % 1000 / 10 % 10 == n / 10 % 10
    ensures n % 1000 % 10 == n % 10
  {
    var q, r := n / 1000, n % 1000;
    assert n == 1000 * q + r;
    assert n / 10 == 100 * q + r / 10;
    assert n / 100 == 10 * q + r / 100;
  }

  /** The last digit of a number of at least two digits is rendered last. */
  lemma DecimalStringSnoc(n: nat)
    requires n >= 10
    ensures DecimalString(n) == DecimalString(n / 10) + [DigitChar(n % 10)]
  {
  }

  /** The last three digits of a number of at least four digits. */
  lemma DecimalStringLastThree(n: nat)
    requires n >= 1000
    ensures DecimalString(n) == DecimalString(n / 1000) + ThreeDigits(n % 1000)
  {
    ThousandsArithmetic(n);
    DecimalStringSnoc(n);
    DecimalStringSnoc(n / 10);
    DecimalStringSnoc(n / 100);
    var d0, d1, d2 := DigitChar(n % 10), DigitChar(n / 10 % 10), DigitChar(n / 100 % 10);
    assert ThreeDigits(n % 1000) == [d2, d1, d0];
    assert DecimalString(n) == DecimalString(n / 1000) + [d2] + [d1] + [d0];
  }

  /** A separator between two parts disappears; a comma-free part is kept. */
  lemma StripCommasAroundSeparator(hi: string, lo: string)
    requires NoComma(lo)
    ensures StripCommas(hi + "," + lo) == StripCommas(hi) + lo
  {
    StripCommasAppend(hi + ",", lo);
    StripCommasAppend(hi, ",");
    StripCommasOfNoComma(lo);
    assert StripCommas(",") == [];
    assert StripCommas(hi) + [] == StripCommas(hi);
  }

  lemma DigitsHaveNoComma(s: string)
    requires AllDigits(s)
    ensures NoComma(s)
  {
  }

  /** Removing the group separators from a grouped number leaves its plain
      decimal rendering. */
  lemma {:induction false} StripCommasGroupThousands(n: nat)
    ensures StripCommas(GroupThousands(n)) == DecimalString(n)
    decreases n
  {
    if n >= 1000 {
      var lo := ThreeDigits(n % 1000);
      DigitsHaveNoComma(lo);
      StripCommasAroundSeparator(GroupThousands(n / 1000), lo);
      StripCommasGroupThousands(n / 1000);
      DecimalStringLastThree(n);
    } else {
      DigitsHaveNoComma(DecimalString(n));
      StripCommasOfNoComma(DecimalString(n));
    }
  }
}
