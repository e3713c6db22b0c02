/** Numbers as the validator handles them: Python's float() on a string, the
    tolerant coercion float(s.replace(",", ".").replace(" ", "")) used for
    amounts and taxable figures, and round(x, 2). Values are exact reals. */
module Numbers {
  import opened Wrappers
  import opened Text

  predicate IsDigit(c: char) {
    '0' <= c <= '9'
  }

  function DigitValue(c: char): nat
    requires IsDigit(c)
  {
    c as int - '0' as int
  }

  /** Python's digitpart: digit (["_"] digit)*, read from its last digit. */
  predicate IsDigitPart(d: string)
    decreases |d|
  {
    && |d| > 0 && IsDigit(d[|d| - 1])
    && (|| |d| == 1
        || IsDigitPart(d[..|d| - 1])
        || (|d| >= 3 && d[|d| - 2] == '_' && IsDigitPart(d[..|d| - 2])))
  }

  predicate AllDigits(d: string) {
    forall i :: 0 <= i < |d| ==> IsDigit(d[i])
  }

  /** The number a run of digits and underscores denotes, underscores ignored. */
  function DigitsValue(d: string): nat
    decreases |d|
  {
    if d == [] then 0
    else if IsDigit(d[|d| - 1]) then DigitsValue(d[..|d| - 1]) * 10 + DigitValue(d[|d| - 1])
    else DigitsValue(d[..|d| - 1])
  }

  /** The number of digits in d, underscores not counted. */
  function DigitCount(d: string): nat
    decreases |d|
  {
    if d == [] then 0
    else if IsDigit(d[|d| - 1]) then DigitCount(d[..|d| - 1]) + 1
    else DigitCount(d[..|d| - 1])
  }

  /** x / 10^n, one digit at a time. */
  function ShiftDown(x: real, n: nat): real
    decreases n
  {
    if n == 0 then x else ShiftDown(x, n - 1) / 10.0
  }

  /** x * 10^n, one digit at a time. */
  function ShiftUp(x: real, n: nat): real
    decreases n
  {
    if n == 0 then x else ShiftUp(x, n - 1) * 10.0
  }

  /** The first index of 'e' or 'E', or |s|. */
  function IndexOfExponent(s: string): (i: nat)
    ensures i <= |s|
    ensures i < |s| ==> s[i] == 'e' || s[i] == 'E'
    ensures forall j :: 0 <= j < i ==> s[j] != 'e' && s[j] != 'E'
    decreases |s|
  {
    if s == [] then 0 else if s[0] == 'e' || s[0] == 'E' then 0 else 1 + IndexOfExponent(s[1..])
  }

  /** number ::= [digitpart] "." digitpart | digitpart ["."] */
  function ParseMantissa(m: string): Option<real> {
    var q := IndexOfChar(m, '.');
    if q == |m| then
      if IsDigitPart(m) then Some(DigitsValue(m) as real) else None
    else
      var ip, fp := m[..q], m[q + 1..];
      if (ip == [] || IsDigitPart(ip)) && (fp == [] || IsDigitPart(fp)) && (ip != [] || fp != []) then
        Some(DigitsValue(ip) as real + ShiftDown(DigitsValue(fp) as real, DigitCount(fp)))
      else None
  }

  /** exponent ::= ("e" | "E") ["+" | "-"] digitpart, without its letter. */
  function ParseExponent(x: string): Option<int> {
    if |x| > 0 && (x[0] == '+' || x[0] == '-') then
      if IsDigitPart(x[1..]) then
        Some(if x[0] == '-' then -(DigitsValue(x[1..]) as int) else DigitsValue(x[1..]) as int)
      else None
    else if IsDigitPart(x) then Some(DigitsValue(x) as int)
    else None
  }

  function Scale(m: real, e: int): real {
    if e >= 0 then ShiftUp(m, e) else ShiftDown(m, -e)
  }

  /** floatnumber ::= number [exponent], without a sign. */
  function ParseUnsigned(b: string): Option<real> {
    var p := IndexOfExponent(b);
    if p == |b| then ParseMantissa(b)
    else
      match (ParseMantissa(b[..p]), ParseExponent(b[p + 1..]))
      case (Some(m), Some(e)) => Some(Scale(m, e))
      case _ => None
  }

  /** An optional sign, then an unsigned literal. */
  function ParseSigned(t: string): Option<real> {
    if |t| > 0 && (t[0] == '+' || t[0] == '-') then
      match ParseUnsigned(t[1..])
      case Some(x) => Some(if t[0] == '-' then -x else x)
      case None => None
    else ParseUnsigned(t)
  }

  /** float(s) on a string: surrounding whitespace, an optional sign, then a
      decimal floating-point literal; None where Python raises ValueError. */
  function ParseFloat(s: string): Option<real> {
    ParseSigned(Strip(s))
  }

  /** The text the validator hands to float(): commas become points and
      spaces are removed. */
  function CleanNumeral(s: string): string {
    RemoveChar(ReplaceChar(s, ',', '.'), ' ')
  }

  /** float(s.replace(",", ".").replace(" ", "")), None on ValueError. */
  function CoerceNumber(s: string): Option<real> {
    ParseFloat(CleanNumeral(s))
  }

  // ---------------------------------------------------------------------
  // Properties of the parser

  lemma {:induction false} DigitsValueOfDigits(d: string)
    requires AllDigits(d)
    ensures DigitCount(d) == |d|
    decreases |d|
  {
    if d != [] {
      DigitsValueOfDigits(d[..|d| - 1]);
    }
  }

  lemma {:induction false} DigitsArePart(d: string)
    requires |d| > 0 && AllDigits(d)
    ensures IsDigitPart(d)
    decreases |d|
  {
    if |d| > 1 {
      var p := d[..|d| - 1];
      assert forall i :: 0 <= i < |p| ==> p[i] == d[i];
      DigitsArePart(p);
    }
  }

  /** A character other than a digit or an underscore spoils a digit part. */
  lemma {:induction false} NotDigitPart(d: string, i: nat)
    requires i < |d| && !IsDigit(d[i]) && d[i] != '_'
    ensures !IsDigitPart(d)
    decreases |d|
  {
    if i < |d| - 1 {
      NotDigitPart(d[..|d| - 1], i);
      if i < |d| - 2 {
        NotDigitPart(d[..|d| - 2], i);
      }
    }
  }

  lemma DigitNotSpace(c: char)
    requires IsDigit(c)
    ensures !IsSpace(c)
  {
  }

  lemma ParseStripped(s: string)
    requires Strip(s) == s && |s| > 0 && s[0] != '+' && s[0] != '-'
    ensures ParseFloat(s) == ParseUnsigned(s)
  {
  }

  lemma ParseNoExponent(s: string)
    requires forall i :: 0 <= i < |s| ==> s[i] != 'e' && s[i] != 'E'
    ensures ParseUnsigned(s) == ParseMantissa(s)
  {
    NoExponentMark(s);
  }

  lemma {:induction false} NoExponentMark(s: string)
    requires forall i :: 0 <= i < |s| ==> s[i] != 'e' && s[i] != 'E'
    ensures IndexOfExponent(s) == |s|
    decreases |s|
  {
    if s != [] {
      assert s[0] != 'e' && s[0] != 'E';
      assert forall j :: 0 <= j < |s| - 1 ==> s[1..][j] == s[j + 1];
      NoExponentMark(s[1..]);
    }
  }

  /** A literal without a sign, surrounding whitespace or exponent is read
      as a mantissa. */
  lemma ParsePlain(s: string)
    requires |s| > 0 && IsDigit(s[0]) && IsDigit(s[|s| - 1])
    requires forall i :: 0 <= i < |s| ==> s[i] != 'e' && s[i] != 'E'
    ensures ParseFloat(s) == ParseMantissa(s)
  {
    DigitNotSpace(s[0]);
    DigitNotSpace(s[|s| - 1]);
    StripTrimmed(s);
    ParseStripped(s);
    ParseNoExponent(s);
  }

  /** A run of digits parses to the number it denotes. */
  lemma ParseWhole(d: string)
    requires |d| > 0 && AllDigits(d)
    ensures ParseFloat(d) == Some(DigitsValue(d) as real)
  {
    ParsePlain(d);
    IndexOfCharIs(d, '.', |d|);
    DigitsArePart(d);
  }

  lemma DecimalShape(a: string, b: string)
    requires AllDigits(a)
    ensures var s := a + "." + b; IndexOfChar(s, '.') == |a| && s[..|a|] == a && s[|a| + 1..] == b
  {
    var s := a + "." + b;
    IndexOfCharIs(s, '.', |a|);
    assert s[..|a|] == a;
    assert s[|a| + 1..] == b;
  }

  /** A mantissa made of a digit part, a point and a digit part of n digits. */
  lemma MantissaOfParts(s: string, a: string, b: string, n: nat)
    requires IsDigitPart(a) && IsDigitPart(b) && DigitCount(b) == n
    requires |a| < |s| && IndexOfChar(s, '.') == |a| && s[..|a|] == a && s[|a| + 1..] == b
    ensures ParseMantissa(s) == Some(DigitsValue(a) as real + ShiftDown(DigitsValue(b) as real, n))
  {
  }

  lemma DecimalParts(a: string, b: string)
    requires |a| > 0 && AllDigits(a) && |b| > 0 && AllDigits(b)
    ensures IsDigitPart(a) && IsDigitPart(b) && DigitCount(b) == |b|
  {
    DigitsArePart(a);
    DigitsArePart(b);
    DigitsValueOfDigits(b);
  }

  lemma MantissaDecimal(a: string, b: string)
    requires |a| > 0 && AllDigits(a) && |b| > 0 && AllDigits(b)
    ensures ParseMantissa(a + "." + b) == Some(DigitsValue(a) as real + ShiftDown(DigitsValue(b) as real, |b|))
  {
    DecimalShape(a, b);
    DecimalParts(a, b);
    MantissaOfParts(a + "." + b, a, b, |b|);
  }

  /** Digits, a point and digits parse to the whole part plus the fraction. */
  lemma ParseDecimal(a: string, b: string)
    requires |a| > 0 && AllDigits(a) && |b| > 0 && AllDigits(b)
    ensures ParseFloat(a + "." + b) == Some(DigitsValue(a) as real + ShiftDown(DigitsValue(b) as real, |b|))
  {
    var s := a + "." + b;
    assert s[0] == a[0] && s[|s| - 1] == b[|b| - 1];
    assert forall i :: 0 <= i < |s| ==> s[i] == '.' || IsDigit(s[i]);
    ParsePlain(s);
    MantissaDecimal(a, b);
  }

  /** A literal holding two decimal points is rejected, wherever they are. */
  lemma TwoPointsRejected(s: string, i: nat, j: nat)
    requires i < j < |s| && s[i] == '.' && s[j] == '.'
    ensures ParseFloat(s).None?
  {
    var k := StripStart(s);
    StripIndex(s, i);
    StripIndex(s, j);
    TwoPointsInSigned(Strip(s), i - k, j - k);
  }

  lemma TwoPointsInSigned(t: string, i: nat, j: nat)
    requires i < j < |t| && t[i] == '.' && t[j] == '.'
    ensures ParseSigned(t).None?
  {
    if t[0] == '+' || t[0] == '-' {
      TwoPointsInUnsigned(t[1..], i - 1, j - 1);
    } else {
      TwoPointsInUnsigned(t, i, j);
    }
  }

  lemma TwoPointsInUnsigned(b: string, i: nat, j: nat)
    requires i < j < |b| && b[i] == '.' && b[j] == '.'
    ensures ParseUnsigned(b).None?
  {
    var p := IndexOfExponent(b);
    if p == |b| {
      TwoPointsInMantissa(b, i, j);
    } else if j < p {
      TwoPointsInMantissa(b[..p], i, j);
    } else {
      var x := b[p + 1..];
      NotDigitPart(x, j - p - 1);
      if j - p - 1 > 0 {
        NotDigitPart(x[1..], j - p - 2);
      }
    }
  }

  lemma TwoPointsInMantissa(m: string, i: nat, j: nat)
    requires i < j < |m| && m[i] == '.' && m[j] == '.'
    ensures ParseMantissa(m).None?
  {
    var q := IndexOfChar(m, '.');
    assert q <= i;
    var fp := m[q + 1..];
    NotDigitPart(fp, j - q - 1);
  }

  /** Whitespace never parses. */
  lemma BlankRejected(s: string)
    requires AllSpace(s)
    ensures ParseFloat(s).None?
  {
    StripEmptyIffAllSpace(s);
  }

  // ---------------------------------------------------------------------
  // Properties of the tolerant coercion

  lemma {:induction false} CleanNumeralConcat(a: string, b: string)
    ensures CleanNumeral(a + b) == CleanNumeral(a) + CleanNumeral(b)
  {
    assert ReplaceChar(a + b, ',', '.') == ReplaceChar(a, ',', '.') + ReplaceChar(b, ',', '.');
    RemoveCharConcat(ReplaceChar(a, ',', '.'), ReplaceChar(b, ',', '.'), ' ');
  }

  lemma CleanDropsSpace(a: string, b: string)
    ensures CleanNumeral(a + " " + b) == CleanNumeral(a + b)
  {
    CleanNumeralConcat(a + " ", b);
    CleanNumeralConcat(a, " ");
    CleanNumeralConcat(a, b);
    assert CleanNumeral(" ") == [];
  }

  lemma CleanCommaPoint(a: string, b: string)
    ensures CleanNumeral(a + "," + b) == CleanNumeral(a + "." + b)
  {
    CleanNumeralConcat(a + ",", b);
    CleanNumeralConcat(a, ",");
    CleanNumeralConcat(a + ".", b);
    CleanNumeralConcat(a, ".");
    assert CleanNumeral(",") == ".";
    assert CleanNumeral(".") == ".";
  }

  /** Texts that clean to the same numeral coerce alike. */
  lemma CoerceClean(x: string, y: string)
    requires CleanNumeral(x) == CleanNumeral(y)
    ensures CoerceNumber(x) == CoerceNumber(y)
  {
  }

  /** A space anywhere in the text is ignored. */
  lemma SpaceIgnored(a: string, b: string)
    ensures CoerceNumber(a + " " + b) == CoerceNumber(a + b)
  {
    CleanDropsSpace(a, b);
    CoerceClean(a + " " + b, a + b);
  }

  /** A comma reads as a decimal point. */
  lemma CommaIsPoint(a: string, b: string)
    ensures CoerceNumber(a + "," + b) == CoerceNumber(a + "." + b)
  {
    CleanCommaPoint(a, b);
    CoerceClean(a + "," + b, a + "." + b);
  }

  /** A text with two separators among ',' and '.' is rejected: thousands
      separators of either convention are not understood. */
  lemma TwoSeparatorsRejected(s: string, i: nat, j: nat)
    requires i < j < |s| && s[i] in ",." && s[j] in ",."
    ensures CoerceNumber(s).None?
  {
    var p, m, q := s[..i], s[i + 1..j], s[j + 1..];
    assert s == p + [s[i]] + m + [s[j]] + q;
    CleanSeparators(p, s[i], m, s[j], q);
    var c := CleanNumeral(p) + "." + CleanNumeral(m) + "." + CleanNumeral(q);
    assert c[|CleanNumeral(p)|] == '.';
    assert c[|CleanNumeral(p)| + 1 + |CleanNumeral(m)|] == '.';
    TwoPointsRejected(c, |CleanNumeral(p)|, |CleanNumeral(p)| + 1 + |CleanNumeral(m)|);
  }

  /** Both separators of p x m y q survive cleaning, as points. */
  lemma CleanSeparators(p: string, x: char, m: string, y: char, q: string)
    requires x in ",." && y in ",."
    ensures CleanNumeral(p + [x] + m + [y] + q)
         == CleanNumeral(p) + "." + CleanNumeral(m) + "." + CleanNumeral(q)
  {
    CleanNumeralConcat(p + [x] + m + [y], q);
    CleanNumeralConcat(p + [x] + m, [y]);
    CleanNumeralConcat(p + [x], m);
    CleanNumeralConcat(p, [x]);
    assert CleanNumeral([x]) == ".";
    assert CleanNumeral([y]) == ".";
  }

  /** A text with no comma and no space is handed to float() unchanged. */
  lemma CleanPlain(s: string)
    requires forall i :: 0 <= i < |s| ==> s[i] != ',' && s[i] != ' '
    ensures CleanNumeral(s) == s
  {
    assert ReplaceChar(s, ',', '.') == s;
    RemoveCharAbsent(s, ' ');
  }

  lemma {:induction false} RemoveCharAbsent(s: string, c: char)
    requires forall i :: 0 <= i < |s| ==> s[i] != c
    ensures RemoveChar(s, c) == s
    decreases |s|
  {
    if s != [] {
      assert forall i :: 0 <= i < |s| - 1 ==> s[1..][i] == s[i + 1];
      RemoveCharAbsent(s[1..], c);
    }
  }

  lemma SevenThousandDigits()
    ensures DigitsValue("7387") == 7387 && DigitsValue("50") == 50
  {
    assert "7387"[..3] == "738" && "738"[..2] == "73" && "73"[..1] == "7";
    assert "50"[..1] == "5";
  }

  lemma SpacedCommaCleaned(s: string)
    requires s == "7 387,50"
    ensures CleanNumeral(s) == "7387.50"
  {
    assert s == "7" + " " + "387,50";
    CleanDropsSpace("7", "387,50");
    assert "7" + "387,50" == "7387" + "," + "50";
    CleanCommaPoint("7387", "50");
    assert "7387" + "." + "50" == "7387.50";
    NoCommaNorSpace("7387.50");
    CleanPlain("7387.50");
  }

  lemma NoCommaNorSpace(s: string)
    requires s == "7387.50"
    ensures forall i :: 0 <= i < |s| ==> s[i] != ',' && s[i] != ' '
  {
  }

  lemma PlainDecimalParsed(s: string)
    requires s == "7387.50"
    ensures ParseFloat(s) == Some(7387.5)
  {
    assert s == "7387" + "." + "50";
    DecimalExample("7387", "50");
  }

  lemma DecimalExample(a: string, b: string)
    requires a == "7387" && b == "50"
    ensures ParseFloat(a + "." + b) == Some(7387.5)
  {
    ParseDecimal(a, b);
    SevenThousandDigits();
    HalfShifted();
  }

  lemma HalfShifted()
    ensures ShiftDown(50.0, 2) == 0.5
  {
  }

  lemma PlainDecimalExample(s: string)
    requires s == "7387.50"
    ensures CoerceNumber(s) == Some(7387.5)
  {
    CleanPlain(s);
    PlainDecimalParsed(s);
  }

  /** "7 387,50" is read as 7387.5. */
  lemma CoerceSpacedCommaExample(s: string)
    requires s == "7 387,50"
    ensures CoerceNumber(s) == Some(7387.5)
  {
    SpacedCommaCleaned(s);
    PlainDecimalParsed(CleanNumeral(s));
  }

  /** "1,234.56" is rejected: both separators become points. */
  lemma CoerceThousandsExample(s: string)
    requires s == "1,234.56"
    ensures CoerceNumber(s).None?
  {
    TwoSeparatorsRejected(s, 1, 5);
  }

  // ---------------------------------------------------------------------
  // Rounding

  /** x is a whole number of cents. */
  predicate IsCents(x: real) {
    (x * 100.0).Floor as real == x * 100.0
  }

  /** round(x, 2), ties rounded up: the multiple of 0.01 in (x - 0.005, x + 0.005]. */
  function Round2(x: real): (r: real)
    ensures IsCents(r)
    ensures x - 0.005 < r <= x + 0.005
  {
    var n := (x * 100.0 + 0.5).Floor;
    assert (n as real / 100.0) * 100.0 == n as real;
    n as real / 100.0
  }

  /** Only one whole number of cents lies in a window (x - 0.005, x + 0.005]. */
  lemma Round2Unique(x: real, r: real)
    requires IsCents(r) && x - 0.005 < r <= x + 0.005
    ensures Round2(x) == r
  {
    var a := (Round2(x) * 100.0).Floor;
    var b := (r * 100.0).Floor;
    assert a as real - b as real < 1.0 && b as real - a as real < 1.0;
    assert a == b;
  }

  /** A figure already in whole cents is not changed by rounding. */
  lemma Round2OfCents(x: real)
    requires IsCents(x)
    ensures Round2(x) == x
  {
    Round2Unique(x, x);
  }

}
