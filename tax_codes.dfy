/** The tax-code normaliser and the reference table of French declaration
    forms and their box codes that the validator checks entries against. */
module TaxCodes {
  import opened Text

  /** A character of the class [0-9A-Z]. */
  predicate IsCodeChar(c: char) {
    ('0' <= c <= '9') || ('A' <= c <= 'Z')
  }

  predicate IsCodeString(s: string) {
    forall i :: 0 <= i < |s| ==> IsCodeChar(s[i])
  }

  /** re.sub(r"[^0-9A-Z]", "", s): every character outside [0-9A-Z] removed. */
  function KeepCodeChars(s: string): (r: string)
    ensures |r| <= |s|
    ensures IsCodeString(r)
    decreases |s|
  {
    if s == [] then []
    else (if IsCodeChar(s[0]) then [s[0]] else []) + KeepCodeChars(s[1..])
  }

  /** normalize_code(code): upper-case the code, then keep only [0-9A-Z]. */
  function NormalizeCode(code: string): (r: string)
    ensures |r| <= |code|
    ensures IsCodeString(r)
  {
    KeepCodeChars(Upper(code))
  }

  // ---------------------------------------------------------------------
  // Properties of the normaliser

  lemma {:induction false} KeepCodeCharsConcat(a: string, b: string)
    ensures KeepCodeChars(a + b) == KeepCodeChars(a) + KeepCodeChars(b)
    decreases |a|
  {
    if a == [] {
      assert a + b == b;
    } else {
      var h := if IsCodeChar(a[0]) then [a[0]] else [];
      assert (a + b)[0] == a[0];
      assert (a + b)[1..] == a[1..] + b;
      assert KeepCodeChars(a + b) == h + KeepCodeChars(a[1..] + b);
      assert KeepCodeChars(a) == h + KeepCodeChars(a[1..]);
      KeepCodeCharsConcat(a[1..], b);
    }
  }

  /** The filter leaves a string alone exactly when it is already made of
      code characters. */
  lemma {:induction false} KeepCodeCharsFixed(s: string)
    ensures KeepCodeChars(s) == s <==> IsCodeString(s)
    decreases |s|
  {
    if s != [] && IsCodeString(s) {
      assert IsCodeString(s[1..]) by {
        assert forall i :: 0 <= i < |s| - 1 ==> s[1..][i] == s[i + 1];
      }
      KeepCodeCharsFixed(s[1..]);
    }
  }

  lemma UpperOfCodeString(s: string)
    requires IsCodeString(s)
    ensures Upper(s) == s
  {
  }

  /** normalize_code is the identity on [0-9A-Z]* and on nothing else. */
  lemma NormalizeFixedPoints(s: string)
    ensures NormalizeCode(s) == s <==> IsCodeString(s)
  {
    if IsCodeString(s) {
      UpperOfCodeString(s);
      KeepCodeCharsFixed(s);
    }
  }

  /** Normalising twice is normalising once. */
  lemma NormalizeIdempotent(s: string)
    ensures NormalizeCode(NormalizeCode(s)) == NormalizeCode(s)
  {
    NormalizeFixedPoints(NormalizeCode(s));
  }

  lemma UpperConcat(a: string, b: string)
    ensures Upper(a + b) == Upper(a) + Upper(b)
  {
  }

  /** The normaliser works character by character. */
  lemma NormalizeConcat(a: string, b: string)
    ensures NormalizeCode(a + b) == NormalizeCode(a) + NormalizeCode(b)
  {
    UpperConcat(a, b);
    KeepCodeCharsConcat(Upper(a), Upper(b));
  }

  /** A character that is no code character once upper-cased (a space, a
      dot, a dash, ...) is dropped wherever it stands. */
  lemma NoiseDropped(a: string, c: char, b: string)
    requires !IsCodeChar(UpperChar(c))
    ensures NormalizeCode(a + [c] + b) == NormalizeCode(a + b)
  {
    NormalizeConcat(a + [c], b);
    NormalizeConcat(a, [c]);
    NormalizeConcat(a, b);
    assert Upper([c]) == [UpperChar(c)];
  }

  /** Letter case does not matter: a lower-cased code normalises alike. */
  lemma NormalizeIgnoresCase(s: string)
    ensures NormalizeCode(Lower(s)) == NormalizeCode(s)
  {
    assert Upper(Lower(s)) == Upper(s);
  }

  /** "1 aj!" normalises to "1AJ". */
  lemma NormalizeExample(s: string)
    requires s == "1 aj!"
    ensures NormalizeCode(s) == "1AJ"
  {
    var u := Upper(s);
    assert u == "1 AJ!" by {
      assert u[0] == '1' && u[1] == ' ' && u[2] == 'A' && u[3] == 'J' && u[4] == '!';
    }
    assert u[1..][1..] == "AJ!";
    assert KeepCodeChars(u) == "1" + KeepCodeChars(u[1..][1..]);
    assert KeepCodeChars("AJ!") == "AJ";
  }

  // ---------------------------------------------------------------------
  // The reference table

  /** For each declaration form, its known box codes and their descriptions. */
  type CodeTable = map<string, map<string, string>>

  /** TAX_CODES: the reference table the program ships with. */
  const TaxCodesTable: CodeTable := map[
    "2042" := map[
      "1AJ" := "Salaries - Declarant 1",
      "1BJ" := "Salaries - Declarant 2",
      "1AP" := "Pensions, Retirement - Declarant 1",
      "1BP" := "Pensions, Retirement - Declarant 2",
      "2TR" := "Interest income subject to flat tax (PFU)",
      "2TS" := "Interest from regulated savings accounts (Livret A, etc.)",
      "2BH" := "French bank interest - Declarant 1",
      "2CH" := "French bank interest - Declarant 2",
      "2DC" := "Dividends subject to progressive tax",
      "2EE" := "Capital gains on securities",
      "5HQ" := "Micro-entrepreneur/Auto-entrepreneur income",
      "5KO" := "Miscellaneous income - Declarant 1",
      "5LO" := "Miscellaneous income - Declarant 2",
      "5TE" := "Micro-BIC income (Chambre d'hôte/gites)",
      "7DB" := "Energy production credits (solar panels, etc.)",
      "7DQ" := "Energy equipment installations (tax credit)"
    ],
    "2044" := map[
      "4BA" := "Gross rental income",
      "4BB" := "Property tax paid",
      "4BC" := "Deductible interest on loans",
      "4BH" := "Property expenses",
      "4BK" := "Property management fees",
      "4BL" := "Insurance premiums"
    ],
    "2047" := map[
      "1AF" := "Foreign pensions - Declarant 1",
      "1BF" := "Foreign pensions - Declarant 2",
      "1AG" := "Government/Civil Service pensions - Declarant 1",
      "1BG" := "Government/Civil Service pensions - Declarant 2",
      "2AB" := "Foreign dividends",
      "2BG" := "Foreign interest income - Declarant 1",
      "2CG" := "Foreign interest income - Declarant 2",
      "3VG" := "Foreign capital gains",
      "3VH" := "Foreign capital gains exempt but used for rate calculation"
    ],
    "3916" := map[
      "8UU" := "Foreign bank account - Country code",
      "8TK" := "Foreign bank account - Account number",
      "8QS" := "Foreign bank account - Name of institution",
      "8RT" := "Foreign bank account - Full address",
      "8QU" := "Foreign bank account - Account type (current/savings)"
    ],
    "2086" := map[
      "AK" := "Professional expenses - Declarant 1",
      "BK" := "Professional expenses - Declarant 2",
      "WW" := "Home-to-work distance (km)"
    ]
  ]

  /** The (form, code) pair names a box of the table. */
  predicate KnownCode(codes: CodeTable, form: string, code: string) {
    form in codes && code in codes[form]
  }

  /** The table's description of a known box, "" for anything else. */
  function CodeDescription(codes: CodeTable, form: string, code: string): string {
    if KnownCode(codes, form, code) then codes[form][code] else ""
  }

  /** The Micro-BIC box that carries the abatement rule is in the table. */
  lemma MicroBicKnown()
    ensures KnownCode(TaxCodesTable, "2042", "5TE")
    ensures CodeDescription(TaxCodesTable, "2042", "5TE") == "Micro-BIC income (Chambre d'hôte/gites)"
  {
  }

}
