/** Properties of the cleaning of one entry: what each field of the cleaned
    entry holds, what nothing else changes, and when each warning is emitted. */
module CleaningFacts {
  import opened Wrappers
  import opened Text
  import opened Numbers
  import opened TaxCodes
  import opened Records
  import opened Cleaning

  /** The missing list names exactly the listed fields the entry lacks. */
  lemma {:induction false} MissingFromMembers(fields: seq<Key>, e: Entry, x: Key)
    ensures x in MissingFrom(fields, e) <==> x in fields && x !in e
    decreases |fields|
  {
    if fields != [] {
      MissingFromMembers(fields[1..], e, x);
      assert x in fields <==> x == fields[0] || x in fields[1..];
    }
  }

  /** HasRequired is the all() over the required fields, and an entry is
      complete exactly when nothing is reported missing. */
  lemma MissingEmptyIff(e: Entry)
    ensures HasRequired(e) <==> forall f :: f in RequiredFields ==> f in e
    ensures Missing(e) == [] <==> HasRequired(e)
  {
    if !HasRequired(e) {
      var f :| f in RequiredFields && f !in e;
      MissingFromMembers(RequiredFields, e, f);
    }
    if Missing(e) != [] {
      MissingFromMembers(RequiredFields, e, Missing(e)[0]);
    }
  }

  // ---------------------------------------------------------------------
  // What cleaning one entry does

  /** The 5TE rule touches only its three fields. */
  lemma CleanedKeepsChecked(e: Entry, rates: Rates, codes: CodeTable, k: Key)
    requires HasRequired(e) && Processable(e, rates)
    requires k != AbatementAmount && k != AfterAbatement && k != Notes
    ensures k in CleanedEntry(e, rates, codes) <==> k in CheckedEntry(e, rates, codes)
    ensures k in CheckedEntry(e, rates, codes) ==>
              CleanedEntry(e, rates, codes)[k] == CheckedEntry(e, rates, codes)[k]
  {
    if FiresAbatement(e) {
      var x := FranceFigure(e);
      AbateKeeps(CheckedEntry(e, rates, codes), Num(Round2(x * 0.71)), Num(Round2(x * 0.29)),
                 Str(NotesOf(e) + AbatementNote), k);
    }
  }

  /** Writing the three abatement fields leaves every other key alone. */
  lemma AbateKeeps(c: Entry, a: Value, b: Value, n: Value, k: Key)
    requires k != AbatementAmount && k != AfterAbatement && k != Notes
    ensures k in c[AbatementAmount := a][AfterAbatement := b][Notes := n] <==> k in c
    ensures k in c ==> c[AbatementAmount := a][AfterAbatement := b][Notes := n][k] == c[k]
  {
  }

  /** Form and code come out normalised, and normalising them again would
      change nothing. */
  lemma CleanedFormAndCode(e: Entry, rates: Rates, codes: CodeTable)
    requires HasRequired(e) && Processable(e, rates)
    ensures var c := CleanedEntry(e, rates, codes);
            && Form in c && c[Form] == Str(Strip(e[Form].s))
            && Code in c && c[Code] == Str(NormalizeCode(e[Code].s))
            && Strip(c[Form].s) == c[Form].s && NormalizeCode(c[Code].s) == c[Code].s
  {
    CleanedKeepsChecked(e, rates, codes, Form);
    CleanedKeepsChecked(e, rates, codes, Code);
    StripIdempotent(e[Form].s);
    NormalizeIdempotent(e[Code].s);
  }

  /** A string amount is replaced by the number it denotes, or by 0 when it
      does not parse; any other amount is kept. */
  lemma CleanedAmount(e: Entry, rates: Rates, codes: CodeTable)
    requires HasRequired(e) && Processable(e, rates)
    ensures var c := CleanedEntry(e, rates, codes); var v := e[AmountSource];
            && AmountSource in c
            && (!v.Str? ==> c[AmountSource] == v)
            && (v.Str? && CoerceNumber(v.s).Some? ==> c[AmountSource] == Num(CoerceNumber(v.s).value))
            && (v.Str? && CoerceNumber(v.s).None? ==> c[AmountSource] == Num(0.0))
  {
    CleanedKeepsChecked(e, rates, codes, AmountSource);
  }

  /** The euro amount: the amount times the rate rounded to cents for a
      currency with a rate, and the amount itself, 1:1, for euros and for any
      other currency. */
  lemma CleanedEuro(e: Entry, rates: Rates, codes: CodeTable)
    requires HasRequired(e) && Processable(e, rates)
    ensures var c := CleanedEntry(e, rates, codes); var cur := CurrencyOf(e); var a := AmountValue(e[AmountSource]);
            && AmountEur in c
            && (Converts(cur, rates) ==>
                  IsNumeric(a) && c[AmountEur] == Num(ToEuros(NumericValue(a), rates[cur])))
            && (!Converts(cur, rates) ==> c[AmountEur] == a)
  {
    CleanedKeepsChecked(e, rates, codes, AmountEur);
  }

  /** A taxable figure ends up present and either a non-string or "": a
      parseable string becomes its number, an unparseable, missing or empty
      one becomes "", and a value that is not a string is kept. */
  lemma CleanedTaxable(e: Entry, rates: Rates, codes: CodeTable, f: Key)
    requires HasRequired(e) && Processable(e, rates)
    requires f == TaxableFrance || f == TaxableSource
    ensures var c := CleanedEntry(e, rates, codes);
            && f in c
            && (c[f].Str? ==> c[f] == Str(""))
            && (f !in e || e[f] == Str("") ==> c[f] == Str(""))
            && (f in e && !e[f].Str? ==> c[f] == e[f])
            && (f in e && e[f].Str? && e[f] != Str("") && CoerceNumber(e[f].s).Some? ==>
                  c[f] == Num(CoerceNumber(e[f].s).value))
            && (f in e && e[f].Str? && e[f] != Str("") && CoerceNumber(e[f].s).None? ==>
                  c[f] == Str(""))
  {
    CleanedKeepsChecked(e, rates, codes, f);
  }

  /** The validity flag is true exactly for a pair of the reference table,
      whose description is copied. */
  lemma CleanedClassification(e: Entry, rates: Rates, codes: CodeTable)
    requires HasRequired(e) && Processable(e, rates)
    ensures var c := CleanedEntry(e, rates, codes); var form, code := FormOf(e), CodeOf(e);
            && ValidCode in c && CodeDescriptionField in c
            && c[ValidCode] == Bool(KnownCode(codes, form, code))
            && (KnownCode(codes, form, code) ==> c[CodeDescriptionField] == Str(codes[form][code]))
            && (!KnownCode(codes, form, code) ==> c[CodeDescriptionField] == Str(""))
  {
    CleanedKeepsChecked(e, rates, codes, ValidCode);
    CleanedKeepsChecked(e, rates, codes, CodeDescriptionField);
  }

  /** A 2042/5TE entry with a truthy France figure gets the 71% abatement
      and the 29% remainder, both rounded to cents, and the Micro-BIC note
      after its notes. */
  lemma CleanedAbatement(e: Entry, rates: Rates, codes: CodeTable)
    requires HasRequired(e) && Processable(e, rates) && FiresAbatement(e)
    ensures var c := CleanedEntry(e, rates, codes); var x := FranceFigure(e);
            && AbatementAmount in c && c[AbatementAmount] == Num(Round2(x * 0.71))
            && AfterAbatement in c && c[AfterAbatement] == Num(Round2(x * 0.29))
            && Notes in c && c[Notes] == Str(NotesOf(e) + AbatementNote)
  {
  }

  /** Every other entry keeps those three fields as they were. */
  lemma NoAbatement(e: Entry, rates: Rates, codes: CodeTable)
    requires HasRequired(e) && Processable(e, rates) && !FiresAbatement(e)
    ensures var c := CleanedEntry(e, rates, codes);
            && (AbatementAmount in c <==> AbatementAmount in e)
            && (AbatementAmount in e ==> c[AbatementAmount] == e[AbatementAmount])
            && (AfterAbatement in c <==> AfterAbatement in e)
            && (AfterAbatement in e ==> c[AfterAbatement] == e[AfterAbatement])
            && (Notes in c <==> Notes in e)
            && (Notes in e ==> c[Notes] == e[Notes])
  {
  }

  // ---------------------------------------------------------------------
  // The warnings about one entry

  /** Each check reports a problem it finds. */
  lemma WarningsComplete(e: Entry, rates: Rates, codes: CodeTable)
    requires HasRequired(e) && Processable(e, rates)
    ensures var ws := CleanWarnings(e, rates, codes); var desc := DescriptionOf(e);
            var v, cur, form, code := e[AmountSource], CurrencyOf(e), FormOf(e), CodeOf(e);
            && (v.Str? && CoerceNumber(v.s).None? ==> BadAmount(v.s, desc) in ws)
            && (cur != "EUR" && !Converts(cur, rates) ==> UnknownCurrency(cur, desc) in ws)
            && (forall f :: f in TaxableFields && f in e && e[f].Str? && e[f] != Str("") && CoerceNumber(e[f].s).None?
                  ==> BadTaxable(f, e[f].s, desc) in ws)
            && (form in codes && !KnownCode(codes, form, code) ==> UnknownCode(code, form, desc) in ws)
            && (form !in codes ==> UnknownForm(form, desc) in ws)
  {
  }
  lemma AmountWarningsJustified(e: Entry, rates: Rates, codes: CodeTable)
    requires HasRequired(e) && Processable(e, rates)
    ensures var ws := AmountWarnings(e[AmountSource], DescriptionOf(e));
            |ws| <= 1 && forall w :: w in ws ==> Justified(e, rates, codes, w)
  {
  }

  lemma CurrencyWarningsJustified(e: Entry, rates: Rates, codes: CodeTable)
    requires HasRequired(e) && Processable(e, rates)
    ensures var ws := CurrencyWarnings(CurrencyOf(e), rates, DescriptionOf(e));
            |ws| <= 1 && forall w :: w in ws ==> Justified(e, rates, codes, w)
  {
  }

  lemma TaxableWarningsJustified(e: Entry, rates: Rates, codes: CodeTable, f: Key)
    requires HasRequired(e) && Processable(e, rates) && f in TaxableFields
    ensures var ws := TaxableWarnings(e, f, DescriptionOf(e));
            |ws| <= 1 && forall w :: w in ws ==> Justified(e, rates, codes, w)
  {
  }

  lemma ClassWarningsJustified(e: Entry, rates: Rates, codes: CodeTable)
    requires HasRequired(e) && Processable(e, rates)
    ensures var ws := ClassWarnings(codes, FormOf(e), CodeOf(e), DescriptionOf(e));
            |ws| <= 1 && forall w :: w in ws ==> Justified(e, rates, codes, w)
  {
  }

  /** Every warning reports a problem the entry has: at most one per check,
      none about missing fields. */
  lemma WarningsSound(e: Entry, rates: Rates, codes: CodeTable)
    requires HasRequired(e) && Processable(e, rates)
    ensures var ws := CleanWarnings(e, rates, codes);
            |ws| <= 5 && forall w :: w in ws ==> Justified(e, rates, codes, w)
  {
    AmountWarningsJustified(e, rates, codes);
    CurrencyWarningsJustified(e, rates, codes);
    TaxableWarningsJustified(e, rates, codes, TaxableFrance);
    TaxableWarningsJustified(e, rates, codes, TaxableSource);
    ClassWarningsJustified(e, rates, codes);
  }
  /** Nothing else changes: every other field is kept as it was, and the
      fields added are the euro amount, the two taxable figures, the
      classification and, when the 5TE rule fires, the abatement fields. */
  lemma CleanedFrame(e: Entry, rates: Rates, codes: CodeTable)
    requires HasRequired(e) && Processable(e, rates)
    ensures var c := CleanedEntry(e, rates, codes);
            && (forall k :: k in e && k !in WrittenFields ==> k in c && c[k] == e[k])
            && c.Keys == e.Keys + {AmountEur, TaxableFrance, TaxableSource, ValidCode, CodeDescriptionField}
                         + (if FiresAbatement(e) then {AbatementAmount, AfterAbatement, Notes} else {})
  {
  }
  /** An entry is cleaned silently exactly when its amount parses (or is no
      string), its currency is euro or has a rate, its taxable strings parse
      and its pair is in the table. */
  lemma NoWarningsIff(e: Entry, rates: Rates, codes: CodeTable)
    requires HasRequired(e) && Processable(e, rates)
    ensures CleanWarnings(e, rates, codes) == [] <==>
            && (e[AmountSource].Str? ==> CoerceNumber(e[AmountSource].s).Some?)
            && (CurrencyOf(e) == "EUR" || Converts(CurrencyOf(e), rates))
            && TaxableParses(e, TaxableFrance) && TaxableParses(e, TaxableSource)
            && KnownCode(codes, FormOf(e), CodeOf(e))
  {
  }


  // ---------------------------------------------------------------------
  // The figures of the 5TE rule and of the conversion

  /** The 71% abatement and the 29% remainder of a figure in whole cents,
      each rounded to cents, add up to the figure, or to one cent more when
      both products end in exactly half a cent. */
  lemma AbatementSplit(x: real)
    requires IsCents(x)
    ensures var a, b := Round2(x * 0.71), Round2(x * 0.29);
            a + b == x || a + b == x + 0.01
  {
    var a, b := Round2(x * 0.71), Round2(x * 0.29);
    var na, nb, nx := (a * 100.0).Floor, (b * 100.0).Floor, (x * 100.0).Floor;
    var d := na + nb - nx;
    assert d as real == (a + b - x) * 100.0;
    assert d == 0 || d == 1;
  }

  /** The same on a cleaned entry: the two abatement fields share out its
      France figure. */
  lemma CleanedAbatementSplit(e: Entry, rates: Rates, codes: CodeTable)
    requires HasRequired(e) && Processable(e, rates) && FiresAbatement(e) && IsCents(FranceFigure(e))
    ensures var c := CleanedEntry(e, rates, codes); var x := FranceFigure(e);
            && AbatementAmount in c && c[AbatementAmount].Num?
            && AfterAbatement in c && c[AfterAbatement].Num?
            && (c[AbatementAmount].n + c[AfterAbatement].n == x || c[AbatementAmount].n + c[AfterAbatement].n == x + 0.01)
  {
    CleanedAbatement(e, rates, codes);
    AbatementSplit(FranceFigure(e));
  }

  /** 7387 EUR of Micro-BIC income: 5244.77 abated, 2142.23 taxable. */
  lemma MicroBicFigures()
    ensures Round2(7387.0 * 0.71) == 5244.77 && Round2(7387.0 * 0.29) == 2142.23
  {
    Round2OfCents(5244.77);
    Round2OfCents(2142.23);
  }

  /** 9351 GBP at the default rate of 1.1812 is 11045.40 EUR. */
  lemma GbpConversion()
    ensures Converts("GBP", DefaultRates)
    ensures ToEuros(9351.0, DefaultRates["GBP"]) == 11045.40
  {
    Round2Unique(9351.0 * 1.1812, 11045.40);
  }

}
