/** validate_and_clean_data as the program runs it: a loop over the parsed
    entries that drops the incomplete ones with a warning and cleans every
    complete one in place, step by step as lines 328-386 do. */
module Validation {
  import opened Wrappers
  import opened Text
  import opened Numbers
  import opened TaxCodes
  import opened Records
  import opened Cleaning
  import opened Outcomes

  // ---------------------------------------------------------------------
  // Cleaning one entry, step by step (lines 328-386)
  /** Storing a field's own value changes nothing. */
  lemma StoreSame(m: Entry, k: Key)
    requires k in m
    ensures m[k := m[k]] == m
  {
  }

  /** One pass of the loop of lines 357-365: the field is coerced in place
      while it still holds its incoming value. */
  method CoerceTaxable(e: Entry, m: Entry, field: Key, desc: Value)
    returns (entry: Entry, warnings: seq<Warning>)
    requires (field in m <==> field in e) && (field in e ==> m[field] == e[field])
    ensures entry == m[field := TaxableValue(e, field)]
    ensures warnings == TaxableWarnings(e, field, desc)
  {
    entry, warnings := m, [];
    if field !in entry || entry[field] == Str("") {
      entry := entry[field := Str("")];
    } else if entry[field].Str? {
      match CoerceNumber(entry[field].s)
      case Some(x) =>
        entry := entry[field := Num(x)];
      case None =>
        warnings := warnings + [BadTaxable(field, entry[field].s, desc)];
        entry := entry[field := Str("")];
    } else {
      StoreSame(entry, field);
    }
  }

  /** The loop of lines 357-365 on the entry as it stands after the currency
      step, which has not touched the taxable fields. */
  method CoerceTaxableFields(e: Entry, m: Entry, desc: Value) returns (entry: Entry, warnings: seq<Warning>)
    requires (TaxableFrance in m <==> TaxableFrance in e) && (TaxableFrance in e ==> m[TaxableFrance] == e[TaxableFrance])
    requires (TaxableSource in m <==> TaxableSource in e) && (TaxableSource in e ==> m[TaxableSource] == e[TaxableSource])
    ensures entry == m[TaxableFrance := TaxableValue(e, TaxableFrance)][TaxableSource := TaxableValue(e, TaxableSource)]
    ensures warnings == TaxableWarnings(e, TaxableFrance, desc) + TaxableWarnings(e, TaxableSource, desc)
  {
    entry, warnings := m, [];
    for k := 0 to |TaxableFields|
      // The state after each pass: the France figure first, then the
      // source-country one.
      invariant k == 0 ==> entry == m && warnings == []
      invariant k == 1 ==>
                  && entry == m[TaxableFrance := TaxableValue(e, TaxableFrance)]
                  && warnings == TaxableWarnings(e, TaxableFrance, desc)
      invariant k == 2 ==>
                  && entry == m[TaxableFrance := TaxableValue(e, TaxableFrance)][TaxableSource := TaxableValue(e, TaxableSource)]
                  && warnings == TaxableWarnings(e, TaxableFrance, desc) + TaxableWarnings(e, TaxableSource, desc)
    {
      var w;
      entry, w := CoerceTaxable(e, entry, TaxableFields[k], desc);
      warnings := warnings + w;
    }
  }

  /** Lines 337-343: a string amount is parsed, 0 with a warning when it
      does not parse. */
  method CoerceAmount(v: Value, desc: Value) returns (amount: Value, warnings: seq<Warning>)
    ensures amount == AmountValue(v) && warnings == AmountWarnings(v, desc)
  {
    amount, warnings := v, [];
    if amount.Str? {
      match CoerceNumber(amount.s)
      case Some(x) =>
        amount := Num(x);
      case None =>
        warnings := warnings + [BadAmount(amount.s, desc)];
        amount := Num(0.0);
    }
  }

  /** Lines 346-354: the euro amount, 1:1 with a warning for a currency
      without a rate. */
  method ConvertToEuros(currency: string, amount: Value, rates: Rates, desc: Value)
    returns (eur: Value, warnings: seq<Warning>)
    requires Converts(currency, rates) ==> IsNumeric(amount)
    ensures eur == EurValue(currency, amount, rates)
    ensures warnings == CurrencyWarnings(currency, rates, desc)
  {
    warnings := [];
    if currency != "EUR" {
      if currency in rates && rates[currency] != 0.0 {
        eur := Num(ToEuros(NumericValue(amount), rates[currency]));
      } else {
        warnings := warnings + [UnknownCurrency(currency, desc)];
        eur := amount;
      }
    } else {
      eur := amount;
    }
  }

  /** Lines 368-377: the validity flag, the description and the warning for
      a pair outside the table. */
  method Classify(codes: CodeTable, form: string, code: string, desc: Value)
    returns (valid: bool, description: string, warnings: seq<Warning>)
    ensures valid == KnownCode(codes, form, code)
    ensures description == CodeDescription(codes, form, code)
    ensures warnings == ClassWarnings(codes, form, code, desc)
  {
    warnings := [];
    if form in codes && code in codes[form] {
      valid := true;
      description := codes[form][code];
    } else {
      valid := false;
      if form in codes {
        warnings := warnings + [UnknownCode(code, form, desc)];
      } else {
        warnings := warnings + [UnknownForm(form, desc)];
      }
      description := "";
    }
  }

  /** Lines 380-385 on the checked entry: a 2042/5TE entry with a truthy
      France figure gets the abatement fields and the note. */
  method ApplyAbatement(e: Entry, rates: Rates, codes: CodeTable, c: Entry) returns (entry: Entry)
    requires HasRequired(e) && Processable(e, rates) && c == CheckedEntry(e, rates, codes)
    ensures entry == CleanedEntry(e, rates, codes)
  {
    CheckedReads(e, rates, codes);
    entry := c;
    if entry[Form].s == "2042" && entry[Code].s == "5TE" {
      if TaxableFrance in entry && Truthy(entry[TaxableFrance]) {
        TaxableValueNumeric(e, TaxableFrance);
        var raw := NumericValue(entry[TaxableFrance]);
        entry := entry[AbatementAmount := Num(Round2(raw * 0.71))];
        entry := entry[AfterAbatement := Num(Round2(raw * 0.29))];
        var notes := if Notes in entry then entry[Notes].s else "";
        entry := entry[Notes := Str(notes + AbatementNote)];
      }
    }
  }

  /** Lines 328-354 on a working copy of one complete entry: form and code
      normalised, the amount coerced and converted to euros. */
  method CheckAmount(e: Entry, rates: Rates, desc: Value) returns (entry: Entry, warnings: seq<Warning>)
    requires HasRequired(e) && Processable(e, rates)
    ensures entry == e[Form := Str(FormOf(e))][Code := Str(CodeOf(e))]
                      [AmountSource := AmountValue(e[AmountSource])]
                      [AmountEur := EurValue(CurrencyOf(e), AmountValue(e[AmountSource]), rates)]
    ensures warnings == AmountWarnings(e[AmountSource], desc) + CurrencyWarnings(CurrencyOf(e), rates, desc)
  {
    entry := e;
    var form := Strip(entry[Form].s);
    entry := entry[Form := Str(form)];
    var code := NormalizeCode(entry[Code].s);
    entry := entry[Code := Str(code)];

    var currency := Upper(entry[SourceCurrency].s);
    var amount, w1 := CoerceAmount(entry[AmountSource], desc);
    entry := entry[AmountSource := amount];
    var eur, w2 := ConvertToEuros(currency, amount, rates, desc);
    entry := entry[AmountEur := eur];
    warnings := w1 + w2;
  }

  /** Lines 328-377 on a working copy of one complete entry: every check
      but the 5TE rule, with the warnings CleanWarnings lists, in order. */
  method CheckEntry(e: Entry, rates: Rates, codes: CodeTable) returns (entry: Entry, warnings: seq<Warning>)
    requires HasRequired(e) && Processable(e, rates)
    ensures entry == CheckedEntry(e, rates, codes)
    ensures warnings == CleanWarnings(e, rates, codes)
  {
    // No step writes the description, so every message quotes this value.
    var desc := DescriptionOf(e);
    var w12, w3;
    entry, w12 := CheckAmount(e, rates, desc);
    entry, w3 := CoerceTaxableFields(e, entry, desc);
    var form, code := FormOf(e), CodeOf(e);
    var valid, description, w4 := Classify(codes, form, code, desc);
    entry := entry[ValidCode := Bool(valid)];
    entry := entry[CodeDescriptionField := Str(description)];

    CheckedEntryFrom(e, rates, codes, form, code, AmountValue(e[AmountSource]),
                     EurValue(CurrencyOf(e), AmountValue(e[AmountSource]), rates), valid, description);
    AppendAssoc(w12, TaxableWarnings(e, TaxableFrance, desc), TaxableWarnings(e, TaxableSource, desc));
    warnings := w12 + w3 + w4;
  }

  /** The fields of the checked entry the 5TE rule reads. */
  lemma CheckedReads(e: Entry, rates: Rates, codes: CodeTable)
    requires HasRequired(e) && Processable(e, rates)
    ensures var c := CheckedEntry(e, rates, codes);
            && Form in c && c[Form] == Str(FormOf(e)) && Code in c && c[Code] == Str(CodeOf(e))
            && TaxableFrance in c && c[TaxableFrance] == TaxableValue(e, TaxableFrance)
            && (Notes in c <==> Notes in e) && (Notes in e ==> c[Notes] == e[Notes])
  {
  }

  /** One complete entry cleaned as the loop body does it: the result is the
      cleaned entry and the warnings are the ones CleanWarnings lists. */
  method CleanEntry(e: Entry, rates: Rates, codes: CodeTable) returns (entry: Entry, warnings: seq<Warning>)
    requires HasRequired(e) && Processable(e, rates)
    ensures entry == CleanedEntry(e, rates, codes)
    ensures warnings == CleanWarnings(e, rates, codes)
  {
    entry, warnings := CheckEntry(e, rates, codes);
    entry := ApplyAbatement(e, rates, codes, entry);
  }

  // ---------------------------------------------------------------------
  // The loop over the parsed entries (lines 310-391)

  /** validate_and_clean_data(parsed_data): nothing parsed, or an empty
      list, gives two empty lists; otherwise the entries are checked one by
      one, the incomplete ones reported and skipped, the complete ones
      cleaned and kept. A result of None is the exception that a complete
      entry the steps cannot handle raises out of the loop. */
  method ValidateAndClean(parsed: Option<seq<Entry>>, rates: Rates, codes: CodeTable)
    returns (result: Option<Outcome>)
    ensures parsed.None? ==> result == Some(Outcome([], []))
    ensures parsed.Some? ==> result == Validated(parsed.value, rates, codes)
  {
    if parsed.None? || parsed.value == [] {
      return Some(Outcome([], []));
    }
    var es := parsed.value;
    var valid, warnings := [], [];
    var i := 0;
    while i < |es|
      invariant 0 <= i <= |es|
      invariant Validated(es[..i], rates, codes) == Some(Outcome(valid, warnings))
    {
      var next := ValidateEntry(Outcome(valid, warnings), es[i], rates, codes);
      ValidatedNext(es, i, Outcome(valid, warnings), rates, codes);
      if next.None? {
        // The exception ends the loop: no result for the whole list.
        ValidatedPrefixNone(es, i + 1, rates, codes);
        return None;
      }
      valid, warnings := next.value.valid, next.value.warnings;
      i := i + 1;
    }
    assert es[..i] == es;
    return Some(Outcome(valid, warnings));
  }

  /** One pass of the loop of lines 318-389 on the lists built so far. */
  method ValidateEntry(o: Outcome, entry: Entry, rates: Rates, codes: CodeTable) returns (next: Option<Outcome>)
    ensures next == Step(o, entry, rates, codes)
  {
    if !HasRequired(entry) {
      StepSkips(o, entry, rates, codes);
      var missing := MissingFrom(RequiredFields, entry);
      return Some(Outcome(o.valid, o.warnings + [MissingFields(DescriptionOf(entry), missing)]));
    }
    if !Processable(entry, rates) {
      StepSucceeds(o, entry, rates, codes);
      return None;
    }
    StepKeeps(o, entry, rates, codes);
    var cleaned, w := CleanEntry(entry, rates, codes);
    return Some(Outcome(o.valid + [cleaned], o.warnings + w));
  }

  /** The store chain CleanEntry builds is the checked entry once each
      value it stores is the one the specification names. */
  lemma CheckedEntryFrom(e: Entry, rates: Rates, codes: CodeTable, form: string, code: string,
                         amount: Value, eur: Value, valid: bool, description: string)
    requires HasRequired(e) && Processable(e, rates)
    requires form == FormOf(e) && code == CodeOf(e) && amount == AmountValue(e[AmountSource])
    requires eur == EurValue(CurrencyOf(e), amount, rates)
    requires valid == KnownCode(codes, form, code) && description == CodeDescription(codes, form, code)
    ensures e[Form := Str(form)][Code := Str(code)][AmountSource := amount][AmountEur := eur]
             [TaxableFrance := TaxableValue(e, TaxableFrance)][TaxableSource := TaxableValue(e, TaxableSource)]
             [ValidCode := Bool(valid)][CodeDescriptionField := Str(description)]
          == CheckedEntry(e, rates, codes)
  {
  }

  lemma AppendAssoc<T>(a: seq<T>, b: seq<T>, c: seq<T>)
    ensures a + (b + c) == a + b + c
  {
  }

}
