/** What validate_and_clean_data computes for each parsed entry, written as
    functions of the incoming entry: the required-field check, the value each
    cleaning step stores and the warnings each step emits.

    The two module-level tables the program reads are parameters: `rates`
    (EXCHANGE_RATES, which the sidebar can edit; DefaultRates is its initial
    value) and `codes` (TAX_CODES, which is TaxCodesTable). */
module Cleaning {
  import opened Wrappers
  import opened Text
  import opened Numbers
  import opened TaxCodes
  import opened Records

  // ---------------------------------------------------------------------
  // Required fields (lines 320-325)

  /** [field for field in fields if field not in entry] */
  function MissingFrom(fields: seq<Key>, e: Entry): seq<Key>
    decreases |fields|
  {
    if fields == [] then []
    else (if fields[0] in e then [] else [fields[0]]) + MissingFrom(fields[1..], e)
  }

  function Missing(e: Entry): seq<Key> {
    MissingFrom(RequiredFields, e)
  }

  /** all(field in entry for field in required_fields), field by field. */
  predicate HasRequired(e: Entry) {
    Description in e && Form in e && Code in e && SourceCurrency in e && AmountSource in e
  }

  /** entry.get('Description', 'Unknown'). No step writes the description,
      so every warning about an entry quotes the same value. */
  function DescriptionOf(e: Entry): Value {
    if Description in e then e[Description] else Str("Unknown")
  }

  // ---------------------------------------------------------------------
  // What each step of the cleaning computes (lines 328-386)

  /** Line 328: the form, stripped. */
  function FormOf(e: Entry): string
    requires Form in e && e[Form].Str?
  {
    Strip(e[Form].s)
  }

  /** Line 329: the code, normalised. */
  function CodeOf(e: Entry): string
    requires Code in e && e[Code].Str?
  {
    NormalizeCode(e[Code].s)
  }

  /** Line 332: the currency, upper-cased. */
  function CurrencyOf(e: Entry): string
    requires SourceCurrency in e && e[SourceCurrency].Str?
  {
    Upper(e[SourceCurrency].s)
  }

  /** Lines 337-343: a string amount becomes the number it denotes, 0 when it
      does not parse; any other value is kept. */
  function AmountValue(v: Value): Value {
    if v.Str? then
      match CoerceNumber(v.s)
      case Some(x) => Num(x)
      case None => Num(0.0)
    else v
  }

  function AmountWarnings(v: Value, desc: Value): seq<Warning> {
    if v.Str? && CoerceNumber(v.s).None? then [BadAmount(v.s, desc)] else []
  }

  /** Lines 346-348: a rate is used when the table has a truthy one. */
  predicate Converts(currency: string, rates: Rates) {
    currency != "EUR" && currency in rates && rates[currency] != 0.0
  }

  /** Line 349: round(amount * rate, 2). */
  function ToEuros(amount: real, rate: real): real {
    Round2(amount * rate)
  }

  /** Lines 346-354: the euro amount. */
  function EurValue(currency: string, amount: Value, rates: Rates): Value
    requires Converts(currency, rates) ==> IsNumeric(amount)
  {
    if Converts(currency, rates) then Num(ToEuros(NumericValue(amount), rates[currency]))
    else amount
  }

  function CurrencyWarnings(currency: string, rates: Rates, desc: Value): seq<Warning> {
    if currency != "EUR" && !Converts(currency, rates) then [UnknownCurrency(currency, desc)] else []
  }

  /** Lines 358-365 for one taxable field. */
  function TaxableValue(e: Entry, field: Key): Value {
    if field !in e || e[field] == Str("") then Str("")
    else if e[field].Str? then
      match CoerceNumber(e[field].s)
      case Some(x) => Num(x)
      case None => Str("")
    else e[field]
  }

  function TaxableWarnings(e: Entry, field: Key, desc: Value): seq<Warning> {
    if field in e && e[field].Str? && e[field] != Str("") && CoerceNumber(e[field].s).None?
    then [BadTaxable(field, e[field].s, desc)]
    else []
  }

  /** A truthy coerced figure is a number, so float() accepts it. */
  lemma TaxableValueNumeric(e: Entry, field: Key)
    requires Truthy(TaxableValue(e, field))
    ensures IsNumeric(TaxableValue(e, field))
  {
  }

  /** Lines 368-377: the warning for a pair outside the table. */
  function ClassWarnings(codes: CodeTable, form: string, code: string, desc: Value): seq<Warning> {
    if KnownCode(codes, form, code) then []
    else if form in codes then [UnknownCode(code, form, desc)]
    else [UnknownForm(form, desc)]
  }

  /** Lines 380-381: the 5TE rule fires for this incoming entry. */
  predicate FiresAbatement(e: Entry)
    requires HasRequired(e) && e[Form].Str? && e[Code].Str?
  {
    FormOf(e) == "2042" && CodeOf(e) == "5TE" && Truthy(TaxableValue(e, TaxableFrance))
  }

  /** What the source needs of a complete entry so that no step raises:
      string form, code and currency (strip() and upper() are called on
      them), an amount that can be multiplied when a rate applies, and notes
      that can be appended to when the 5TE rule fires. */
  predicate Processable(e: Entry, rates: Rates) {
    HasRequired(e) ==>
      && e[Form].Str? && e[Code].Str? && e[SourceCurrency].Str?
      && (Converts(CurrencyOf(e), rates) ==> e[AmountSource] != Null)
      && (FiresAbatement(e) ==> Notes !in e || e[Notes].Str?)
  }

  /** Line 382: the France figure the abatement is computed from. */
  function FranceFigure(e: Entry): real
    requires HasRequired(e) && e[Form].Str? && e[Code].Str? && FiresAbatement(e)
  {
    TaxableValueNumeric(e, TaxableFrance);
    NumericValue(TaxableValue(e, TaxableFrance))
  }

  /** entry.get("Notes", ""). */
  function NotesOf(e: Entry): string
    requires Notes in e ==> e[Notes].Str?
  {
    if Notes in e then e[Notes].s else ""
  }

  // ---------------------------------------------------------------------
  // The cleaned entry and its warnings

  /** The entry once every check has run, before the 5TE rule. */
  function CheckedEntry(e: Entry, rates: Rates, codes: CodeTable): Entry
    requires HasRequired(e) && Processable(e, rates)
  {
    var form, code := FormOf(e), CodeOf(e);
    var amount := AmountValue(e[AmountSource]);
    e[Form := Str(form)][Code := Str(code)][AmountSource := amount]
     [AmountEur := EurValue(CurrencyOf(e), amount, rates)]
     [TaxableFrance := TaxableValue(e, TaxableFrance)]
     [TaxableSource := TaxableValue(e, TaxableSource)]
     [ValidCode := Bool(KnownCode(codes, form, code))]
     [CodeDescriptionField := Str(CodeDescription(codes, form, code))]
  }

  /** Lines 328-386: the cleaned entry. */
  function CleanedEntry(e: Entry, rates: Rates, codes: CodeTable): Entry
    requires HasRequired(e) && Processable(e, rates)
  {
    var c := CheckedEntry(e, rates, codes);
    if FiresAbatement(e) then
      var x := FranceFigure(e);
      c[AbatementAmount := Num(Round2(x * 0.71))]
       [AfterAbatement := Num(Round2(x * 0.29))]
       [Notes := Str(NotesOf(e) + AbatementNote)]
    else c
  }

  /** The warnings about one complete entry, in the order they are emitted. */
  function CleanWarnings(e: Entry, rates: Rates, codes: CodeTable): seq<Warning>
    requires HasRequired(e) && Processable(e, rates)
  {
    var desc := DescriptionOf(e);
    AmountWarnings(e[AmountSource], desc)
    + CurrencyWarnings(CurrencyOf(e), rates, desc)
    + TaxableWarnings(e, TaxableFrance, desc)
    + TaxableWarnings(e, TaxableSource, desc)
    + ClassWarnings(codes, FormOf(e), CodeOf(e), desc)
  }
  /** What a warning about a complete entry claims, and that it quotes the
      entry's description. */
  predicate Justified(e: Entry, rates: Rates, codes: CodeTable, w: Warning)
    requires HasRequired(e) && Processable(e, rates)
  {
    && w.description == DescriptionOf(e)
    && match w
       case MissingFields(_, _) => false
       case BadAmount(original, _) =>
         e[AmountSource] == Str(original) && CoerceNumber(original).None?
       case UnknownCurrency(currency, _) =>
         currency == CurrencyOf(e) && currency != "EUR" && !Converts(currency, rates)
       case BadTaxable(field, original, _) =>
         && field in TaxableFields && field in e && e[field] == Str(original)
         && original != "" && CoerceNumber(original).None?
       case UnknownCode(code, form, _) =>
         code == CodeOf(e) && form == FormOf(e) && form in codes && !KnownCode(codes, form, code)
       case UnknownForm(form, _) =>
         form == FormOf(e) && form !in codes
  }
  /** The fields cleaning may write. */
  const WrittenFields: set<Key> :=
    {Form, Code, AmountSource, AmountEur, TaxableFrance, TaxableSource, ValidCode,
     CodeDescriptionField, AbatementAmount, AfterAbatement, Notes}
  /** The field is absent, empty, not a string, or a string that parses. */
  predicate TaxableParses(e: Entry, f: Key) {
    f in e && e[f].Str? && e[f] != Str("") ==> CoerceNumber(e[f].s).Some?
  }

}
