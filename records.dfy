/** The data the validator works on: JSON-like entries keyed by field name,
    the field names it reads and writes, the warnings it emits and the
    exchange-rate table. */
module Records {

  /** A JSON scalar as json.loads returns it. Integers and floats are both
      numbers. */
  datatype Value = Str(s: string) | Num(n: real) | Bool(b: bool) | Null

  /** A field name of an entry. The fields the program reads or writes are
      named constructors; any other key is kept by its text. */
  datatype Key =
    | Description | Form | Code | SourceCurrency | AmountSource | AmountEur
    | TaxableFrance | TaxableSource | ValidCode | CodeDescriptionField
    | AbatementAmount | AfterAbatement | Notes
    | Other(name: string)

  /** The key's text in the dict. */
  function KeyName(k: Key): string {
    match k
    case Description => "Description"
    case Form => "Form"
    case Code => "Code"
    case SourceCurrency => "Source Currency"
    case AmountSource => "Amount (Source)"
    case AmountEur => "Amount (€)"
    case TaxableFrance => "Taxable in France (€)"
    case TaxableSource => "Taxable in Source Country (€)"
    case ValidCode => "Valid Code"
    case CodeDescriptionField => "Code Description"
    case AbatementAmount => "Abatement Amount"
    case AfterAbatement => "Taxable in France (€) After Abatement"
    case Notes => "Notes"
    case Other(name) => name
  }

  /** The key a dict key's text stands for. */
  function KeyOf(name: string): (k: Key)
    ensures KeyName(k) == name
  {
    if name == "Description" then Description
    else if name == "Form" then Form
    else if name == "Code" then Code
    else if name == "Source Currency" then SourceCurrency
    else if name == "Amount (Source)" then AmountSource
    else if name == "Amount (€)" then AmountEur
    else if name == "Taxable in France (€)" then TaxableFrance
    else if name == "Taxable in Source Country (€)" then TaxableSource
    else if name == "Valid Code" then ValidCode
    else if name == "Code Description" then CodeDescriptionField
    else if name == "Abatement Amount" then AbatementAmount
    else if name == "Taxable in France (€) After Abatement" then AfterAbatement
    else if name == "Notes" then Notes
    else Other(name)
  }

  /** One extracted tax item: a dict from field names to values. */
  type Entry = map<Key, Value>

  /** Python truthiness of a value. */
  predicate Truthy(v: Value) {
    match v
    case Str(s) => s != []
    case Num(n) => n != 0.0
    case Bool(b) => b
    case Null => false
  }

  /** A value arithmetic accepts (bool is an int in Python). */
  predicate IsNumeric(v: Value) {
    v.Num? || v.Bool?
  }

  /** float(v) for a number or a bool. */
  function NumericValue(v: Value): real
    requires IsNumeric(v)
  {
    match v
    case Num(n) => n
    case Bool(b) => if b then 1.0 else 0.0
  }

  /** The fields every entry must carry, in the order they are reported. */
  const RequiredFields: seq<Key> := [Description, Form, Code, SourceCurrency, AmountSource]

  /** The two taxable figures, in the order they are coerced. */
  const TaxableFields: seq<Key> := [TaxableFrance, TaxableSource]

  /** The text appended to the notes of a Micro-BIC entry. */
  const AbatementNote := " Micro-BIC regime, 71% abatement applies."

  /** One warning message, by the site that emits it. The fields are what the
      message mentions. */
  datatype Warning =
    | MissingFields(description: Value, missing: seq<Key>)
    | BadAmount(original: string, description: Value)
    | UnknownCurrency(currency: string, description: Value)
    | BadTaxable(field: Key, original: string, description: Value)
    | UnknownCode(code: string, form: string, description: Value)
    | UnknownForm(form: string, description: Value)

  /** Exchange rates into euros, by upper-case currency code. */
  type Rates = map<string, real>

  /** EXCHANGE_RATES as the program starts with it. */
  const DefaultRates: Rates := map[
    "GBP" := 1.1812,
    "USD" := 0.9204,
    "CHF" := 1.0418,
    "CAD" := 0.6812,
    "EUR" := 1.0
  ]

}
