# French tax assistant: the data core, modelled and proved in Dafny

The application reads tax documents, asks a language model to extract every
income figure as a JSON array of entries (description, declaration form, box
code, currency, amount, taxable figures), then cleans those entries. The
program also defines an export of the results as JSON for Clickimpôts
(`create_json_output`, line 421) and a search for the bank accounts a
document lists (`extract_bank_accounts`, line 455), but nothing reaches
them: `main` calls only the parsing and the cleaning (lines 685 and 689).
This project models the deterministic core in `app1.py`, those two
functions included:

- `normalize_code`: box codes reduced to `[0-9A-Z]` (module `TaxCodes`,
  with the `TAX_CODES` reference table);
- `safe_parse_json`: the model's reply stripped, the array cut out of a
  ```` ```json ```` fence or found by the array pattern, and handed to
  `json.loads` (module `Parsing`);
- `validate_and_clean_data`: per entry, the required-field check, form and
  code normalisation, amount coercion, euro conversion, taxable-field
  coercion, form/code classification and the Micro-BIC 71% abatement of box
  5TE. The per-entry values and warnings are in `Cleaning`, with their
  properties in `CleaningFacts`. The fold over the list and what it yields
  are in `Outcomes`. `Validation` holds the imperative loop and its steps,
  each proved equal to those functions;
- `create_json_output`: the row loop that turns the results table into JSON
  items (module `JsonExport`);
- the table scan of `extract_bank_accounts` (module `BankAccounts`).

Supporting modules:

- `Text` holds Python's `strip`, `upper`/`lower`, `in`, `split` and
  `re.split(r'\s{2,}|\t')`;
- `Numbers` holds `float()` on strings and `round(x, 2)`;
- `Records` holds the JSON values, field names, warnings and exchange rates;
- `Wrappers` holds `Option`.

For the pension in the program's own prompt example (lines 198-210), 9351
GBP is shown with 11045.52 euros. With the default rate of 1.1812, line 349
computes `round(9351 * 1.1812, 2)` = 11045.40, and the model follows the
code (`CleaningFacts.GbpConversion`).

An exception the source would raise is modelled as `None`: in `json.loads`,
in a step of the validation loop, and in the JSON filter as written.

## Model

| member | source | states |
|---|---|---|
| TaxCodes.NormalizeCode | app1.py:280-282 | the normalised code holds only digits and upper-case letters and is no longer than the input |
| TaxCodes.NormalizeFixedPoints | app1.py:280-282 | a string is left unchanged exactly when it is already made of digits and upper-case letters |
| TaxCodes.NormalizeIdempotent | app1.py:280-282 | normalising twice gives the same as normalising once |
| TaxCodes.NormalizeConcat | app1.py:280-282 | normalisation works character by character, so it distributes over concatenation |
| TaxCodes.NoiseDropped | app1.py:282 | a character that is no digit or letter after upper-casing vanishes, wherever it stands |
| TaxCodes.NormalizeIgnoresCase | app1.py:282 | lower-casing the input first changes nothing |
| TaxCodes.NormalizeExample | app1.py:280-282 | "1 aj!" normalises to "1AJ" |
| TaxCodes.MicroBicKnown | app1.py:65 | 2042/5TE is a known code with the Micro-BIC description |
| Records.KeyOf | app1.py:320 | the key read from a dict key's text prints back as that text |
| Text.StripEmptyIffAllSpace | app1.py:288 | `s.strip()` is empty exactly when `s` is all whitespace |
| Text.StripIdempotent | app1.py:328 | stripping a stripped string changes nothing |
| Text.StripTrimmed | app1.py:290 | a string with no whitespace at either end is its own strip |
| Text.JoinSplit | app1.py:463 | splitting on newlines loses nothing: joining the lines gives the text back |
| Numbers.BlankRejected | app1.py:338-341 | float() rejects a blank string |
| Numbers.ParseWhole | app1.py:338 | float() of a run of digits is its value |
| Numbers.ParseDecimal | app1.py:338 | float() of digits, a point and digits is the decimal value |
| Numbers.TwoPointsRejected | app1.py:338-341 | float() rejects a string with two points |
| Numbers.SpaceIgnored | app1.py:338 | the coercion ignores a space anywhere in the string |
| Numbers.CommaIsPoint | app1.py:338 | the coercion reads a comma as a decimal point |
| Numbers.TwoSeparatorsRejected | app1.py:338-341 | a string holding two commas or points, in any mix, never coerces |
| Numbers.CoerceSpacedCommaExample | app1.py:338 | "7 387,50" coerces to 7387.5 |
| Numbers.CoerceThousandsExample | app1.py:338-341 | "1,234.56" fails to coerce |
| Numbers.Round2 | app1.py:349 | the rounded value is a whole number of cents within half a cent of the input |
| Numbers.Round2Unique | app1.py:349 | exactly one whole number of cents meets that bound, so the rounding is determined |
| Numbers.Round2OfCents | app1.py:349 | a whole number of cents rounds to itself |
| Cleaning.TaxableValueNumeric | app1.py:382-383 | a truthy taxable figure left by the coercion is a number, so `float()` on it succeeds |
| CleaningFacts.MissingFromMembers | app1.py:323 | a field is listed as missing exactly when it is required and absent |
| CleaningFacts.MissingEmptyIff | app1.py:322-323 | an entry is complete exactly when every required field is present, and then nothing is listed as missing |
| CleaningFacts.CleanedKeepsChecked | app1.py:380-386 | the 5TE step touches only the abatement, the amount after abatement and the notes |
| CleaningFacts.CleanedFormAndCode | app1.py:328-329 | the form comes out stripped and the code normalised, and repeating either changes nothing |
| CleaningFacts.CleanedAmount | app1.py:333-343 | a string amount becomes its number, or 0 when it does not parse; any other amount is kept |
| CleaningFacts.CleanedEuro | app1.py:345-354 | the euro amount is the amount times the rate, rounded to cents, when a truthy rate exists; otherwise it is the amount itself |
| CleaningFacts.CleanedTaxable | app1.py:357-365 | both taxable fields are present afterwards; "" when absent, empty or unparsable, the number when the string parses, kept when not a string |
| CleaningFacts.CleanedClassification | app1.py:367-377 | Valid Code is true exactly for a pair in the table, whose description is copied; otherwise the description is "" |
| CleaningFacts.CleanedAbatement | app1.py:380-386 | a 2042/5TE entry with a truthy France figure gets 71% and 29% of it rounded to cents, and the Micro-BIC note appended to its notes |
| CleaningFacts.NoAbatement | app1.py:380-386 | any other entry keeps the abatement fields and notes exactly as they were, present or absent |
| CleaningFacts.WarningsComplete | app1.py:336-377 | each problem found (bad amount, unknown currency, bad taxable string, unknown code, unknown form) is reported |
| CleaningFacts.AmountWarningsJustified | app1.py:336-341 | the amount check emits at most one warning, and only for an unparsable string |
| CleaningFacts.CurrencyWarningsJustified | app1.py:346-352 | the currency check warns at most once, and only for a non-euro currency without a rate |
| CleaningFacts.TaxableWarningsJustified | app1.py:357-365 | each taxable field gives at most one warning, and only for a non-empty unparsable string |
| CleaningFacts.ClassWarningsJustified | app1.py:367-377 | the classification warns at most once: unknown code for a known form, unknown form otherwise |
| CleaningFacts.WarningsSound | app1.py:336-377 | a complete entry gets at most five warnings, each naming a real problem and quoting the description |
| CleaningFacts.CleanedFrame | app1.py:328-386 | no field outside the written ones changes, and exactly the listed fields are added |
| CleaningFacts.NoWarningsIff | app1.py:336-377 | an entry is cleaned without warnings exactly when amount, currency, taxable strings and form/code all check out |
| CleaningFacts.AbatementSplit | app1.py:384-385 | for a figure in whole cents, the 71% and 29% parts add up to the figure or one cent more |
| CleaningFacts.CleanedAbatementSplit | app1.py:380-386 | the abatement and the remainder stored on a 5TE entry add up to its France figure, up to one cent |
| CleaningFacts.MicroBicFigures | app1.py:384-385 | 7387 splits into 5244.77 and 2142.23 |
| CleaningFacts.GbpConversion | app1.py:346-349 | 9351 GBP at the default rate is 11045.40 euros |
| Outcomes.StepSucceeds | app1.py:318-389 | one pass of the loop goes on exactly when the entry does not make a step raise |
| Outcomes.StepKeeps | app1.py:327-389 | a complete entry is cleaned and appended, and its warnings come after the earlier ones |
| Outcomes.StepSkips | app1.py:321-325 | an incomplete entry is skipped with one warning listing its missing fields in order |
| Outcomes.ValidatedSucceeds | app1.py:318-389 | the loop runs to its end exactly when no complete entry raises |
| Outcomes.ValidatedPrefixNone | app1.py:318-389 | once an entry raises, the whole call raises |
| Outcomes.ValidatedValid | app1.py:318-391 | the valid entries are the complete entries, each cleaned, in their original order |
| Outcomes.ValidatedMissingCount | app1.py:321-325 | the missing-fields warnings are exactly one report per incomplete entry, naming its description and its missing fields, in the entries' order, and no other |
| Validation.CoerceTaxable | app1.py:358-365 | one taxable field is set to its coerced value, with its warning |
| Validation.CoerceTaxableFields | app1.py:357-365 | the loop over the two taxable fields sets both, France first, with their warnings in that order |
| Validation.CoerceAmount | app1.py:333-343 | the amount and its warning are those of the coercion |
| Validation.ConvertToEuros | app1.py:345-354 | the euro amount and currency warning are those of the conversion |
| Validation.Classify | app1.py:367-377 | the flag, description and warning are those of the table lookup |
| Validation.ApplyAbatement | app1.py:379-386 | the in-place 5TE step turns the checked entry into the cleaned one |
| Validation.CheckAmount | app1.py:328-354 | form, code, amount and euro amount are stored in that order, with the amount and currency warnings |
| Validation.CheckEntry | app1.py:328-377 | the checks up to the classification give the checked entry and all its warnings |
| Validation.CleanEntry | app1.py:327-389 | the body for a complete entry gives the cleaned entry and its warnings |
| Validation.ValidateEntry | app1.py:318-389 | one pass of the loop is one step of the fold |
| Validation.ValidateAndClean | app1.py:310-391 | None or an empty list gives ([], []); otherwise the loop computes the fold over the entries |
| Parsing.CloseFrom | app1.py:294 | the lazy `.*?` stops at the first `]` that whitespace and the closing fence can follow |
| Parsing.FenceAt | app1.py:294 | a match at p starts with "```json" and its group is a bracketed piece |
| Parsing.FirstFence | app1.py:294 | `re.search` finds the leftmost position where the fence pattern matches |
| Parsing.SafeParseJson | app1.py:284-308 | a missing or blank reply gives the empty list; otherwise the result is what `json.loads` makes of the candidate, None if it raises |
| Parsing.ParseIgnoresPadding | app1.py:288-290 | surrounding whitespace never changes the result |
| Parsing.ParseFailsIff | app1.py:303-308 | the result is None exactly when the reply is not blank and `json.loads` rejects the candidate |
| Parsing.UnmatchedFenceKept | app1.py:293-296 | a reply with a fence that does not match goes to `json.loads` whole; the array pattern is not tried |
| Parsing.BareArrayKept | app1.py:297-303 | a reply that starts with `[` and has no fence goes to `json.loads` as it is |
| Parsing.FenceAtIsSlice | app1.py:294-296 | the extracted group is a piece of the reply |
| Parsing.CandidateInReply | app1.py:290-303 | for an array pattern that returns bracketed pieces of its input, `json.loads` always gets a piece of the stripped reply: the reply itself, or a bracketed piece cut out by the fence or the array pattern |
| Parsing.ProseReplyDecoded | app1.py:297-303 | a reply with no fence and no leading `[` is decoded from the piece the array pattern finds |
| Parsing.BareReplyDecoded | app1.py:297-303 | a bracketed reply without a fence is decoded as it is |
| Parsing.ProseMatchesBare | app1.py:297-303 | an array embedded in prose parses exactly as the array alone would |
| Parsing.FencedMatchesBare | app1.py:293-303 | a fenced array parses exactly as the bare array would |
| Parsing.FenceMatchOfLayout | app1.py:294 | in a reply laid out as fence, whitespace, `[`…`]`, whitespace, fence, the group is the bracketed part |
| Parsing.FenceExtracts | app1.py:294-296 | a fenced array without `]` inside comes back out of its fence |
| Parsing.FencedReplyDecoded | app1.py:286-303 | for such a fenced reply, the result is `json.loads` of the array alone |
| JsonExport.BuildExport | app1.py:430-451 | the row loop yields exactly the export function's items, in row order |
| JsonExport.SourceOrRaises | app1.py:427-428 | on any non-empty table the operand `'' OR stripped source column` raises TypeError, since each element is a string |
| JsonExport.AsWrittenRaisesIff | app1.py:424-428 | the filter as written returns only for an empty table; on any other table it gives None, which stands for either of the two exceptions (the TypeError of the operand, or the ValueError of the chain's `and` on a column) |
| JsonExport.MaskPrecedenceCounterexample | app1.py:427-428 | one row with a France figure of 100 raises as written, however its cells print, but exports one item with 100 as intended |
| JsonExport.BlankNoFigure | app1.py:440-444 | a blank string never yields a figure |
| JsonExport.HiddenRowSkipped | app1.py:427-444 | a row the intended filter drops would have no figure anyway |
| JsonExport.FilterRedundant | app1.py:427-451 | the export with the intended filter equals the export over all rows |
| JsonExport.ExportAppend | app1.py:432-451 | rows are exported independently and in order |
| JsonExport.ExportRow | app1.py:432-451 | a row gives one item exactly when its picked cell has a figure, carrying the row's form, code and description |
| JsonExport.FranceFigureFirst | app1.py:433 | a non-zero France figure is exported even when a source figure exists |
| JsonExport.SourceFigureFallback | app1.py:433 | an empty or zero France figure falls back on the source-country figure |
| BankAccounts.EarliestEnd | app1.py:460 | the earliest end of an occurrence of either keyword, when one exists |
| BankAccounts.HeaderInIff | app1.py:460 | the keyword-by-keyword search matches exactly when the three keyword groups appear in order on the line |
| BankAccounts.HeaderNonEmpty | app1.py:468-475 | a header line is not empty, so `if header_line:` holds after one |
| BankAccounts.ScanLine | app1.py:467-496 | the loop body for one line is one step of the scan |
| BankAccounts.ExtractTableAccounts | app1.py:462-496 | the accounts found are those of the scan over the text's lines |
| BankAccounts.OutsideIgnored | app1.py:473-496 | outside a table, a line that is not a header changes nothing |
| BankAccounts.HeaderOpensBlankCloses | app1.py:468-496 | a header line opens a table and becomes the header; a blank line closes it |
| BankAccounts.InTableHasHeader | app1.py:467-475 | inside a table the header is truthy, and the kept header is a header line |
| BankAccounts.NoHeaderNoAccounts | app1.py:462-496 | a text without a header line yields no account from the table scan |
| BankAccounts.StepAccounts | app1.py:473-492 | a line adds at most one account, and only if it is a table row after a header |
| BankAccounts.AccountsFromRows | app1.py:467-492 | every account comes from a row of the text that is no header |
| BankAccounts.AccountOfStripped | app1.py:488-492 | the fields of an account are stripped |
| BankAccounts.AccountFieldsStripped | app1.py:488-492 | every account the scan finds has stripped fields |

## Left out

- The Streamlit interface (`main`, lines 519-717, and the page statements of lines 719-725) is not modelled. It covers the title, the sidebar (API key, tax year, the exchange-rate inputs), the file upload, the client information and additional-context inputs, and the analyse button. That button's handler joins the extracted texts, calls the language model, `safe_parse_json` and `validate_and_clean_data` (lines 685 and 689), and builds a DataFrame with the required columns and code descriptions, where the source ends.
- Text extraction from .pdf, .docx, .xlsx/.xls, .txt and .json files (lines 106-179) is not modelled: it calls libraries outside the program.
- The language-model call (lines 181-278) is left out: it is network I/O. Its reply enters the model as the argument of `SafeParseJson`.
- `create_excel_output` (lines 393-419) is left out: it only formats a spreadsheet.
- The regular-expression fallback of `extract_bank_accounts` (lines 500-515) is not modelled. It runs only when the table scan finds nothing. `ExtractTableAccounts` is the table half alone.
- `json.loads` and the array pattern `\[\s*{.*?}\s*(?:,\s*{.*?}\s*)*\]` (line 299) are function parameters of `SafeParseJson`. The model does not decode JSON. The lemmas about the array pattern assume only what `Parsing.ArrayFinder` states: that a match is a piece of the text searched, running from `[` to `]`.
- `json.dumps` of the export (line 453) is left out: `Export` gives the list of items it would serialise.
- The `st.error` messages on a parse failure are left out (I/O). The failure is the `None` result.
- Values are JSON scalars only. An entry that is not a dict, a nested array or object as a field value, and a reply that decodes to something other than a list are not modelled.
- Python integers and floats are both `real`. The model has no binary floating point.
- Numbers.Round2 rounds half up on exact decimals. Python's `round` works on binary floats and rounds ties to even, so a product that lands exactly on half a cent may round the other way.
- Numbers.ParseFloat does not accept `inf`, `nan` or digits outside ASCII. Python's `float()` accepts them.
- Text.Upper and Text.Lower change ASCII letters only. Python's `upper`, `lower` and `re.IGNORECASE` also fold other letters.
- TaxCodes.NormalizeCode: its bound "no longer than the input" holds of the model but not of Python, whose `upper()` can lengthen a string (`normalize_code("ß")` is "SS").
- TaxCodes.NormalizeIgnoresCase holds of the model but not of Python for every input: `"İ".lower()` is "i" followed by a combining dot, which normalises to "I", while "İ" itself normalises to "".
- The dict each entry is, mutated in place and shared with the caller's list, is modelled as a value. The model captures the final fields, not the aliasing. Key order is not modelled.
- `EXCHANGE_RATES` and `TAX_CODES` are parameters (`rates`, `codes`), because the sidebar edits the rates. `DefaultRates` and `TaxCodesTable` are the values the program starts with. `FORM_DESCRIPTIONS` (lines 40-46) is never read anywhere, so it is left out.
- An exception is modelled as `None` and its message is not modelled. The validation loop raises when a complete entry has:
  - a non-string form, code or currency;
  - a `None` amount that a rate applies to;
  - non-string notes when the 5TE rule fires.
- The `else 0` at line 450 is not modelled: the value is always a number there.
- The whole-text search that guards the table scan (line 462) is not modelled separately. A line that matches is a match in the text, so when the search fails the loop finds nothing (`NoHeaderNoAccounts`).

## Findings

| source | as written | input that shows it | evidently intended | confidence | as-written member | corrected member |
|---|---|---|---|---|---|---|
| app1.py:427-428 | The bitwise-or operator binds tighter than `!=`, so the mask reads `France != ('' OR Source) != ''`. Applying that operator to a string and a column of strings raises TypeError, so every non-empty table fails. | a table of one row whose France figure is 100 | keep a row when either taxable column is not blank, each comparison in parentheses | not executed | JsonExport.ExportAsWritten, JsonExport.SourceOrRaises, JsonExport.MaskPrecedenceCounterexample | JsonExport.Export, JsonExport.BuildExport, JsonExport.FilterRedundant |
