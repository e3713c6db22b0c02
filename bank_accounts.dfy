/** The table scan of extract_bank_accounts (lines 455-498): the text is read
    line by line; a header line opens a table, each following line with two
    or more columns becomes an account, and a blank line closes the table.

    The header pattern is read on one line, ignoring case, as an ordered
    keyword test: "name\s+of\s+institution" ends with "institution" and
    "account\s+number" starts with "account", so the pattern matches exactly
    when the line holds "institution" or "bank", then later "account" or
    "number", then later "type" or "date", whitespace, "opened". */
module BankAccounts {
  import opened Wrappers
  import opened Text

  datatype Account = Account(institution: string, number: string, kind: string)

  /** Line 484: first columns that mark a header or a continuation. */
  const SkipWords: seq<string> := ["name", "institution", "bank", "n/a", "active accounts"]

  // ---------------------------------------------------------------------
  // The header pattern, on the lowered line t

  /** An occurrence of w that starts no earlier than from ends at e. */
  predicate EndsAt(t: string, from: nat, e: nat, w: string) {
    from + |w| <= e && StartsAt(t, e - |w|, w)
  }

  predicate EitherEndsAt(t: string, from: nat, e: nat, a: string, b: string) {
    EndsAt(t, from, e, a) || EndsAt(t, from, e, b)
  }

  /** The earliest end, at or after e, of an occurrence of a or b that
      starts at or after from. */
  function EarliestEnd(t: string, from: nat, e: nat, a: string, b: string): (r: Option<nat>)
    ensures r.Some? ==> e <= r.value <= |t| && EitherEndsAt(t, from, r.value, a, b)
    ensures r.Some? ==> forall x :: e <= x < r.value ==> !EitherEndsAt(t, from, x, a, b)
    ensures r.None? ==> forall x :: e <= x <= |t| ==> !EitherEndsAt(t, from, x, a, b)
    decreases |t| + 1 - e
  {
    if e > |t| then None
    else if EitherEndsAt(t, from, e, a, b) then Some(e)
    else EarliestEnd(t, from, e + 1, a, b)
  }

  /** type | date\s+opened at k. */
  predicate ThirdAt(t: string, k: nat) {
    || StartsAt(t, k, "type")
    || (StartsAt(t, k, "date") && SkipSpace(t, k + 4) > k + 4 && StartsAt(t, SkipSpace(t, k + 4), "opened"))
  }

  /** The third keyword starts at or after k. */
  predicate ThirdFrom(t: string, k: nat)
    decreases |t| - k
  {
    k <= |t| && (ThirdAt(t, k) || ThirdFrom(t, k + 1))
  }

  /** re.search(table_pattern, line) on the lowered line, each keyword taken
      where it ends earliest. */
  predicate HeaderIn(t: string) {
    match EarliestEnd(t, 0, 0, "institution", "bank")
    case None => false
    case Some(e1) =>
      match EarliestEnd(t, e1, e1, "account", "number")
      case None => false
      case Some(e2) => ThirdFrom(t, e2)
  }

  /** The header test of line 468, case ignored. */
  predicate IsHeader(line: string) {
    HeaderIn(Lower(line))
  }

  /** The pattern's own reading: the three keywords, in order, anywhere on
      the lowered line. */
  ghost predicate KeywordsInOrder(t: string) {
    exists e1: nat, e2: nat, k: nat :: e1 <= e2 <= k <= |t| && EitherEndsAt(t, 0, e1, "institution", "bank")
                                       && EitherEndsAt(t, e1, e2, "account", "number") && ThirdAt(t, k)
  }

  lemma {:induction false} ThirdFromIff(t: string, k: nat, j: nat)
    decreases |t| - k
    ensures ThirdFrom(t, k) ==> exists i: nat :: k <= i <= |t| && ThirdAt(t, i)
    ensures k <= j <= |t| && ThirdAt(t, j) ==> ThirdFrom(t, k)
  {
    if k <= |t| && !ThirdAt(t, k) {
      ThirdFromIff(t, k + 1, j);
    }
  }

  lemma EndsLater(t: string, a: nat, b: nat, e: nat, w1: string, w2: string)
    requires a <= b && EitherEndsAt(t, b, e, w1, w2)
    ensures EitherEndsAt(t, a, e, w1, w2) && b <= e <= |t|
  {
  }

  /** Taking each keyword where it ends earliest finds the header whenever
      the keywords appear in order, and only then. */
  lemma HeaderInIff(t: string)
    ensures HeaderIn(t) <==> KeywordsInOrder(t)
  {
    var r1 := EarliestEnd(t, 0, 0, "institution", "bank");
    if KeywordsInOrder(t) {
      var e1: nat, e2: nat, k: nat :| e1 <= e2 <= k <= |t| && EitherEndsAt(t, 0, e1, "institution", "bank")
                                   && EitherEndsAt(t, e1, e2, "account", "number") && ThirdAt(t, k);
      var f1 := r1.value;
      EndsLater(t, f1, e1, e2, "account", "number");
      var f2 := EarliestEnd(t, f1, f1, "account", "number").value;
      ThirdFromIff(t, f2, k);
    }
    if HeaderIn(t) {
      var f1 := r1.value;
      var f2 := EarliestEnd(t, f1, f1, "account", "number").value;
      ThirdFromIff(t, f2, f2);
      var k: nat :| f2 <= k <= |t| && ThirdAt(t, k);
      assert f1 <= f2 <= k <= |t|;
    }
  }

  /** A header line holds a keyword, so header_line is truthy once set. */
  lemma HeaderNonEmpty(line: string)
    requires IsHeader(line)
    ensures line != []
  {
    var e1 := EarliestEnd(Lower(line), 0, 0, "institution", "bank").value;
  }

  // ---------------------------------------------------------------------
  // The scan

  /** The loop's variables: in_table, header_line and bank_accounts. */
  datatype ScanState = ScanState(inTable: bool, header: Option<string>, accounts: seq<Account>)

  const Start := ScanState(false, None, [])

  /** `if header_line:` */
  predicate HeaderTruthy(h: Option<string>) {
    h.Some? && h.value != []
  }

  /** Lines 480-482: the three fields of a row split into columns. */
  function AccountOf(parts: seq<string>): Account
    requires |parts| >= 2
  {
    Account(Strip(parts[0]), Strip(parts[1]), if |parts| > 2 then Strip(parts[2]) else "Unknown")
  }

  /** Lines 473-484: the line is a row of the table: it is not blank, has
      two words and two columns, and its first column is not a header word. */
  predicate IsRow(line: string) {
    && Strip(line) != [] && WordCount(line) >= 2 && |SplitColumns(line)| >= 2
    && Lower(SplitColumns(line)[0]) !in SkipWords
  }

  /** One pass of the loop of lines 467-496: a header line opens a table;
      inside one, a blank line closes it and a row after a truthy header
      adds its account. */
  function ScanStep(st: ScanState, line: string): ScanState {
    if IsHeader(line) then ScanState(true, Some(line), st.accounts)
    else if !st.inTable then st
    else if Strip(line) == [] then ScanState(false, st.header, st.accounts)
    else if IsRow(line) && HeaderTruthy(st.header) then
      ScanState(true, st.header, st.accounts + [AccountOf(SplitColumns(line))])
    else st
  }

  function Scan(lines: seq<string>): ScanState
    decreases |lines|
  {
    if lines == [] then Start else ScanStep(Scan(lines[..|lines| - 1]), lines[|lines| - 1])
  }

  /** The table half of extract_bank_accounts(text). The search over the
      whole text that guards the loop at line 462 is not repeated: when it
      fails no line is a header, and then the loop finds nothing
      (NoHeaderNoAccounts). */
  method ExtractTableAccounts(text: string) returns (accounts: seq<Account>)
    ensures accounts == Scan(SplitOn(text, '\n')).accounts
  {
    var lines := SplitOn(text, '\n');
    var inTable := false;
    var header: Option<string> := None;
    accounts := [];
    for i := 0 to |lines|
      invariant Scan(lines[..i]) == ScanState(inTable, header, accounts)
    {
      ScanNext(lines, i);
      inTable, header, accounts := ScanLine(inTable, header, accounts, lines[i]);
    }
    assert lines[..|lines|] == lines;
  }

  /** The body of the loop of lines 467-496 for one line. */
  method ScanLine(inTable: bool, header: Option<string>, accounts: seq<Account>, line: string)
    returns (inTable': bool, header': Option<string>, accounts': seq<Account>)
    ensures ScanState(inTable', header', accounts') == ScanStep(ScanState(inTable, header, accounts), line)
  {
    inTable', header', accounts' := inTable, header, accounts;
    if IsHeader(line) {
      inTable' := true;
      header' := Some(line);
      return;
    }
    if inTable && Strip(line) != [] && WordCount(line) >= 2 {
      if HeaderTruthy(header) {
        var parts := SplitColumns(line);
        if |parts| >= 2 {
          var institution := parts[0];
          var number := parts[1];
          var kind := if |parts| > 2 then parts[2] else "Unknown";
          if Lower(institution) in SkipWords {
            return;
          }
          StripTrimmed("Unknown");
          accounts' := accounts + [Account(Strip(institution), Strip(number), Strip(kind))];
        }
      }
    }
    if inTable && Strip(line) == [] {
      inTable' := false;
    }
  }

  lemma ScanNext(lines: seq<string>, i: nat)
    requires i < |lines|
    ensures Scan(lines[..i + 1]) == ScanStep(Scan(lines[..i]), lines[i])
  {
    assert lines[..i + 1][..i] == lines[..i];
  }

  // ---------------------------------------------------------------------
  // Properties of the scan

  /** Outside a table, a line that is no header changes nothing. */
  lemma OutsideIgnored(st: ScanState, line: string)
    requires !st.inTable && !IsHeader(line)
    ensures ScanStep(st, line) == st
  {
  }

  /** A header line opens a table; a blank line closes it. */
  lemma HeaderOpensBlankCloses(st: ScanState, line: string)
    ensures IsHeader(line) ==> ScanStep(st, line).inTable && ScanStep(st, line).header == Some(line)
    ensures !IsHeader(line) && Strip(line) == [] ==> !ScanStep(st, line).inTable
  {
  }

  /** A scan is in a table only after a header line, and the header it keeps
      is the last header line read. */
  lemma {:induction false} InTableHasHeader(lines: seq<string>)
    ensures Scan(lines).inTable ==> HeaderTruthy(Scan(lines).header)
    ensures Scan(lines).header.Some? ==> IsHeader(Scan(lines).header.value)
    decreases |lines|
  {
    if lines != [] {
      InTableHasHeader(lines[..|lines| - 1]);
      var line := lines[|lines| - 1];
      if IsHeader(line) {
        HeaderNonEmpty(line);
      }
    }
  }

  /** A text without a header line yields no account. */
  lemma {:induction false} NoHeaderNoAccounts(lines: seq<string>)
    requires forall i :: 0 <= i < |lines| ==> !IsHeader(lines[i])
    ensures Scan(lines) == Start
    decreases |lines|
  {
    if lines != [] {
      var init := lines[..|lines| - 1];
      assert forall i :: 0 <= i < |init| ==> init[i] == lines[i];
      NoHeaderNoAccounts(init);
    }
  }

  /** One more line adds at most one account, and only a row of the table
      read after a header does; its fields are the row's first columns,
      stripped. */
  lemma StepAccounts(st: ScanState, line: string)
    ensures var st' := ScanStep(st, line);
            || st'.accounts == st.accounts
            || (&& st.inTable && HeaderTruthy(st.header) && !IsHeader(line) && IsRow(line)
                && st'.accounts == st.accounts + [AccountOf(SplitColumns(line))])
  {
  }

  /** Every account comes from a row of the text, in order of the lines. */
  lemma {:induction false} AccountsFromRows(lines: seq<string>, a: Account)
    requires a in Scan(lines).accounts
    ensures exists i :: 0 <= i < |lines| && !IsHeader(lines[i]) && IsRow(lines[i])
                        && a == AccountOf(SplitColumns(lines[i]))
    decreases |lines|
  {
    var init, line := lines[..|lines| - 1], lines[|lines| - 1];
    var st := Scan(init);
    StepAccounts(st, line);
    if a in st.accounts {
      AccountsFromRows(init, a);
      var i :| 0 <= i < |init| && !IsHeader(init[i]) && IsRow(init[i]) && a == AccountOf(SplitColumns(init[i]));
      assert init[i] == lines[i];
    } else {
      assert a == AccountOf(SplitColumns(line));
      assert lines[|lines| - 1] == line;
    }
  }

  predicate Stripped(a: Account) {
    Strip(a.institution) == a.institution && Strip(a.number) == a.number && Strip(a.kind) == a.kind
  }

  lemma AccountOfStripped(parts: seq<string>)
    requires |parts| >= 2
    ensures Stripped(AccountOf(parts))
  {
    StripIdempotent(parts[0]);
    StripIdempotent(parts[1]);
    if |parts| > 2 {
      StripIdempotent(parts[2]);
    } else {
      StripTrimmed("Unknown");
    }
  }

  /** Every field of every account is stripped (lines 488-490). */
  lemma {:induction false} AccountFieldsStripped(lines: seq<string>)
    ensures forall a :: a in Scan(lines).accounts ==> Stripped(a)
    decreases |lines|
  {
    if lines != [] {
      var init, line := lines[..|lines| - 1], lines[|lines| - 1];
      AccountFieldsStripped(init);
      StepAccounts(Scan(init), line);
      if Scan(lines).accounts != Scan(init).accounts {
        AccountOfStripped(SplitColumns(line));
      }
    }
  }

}
