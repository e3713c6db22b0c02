/** create_json_output (lines 421-451): the rows of the results table that
    carry a taxable figure become the items of the JSON file, one per row,
    with the figure as a number.

    A row is the five columns the function reads. A cell is what pandas holds
    there: a JSON value from the cleaned entry, or the NaN that
    pd.DataFrame puts where the entry had no such key. */
module JsonExport {
  import opened Wrappers
  import opened Text
  import opened Numbers
  import opened Records

  datatype Cell = NaN | Present(v: Value)

  datatype Row = Row(form: Cell, code: Cell, description: Cell, france: Cell, source: Cell)

  /** One item of json_data; the figure is float(value). */
  datatype Item = Item(form: Cell, code: Cell, description: Cell, value: real)

  /** Python truthiness of a cell: NaN is a non-zero float, so truthy. */
  predicate CellTruthy(c: Cell) {
    c.NaN? || Truthy(c.v)
  }

  /** str(cell).strip() == '': only a string can print blank; a number, a
      bool, None and NaN print as non-blank text. */
  predicate Blank(c: Cell) {
    c.Present? && c.v.Str? && Strip(c.v.s) == []
  }

  /** The filter intended at lines 427-428: either taxable column holds
      something other than a blank string. */
  predicate Shown(r: Row) {
    !Blank(r.france) || !Blank(r.source)
  }

  /** Line 433: row['Taxable in France (€)'] or row['Taxable in Source Country (€)']. */
  function Picked(r: Row): Cell {
    if CellTruthy(r.france) then r.france else r.source
  }

  /** Lines 436-445: the figure of the picked cell, None where the row is
      skipped: NaN, None and "" are, and so is a string float() rejects
      after commas become points and spaces are dropped. A bool is an int,
      so float() gives 1 or 0. */
  function Figure(c: Cell): Option<real> {
    match c
    case NaN => None
    case Present(v) =>
      match v
      case Null => None
      case Str(s) => if s == "" then None else CoerceNumber(s)
      case Num(x) => Some(x)
      case Bool(b) => Some(if b then 1.0 else 0.0)
  }

  /** What one row of the loop of lines 432-451 adds to json_data. */
  function RowItems(r: Row): seq<Item> {
    match Figure(Picked(r))
    case None => []
    case Some(x) => [Item(r.form, r.code, r.description, x)]
  }

  /** json_data with the intended filter, row by row. */
  function Export(rows: seq<Row>): (items: seq<Item>)
    ensures |items| <= |rows|
    decreases |rows|
  {
    if rows == [] then []
    else
      var r := rows[|rows| - 1];
      Export(rows[..|rows| - 1]) + (if Shown(r) then RowItems(r) else [])
  }

  /** json_data with no filter at all. */
  function ExportAll(rows: seq<Row>): (items: seq<Item>)
    ensures |items| <= |rows|
    decreases |rows|
  {
    if rows == [] then [] else ExportAll(rows[..|rows| - 1]) + RowItems(rows[|rows| - 1])
  }

  /** The loop of lines 432-451 over the filtered rows. */
  method BuildExport(rows: seq<Row>) returns (items: seq<Item>)
    ensures items == Export(rows)
  {
    items := [];
    for i := 0 to |rows|
      invariant items == Export(rows[..i])
    {
      assert rows[..i + 1][..i] == rows[..i];
      var r := rows[i];
      if !Shown(r) {
        continue;
      }
      var value := Picked(r);
      if value.NaN? || value == Present(Null) || value == Present(Str("")) {
        continue;
      }
      var x: real;
      match value.v {
        case Str(s) =>
          match CoerceNumber(s) {
            case None => continue;
            case Some(y) => x := y;
          }
        case Num(y) => x := y;
        case Bool(b) => x := if b then 1.0 else 0.0;
      }
      items := items + [Item(r.form, r.code, r.description, x)];
    }
    assert rows[..|rows|] == rows;
  }

  // ---------------------------------------------------------------------
  // The filter as written

  /** An operand of Python's `|` in the mask: a bool or a string. */
  datatype Operand = B(b: bool) | S(s: string)

  /** `a | b`: defined on two bools; bool.__or__ rejects a string and str
      defines no `|` at all, so any string operand raises TypeError. */
  function Or(a: Operand, b: Operand): Option<Operand> {
    if a.B? && b.B? then Some(B(a.b || b.b)) else None
  }

  /** `y | column` applied element by element, None once an element raises. */
  function OrEach(y: Operand, column: seq<Operand>): Option<seq<Operand>>
    decreases |column|
  {
    if column == [] then Some([])
    else match (Or(y, column[0]), OrEach(y, column[1..]))
      case (Some(x), Some(rest)) => Some([x] + rest)
      case _ => None
  }

  /** `'' | column` on a column of objects: the column's reflected `|`
      first tries the string itself on every element, then retries with
      bool('') and raises TypeError when that fails too. */
  function ReflectedOr(scalar: string, column: seq<Operand>): Option<seq<Operand>> {
    match OrEach(S(scalar), column)
    case Some(r) => Some(r)
    case None => OrEach(B(scalar != ""), column)
  }

  /** df['Taxable in Source Country (€)'].astype(str).str.strip(): the text
      str() gives each cell, stripped. How str() prints a cell is the
      parameter `text`. */
  function SourceTexts(rows: seq<Row>, text: Cell -> string): (col: seq<Operand>)
    ensures |col| == |rows| && forall i :: 0 <= i < |rows| ==> col[i] == S(Strip(text(rows[i].source)))
    decreases |rows|
  {
    if rows == [] then [] else [S(Strip(text(rows[0].source)))] + SourceTexts(rows[1..], text)
  }

  /** Lines 424-428 as written. `|` binds tighter than `!=`, so the mask is
      the chain  France != ('' | Source) != ''. An empty table returns at
      line 425. Otherwise the operand `'' | Source` is evaluated; if it did
      not raise, the chain's `and` would ask for the truth value of a
      column, which raises ValueError. None stands for either exception. */
  function ExportAsWritten(rows: seq<Row>, text: Cell -> string): Option<seq<Item>> {
    if |rows| == 0 then Some([])
    else match ReflectedOr("", SourceTexts(rows, text))
      case None => None
      case Some(_) => None
  }

  /** `y | column` raises on a column holding a string. */
  lemma {:induction false} OrEachRaises(y: Operand, column: seq<Operand>, i: nat)
    requires i < |column| && column[i].S?
    ensures OrEach(y, column).None?
    decreases i
  {
    if i > 0 {
      OrEachRaises(y, column[1..], i - 1);
    }
  }

  /** The operand `'' | Source` raises TypeError on every non-empty table:
      its stripped source column holds a string, and both attempts apply
      `|` to it. */
  lemma SourceOrRaises(rows: seq<Row>, text: Cell -> string)
    requires rows != []
    ensures ReflectedOr("", SourceTexts(rows, text)).None?
  {
    var col := SourceTexts(rows, text);
    OrEachRaises(S(""), col, 0);
    OrEachRaises(B(false), col, 0);
  }

  /** The filter as written returns only for an empty table: on any other
      table one of the two exceptions is raised (which one is what
      SourceOrRaises settles). */
  lemma AsWrittenRaisesIff(rows: seq<Row>, text: Cell -> string)
    ensures ExportAsWritten(rows, text).None? <==> rows != []
  {
  }

  /** One row with a France figure of 100: the intended filter exports it,
      the filter as written raises instead, however the cells print. */
  lemma MaskPrecedenceCounterexample(text: Cell -> string)
    ensures var rows := [Row(Present(Str("2042")), Present(Str("1AJ")), Present(Str("Salary")),
                             Present(Num(100.0)), Present(Str("")))];
            && ExportAsWritten(rows, text).None?
            && Export(rows) == [Item(Present(Str("2042")), Present(Str("1AJ")), Present(Str("Salary")), 100.0)]
  {
    var rows := [Row(Present(Str("2042")), Present(Str("1AJ")), Present(Str("Salary")),
                     Present(Num(100.0)), Present(Str("")))];
    AsWrittenRaisesIff(rows, text);
    assert rows[..0] == [];
  }

  // ---------------------------------------------------------------------
  // Properties of the export

  lemma {:induction false} RemoveSpaceKeepsBlank(s: string)
    requires AllSpace(s)
    ensures AllSpace(RemoveChar(s, ' '))
    decreases |s|
  {
    if s != [] {
      assert AllSpace(s[1..]) by {
        assert forall i :: 0 <= i < |s| - 1 ==> s[1..][i] == s[i + 1];
      }
      RemoveSpaceKeepsBlank(s[1..]);
    }
  }

  /** A blank string is never a figure. */
  lemma BlankNoFigure(s: string)
    requires AllSpace(s)
    ensures CoerceNumber(s).None?
  {
    var t := ReplaceChar(s, ',', '.');
    assert AllSpace(t);
    RemoveSpaceKeepsBlank(t);
    BlankRejected(CleanNumeral(s));
  }

  /** A row the intended filter drops would have been skipped by the loop
      anyway. */
  lemma HiddenRowSkipped(r: Row)
    requires !Shown(r)
    ensures RowItems(r) == []
  {
    StripEmptyIffAllSpace(r.france.v.s);
    StripEmptyIffAllSpace(r.source.v.s);
    var c := Picked(r);
    if c.v.s != "" {
      BlankNoFigure(c.v.s);
    }
  }

  /** The intended filter changes nothing: it only drops rows without a
      figure. */
  lemma {:induction false} FilterRedundant(rows: seq<Row>)
    ensures Export(rows) == ExportAll(rows)
    decreases |rows|
  {
    if rows != [] {
      var r := rows[|rows| - 1];
      FilterRedundant(rows[..|rows| - 1]);
      if !Shown(r) {
        HiddenRowSkipped(r);
      }
    }
  }

  lemma {:induction false} ExportAllAppend(a: seq<Row>, b: seq<Row>)
    ensures ExportAll(a + b) == ExportAll(a) + ExportAll(b)
    decreases |b|
  {
    if b == [] {
      assert a + b == a;
    } else {
      var init := b[..|b| - 1];
      assert (a + b)[..|a + b| - 1] == a + init;
      assert (a + b)[|a + b| - 1] == b[|b| - 1];
      ExportAllAppend(a, init);
    }
  }

  /** Rows are exported independently and in order. */
  lemma ExportAppend(a: seq<Row>, b: seq<Row>)
    ensures Export(a + b) == Export(a) + Export(b)
  {
    FilterRedundant(a + b);
    FilterRedundant(a);
    FilterRedundant(b);
    ExportAllAppend(a, b);
  }

  /** A row is exported exactly when its picked cell has a figure, and then
      with that figure and the row's form, code and description. */
  lemma ExportRow(r: Row)
    ensures Figure(Picked(r)).None? ==> Export([r]) == []
    ensures Figure(Picked(r)).Some? ==>
              Export([r]) == [Item(r.form, r.code, r.description, Figure(Picked(r)).value)]
  {
    FilterRedundant([r]);
    assert [r][..0] == [];
  }

  /** A non-zero France figure wins over the source-country one. */
  lemma FranceFigureFirst(r: Row, x: real)
    requires r.france == Present(Num(x)) && x != 0.0
    ensures Export([r]) == [Item(r.form, r.code, r.description, x)]
  {
    ExportRow(r);
  }

  /** An empty or zero France figure falls back on the source-country one. */
  lemma SourceFigureFallback(r: Row, x: real)
    requires r.france == Present(Str("")) || r.france == Present(Num(0.0))
    requires r.source == Present(Num(x))
    ensures Export([r]) == [Item(r.form, r.code, r.description, x)]
  {
    ExportRow(r);
  }

}
