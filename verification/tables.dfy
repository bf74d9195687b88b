/** HTML tables reduced to what the extractors read: rows of cells, each cell
    a `th` or a `td` with its stripped text. */
module Tables {
  import opened Strings

  datatype Cell = Cell(isHeader: bool, text: string)

  type Row = seq<Cell>

  type Table = seq<Row>

  /** The texts of the `th` cells of a table in document order
      (`table.find_all("th")`). */
  function HeaderTexts(t: Table): (r: seq<string>)
    ensures |r| <= CellCount(t)
  {
    if t == [] then [] else HeaderCells(t[0]) + HeaderTexts(t[1..])
  }

  function CellCount(t: Table): nat {
    if t == [] then 0 else |t[0]| + CellCount(t[1..])
  }

  function HeaderCells(r: Row): (s: seq<string>)
    ensures |s| <= |r|
  {
    if r == [] then []
    else if r[0].isHeader then [r[0].text] + HeaderCells(r[1..])
    else HeaderCells(r[1..])
  }

  /** The texts of the `td` cells of a row in order (`row.find_all("td")`). */
  function DataCells(r: Row): (s: seq<string>)
    ensures |s| <= |r|
  {
    if r == [] then []
    else if !r[0].isHeader then [r[0].text] + DataCells(r[1..])
    else DataCells(r[1..])
  }

  /** Every text, lower-cased. */
  function LowerAll(s: seq<string>): (r: seq<string>)
    ensures |r| == |s|
    ensures forall i :: 0 <= i < |s| ==> r[i] == Lower(s[i])
  {
    if s == [] then [] else [Lower(s[0])] + LowerAll(s[1..])
  }

  function Texts(r: Row): (s: seq<string>)
    ensures |s| == |r|
    ensures forall i :: 0 <= i < |r| ==> s[i] == r[i].text
  {
    if r == [] then [] else [r[0].text] + Texts(r[1..])
  }

  /** `get_table_headers_and_rows`: when the table has `th` cells, the headers
      are their lower-cased texts; otherwise the lower-cased texts of every
      cell of the first row. The data rows are all rows but the first; a
      table without rows gives no headers and no rows. */
  function HeadersAndRows(t: Table): (r: (seq<string>, seq<Row>))
    ensures HeaderTexts(t) != [] ==> r.0 == LowerAll(HeaderTexts(t))
    ensures HeaderTexts(t) == [] && t != [] ==> r.0 == LowerAll(Texts(t[0]))
    ensures t != [] ==> r.1 == t[1..]
    ensures t == [] ==> r.0 == [] && r.1 == []
    ensures forall i :: 0 <= i < |r.0| ==> IsLowerCase(r.0[i])
  {
    var ths := HeaderTexts(t);
    if ths != [] then
      NonEmptyHasRows(t);
      LowerAllIsLower(ths);
      (LowerAll(ths), t[1..])
    else if t == [] then ([], [])
    else
      LowerAllIsLower(Texts(t[0]));
      (LowerAll(Texts(t[0])), t[1..])
  }

  lemma {:induction false} NonEmptyHasRows(t: Table)
    requires HeaderTexts(t) != []
    ensures t != []
  {
  }

  /** Lower-casing leaves no upper-case letter behind. */
  lemma {:induction false} LowerAllIsLower(s: seq<string>)
    ensures forall i :: 0 <= i < |s| ==> IsLowerCase(LowerAll(s)[i])
  {
    forall i | 0 <= i < |s| ensures IsLowerCase(LowerAll(s)[i]) {
      LowerIsLower(s[i]);
    }
  }

  lemma {:induction false} LowerIsLower(s: string)
    ensures IsLowerCase(Lower(s))
  {
  }

  /** A header text comes from a `th` cell of some row, and every `th` cell
      of the table contributes its text. */
  lemma {:induction false} HeaderTextsExact(t: Table, x: string)
    ensures x in HeaderTexts(t) <==>
      exists i, j :: 0 <= i < |t| && 0 <= j < |t[i]| && t[i][j].isHeader && t[i][j].text == x
  {
    if t != [] {
      HeaderTextsExact(t[1..], x);
      HeaderCellsExact(t[0], x);
      if x in HeaderTexts(t[1..]) {
        var i, j :| 0 <= i < |t[1..]| && 0 <= j < |t[1..][i]| && t[1..][i][j].isHeader && t[1..][i][j].text == x;
        assert t[i + 1][j] == t[1..][i][j];
      }
      if exists i, j :: 0 <= i < |t| && 0 <= j < |t[i]| && t[i][j].isHeader && t[i][j].text == x {
        var i, j :| 0 <= i < |t| && 0 <= j < |t[i]| && t[i][j].isHeader && t[i][j].text == x;
        if i > 0 {
          assert t[1..][i - 1][j] == t[i][j];
        }
      }
    }
  }

  lemma {:induction false} HeaderCellsExact(r: Row, x: string)
    ensures x in HeaderCells(r) <==> exists j :: 0 <= j < |r| && r[j].isHeader && r[j].text == x
  {
    if r != [] {
      HeaderCellsExact(r[1..], x);
      if exists j :: 0 <= j < |r| && r[j].isHeader && r[j].text == x {
        var j :| 0 <= j < |r| && r[j].isHeader && r[j].text == x;
        if j > 0 {
          assert r[1..][j - 1] == r[j];
        }
      }
    }
  }

  /** A row with no `th` cell has every cell's text as data, in order. */
  lemma {:induction false} DataCellsOfPlainRow(r: Row)
    requires forall j :: 0 <= j < |r| ==> !r[j].isHeader
    ensures DataCells(r) == Texts(r)
  {
    if r != [] {
      DataCellsOfPlainRow(r[1..]);
    }
  }

  /** A row made only of `th` cells has no data. */
  lemma {:induction false} DataCellsOfHeaderRow(r: Row)
    requires forall j :: 0 <= j < |r| ==> r[j].isHeader
    ensures DataCells(r) == []
  {
    if r != [] {
      DataCellsOfHeaderRow(r[1..]);
    }
  }
}
