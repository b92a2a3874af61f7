/**
 * The parsed page as the strategies see it, in place of a BeautifulSoup tree:
 * the first `<title>` tag (whose `.string` may be absent), the text of the first
 * `<h1>`, the tables in document order, and the page's text. A table carries its
 * class list, its `<tr>` rows and its own text; a row carries its `<td>`/`<th>`
 * cells in order, each with the text `get_text(strip=True)` gives.
 */
module Document {
  import opened Wrappers

  datatype CellKind = Td | Th
  datatype Cell = Cell(kind: CellKind, text: string)
  type Row = seq<Cell>

  datatype Table = Table(classes: seq<string>, rows: seq<Row>, text: string)

  /** A `<title>` tag; `str` is its `.string`, None when it has no single text child. */
  datatype TitleTag = TitleTag(str: Option<string>)

  datatype Page = Page(title: Option<TitleTag>, h1: Option<string>, tables: seq<Table>, text: string)

  /** The class attribute as written: the classes joined by single spaces. */
  function JoinClasses(classes: seq<string>): string {
    if classes == [] then ""
    else if |classes| == 1 then classes[0]
    else classes[0] + " " + JoinClasses(classes[1..])
  }

  /** A `class_` filter matches a table when it names one of its classes or the
      whole attribute value. */
  predicate HasClass(t: Table, c: string) {
    c in t.classes || JoinClasses(t.classes) == c
  }

  /** `find("table", class_=c)`: the first table the filter matches. */
  function FindTable(tables: seq<Table>, c: string): (r: Option<Table>)
    ensures r.None? <==> forall k :: 0 <= k < |tables| ==> !HasClass(tables[k], c)
    ensures r.Some? ==> HasClass(r.value, c) && r.value in tables
  {
    if tables == [] then None
    else if HasClass(tables[0], c) then Some(tables[0])
    else FindTable(tables[1..], c)
  }

  /** `row.find_all("td")`: the data cells of a row, in order. Every data cell
      of the row is kept and nothing else (`TdCellsMembership`), in the row's
      order (`TdCellsConcat`). */
  function TdCells(row: Row): (r: seq<Cell>)
    ensures |r| <= |row|
    ensures forall k :: 0 <= k < |r| ==> r[k].kind == Td
  {
    if row == [] then []
    else if row[0].kind == Td then [row[0]] + TdCells(row[1..])
    else TdCells(row[1..])
  }

  /** A row made only of data cells is its own `find_all("td")`. */
  lemma {:induction false} TdCellsOfDataRow(row: Row)
    requires forall k :: 0 <= k < |row| ==> row[k].kind == Td
    ensures TdCells(row) == row
  {
    if row != [] {
      TdCellsOfDataRow(row[1..]);
    }
  }

  /** A cell is found iff it is a data cell of the row. */
  lemma {:induction false} TdCellsMembership(row: Row, c: Cell)
    ensures c in TdCells(row) <==> c in row && c.kind == Td
  {
    if row != [] {
      TdCellsMembership(row[1..], c);
      assert row == [row[0]] + row[1..];
    }
  }

  /** `find_all` keeps document order: the data cells of two consecutive runs
      of cells are those of the first run followed by those of the second. */
  lemma {:induction false} TdCellsConcat(a: Row, b: Row)
    ensures TdCells(a + b) == TdCells(a) + TdCells(b)
  {
    if a != [] {
      assert (a + b)[1..] == a[1..] + b;
      TdCellsConcat(a[1..], b);
    } else {
      assert a + b == b;
    }
  }

  /** The table found is the first one the filter matches: every table before
      it is passed over. */
  lemma {:induction false} FindTableFirst(tables: seq<Table>, c: string, k: nat)
    requires k < |tables| && HasClass(tables[k], c)
    requires forall j :: 0 <= j < k ==> !HasClass(tables[j], c)
    ensures FindTable(tables, c) == Some(tables[k])
  {
    if k > 0 {
      assert !HasClass(tables[0], c);
      forall j | 0 <= j < k - 1 ensures !HasClass(tables[1..][j], c) {
        assert tables[1..][j] == tables[j + 1];
      }
      FindTableFirst(tables[1..], c, k - 1);
    }
  }
}
