/**
 * app/scrape_strategies/waters_strategy.py: the guarded `WatersStrategy`. It
 * reads the first "wikitable", skips its header row, and turns every row with
 * exactly six data cells into a record of six keys; rows with another number of
 * cells are skipped and the rows after them still read. No table gives None.
 */
module WatersStrategy {
  import opened Wrappers
  import opened Document

  /** A scraped water body: string keys to the stripped cell texts. */
  type Record = map<string, string>

  /** `get_url`. */
  const Url: string := "/wiki/List_of_bodies_of_water_of_New_Brunswick"
  const TableClass: string := "wikitable"

  /** The record of a row, from its first six data cells. */
  function WaterRecord(cols: seq<Cell>): Record
    requires |cols| >= 6
  {
    map["name" := cols[0].text, "type_1" := cols[1].text, "type_2" := cols[2].text,
        "parent" := cols[3].text, "start_county" := cols[4].text, "end_county" := cols[5].text]
  }

  /** `rows[1:]`: the rows after the header. */
  function AfterHeader(rows: seq<Row>): seq<Row> {
    if rows == [] then [] else rows[1..]
  }

  /** The records of the rows with exactly six data cells, in row order. */
  function SixCellRecords(rows: seq<Row>): seq<Record> {
    if rows == [] then []
    else
      var cols := TdCells(rows[|rows| - 1]);
      SixCellRecords(rows[..|rows| - 1]) + (if |cols| == 6 then [WaterRecord(cols)] else [])
  }

  /** `parse`: None without a "wikitable"; otherwise the loop over the rows
      after the header, appending one record per six-cell row. */
  method Parse(page: Page) returns (data: Option<seq<Record>>)
    ensures data.None? <==> FindTable(page.tables, TableClass).None?
    ensures data.Some? ==> data.value == SixCellRecords(AfterHeader(FindTable(page.tables, TableClass).value.rows))
  {
    var table := FindTable(page.tables, TableClass);
    if table.None? {
      return None;
    }
    var body := AfterHeader(table.value.rows);
    var records: seq<Record> := [];
    var i := 0;
    while i < |body|
      invariant 0 <= i <= |body|
      invariant records == SixCellRecords(body[..i])
    {
      assert body[..i + 1][..i] == body[..i];
      var cols := TdCells(body[i]);
      if |cols| == 6 {
        records := records + [WaterRecord(cols)];
      }
      i := i + 1;
    }
    assert body[..|body|] == body;
    return Some(records);
  }

  /** Records follow row order: the records of two runs of rows are those of
      the first run, then those of the second. */
  lemma {:induction false} SixCellRecordsConcat(a: seq<Row>, b: seq<Row>)
    ensures SixCellRecords(a + b) == SixCellRecords(a) + SixCellRecords(b)
    decreases |b|
  {
    if b != [] {
      var init := b[..|b| - 1];
      assert (a + b)[..|a + b| - 1] == a + init;
      assert (a + b)[|a + b| - 1] == b[|b| - 1];
      SixCellRecordsConcat(a, init);
    } else {
      assert a + b == a;
    }
  }

  /** Every record comes from a row with six data cells. */
  lemma {:induction false} SixCellRecordsFromRows(rows: seq<Row>, r: Record)
    requires r in SixCellRecords(rows)
    ensures exists k :: 0 <= k < |rows| && |TdCells(rows[k])| == 6 && r == WaterRecord(TdCells(rows[k]))
  {
    var init := rows[..|rows| - 1];
    if r in SixCellRecords(init) {
      SixCellRecordsFromRows(init, r);
      var k :| 0 <= k < |init| && |TdCells(init[k])| == 6 && r == WaterRecord(TdCells(init[k]));
      assert rows[k] == init[k];
    } else {
      var last := |rows| - 1;
      assert |TdCells(rows[last])| == 6 && r == WaterRecord(TdCells(rows[last]));
    }
  }

  /** Every row with six data cells gives its record. */
  lemma {:induction false} SixCellRowRecorded(rows: seq<Row>, k: nat)
    requires k < |rows| && |TdCells(rows[k])| == 6
    ensures WaterRecord(TdCells(rows[k])) in SixCellRecords(rows)
  {
    var init := rows[..|rows| - 1];
    if k < |init| {
      assert init[k] == rows[k];
      SixCellRowRecorded(init, k);
    }
  }

  /** A record is produced exactly for a row with six data cells, and it maps
      the six keys to that row's cell texts. */
  lemma SixCellRecordsMembership(rows: seq<Row>, r: Record)
    ensures r in SixCellRecords(rows) <==>
      exists k :: 0 <= k < |rows| && |TdCells(rows[k])| == 6 && r == WaterRecord(TdCells(rows[k]))
  {
    if r in SixCellRecords(rows) {
      SixCellRecordsFromRows(rows, r);
    }
    if exists k :: 0 <= k < |rows| && |TdCells(rows[k])| == 6 && r == WaterRecord(TdCells(rows[k])) {
      var k :| 0 <= k < |rows| && |TdCells(rows[k])| == 6 && r == WaterRecord(TdCells(rows[k]));
      SixCellRowRecorded(rows, k);
    }
  }

  /** At most one record per row. */
  lemma {:induction false} SixCellRecordsBound(rows: seq<Row>)
    ensures |SixCellRecords(rows)| <= |rows|
  {
    if rows != [] {
      SixCellRecordsBound(rows[..|rows| - 1]);
    }
  }

  /** Every record carries the six keys. */
  lemma RecordKeys(cols: seq<Cell>)
    requires |cols| >= 6
    ensures WaterRecord(cols).Keys == {"name", "type_1", "type_2", "parent", "start_county", "end_county"}
  {
  }

  /** A table that is empty or holds only its header gives no records. */
  lemma HeaderOnly(rows: seq<Row>)
    requires |rows| <= 1
    ensures SixCellRecords(AfterHeader(rows)) == []
  {
  }
}
