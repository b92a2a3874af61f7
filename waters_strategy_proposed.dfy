/**
 * app_proposed_changes/scrape_strategies/waters_strategy.py: the proposed
 * `WatersStrategy`. A missing "wikitable" or a table without a data row gives
 * []; every row after the header with at least six data cells gives a record
 * from its first six cells, and shorter rows are skipped.
 */
module ProposedWatersStrategy {
  import opened Wrappers
  import opened Document
  import WatersStrategy
  import ProposedWaters

  type Record = WatersStrategy.Record

  /** `get_url`. */
  const Url: string := "/wiki/List_of_bodies_of_water_of_New_Brunswick"
  const TableClass: string := "wikitable"

  /** The records of the rows with six or more data cells, in row order. */
  function WideRecords(rows: seq<Row>): seq<Record> {
    if rows == [] then []
    else
      var cols := TdCells(rows[|rows| - 1]);
      WideRecords(rows[..|rows| - 1]) + (if |cols| >= 6 then [WatersStrategy.WaterRecord(cols)] else [])
  }

  /** `parse`: [] without a table or a data row; otherwise the loop over the
      rows after the header. */
  method Parse(page: Page) returns (data: seq<Record>)
    ensures FindTable(page.tables, TableClass).None? ==> data == []
    ensures FindTable(page.tables, TableClass).Some? ==>
      data == WideRecords(WatersStrategy.AfterHeader(FindTable(page.tables, TableClass).value.rows))
  {
    var table := FindTable(page.tables, TableClass);
    if table.None? {
      return [];
    }
    var rows := table.value.rows;
    if |rows| < 2 {
      return [];
    }
    var body := rows[1..];
    data := [];
    var i := 0;
    while i < |body|
      invariant 0 <= i <= |body|
      invariant data == WideRecords(body[..i])
    {
      assert body[..i + 1][..i] == body[..i];
      var cols := TdCells(body[i]);
      if |cols| >= 6 {
        data := data + [WatersStrategy.WaterRecord(cols)];
      }
      i := i + 1;
    }
    assert body[..|body|] == body;
  }

  /** Records follow row order. */
  lemma {:induction false} WideRecordsConcat(a: seq<Row>, b: seq<Row>)
    ensures WideRecords(a + b) == WideRecords(a) + WideRecords(b)
    decreases |b|
  {
    if b != [] {
      var init := b[..|b| - 1];
      assert (a + b)[..|a + b| - 1] == a + init;
      assert (a + b)[|a + b| - 1] == b[|b| - 1];
      WideRecordsConcat(a, init);
    } else {
      assert a + b == a;
    }
  }

  /** Every record comes from a row with at least six data cells, of which it
      keeps the first six. */
  lemma {:induction false} WideRecordsFromRows(rows: seq<Row>, r: Record)
    requires r in WideRecords(rows)
    ensures exists k :: 0 <= k < |rows| && |TdCells(rows[k])| >= 6 && r == WatersStrategy.WaterRecord(TdCells(rows[k]))
  {
    var init := rows[..|rows| - 1];
    if r in WideRecords(init) {
      WideRecordsFromRows(init, r);
      var k :| 0 <= k < |init| && |TdCells(init[k])| >= 6 && r == WatersStrategy.WaterRecord(TdCells(init[k]));
      assert rows[k] == init[k];
    } else {
      var last := |rows| - 1;
      assert |TdCells(rows[last])| >= 6 && r == WatersStrategy.WaterRecord(TdCells(rows[last]));
    }
  }

  /** Every row with at least six data cells gives its record. */
  lemma {:induction false} WideRowRecorded(rows: seq<Row>, k: nat)
    requires k < |rows| && |TdCells(rows[k])| >= 6
    ensures WatersStrategy.WaterRecord(TdCells(rows[k])) in WideRecords(rows)
  {
    var init := rows[..|rows| - 1];
    if k < |init| {
      assert init[k] == rows[k];
      WideRowRecorded(init, k);
    }
  }

  /** Where no row has more than six data cells, the proposed revision reads
      the same records as the guarded one. */
  lemma {:induction false} AgreesOnNarrowRows(rows: seq<Row>)
    requires forall k :: 0 <= k < |rows| ==> |TdCells(rows[k])| <= 6
    ensures WideRecords(rows) == WatersStrategy.SixCellRecords(rows)
  {
    if rows != [] {
      var init := rows[..|rows| - 1];
      assert forall k :: 0 <= k < |init| ==> init[k] == rows[k];
      AgreesOnNarrowRows(init);
    }
  }

  /** Every record carries the four keys the proposed post-processing
      subscripts, so feeding the records to it never raises KeyError. */
  lemma {:induction false} RecordsAreComplete(rows: seq<Row>, index: map<string, seq<string>>)
    ensures ProposedWaters.TransformEntries(WideRecords(rows), index).results.Some?
  {
    var ws := WideRecords(rows);
    forall i | 0 <= i < |ws|
      ensures "type_1" in ws[i] && "name" in ws[i] && "start_county" in ws[i] && "end_county" in ws[i]
    {
      WideRecordsFromRows(rows, ws[i]);
    }
    ProposedWaters.CompleteRecordsSucceed(ws, index);
  }
}
