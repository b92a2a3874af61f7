/**
 * app/scrapers/scrape_strategies/waters_strategy.py: the unguarded
 * `WatersStrategy`. It calls `find_all` on whatever `find` returned and
 * subscripts cells 0 to 5 of every row after the header, so a missing
 * "wikitable" (a method called on None) or a row with fewer than six data cells
 * (an index out of range) raises out of `parse`.
 */
module UnguardedWatersStrategy {
  import opened Wrappers
  import opened Document
  import opened Fetching
  import WatersStrategy
  import ProposedWatersStrategy

  type Record = WatersStrategy.Record

  /** `get_url`. */
  const Url: string := "/wiki/List_of_bodies_of_water_of_New_Brunswick"
  const TableClass: string := "wikitable"

  /** `parse`: one record per row after the header, or the exception. */
  method Parse(page: Page) returns (r: Parsed<seq<Record>>)
    ensures FindTable(page.tables, TableClass).None? ==> r == ParseRaised
    ensures FindTable(page.tables, TableClass).Some? ==>
      var body := WatersStrategy.AfterHeader(FindTable(page.tables, TableClass).value.rows);
      && (r.ParseRaised? <==> exists k :: 0 <= k < |body| && |TdCells(body[k])| < 6)
      && (r.Returned? ==>
            && |r.value| == |body|
            && forall k :: 0 <= k < |body| ==> r.value[k] == WatersStrategy.WaterRecord(TdCells(body[k])))
  {
    var table := FindTable(page.tables, TableClass);
    if table.None? {
      return ParseRaised;
    }
    var body := WatersStrategy.AfterHeader(table.value.rows);
    var data: seq<Record> := [];
    var i := 0;
    while i < |body|
      invariant 0 <= i <= |body|
      invariant forall k :: 0 <= k < i ==> |TdCells(body[k])| >= 6
      invariant |data| == i
      invariant forall k :: 0 <= k < i ==> data[k] == WatersStrategy.WaterRecord(TdCells(body[k]))
    {
      var cols := TdCells(body[i]);
      if |cols| < 6 {
        assert body == WatersStrategy.AfterHeader(FindTable(page.tables, TableClass).value.rows);
        assert exists k :: 0 <= k < |body| && |TdCells(body[k])| < 6 by {
          assert 0 <= i < |body| && |TdCells(body[i])| < 6;
        }
        return ParseRaised;
      }
      data := data + [WatersStrategy.WaterRecord(cols)];
      i := i + 1;
    }
    return Returned(data);
  }

  /** When the unguarded revision returns, the proposed revision reads the same
      records from the same rows: every row then has six or more data cells. */
  lemma {:induction false} AgreesWithProposed(body: seq<Row>)
    requires forall k :: 0 <= k < |body| ==> |TdCells(body[k])| >= 6
    ensures |ProposedWatersStrategy.WideRecords(body)| == |body|
    ensures forall k :: 0 <= k < |body| ==>
      ProposedWatersStrategy.WideRecords(body)[k] == WatersStrategy.WaterRecord(TdCells(body[k]))
  {
    if body != [] {
      var init := body[..|body| - 1];
      var last := body[|body| - 1];
      assert forall k :: 0 <= k < |init| ==> init[k] == body[k];
      AgreesWithProposed(init);
      var prev := ProposedWatersStrategy.WideRecords(init);
      var all := ProposedWatersStrategy.WideRecords(body);
      assert all == prev + [WatersStrategy.WaterRecord(TdCells(last))];
      forall k | 0 <= k < |body|
        ensures all[k] == WatersStrategy.WaterRecord(TdCells(body[k]))
      {
        if k < |init| {
          assert all[k] == prev[k];
        }
      }
    }
  }
}
