/**
 * app/scrapers/scrape_strategies/wikipedia_gdp_strategy.py: the GDP table
 * strategy. It reads the first "wikitable sortable" table, falling back to the
 * first "wikitable", and keeps every row whose first two cells give a country
 * and a GDP figure, skipping header rows, empty cells, aggregate entries and
 * figures that do not start with a digit.
 */
module GdpStrategy {
  import opened Wrappers
  import opened Text
  import opened Document

  /** `get_url`. */
  const Url: string := "/wiki/List_of_countries_by_GDP_(nominal)"
  const SortableClass: string := "wikitable sortable"
  const TableClass: string := "wikitable"

  /** Lowercased country names that stand for aggregates or headers. */
  const Aggregates: seq<string> := ["country", "world", "european union", "euro zone"]

  datatype CountryGdp = CountryGdp(country: string, gdp: string)

  /** The table read: the sortable one if any, else the first wikitable. */
  function ChooseTable(tables: seq<Table>): Option<Table> {
    var sortable := FindTable(tables, SortableClass);
    if sortable.Some? then sortable else FindTable(tables, TableClass)
  }

  /** `text.split('[')[0].strip()`: the text before any footnote mark. */
  function Clean(text: string): string {
    Strip(BeforeFirst(text, '['))
  }

  predicate IsAggregate(country: string) {
    var lower := Lower(country);
    lower in Aggregates || Contains(lower, "rank")
  }

  /** The loop body on one row: the entry it appends, or None for `continue`. */
  function AcceptRow(row: Row): Option<CountryGdp> {
    if |row| < 2 then None
    else if row[0].kind == Th then None
    else if row[0].text == [] || row[1].text == [] then None
    else
      var country := Clean(row[0].text);
      var gdp := Clean(row[1].text);
      if country == [] || gdp == [] then None
      else if IsAggregate(country) then None
      else if !IsDigit(gdp[0]) then None
      else Some(CountryGdp(country, gdp))
  }

  /** The entries of the accepted rows, in row order. */
  function GdpRows(rows: seq<Row>): seq<CountryGdp> {
    if rows == [] then []
    else
      var entry := AcceptRow(rows[|rows| - 1]);
      GdpRows(rows[..|rows| - 1]) + (if entry.Some? then [entry.value] else [])
  }

  /** `parse`: the table choice, then the loop over all rows of the table. */
  method Parse(page: Page) returns (results: seq<CountryGdp>)
    ensures ChooseTable(page.tables).None? ==> results == []
    ensures ChooseTable(page.tables).Some? ==> results == GdpRows(ChooseTable(page.tables).value.rows)
  {
    var table := FindTable(page.tables, SortableClass);
    if table.None? {
      var wikitable := FindTable(page.tables, TableClass);
      if wikitable.None? {
        return [];
      }
      table := wikitable;
    }
    var rows := table.value.rows;
    results := [];
    for i := 0 to |rows|
      invariant results == GdpRows(rows[..i])
    {
      assert rows[..i + 1][..i] == rows[..i];
      var cells := rows[i];
      if |cells| < 2 {
        continue;
      }
      if cells[0].kind == Th {
        continue;
      }
      var countryText := cells[0].text;
      var gdpText := cells[1].text;
      if countryText == [] || gdpText == [] {
        continue;
      }
      var country := Clean(countryText);
      var gdp := Clean(gdpText);
      if country == [] || gdp == [] {
        continue;
      }
      if IsAggregate(country) {
        continue;
      }
      if !IsDigit(gdp[0]) {
        continue;
      }
      results := results + [CountryGdp(country, gdp)];
    }
    assert rows[..|rows|] == rows;
  }

  /** The table is missing only when no table is a wikitable in any form; the
      sortable table wins over an earlier plain one. */
  lemma ChooseTableSpec(tables: seq<Table>)
    ensures ChooseTable(tables).None? <==>
      forall k :: 0 <= k < |tables| ==> !HasClass(tables[k], SortableClass) && !HasClass(tables[k], TableClass)
    ensures FindTable(tables, SortableClass).Some? ==> ChooseTable(tables) == FindTable(tables, SortableClass)
  {
  }

  /** Cleaning never leaves a footnote mark. */
  lemma CleanHasNoBracket(text: string)
    ensures '[' !in Clean(text)
  {
    var before := BeforeFirst(text, '[');
    StripSpec(before);
    var r := Clean(text);
    var k := LeadingSpaces(before);
    forall i | 0 <= i < |r| ensures r[i] != '[' {
      assert r[i] == before[k + i];
    }
  }

  /** A row is accepted exactly when it has two cells, starts with a data cell,
      and its cleaned country and figure are non-empty, the country is not an
      aggregate and the figure starts with a digit; the entry holds the two
      cleaned texts. */
  lemma AcceptRowSpec(row: Row)
    ensures AcceptRow(row).Some? <==>
      && |row| >= 2
      && row[0].kind == Td
      && Clean(row[0].text) != []
      && Clean(row[1].text) != []
      && !IsAggregate(Clean(row[0].text))
      && IsDigit(Clean(row[1].text)[0])
    ensures AcceptRow(row).Some? ==>
      AcceptRow(row).value == CountryGdp(Clean(row[0].text), Clean(row[1].text))
  {
    if |row| >= 2 {
      assert BeforeFirst([], '[') == [];
      StripSpec([]);
    }
  }

  /** Every entry has a non-empty, non-aggregate country and a figure that
      starts with a digit and carries no footnote mark. */
  lemma EntryShape(row: Row)
    requires AcceptRow(row).Some?
    ensures var e := AcceptRow(row).value;
      && e.country != [] && !IsAggregate(e.country)
      && e.gdp != [] && IsDigit(e.gdp[0])
      && '[' !in e.gdp && '[' !in e.country
  {
    CleanHasNoBracket(row[0].text);
    CleanHasNoBracket(row[1].text);
  }

  /** Entries follow row order. */
  lemma {:induction false} GdpRowsConcat(a: seq<Row>, b: seq<Row>)
    ensures GdpRows(a + b) == GdpRows(a) + GdpRows(b)
    decreases |b|
  {
    if b != [] {
      var init := b[..|b| - 1];
      assert (a + b)[..|a + b| - 1] == a + init;
      assert (a + b)[|a + b| - 1] == b[|b| - 1];
      GdpRowsConcat(a, init);
    } else {
      assert a + b == a;
    }
  }

  /** Every entry is the entry of one of the rows. */
  lemma {:induction false} GdpRowsFromRows(rows: seq<Row>, e: CountryGdp)
    requires e in GdpRows(rows)
    ensures exists k :: 0 <= k < |rows| && AcceptRow(rows[k]) == Some(e)
  {
    var init := rows[..|rows| - 1];
    if e in GdpRows(init) {
      GdpRowsFromRows(init, e);
      var k :| 0 <= k < |init| && AcceptRow(init[k]) == Some(e);
      assert rows[k] == init[k];
    } else {
      assert AcceptRow(rows[|rows| - 1]) == Some(e);
    }
  }

  /** Every accepted row gives its entry. */
  lemma {:induction false} AcceptedRowListed(rows: seq<Row>, k: nat)
    requires k < |rows| && AcceptRow(rows[k]).Some?
    ensures AcceptRow(rows[k]).value in GdpRows(rows)
  {
    var init := rows[..|rows| - 1];
    if k < |init| {
      assert init[k] == rows[k];
      AcceptedRowListed(init, k);
    }
  }

  /** Every result's figure starts with a digit and has no footnote mark. */
  lemma ResultsShape(rows: seq<Row>)
    ensures forall e :: e in GdpRows(rows) ==>
      e.gdp != [] && IsDigit(e.gdp[0]) && '[' !in e.gdp && !IsAggregate(e.country)
  {
    forall e | e in GdpRows(rows)
      ensures e.gdp != [] && IsDigit(e.gdp[0]) && '[' !in e.gdp && !IsAggregate(e.country)
    {
      GdpRowsFromRows(rows, e);
      var k :| 0 <= k < |rows| && AcceptRow(rows[k]) == Some(e);
      EntryShape(rows[k]);
    }
  }

  /** A country row keeps the figure before its footnote mark. */
  lemma FootnoteDropped()
    ensures AcceptRow([Cell(Td, "Chad"), Cell(Td, "17[8]")]) == Some(CountryGdp("Chad", "17"))
  {
    var row := [Cell(Td, "Chad"), Cell(Td, "17[8]")];
    ChadIsCountry();
    CleanFigure();
    CleanChad();
    AcceptRowSpec(row);
  }

  lemma CleanFigure()
    ensures Clean("17[8]") == "17"
  {
    assert BeforeFirst("17[8]", '[') == "17";
    StripUnspaced("17");
  }

  lemma CleanChad()
    ensures Clean("Chad") == "Chad"
  {
    assert BeforeFirst("Chad", '[') == "Chad";
    StripUnspaced("Chad");
  }

  lemma ChadIsCountry()
    ensures !IsAggregate("Chad")
  {
    var lower := Lower("Chad");
    assert lower == "chad";
    assert !OccursAt(lower, "rank", 0) by {
      assert lower[0..4][0] == 'c';
    }
  }

  /** The world total is an aggregate and is skipped. */
  lemma WorldSkipped()
    ensures AcceptRow([Cell(Td, "World"), Cell(Td, "110")]) == None
  {
    assert Lower("World") == "world";
    assert Lower("World") in Aggregates;
    assert BeforeFirst("World", '[') == "World";
    StripUnspaced("World");
  }
}
