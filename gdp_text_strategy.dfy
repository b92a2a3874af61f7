/**
 * app/scrapers/scrape_strategies/wikipedia_gdp_text_strategy.py: the GDP text
 * strategy. It searches the text of the "wikitable sortable" table (or of the
 * whole page) for the United States, first as a line of its own and then
 * anywhere, and reads the run of digits and commas that follows the marker,
 * after optional whitespace, within the next 70 characters. A run without a
 * comma of at most four digits is taken for a year or a rank.
 */
module GdpTextStrategy {
  import opened Wrappers
  import opened Text
  import opened Document

  /** `get_url`. */
  const Url: string := "/wiki/List_of_countries_by_GDP_(nominal)"
  const SortableClass: string := "wikitable sortable"
  const Country: string := "United States"
  const LineMarker: string := "\nUnited States\n"
  /** How many characters after the marker are searched. */
  const Window: nat := 70

  /** Why no figure was returned: no marker, no run of digits and commas, a
      year or rank, or a run of commas only; the last two carry the run. */
  datatype Failure = MarkerMissing | NoNumber | YearOrRank(found: string) | NoDigits(found: string)

  /** The returned dict: the country, the figure ("" on failure) and the error. */
  datatype Report = Report(country: string, gdp: string, error: Option<Failure>)

  /** The text searched: the sortable table's text, else the page's. */
  function SearchedText(page: Page): string {
    match FindTable(page.tables, SortableClass)
    case Some(t) => t.text
    case None => page.text
  }

  /** Where the search for the figure starts: just after the first line
      marker, else just after the first plain marker. */
  function MarkerEnd(text: string): (r: Option<nat>)
    ensures r.Some? ==> r.value <= |text|
  {
    var line := Find(text, LineMarker);
    if line.Some? then Some(line.value + |LineMarker|)
    else
      var plain := Find(text, Country);
      if plain.Some? then Some(plain.value + |Country|) else None
  }

  /** `text[start : start + 70]`. */
  function WindowAt(text: string, start: nat): (w: string)
    requires start <= |text|
    ensures |w| <= Window && start + |w| <= |text| && w == text[start..start + |w|]
    ensures |w| < Window ==> start + |w| == |text|
  {
    if start + Window <= |text| then text[start..start + Window] else text[start..]
  }

  /** What `^\s*([\d,]+)` captures at the start of `slice`, if it matches. */
  function LeadingNumber(slice: string): Option<string> {
    var run := DigitCommaRun(slice[LeadingSpaces(slice)..]);
    if run == [] then None else Some(run)
  }

  /** The checks on the captured run. */
  function Validate(value: string): Report {
    if ',' !in value then
      if AllDigits(value) && |value| <= 4 then Report(Country, "", Some(YearOrRank(value)))
      else Report(Country, value, None)
    else if !HasDigit(value) then Report(Country, "", Some(NoDigits(value)))
    else Report(Country, value, None)
  }

  /** The regular expression and the checks on the window. */
  function FromWindow(w: string): Report {
    var value := LeadingNumber(w);
    if value.None? then Report(Country, "", Some(NoNumber)) else Validate(value.value)
  }

  /** `parse` on the searched text. */
  function Extract(text: string): Report {
    var start := MarkerEnd(text);
    if start.None? then Report(Country, "", Some(MarkerMissing))
    else FromWindow(WindowAt(text, start.value))
  }

  /** `parse`: the report on the first "wikitable sortable" table's text, or on
      the page's text when there is no such table. It always names the country;
      the marker error happens exactly when that text never names it; any other
      failure carries an empty figure; and a returned figure is a run of digits
      and commas with a digit, and a comma or more than four characters, found
      within the 70 characters after the marker behind whitespace only. */
  function Parse(page: Page): (r: Report)
    ensures var table := FindTable(page.tables, SortableClass);
      var text := if table.Some? then table.value.text else page.text;
      && r.country == Country
      && (r.error == Some(MarkerMissing) <==> !Contains(text, Country))
      && (r.error.Some? ==> r.gdp == "")
      && (r.error.None? ==>
            && r.gdp != []
            && (forall i :: 0 <= i < |r.gdp| ==> IsDigit(r.gdp[i]) || r.gdp[i] == ',')
            && HasDigit(r.gdp)
            && (',' in r.gdp || |r.gdp| > 4)
            && MarkerEnd(text).Some?
            && exists j :: MarkerEnd(text).value <= j && j + |r.gdp| <= MarkerEnd(text).value + Window
                 && OccursAt(text, r.gdp, j)
                 && forall i :: MarkerEnd(text).value <= i < j ==> IsSpace(text[i]))
  {
    var text := SearchedText(page);
    ReportShape(text);
    MarkerMissingIff(text);
    if Extract(text).error.None? then
      FigureInWindow(text);
      Extract(text)
    else Extract(text)
  }

  /** The line marker holds the plain one, one character in. */
  lemma LineMarkerHoldsCountry(text: string, p: nat)
    requires OccursAt(text, LineMarker, p)
    ensures OccursAt(text, Country, p + 1)
  {
    assert |LineMarker| == |Country| + 2;
    forall i | 0 <= i < |Country| ensures text[p + 1 + i] == Country[i] {
      assert text[p + 1 + i] == text[p..p + |LineMarker|][1 + i];
      assert LineMarker[1 + i] == Country[i];
    }
  }

  /** The marker is missing exactly when the text nowhere names the country. */
  lemma MarkerMissingIff(text: string)
    ensures MarkerEnd(text).None? <==> !Contains(text, Country)
  {
    var line := Find(text, LineMarker);
    if line.Some? {
      LineMarkerHoldsCountry(text, line.value);
    }
  }

  /** The captured run is digits and commas, non-empty, preceded only by
      whitespace in the slice; there is none exactly when the first character
      after the whitespace is neither a digit nor a comma. */
  lemma LeadingNumberSpec(slice: string)
    ensures var v := LeadingNumber(slice);
      v.Some? ==>
        && v.value != []
        && (forall i :: 0 <= i < |v.value| ==> IsDigit(v.value[i]) || v.value[i] == ',')
        && OccursAt(slice, v.value, LeadingSpaces(slice))
        && (forall i :: 0 <= i < LeadingSpaces(slice) ==> IsSpace(slice[i]))
    ensures LeadingNumber(slice).None? <==>
      var k := LeadingSpaces(slice); k == |slice| || (!IsDigit(slice[k]) && slice[k] != ',')
  {
    LeadingSpacesSpec(slice);
    var k := LeadingSpaces(slice);
    var run := DigitCommaRun(slice[k..]);
    if run != [] {
      assert slice[k..k + |run|] == slice[k..][..|run|];
    }
  }

  /** A validated run without a comma is all digits, so it fails the check
      exactly when it has at most four of them. */
  lemma ValidateSpec(value: string)
    requires value != [] && forall i :: 0 <= i < |value| ==> IsDigit(value[i]) || value[i] == ','
    ensures var r := Validate(value);
      && r.country == Country
      && (r.error.Some? ==> r.gdp == "")
      && (r.error.None? <==> HasDigit(value) && (',' in value || |value| > 4))
      && (r.error.None? ==> r.gdp == value)
  {
    if ',' !in value {
      assert forall i :: 0 <= i < |value| ==> IsDigit(value[i]);
      assert IsDigit(value[0]);
    }
  }

  /** Every report names the country; a failure carries an empty figure, and a
      returned figure is digits and commas with at least one digit, and either
      a comma or more than four digits. */
  lemma ReportShape(text: string)
    ensures var r := Extract(text);
      && r.country == Country
      && (r.error.Some? ==> r.gdp == "")
      && (r.error.None? ==>
            && r.gdp != []
            && (forall i :: 0 <= i < |r.gdp| ==> IsDigit(r.gdp[i]) || r.gdp[i] == ',')
            && HasDigit(r.gdp)
            && (',' in r.gdp || |r.gdp| > 4))
  {
    var start := MarkerEnd(text);
    if start.Some? {
      var w := WindowAt(text, start.value);
      LeadingNumberSpec(w);
      var value := LeadingNumber(w);
      if value.Some? {
        ValidateSpec(value.value);
      }
    }
  }

  /** In the window, a returned figure follows the leading whitespace. */
  lemma FigureAfterSpaces(w: string)
    requires FromWindow(w).error.None?
    ensures OccursAt(w, FromWindow(w).gdp, LeadingSpaces(w))
    ensures forall i :: 0 <= i < LeadingSpaces(w) ==> IsSpace(w[i])
  {
    LeadingNumberSpec(w);
    ValidateSpec(LeadingNumber(w).value);
  }

  /** The figure lies within the 70 characters after the marker, preceded there
      only by whitespace. */
  lemma FigureInWindow(text: string)
    requires Extract(text).error.None?
    ensures MarkerEnd(text).Some?
    ensures var g := Extract(text).gdp; var start := MarkerEnd(text).value;
      exists j :: start <= j && j + |g| <= start + Window && OccursAt(text, g, j)
        && forall i :: start <= i < j ==> IsSpace(text[i])
  {
    var start := MarkerEnd(text).value;
    var w := WindowAt(text, start);
    assert Extract(text) == FromWindow(w);
    FigureAfterSpaces(w);
    var g := FromWindow(w).gdp;
    var k := LeadingSpaces(w);
    InnerSlice(text, start, w, k, g);
  }

  /** What holds of a slice holds of the text at the slice's offset. */
  lemma InnerSlice(text: string, start: nat, w: string, k: nat, g: string)
    requires start + |w| <= |text| && w == text[start..start + |w|]
    requires OccursAt(w, g, k)
    requires forall i :: 0 <= i < k ==> IsSpace(w[i])
    ensures OccursAt(text, g, start + k)
    ensures forall i :: start <= i < start + k ==> IsSpace(text[i])
  {
    forall m | 0 <= m < |g| ensures text[start + k..start + k + |g|][m] == g[m] {
      assert g[m] == w[k..k + |g|][m] == w[k + m];
      assert w[k + m] == text[start + k + m];
    }
    assert text[start + k..start + k + |g|] == g;
    forall i | start <= i < start + k ensures IsSpace(text[i]) {
      assert text[i] == w[i - start];
    }
  }

  /** A four-digit number after the marker is taken for a year. */
  lemma YearRejected()
    ensures Extract("United States 2024").error == Some(YearOrRank("2024"))
  {
    var text := "United States 2024";
    YearMarker();
    assert WindowAt(text, 13) == " 2024";
    YearWindow();
  }

  lemma YearMarker()
    ensures MarkerEnd("United States 2024") == Some(13)
  {
    var text := "United States 2024";
    forall j | 0 <= j && j + |LineMarker| <= |text| ensures !OccursAt(text, LineMarker, j) {
      assert text[j] != '\n';
      assert text[j..j + |LineMarker|][0] == text[j];
    }
    assert text[..13] == Country;
  }

  lemma YearWindow()
    ensures FromWindow(" 2024").error == Some(YearOrRank("2024"))
  {
    var w := " 2024";
    assert LeadingSpaces(w) == 1;
    assert DigitCommaRun(w[1..]) == "2024";
  }
}
