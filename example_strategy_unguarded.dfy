/**
 * app/scrapers/scrape_strategies/example_strategy.py: the short
 * `ExampleComStrategy`. It tests only that the title tag exists before
 * stripping its string, so a title tag without a string raises; the
 * placeholders are "No title" and "No heading".
 */
module UnguardedExampleStrategy {
  import opened Wrappers
  import opened Text
  import opened Document
  import opened Fetching
  import ExampleStrategy

  /** `get_url`. */
  const Url: string := "/"
  const NoTitle: string := "No title"
  const NoHeading: string := "No heading"

  /** `parse`: the dict of the two texts, or the exception from stripping a
      missing title string. */
  function Parse(page: Page): (r: Parsed<map<string, string>>)
    ensures r.Returned? ==> r.value.Keys == {"title", "heading"}
  {
    if page.title.Some? && page.title.value.str.None? then ParseRaised
    else
      var title := if page.title.Some? then Strip(page.title.value.str.value) else NoTitle;
      var heading := if page.h1.Some? then Strip(page.h1.value) else NoHeading;
      Returned(map["title" := title, "heading" := heading])
  }

  /** Parsing raises exactly for a title tag without a string. */
  lemma RaisesIff(page: Page)
    ensures Parse(page).ParseRaised? <==> page.title.Some? && page.title.value.str.None?
  {
  }

  /** Where it returns, it reads what the guarded example strategy reads, up to
      the placeholders and the empty title string, which it strips to "" where
      the guarded one substitutes its placeholder. */
  lemma AgreesWithExample(page: Page)
    requires Parse(page).Returned?
    ensures var mine := Parse(page).value; var guarded := ExampleStrategy.Parse(page);
      && (page.h1.Some? ==> mine["heading"] == guarded["heading"])
      && (page.h1.None? ==> mine["heading"] == NoHeading && guarded["heading"] == ExampleStrategy.NoHeading)
      && (ExampleStrategy.TitleString(page).Some? ==> mine["title"] == guarded["title"])
      && (page.title.None? ==> mine["title"] == NoTitle && guarded["title"] == ExampleStrategy.NoTitle)
      && (page.title == Some(TitleTag(Some(""))) ==> mine["title"] == "" && guarded["title"] == ExampleStrategy.NoTitle)
  {
    if page.title == Some(TitleTag(Some(""))) {
      assert Strip("") == "" by { StripSpec(""); }
    }
  }
}
