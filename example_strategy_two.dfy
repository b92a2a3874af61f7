/**
 * app/scrapers/scrape_strategies/example_strategy_2.py: the template copy of
 * `ExampleComStrategy`. Its code reads the title and heading exactly as the
 * guarded example strategy does, with the same "No title found" and "No
 * heading found" placeholders.
 */
module ExampleStrategyTwo {
  import opened Wrappers
  import opened Text
  import opened Document
  import ExampleStrategy

  /** `get_url`. */
  const Url: string := "/"

  /** `parse`: the title when its tag has a non-empty string, the first
      heading's text, each stripped, or the placeholders. */
  function Parse(page: Page): (r: map<string, string>)
    ensures r.Keys == {"title", "heading"}
  {
    var title :=
      if page.title.Some? && page.title.value.str.Some? && page.title.value.str.value != ""
      then Strip(page.title.value.str.value) else "No title found";
    var heading := if page.h1.Some? then Strip(page.h1.value) else "No heading found";
    map["title" := title, "heading" := heading]
  }

  /** The template behaves as the guarded example strategy on every page. */
  lemma SameAsExample(page: Page)
    ensures Parse(page) == ExampleStrategy.Parse(page)
    ensures Url == ExampleStrategy.Url
  {
  }
}
