/**
 * app/scrapers/scrape_strategies/test_bs_strategy.py: `TestBsStrategy`, which
 * starts from the placeholders 'No title' and 'No h1' and overrides each with
 * the stripped text when the element is there.
 */
module TestBsStrategy {
  import opened Wrappers
  import opened Text
  import opened Document
  import ExampleStrategy

  /** `get_url`. */
  const Url: string := "/"
  const NoTitle: string := "No title"
  const NoH1: string := "No h1"

  /** `parse`: default, then override. */
  function Parse(page: Page): (r: map<string, string>)
    ensures r.Keys == {"title", "h1"}
  {
    var titleText :=
      if page.title.Some? && page.title.value.str.Some? && page.title.value.str.value != ""
      then Strip(page.title.value.str.value) else NoTitle;
    var h1Text := if page.h1.Some? then Strip(page.h1.value) else NoH1;
    map["title" := titleText, "h1" := h1Text]
  }

  /** The title and heading are the guarded example strategy's, under other
      placeholders and with the heading under the key 'h1'. */
  lemma AgreesWithExample(page: Page)
    ensures var mine := Parse(page); var example := ExampleStrategy.Parse(page);
      && (ExampleStrategy.TitleString(page).Some? ==> mine["title"] == example["title"])
      && (ExampleStrategy.TitleString(page).None? ==> mine["title"] == NoTitle)
      && (page.h1.Some? ==> mine["h1"] == example["heading"])
      && (page.h1.None? ==> mine["h1"] == NoH1)
  {
  }
}
