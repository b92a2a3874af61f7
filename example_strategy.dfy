/**
 * app/scrape_strategies/example_strategy.py: `ExampleComStrategy`, which reads
 * the page title and the first level-one heading, with "No title found" and
 * "No heading found" in place of a missing element.
 */
module ExampleStrategy {
  import opened Wrappers
  import opened Text
  import opened Document

  /** `get_url`. */
  const Url: string := "/"
  const NoTitle: string := "No title found"
  const NoHeading: string := "No heading found"

  /** The text has no whitespace at either end. */
  predicate Trimmed(s: string) {
    s == [] || (!IsSpace(s[0]) && !IsSpace(s[|s| - 1]))
  }

  /** The title tag's string when there is a tag with a non-empty string. */
  function TitleString(page: Page): Option<string> {
    if page.title.Some? && page.title.value.str.Some? && page.title.value.str.value != "" then
      Some(page.title.value.str.value)
    else None
  }

  function Title(page: Page): string {
    var s := TitleString(page);
    if s.Some? then Strip(s.value) else NoTitle
  }

  function Heading(page: Page): string {
    if page.h1.Some? then Strip(page.h1.value) else NoHeading
  }

  /** `parse`: the dict of the two texts. */
  function Parse(page: Page): (r: map<string, string>)
    ensures r.Keys == {"title", "heading"}
  {
    map["title" := Title(page), "heading" := Heading(page)]
  }

  /** Both values are trimmed, whether read from the page or placeholders. */
  lemma ParseTrimmed(page: Page)
    ensures Trimmed(Parse(page)["title"]) && Trimmed(Parse(page)["heading"])
  {
    var s := TitleString(page);
    if s.Some? {
      StripSpec(s.value);
    } else {
      assert NoTitle[0] == 'N' && NoTitle[|NoTitle| - 1] == 'd';
    }
    if page.h1.Some? {
      StripSpec(page.h1.value);
    } else {
      assert NoHeading[0] == 'N' && NoHeading[|NoHeading| - 1] == 'd';
    }
  }

  /** A title tag whose string is only whitespace gives an empty title, not the
      placeholder: the emptiness test comes before the strip. */
  lemma BlankTitleIsEmpty(page: Page, blank: string)
    requires page.title == Some(TitleTag(Some(blank)))
    requires blank != [] && forall i :: 0 <= i < |blank| ==> IsSpace(blank[i])
    ensures Parse(page)["title"] == ""
  {
    BlankStrips(blank);
  }

  /** A page without a title or a heading gives both placeholders. */
  lemma BarePage(page: Page)
    requires page.title.None? && page.h1.None?
    ensures Parse(page) == map["title" := NoTitle, "heading" := NoHeading]
  {
  }
}
