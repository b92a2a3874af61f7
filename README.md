# scrappy, modelled in Dafny

scrappy is a small polite web scraper. An `UnintrusivePageScraper` fetches pages for
pluggable *strategies*. It asks robots.txt first. It then looks the page up in a file
cache, and otherwise makes a bounded number of attempts with exponential backoff. It
writes the body through to the cache and hands it to the strategy's `parse`. Its
strategies read Wikipedia tables and text and the example.com page. A post-processing
step turns the scraped New Brunswick water bodies into one row per tourism region.

This project models three groups of that code:

- **The fetcher, in its three revisions.**
  - `page_scraper.dfy` is the current `UnintrusivePageScraper`.
  - `page_scraper_two.dfy` is `page_scraper_2.py`.
  - `proposed_scraper.dfy` is the proposed `UnintrusiveScraper`.

  Each one is a class. Its fields are the cache directory (file name to contents), the
  network's remaining answers, and ghost logs of the URLs requested, the pauses taken
  and the cache files looked up. `get_page_content` and `scrape` are methods proved
  against a per-revision specification function `Plan`. The retry loop
  `for attempt in range(max_retries)` that the three share is one method,
  `Fetching.RetryLoop`. It is proved against the function `Fetching.Attempts`,
  parameterised by each revision's pause schedule.
- **The water-body post-processing.**
  - `regions.dfy` holds the region table and its inversion into a county lookup.
  - `scrape_waters.dfy` is `_process_waters_data` and the output rows.
  - `scrape_waters_proposed.dfy` is the proposed `transform_and_filter_water_data`.

  Each loop is a method proved equal to a specification function. The properties are
  lemmas about that function.
- **The parsing strategies**, one module per revision. They work over an abstract
  parsed page (`document.dfy`): the `<title>` tag and its optional string, the first
  `<h1>` text, and the tables in document order. Each table has its classes, its rows of
  `td`/`th` cells with stripped text, and its own text.

Shared modules:

- `wrappers.dfy` holds Option.
- `text.dfy` holds the Python `str` operations the code uses, over ASCII.
- `fetching.dfy` holds the network outcomes, robots answers, pauses and the retry loop.

Where the tests and the code disagree, the model follows the code:

- app/tests/unintrusive_scraper/test_page_scraper.py:161 expects `max_retries + 1`
  requests. The loop makes `max_retries`, which tests/test_page_scraper.py:156 confirms.
- In every revision the robots check comes before the cache lookup.
- app/tests/scrapers/test_scrape_waters.py:42 contradicts line 46 of the same file.
- tests/test_strategies.py expects "No title", AttributeError and IndexError. Those
  behaviours belong to the app/scrapers/scrape_strategies variants, and that is where
  they are modelled.
- The docstring of example_strategy_2.py says "No title". The code returns
  "No title found", and so does the model.

## Model

| member | source | states |
|---|---|---|
| Fetching.RetryLoop | app/unintrusive_scraper/page_scraper.py:171-202 | the attempt loop returns exactly what the specification `Attempts` says (body or None, number of requests, pauses) and consumes exactly that many network answers |
| Fetching.AttemptsBound | app/unintrusive_scraper/page_scraper.py:171 | at most `max_retries` requests, none when `max_retries <= 0`; a body is returned only after a request |
| Fetching.AllAttemptsFail | app/unintrusive_scraper/page_scraper.py:186-202 | when every attempt fails the loop returns None after exactly one request per attempt |
| Fetching.SucceedsAt | app/unintrusive_scraper/page_scraper.py:172-185 | first k attempts failing and attempt k succeeding gives body k after exactly k+1 requests |
| Fetching.AttemptsExplained | app/unintrusive_scraper/page_scraper.py:171-202 | converse: a returned body is the answer to the last request, all earlier ones failed; None means no attempt or every attempt failed |
| Fetching.Drop | app/unintrusive_scraper/page_scraper.py:171-202 | after k requests the network's i-th next answer is the original's (k+i)-th |
| Fetching.ScrapeResult | app/unintrusive_scraper/page_scraper.py:231-243 | an exception from the fetch escapes; no or empty content and a parse exception give the empty value (None here, [] at app/unintrusive_scraper/page_scraper_2.py:217-231); otherwise exactly the parse result |
| PageScraper.SafeFilename | app/unintrusive_scraper/page_scraper.py:155 | the cache name has no '/' and no ':' and ends in ".html" |
| PageScraper.SafeFilenameCollides | app/unintrusive_scraper/page_scraper.py:155 | two distinct URLs ("a/b", "a:b") share a cache file |
| PageScraper.FullUrlSeparator | app/unintrusive_scraper/page_scraper.py:84 | the base with trailing '/' removed is a prefix of the URL that does not end in '/', and the path's leading '/' follows it directly (a path starting "//" keeps both slashes) |
| PageScraper.RetryPauses | app/unintrusive_scraper/page_scraper.py:194-201 | one pause fewer than requests; the j-th pause is `delay * factor ** j` plus jitter below 1; none before the first request or after the last |
| PageScraper.FirstRaisingBackoff | app/unintrusive_scraper/page_scraper.py:194-198 | the first backoff from j on, below n, whose sleep raises (whole seconds negative, or at least 9223372036, where 2**63 ns overflows), every earlier one being safe; none iff no backoff in range raises |
| PageScraper.Plan | app/unintrusive_scraper/page_scraper.py:140-202 | denial: None with no cache read or request; cache hit: stored text with no request; the only exceptions are the backoff sleep's ValueError (negative backoff) and OverflowError (backoff of about 9.22e9 s or more), after a failed request with one pause fewer than requests and nothing cached; at most `max_retries` requests; a fetched body is cached unless the write fails and is returned either way |
| PageScraper.PlanRaisesIff | app/unintrusive_scraper/page_scraper.py:194-198 | the fetch raises iff the cache does not answer and some failed attempt before the last has a backoff whose sleep raises (negative, or 9223372036 s or more); it raises at the first such attempt, right after its request |
| PageScraper.PlanSafeTunables | app/unintrusive_scraper/page_scraper.py:194-198 | with a non-negative delay and backoff factor and every backoff before the last attempt below 9223372036 s, nothing escapes the fetch |
| PageScraper.PlanSafeGrowingBackoff | app/unintrusive_scraper/page_scraper.py:194-198 | with a non-negative delay and a factor of at least 1, the last backoff below 9223372036 s is enough for nothing to escape |
| PageScraper.PlanHugeDelay | app/unintrusive_scraper/page_scraper.py:194-198 | delay 10**10, factor 2, two attempts, the first failing: OverflowError after one request and no pause |
| PageScraper.PlanNegativeDelay | app/unintrusive_scraper/page_scraper.py:194-198 | delay -1, two attempts, the first failing: ValueError after one request and no pause |
| PageScraper.PlanNegativeFactor | app/unintrusive_scraper/page_scraper.py:194-198 | delay 1, factor -2, three attempts, two failing: ValueError after two requests and one pause of 1 second |
| PageScraper.PlanAllFail | app/unintrusive_scraper/page_scraper.py:171-202 | all attempts failing with no raising backoff sleep: None after exactly `max_retries` requests and `max_retries - 1` pauses, nothing cached |
| PageScraper.PlanSucceedsAt | app/unintrusive_scraper/page_scraper.py:172-201 | success at attempt k after k failures with no raising backoff sleep: that body after k+1 requests, the k backoffs slept, body cached unless the write fails |
| PageScraper.PlanCachedAfterFetch | app/unintrusive_scraper/page_scraper.py:160-185 | after a stored fetch, fetching the same URL again returns the same text with no request |
| PageScraper.ParseData | app/unintrusive_scraper/page_scraper.py:205-219 | empty content and a raising parse give []; otherwise the stripped texts of the selected elements, one per element |
| PageScraper.UnintrusivePageScraper.constructor | app/unintrusive_scraper/page_scraper.py:64-121 | base URL without trailing '/', robots.txt under it, tunables kept as given |
| PageScraper.UnintrusivePageScraper.CanFetch | app/unintrusive_scraper/page_scraper.py:124-138 | allowed iff the rules answer Allow for the user agent; an evaluation error counts as not allowed |
| PageScraper.UnintrusivePageScraper.GetPageContent | app/unintrusive_scraper/page_scraper.py:140-202 | returns what `Plan` says from the current state and changes network, logs and cache exactly as `Plan` says |
| PageScraper.UnintrusivePageScraper.Download | app/unintrusive_scraper/page_scraper.py:171-202 | the retry loop and the write-through as `Retry` gives them: its result, the answers consumed, requests logged and pauses slept up to a raising backoff, and the cache updated only with a fetched body when writing succeeds |
| PageScraper.UnintrusivePageScraper.Scrape | app/unintrusive_scraper/page_scraper.py:222-243 | an empty path gives None and changes nothing; otherwise fetches base + path and returns `Fetching.ScrapeResult` of the content: an exception from the fetch escapes, no content and a parse exception give None |
| PageScraper.FetchTwice | app/tests/unintrusive_scraper/test_page_scraper.py:89-113 | a fetched page fetched again is the same text and costs no request |
| PageScraperTwo.CacheFilename | app/unintrusive_scraper/page_scraper_2.py:144 | every '/', ':', '?', '=', '&' becomes '_', every other character is kept, ".html" appended |
| PageScraperTwo.CacheFilenameKeepsScheme | app/unintrusive_scraper/page_scraper_2.py:144 | the scheme stays in the name |
| PageScraperTwo.TargetUrl | app/unintrusive_scraper/page_scraper_2.py:209-213 | base verbatim followed by the path, with a '/' prepended exactly when the path lacks one |
| PageScraperTwo.PolitePauses | app/unintrusive_scraper/page_scraper_2.py:161-188 | a polite pause of `delay` plus jitter below 0.5 before every request, and between requests the backoff `delay * 2 ** attempt` plus jitter below 1 |
| PageScraperTwo.Plan | app/unintrusive_scraper/page_scraper_2.py:116-188 | a robots error escapes, a denial gives None, neither touches cache or network; cache hit without request; at most `max_retries` requests; a fetched body is cached or the write error escapes |
| PageScraperTwo.PlanAllFail | app/unintrusive_scraper/page_scraper_2.py:161-188 | three failures: None after three requests and the five pauses polite, delay, polite, 2*delay, polite |
| PageScraperTwo.UnintrusivePageScraper.constructor | app/unintrusive_scraper/page_scraper_2.py:59-84 | base URL kept verbatim, delay 1, at most 3 attempts |
| PageScraperTwo.UnintrusivePageScraper.CanFetch | app/unintrusive_scraper/page_scraper_2.py:100-114 | the rules' answer, errors included |
| PageScraperTwo.UnintrusivePageScraper.GetPageContent | app/unintrusive_scraper/page_scraper_2.py:116-188 | returns what `Plan` says and changes the state exactly as it says |
| PageScraperTwo.UnintrusivePageScraper.Scrape | app/unintrusive_scraper/page_scraper_2.py:190-231 | fetches `TargetUrl(base, path)` and returns `Fetching.ScrapeResult` of the content |
| ProposedScraper.FinallyPauses | app/unintrusive_scraper/proposed_scraper.py:99-108 | each failed non-final attempt sleeps its backoff `delay * 2 ** attempt` then the `finally` pause; a successful non-final attempt sleeps the `finally` pause alone |
| ProposedScraper.Plan | app/unintrusive_scraper/proposed_scraper.py:60-108 | a robots error escapes, a denial gives None; an existing cache file is returned or its read error escapes, no request either way; at most `max_retries` requests; a fetched body is cached or the write error escapes |
| ProposedScraper.PlanAllFail | app/unintrusive_scraper/proposed_scraper.py:87-108 | three failures: None after three requests and four pauses |
| ProposedScraper.PlanFirstSucceeds | app/unintrusive_scraper/proposed_scraper.py:87-108 | a first success is still followed by the `finally` pause |
| ProposedScraper.ParseData | app/unintrusive_scraper/proposed_scraper.py:111-128 | empty content gives []; a raising parse escapes; otherwise the stripped selected texts |
| ProposedScraper.ScrapeUncaughtResult | app/unintrusive_scraper/proposed_scraper.py:130-143 | no or empty content gives {}; fetch and parse exceptions escape; otherwise the parse result |
| ProposedScraper.ScrapeOldResult | app/unintrusive_scraper/proposed_scraper.py:145-160 | a fetch exception or a `parse_data` exception escapes, no or empty content gives [], otherwise the stripped texts `parse_data` returns |
| ProposedScraper.UnintrusiveScraper.constructor | app/unintrusive_scraper/proposed_scraper.py:26-45 | robots.txt resolved against the base with urljoin, delay 1, at most 3 attempts |
| ProposedScraper.UnintrusiveScraper.CanFetch | app/unintrusive_scraper/proposed_scraper.py:48-58 | the rules' answer, with no guard |
| ProposedScraper.UnintrusiveScraper.GetPageContent | app/unintrusive_scraper/proposed_scraper.py:60-108 | returns what `Plan` says and changes the state exactly as it says |
| ProposedScraper.UnintrusiveScraper.Scrape | app/unintrusive_scraper/proposed_scraper.py:130-143 | fetches `urljoin(base, path)` and returns `ScrapeUncaughtResult` |
| ProposedScraper.UnintrusiveScraper.ScrapeOld | app/unintrusive_scraper/proposed_scraper.py:145-160 | fetches the URL itself and returns `ScrapeOldResult` |
| Regions.InvertRegionTable | app/scrapers/scrape_waters.py:30-34 | the inverted index has exactly the counties of the table as keys, and each county's list is `RegionsOf` it |
| Regions.RegionsOfMembership | app/scrapers/scrape_waters.py:19-34 | region r is listed for county c iff r's counties include c |
| Regions.CountiesMembership | app/scrapers/scrape_waters.py:19-34 | a county is a key iff some region lists it |
| Regions.RegionsOfUnknown | app/scrapers/scrape_waters.py:30-34 | a county no region names gets no region |
| Regions.OccurrencesMembership | app/scrapers/scrape_waters.py:32-34 | the inner loop adds only its region, and adds it iff the county is in the region's list |
| Regions.OccurrencesAbsent | app/scrapers/scrape_waters.py:32-34 | a region not listing the county adds nothing for it |
| Regions.RestigoucheRegions | app/scrapers/scrape_waters.py:19-34 | Restigouche county lies in Restigouche and Chaleur, in that order |
| Regions.OutputRows | app/scrapers/scrape_waters.py:182-185 | one `[name, water_type, region]` row per result, in order |
| Regions.DedupSpec | app/scrapers/scrape_waters.py:113-117 | the region set holds exactly the regions listed, each once |
| ScrapeWaters.WithoutCountySuffix | app/scrapers/scrape_waters.py:99-111 | exactly one trailing " County" is removed, and nothing else changes |
| ScrapeWaters.ClassifySpec | app/scrapers/scrape_waters.py:55-97 | kept iff a dict with string `type_1` that is "lake" or "river" once lowercased and stripped, and string counties; description by type; name defaults; each county loses one suffix |
| ScrapeWaters.KeepEntry | app/scrapers/scrape_waters.py:55-111 | the `continue` checks of the loop body give exactly `Classify` |
| ScrapeWaters.AssociatedRegions | app/scrapers/scrape_waters.py:113-117 | the region set is the de-duplicated regions of the non-empty, indexed start and end counties |
| ScrapeWaters.AppendRows | app/scrapers/scrape_waters.py:127-130 | one result per region appended, in order, with the entry's name and description |
| ScrapeWaters.RowsFor | app/scrapers/scrape_waters.py:127-130 | one result per region, each carrying the name and description |
| ScrapeWaters.ProcessWatersData | app/scrapers/scrape_waters.py:37-145 | the loop returns exactly `Processed`: None and non-list input give [], a list gives each entry's results in entry order |
| ScrapeWaters.EntryRowsShape | app/scrapers/scrape_waters.py:113-130 | a skipped entry gives nothing; a kept entry's results carry its name and description with no region twice |
| ScrapeWaters.EntryRowsMembership | app/scrapers/scrape_waters.py:113-130 | a result comes from an entry iff the entry is kept and the region belongs to its start or end county |
| ScrapeWaters.ProcessedMembership | app/scrapers/scrape_waters.py:53-130 | a result comes out of the list iff it comes out of one of its entries |
| ScrapeWaters.ProcessedConcat | app/scrapers/scrape_waters.py:53-130 | results of earlier entries precede those of later ones |
| ScrapeWaters.FlattenMembership | app/scrapers/scrape_waters.py:53-130 | a result is among the collected results iff it is among one entry's |
| ScrapeWaters.DedupAppend | app/scrapers/scrape_waters.py:113-117 | updating the set twice equals one set of both lists |
| ScrapeWaters.DedupDistinct | app/scrapers/scrape_waters.py:113-117 | a repeat-free list is its own set |
| ScrapeWaters.CountyRegionsFromTable | app/scrapers/scrape_waters.py:113-117 | with the inverted index, a cleaned county contributes region r iff it is non-empty and r lists it |
| ScrapeWaters.OneSuffixOnly | app/scrapers/scrape_waters.py:102-111 | "York County County" is looked up as "York County" |
| ScrapeWaters.KeepsLake | app/scrapers/scrape_waters.py:66-83 | "Lake" is kept as a lake |
| ScrapeWaters.KeepsRiver | app/scrapers/scrape_waters.py:66-83 | "RIVER" is kept as a river |
| ScrapeWaters.SkipsPond | app/scrapers/scrape_waters.py:66-69 | "Pond" is skipped |
| ScrapeWaters.NameDefaults | app/scrapers/scrape_waters.py:71-77 | a missing name is "Unknown Name", a non-string one "Unknown Name (processed)" |
| ScrapeWaters.MissingCounties | app/scrapers/scrape_waters.py:89-125 | a lake without counties gives no result |
| ScrapeWaters.RestigoucheLakeKept | app/scrapers/scrape_waters.py:55-111 | the Restigouche test lake is kept with both counties cleaned to "Restigouche" |
| ScrapeWaters.RestigoucheLake | app/scrapers/scrape_waters.py:113-130 | the Restigouche lake gives exactly one result in Restigouche and one in Chaleur, listed in the model's first-occurrence order of the region set |
| ScrapeWaters.RestigoucheLakeAnyOrder | app/scrapers/scrape_waters.py:113-130 | in any iteration order: the Restigouche lake's results are, as a multiset, one in Chaleur and one in Restigouche, as the test compares after sorting |
| ProposedWaters.Touch | app_proposed_changes/scrapers/scrape_waters.py:39 | a defaultdict lookup adds the key if missing and changes no county's list |
| ProposedWaters.ReadWaterStep | app_proposed_changes/scrapers/scrape_waters.py:24-39 | the loop body up to the inner loop computes exactly `ReadWater` |
| ProposedWaters.ReadWaterSpec | app_proposed_changes/scrapers/scrape_waters.py:31-44 | a kept record's regions are exactly those of its two cleaned counties, each once; the lookups only add empty lists |
| ProposedWaters.TransformAndFilter | app_proposed_changes/scrapers/scrape_waters.py:22-46 | results and the defaultdict afterwards are exactly `TransformEntries`, a missing key ending the call |
| ProposedWaters.TransformStep | app_proposed_changes/scrapers/scrape_waters.py:24-45 | one more record: skipped, KeyError, or its results appended and its lookups applied |
| ProposedWaters.FailureEnds | app_proposed_changes/scrapers/scrape_waters.py:22-46 | records after a KeyError change nothing |
| ProposedWaters.TransformKeepsLists | app_proposed_changes/scrapers/scrape_waters.py:39 | the call keeps every key and never changes a county's list |
| ProposedWaters.CompleteRecordsSucceed | app_proposed_changes/scrapers/scrape_waters.py:27-38 | records with all four keys never raise KeyError |
| ProposedWaters.CapitalisedLakeIsRiver | app_proposed_changes/scrapers/scrape_waters.py:27-33 | "Lake" passes the filter but is described as a river |
| ProposedWaters.CleanCountyDropsFirst | app_proposed_changes/scrapers/scrape_waters.py:37-38 | after a name without spaces the first " County" is dropped and the rest is cleaned in turn |
| ProposedWaters.DoubledSuffixRemoved | app_proposed_changes/scrapers/scrape_waters.py:37-38 | a doubled suffix goes entirely: "York County County" becomes "York" |
| ProposedWaters.InnerSuffixRemoved | app_proposed_changes/scrapers/scrape_waters.py:37-38 | a suffix in the middle goes too: "York County North" becomes "York North" |
| Document.FindTable | app/scrape_strategies/waters_strategy.py:49 | None iff no table has the class; otherwise a table of the page with that class |
| Document.FindTableFirst | app/scrape_strategies/waters_strategy.py:49 | the table found is the first that has the class |
| Document.TdCells | app/scrape_strategies/waters_strategy.py:67 | the data cells of a row: no more than the row's cells, all `td` |
| Document.TdCellsMembership | app/scrape_strategies/waters_strategy.py:67 | a cell is found iff it is a `td` cell of the row: every data cell is kept and nothing else |
| Document.TdCellsConcat | app/scrape_strategies/waters_strategy.py:67 | the data cells of consecutive runs of cells come in the row's order |
| Document.TdCellsOfDataRow | app/scrape_strategies/waters_strategy.py:67 | a row of data cells is its own `find_all("td")` |
| WatersStrategy.Parse | app/scrape_strategies/waters_strategy.py:47-111 | None iff there is no "wikitable"; otherwise the records of the six-cell rows after the header |
| WatersStrategy.SixCellRecordsMembership | app/scrape_strategies/waters_strategy.py:61-92 | a record is produced iff some row has exactly six data cells and maps to it |
| WatersStrategy.SixCellRecordsFromRows | app/scrape_strategies/waters_strategy.py:70-88 | every record comes from a six-cell row |
| WatersStrategy.SixCellRowRecorded | app/scrape_strategies/waters_strategy.py:70-92 | every six-cell row gives its record, whatever the rows around it |
| WatersStrategy.SixCellRecordsConcat | app/scrape_strategies/waters_strategy.py:61-88 | records follow row order |
| WatersStrategy.SixCellRecordsBound | app/scrape_strategies/waters_strategy.py:61-88 | at most one record per row |
| WatersStrategy.RecordKeys | app/scrape_strategies/waters_strategy.py:79-88 | a record has exactly the six keys |
| WatersStrategy.HeaderOnly | app/scrape_strategies/waters_strategy.py:61 | an empty or header-only table gives [] |
| ProposedWatersStrategy.Parse | app_proposed_changes/scrape_strategies/waters_strategy.py:9-52 | [] without a "wikitable"; otherwise the records of the rows after the header with six or more data cells |
| ProposedWatersStrategy.WideRecordsFromRows | app_proposed_changes/scrape_strategies/waters_strategy.py:25-43 | every record comes from a row with at least six data cells, from its first six |
| ProposedWatersStrategy.WideRowRecorded | app_proposed_changes/scrape_strategies/waters_strategy.py:25-43 | every such row gives its record |
| ProposedWatersStrategy.WideRecordsConcat | app_proposed_changes/scrape_strategies/waters_strategy.py:22-43 | records follow row order |
| ProposedWatersStrategy.AgreesOnNarrowRows | app_proposed_changes/scrape_strategies/waters_strategy.py:25-34 | on tables without rows of more than six cells it reads what the guarded revision reads |
| ProposedWatersStrategy.RecordsAreComplete | app_proposed_changes/scrape_strategies/waters_strategy.py:36-43 | its records never make the proposed post-processing raise KeyError |
| UnguardedWatersStrategy.Parse | app/scrapers/scrape_strategies/waters_strategy.py:16-51 | raises without a "wikitable"; otherwise raises iff a row after the header has fewer than six data cells, and else gives one record per such row, in order |
| UnguardedWatersStrategy.AgreesWithProposed | app/scrapers/scrape_strategies/waters_strategy.py:33-49 | when it returns, the proposed revision reads the same records |
| GdpStrategy.Parse | app/scrapers/scrape_strategies/wikipedia_gdp_strategy.py:17-88 | [] without a table; otherwise the accepted rows' entries of the chosen table |
| GdpStrategy.ChooseTableSpec | app/scrapers/scrape_strategies/wikipedia_gdp_strategy.py:35-49 | no table iff none is "wikitable sortable" or "wikitable"; a sortable table wins |
| GdpStrategy.AcceptRowSpec | app/scrapers/scrape_strategies/wikipedia_gdp_strategy.py:54-86 | a row is accepted iff it has two cells, starts with a `td`, has a non-empty cleaned country and figure, a non-aggregate country and a figure starting with a digit; the entry is the two cleaned texts |
| GdpStrategy.CleanHasNoBracket | app/scrapers/scrape_strategies/wikipedia_gdp_strategy.py:71-72 | cleaning leaves no '[' |
| GdpStrategy.EntryShape | app/scrapers/scrape_strategies/wikipedia_gdp_strategy.py:71-86 | an entry's country is non-empty and not an aggregate; its figure starts with a digit; neither has '[' |
| GdpStrategy.GdpRowsFromRows | app/scrapers/scrape_strategies/wikipedia_gdp_strategy.py:53-86 | every entry comes from an accepted row |
| GdpStrategy.AcceptedRowListed | app/scrapers/scrape_strategies/wikipedia_gdp_strategy.py:53-86 | every accepted row gives its entry |
| GdpStrategy.GdpRowsConcat | app/scrapers/scrape_strategies/wikipedia_gdp_strategy.py:53-86 | entries follow row order |
| GdpStrategy.ResultsShape | app/scrapers/scrape_strategies/wikipedia_gdp_strategy.py:53-88 | every result's figure starts with a digit, has no '[', and its country is not an aggregate |
| GdpStrategy.FootnoteDropped | app/scrapers/scrape_strategies/wikipedia_gdp_strategy.py:71-86 | "17[8]" is read as "17" |
| GdpStrategy.WorldSkipped | app/scrapers/scrape_strategies/wikipedia_gdp_strategy.py:77-80 | the "World" row is skipped |
| GdpTextStrategy.Parse | app/scrapers/scrape_strategies/wikipedia_gdp_text_strategy.py:9-66 | the report on the first "wikitable sortable" table's text, else the page's: it names the country; the marker error iff that text never contains "United States"; failures carry gdp ""; a figure is digits and commas with a digit, and a comma or more than four characters, within 70 characters after the marker behind whitespace only |
| GdpTextStrategy.MarkerEnd | app/scrapers/scrape_strategies/wikipedia_gdp_text_strategy.py:33-47 | the search starts within the text |
| GdpTextStrategy.MarkerMissingIff | app/scrapers/scrape_strategies/wikipedia_gdp_text_strategy.py:33-44 | the marker error happens iff the text nowhere contains "United States" |
| GdpTextStrategy.LineMarkerHoldsCountry | app/scrapers/scrape_strategies/wikipedia_gdp_text_strategy.py:12 | the line marker holds the plain marker one character in |
| GdpTextStrategy.WindowAt | app/scrapers/scrape_strategies/wikipedia_gdp_text_strategy.py:47-48 | at most 70 characters right after the marker, fewer only at the end of the text |
| GdpTextStrategy.LeadingNumberSpec | app/scrapers/scrape_strategies/wikipedia_gdp_text_strategy.py:53-56 | the capture is a non-empty digits-and-commas run right after the leading whitespace; none iff the next character is neither |
| GdpTextStrategy.ValidateSpec | app/scrapers/scrape_strategies/wikipedia_gdp_text_strategy.py:58-66 | the run is accepted iff it has a digit and a comma or more than four characters; failures carry an empty figure |
| GdpTextStrategy.ReportShape | app/scrapers/scrape_strategies/wikipedia_gdp_text_strategy.py:10-66 | every report names the country; a failure has gdp ""; a figure is digits and commas with a digit, and a comma or more than four digits |
| GdpTextStrategy.FigureAfterSpaces | app/scrapers/scrape_strategies/wikipedia_gdp_text_strategy.py:53-58 | the figure follows the window's leading whitespace |
| GdpTextStrategy.FigureInWindow | app/scrapers/scrape_strategies/wikipedia_gdp_text_strategy.py:47-66 | the figure occurs in the text within 70 characters after the marker, preceded only by whitespace |
| GdpTextStrategy.YearRejected | app/scrapers/scrape_strategies/wikipedia_gdp_text_strategy.py:60-62 | "United States 2024" is rejected as a year |
| ExampleStrategy.Parse | app/scrape_strategies/example_strategy.py:44-51 | the result has exactly the keys "title" and "heading" |
| ExampleStrategy.ParseTrimmed | app/scrape_strategies/example_strategy.py:45-49 | both values have no surrounding whitespace |
| ExampleStrategy.BlankTitleIsEmpty | app/scrape_strategies/example_strategy.py:46 | a whitespace-only title string gives "", not the placeholder |
| ExampleStrategy.BarePage | app/tests/strategies/test_example_strategy.py:67-80 | a page with neither element gives both placeholders |
| ExampleStrategyTwo.Parse | app/scrapers/scrape_strategies/example_strategy_2.py:52-63 | the result has exactly the keys "title" and "heading" |
| ExampleStrategyTwo.SameAsExample | app/scrapers/scrape_strategies/example_strategy_2.py:33-63 | same path and same result as the guarded example strategy on every page |
| UnguardedExampleStrategy.Parse | app/scrapers/scrape_strategies/example_strategy.py:8-15 | when it returns, exactly the keys "title" and "heading" |
| UnguardedExampleStrategy.RaisesIff | app/scrapers/scrape_strategies/example_strategy.py:9 | raises iff the title tag exists without a string |
| UnguardedExampleStrategy.AgreesWithExample | app/scrapers/scrape_strategies/example_strategy.py:9-10 | it reads what the guarded strategy reads, apart from its placeholders and an empty title string |
| TestBsStrategy.Parse | app/scrapers/scrape_strategies/test_bs_strategy.py:29-38 | the result has exactly the keys 'title' and 'h1' |
| TestBsStrategy.AgreesWithExample | app/scrapers/scrape_strategies/test_bs_strategy.py:29-36 | the title and h1 are the guarded example strategy's, or 'No title' and 'No h1' |
| Text.RStripChar | app/unintrusive_scraper/page_scraper.py:84 | the result is a prefix not ending in the character; only that character was removed |
| Text.ReplaceAllFirst | app_proposed_changes/scrapers/scrape_waters.py:37-38 | `str.replace` works left to right: the text before the first occurrence is kept, that occurrence replaced, and the rest after it replaced in turn |
| Text.BeforeFirst | app/scrapers/scrape_strategies/wikipedia_gdp_strategy.py:71-72 | the prefix before the first '[', which it does not contain |
| Text.DigitCommaRun | app/scrapers/scrape_strategies/wikipedia_gdp_text_strategy.py:53 | the longest digits-and-commas prefix |
| Text.Find | app/scrapers/scrape_strategies/wikipedia_gdp_text_strategy.py:33-40 | the lowest index of an occurrence, None iff there is none |

## Left out

- HTTP I/O (`requests.get`, `raise_for_status`, the 10-second timeout) is left out. Each attempt is one answer from a finite script: a body, or a timeout, HTTP error or other request error. An exhausted script fails every request.
- Downloading and evaluating robots.txt (`urllib.robotparser`, RFC 9309) is left out. The rule set is an abstract function from user agent and URL to allow, disallow or raise.
- The file system is left out. The cache directory is a map from file name to contents. A read or write error is a flag passed to the fetch. Directory creation and path joining are not modelled.
- PageScraper.PlanRaisesIff: a backoff of exactly 9223372036 whole seconds overflows `time.sleep` only when the jitter is about 0.855 or more; the model does not choose the jitter and counts that backoff as raising.
- `time.sleep` and `random.uniform` are left out. A pause is recorded as its deterministic seconds and the upper bound of its jitter.
- The delay and backoff factor of the current fetcher are integers, as its type hints say. Its own tests pass floats (`default_delay=0.001`, `retry_backoff_factor=1.01` at app/tests/unintrusive_scraper/test_page_scraper.py:132-134 and 152-154); these are not modelled. With a float backoff in (-1, 0), whether `time.sleep` raises depends on the jitter, which the model does not choose.
- A failed cache write leaves the modelled cache unchanged. In the source, `open(cache_path, "w")` (app/unintrusive_scraper/page_scraper.py:179, page_scraper_2.py:173, proposed_scraper.py:92) may already have created or truncated the file when the write fails, and a later fetch would serve that file as a cache hit. Partial files are not modelled.
- GdpStrategy.Parse: models `parse` on the page markup. Through `scrape` it receives a BeautifulSoup object instead (app/unintrusive_scraper/page_scraper.py:239-240), and `BeautifulSoup(soup, 'lxml')` at app/scrapers/scrape_strategies/wikipedia_gdp_strategy.py:30 then raises TypeError ("'NoneType' object is not callable", as the comment at lines 28-29 records). So through `scrape` this strategy gives None; the model states what `parse` does with markup.
- TestBsStrategy.Parse: the same holds for `BeautifulSoup(html_content, 'lxml')` at app/scrapers/scrape_strategies/test_bs_strategy.py:27. Through `scrape` it gives None; the model states what `parse` does with markup.
- `urllib.parse.urljoin` (section 5.2 of RFC 3986) stays an uninterpreted function.
- BeautifulSoup and lxml parsing are replaced by the abstract page. This covers:
  - `get_text`;
  - nested tables;
  - class matching, modelled as "one of the classes or the whole attribute";
  - the CSS selector of `parse_data`, an abstract `select` that returns the selected texts or raises.
- Python's Unicode semantics of `strip`, `lower`, `isdigit`, `\s` and `\d` are left out. They are modelled over ASCII.
- Logging is left out, and so are the `debug_info` entries of app/scrapers/scrape_strategies/wikipedia_gdp_text_strategy.py.
- The iteration order of the region `set` is left out. The model iterates regions in first-occurrence order. ScrapeWaters.RestigoucheLake states the rows in that order, which is one of the orders Python may produce; ScrapeWaters.RestigoucheLakeAnyOrder states the order-free fact (the same rows as a multiset). The membership lemmas (`EntryRowsMembership`, `ProcessedMembership`) do not depend on the order.
- Each strategy's `get_url` is its module's constant `Url`.
- Exception handlers that no modelled input reaches are left out:
  - app/scrape_strategies/example_strategy.py:53-60;
  - app/scrape_strategies/waters_strategy.py:56-58 and 93-108, and its `isinstance` checks;
  - app_proposed_changes/scrape_strategies/waters_strategy.py:44-50;
  - app/scrapers/scrape_strategies/wikipedia_gdp_text_strategy.py:28-30 and 68-70;
  - the `TypeError`/`Exception` handlers of app/scrapers/scrape_waters.py:132-143.
- ProposedWaters.ReadWater: record values are strings. A non-string value, which would raise AttributeError, is not modelled.
- The proposed post-processing is not fed None when the scrape fails, because the module-level script at app_proposed_changes/scrapers/scrape_waters.py:48-56 is left out.
- Entry scripts, CLI and environment handling are left out. This covers app/main.py, run.py, the scrape_* scripts and the examples.
- Regions.Dedup: a Python set has no order. The model fixes first-occurrence order, so the row order within one water body is one of the orders Python may produce.
