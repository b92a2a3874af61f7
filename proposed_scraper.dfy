/**
 * The proposed revision of the polite fetcher, `UnintrusiveScraper` of
 * app/unintrusive_scraper/proposed_scraper.py: URLs are resolved with
 * `urljoin`, nothing that raises is caught (robots evaluation, cache read and
 * write, parsing), every attempt but the last is followed by a `finally` pause,
 * and `scrape` falls back to the empty dict.
 */
module ProposedScraper {
  import opened Wrappers
  import opened Text
  import opened Fetching
  import PageScraper

  /** The pause schedule of this revision: after a failed attempt that is not the
      last one, a backoff of `delay * 2 ** attempt` seconds plus a jitter below
      0.5; and in the `finally` clause, after every attempt but the last whatever
      its outcome, `delay` seconds plus a jitter below 0.5. */
  function FinallySchedule(delay: int): Schedule {
    Schedule([], delay, 2, 0.5, [Pause(delay, 0.5)])
  }

  /** The pauses of the retry loop: each failed attempt but the last is followed
      by its backoff and the `finally` pause; a successful attempt that is not the
      last one is followed by the `finally` pause alone. */
  lemma {:induction false} FinallyPauses(net: seq<Outcome>, attempt: nat, maxRetries: int, delay: int)
    ensures var r := Attempts(net, attempt, maxRetries, FinallySchedule(delay));
      FinallyShape(r.pauses, r.requests, if r.response.Some? && attempt + r.requests < maxRetries then 1 else 0, attempt, delay)
    decreases maxRetries - attempt
  {
    var s := FinallySchedule(delay);
    if attempt >= maxRetries {
    } else if Nth(net, attempt).Response? {
      assert Attempts(net, attempt, maxRetries, s).pauses == if attempt < maxRetries - 1 then [Pause(delay, 0.5)] else [];
    } else if attempt == maxRetries - 1 {
    } else {
      FinallyPauses(net, attempt + 1, maxRetries, delay);
      FinallyStep(net, attempt, maxRetries, delay);
    }
  }

  /** A failed attempt that is not the last adds its backoff and the `finally`
      pause in front of the pauses of the attempts after it. */
  lemma FinallyStep(net: seq<Outcome>, attempt: nat, maxRetries: int, delay: int)
    requires attempt < maxRetries - 1 && Nth(net, attempt).Failed?
    requires var rest := Attempts(net, attempt + 1, maxRetries, FinallySchedule(delay));
      FinallyShape(rest.pauses, rest.requests, if rest.response.Some? && attempt + 1 + rest.requests < maxRetries then 1 else 0, attempt + 1, delay)
    ensures var r := Attempts(net, attempt, maxRetries, FinallySchedule(delay));
      FinallyShape(r.pauses, r.requests, if r.response.Some? && attempt + r.requests < maxRetries then 1 else 0, attempt, delay)
  {
    var s := FinallySchedule(delay);
    var rest := Attempts(net, attempt + 1, maxRetries, s);
    assert rest.requests >= 1;
    var extra := if rest.response.Some? && attempt + 1 + rest.requests < maxRetries then 1 else 0;
    FinallyShift(rest.pauses, rest.requests, extra, attempt, delay);
    var r := Attempts(net, attempt, maxRetries, s);
    assert r == Run(rest.response, rest.requests + 1,
                    [Pause(delay * Pow(2, attempt), 0.5), Pause(delay, 0.5)] + rest.pauses);
    assert extra == if r.response.Some? && attempt + r.requests < maxRetries then 1 else 0;
  }

  /** `requests` requests took `pauses`: a backoff `delay * 2 ** (attempt + j)`
      then a `finally` pause after the j-th failed one, and the `finally` pause
      alone (`extra` is 1) after a successful request that was not the last. */
  ghost predicate FinallyShape(pauses: seq<Pause>, requests: nat, extra: nat, attempt: nat, delay: int) {
    && |pauses| == (if requests == 0 then 0 else 2 * (requests - 1) + extra)
    && forall i :: 0 <= i < |pauses| ==>
         pauses[i] == (if i % 2 == 1 || i == 2 * (requests - 1) then Pause(delay, 0.5)
                       else Pause(delay * Pow(2, attempt + i / 2), 0.5))
  }

  /** One more failed attempt in front of `rest`: its backoff and the `finally`
      pause keep the alternating shape, and the final pause moves two places on. */
  lemma FinallyShift(rest: seq<Pause>, requests: nat, extra: nat, attempt: nat, delay: int)
    requires requests >= 1 && FinallyShape(rest, requests, extra, attempt + 1, delay)
    ensures FinallyShape([Pause(delay * Pow(2, attempt), 0.5), Pause(delay, 0.5)] + rest, requests + 1, extra, attempt, delay)
  {
    var all := [Pause(delay * Pow(2, attempt), 0.5), Pause(delay, 0.5)] + rest;
    forall i | 2 <= i < |all|
      ensures all[i] == (if i % 2 == 1 || i == 2 * requests then Pause(delay, 0.5)
                         else Pause(delay * Pow(2, attempt + i / 2), 0.5))
    {
      assert all[i] == rest[i - 2];
      assert (i - 2) % 2 == i % 2 && attempt + 1 + (i - 2) / 2 == attempt + i / 2;
    }
  }

  /** What `get_page_content` does, given the robots answer, the cached text (if
      the cache file exists), whether reading or writing the cache file fails,
      and what the network answers. */
  function Plan(robots: RobotsAnswer, stored: Option<string>, readFault: bool, writeFault: bool,
                net: seq<Outcome>, maxRetries: int, delay: int): (p: Fetch)
    // a robots error escapes; a denial returns None; neither touches cache or network
    ensures robots == Raise ==> p == Fetch(Raised, false, 0, [], None)
    ensures robots == Disallow ==> p == Fetch(NoPage, false, 0, [], None)
    // an existing cache file is returned, or its read error escapes; no request either way
    ensures robots == Allow && stored.Some? ==>
      p == Fetch(if readFault then Raised else Page(stored.value), true, 0, [], None)
    // at most max_retries requests
    ensures p.requests <= (if maxRetries > 0 then maxRetries else 0)
    // a fetched body is stored, or the write error escapes and the body is lost
    ensures p.requests > 0 && p.content != NoPage ==>
      if writeFault then p.content == Raised && p.write == None
      else p.content.Page? && p.write == Some(p.content.text)
    ensures p.write.Some? ==> p.content == Page(p.write.value) && p.requests > 0
  {
    if robots == Raise then Fetch(Raised, false, 0, [], None)
    else if robots == Disallow then Fetch(NoPage, false, 0, [], None)
    else if stored.Some? then Fetch(if readFault then Raised else Page(stored.value), true, 0, [], None)
    else
      var r := Attempts(net, 0, maxRetries, FinallySchedule(delay));
      AttemptsBound(net, 0, maxRetries, FinallySchedule(delay));
      match r.response
      case None => Fetch(NoPage, true, r.requests, r.pauses, None)
      case Some(body) =>
        if writeFault then Fetch(Raised, true, r.requests, r.pauses, None)
        else Fetch(Page(body), true, r.requests, r.pauses, Some(body))
  }

  /** When nothing is cached and all three attempts fail, the fetch returns None
      after three requests and four pauses: a backoff of `delay`, the `finally`
      pause, a backoff of `2 * delay`, the `finally` pause. */
  lemma PlanAllFail(net: seq<Outcome>, delay: int)
    requires forall i :: 0 <= i < 3 ==> Nth(net, i).Failed?
    ensures var p := Plan(Allow, None, false, false, net, 3, delay);
      && p.content == NoPage && p.requests == 3 && p.write == None
      && p.pauses == [Pause(delay, 0.5), Pause(delay, 0.5), Pause(delay * 2, 0.5), Pause(delay, 0.5)]
  {
    AllAttemptsFail(net, 0, 3, FinallySchedule(delay));
    FinallyPauses(net, 0, 3, delay);
    var p := Plan(Allow, None, false, false, net, 3, delay);
    assert Pow(2, 0) == 1 && Pow(2, 1) == 2;
    assert p.pauses[0] == Pause(delay * Pow(2, 0), 0.5);
    assert p.pauses[2] == Pause(delay * Pow(2, 1), 0.5);
  }

  /** A first attempt that succeeds is still followed by the `finally` pause. */
  lemma PlanFirstSucceeds(net: seq<Outcome>, delay: int)
    requires Nth(net, 0).Response?
    ensures var p := Plan(Allow, None, false, false, net, 3, delay);
      && p.content == Page(Nth(net, 0).body) && p.requests == 1
      && p.pauses == [Pause(delay, 0.5)] && p.write == Some(Nth(net, 0).body)
  {
    SucceedsAt(net, 0, 0, 3, FinallySchedule(delay));
    FinallyPauses(net, 0, 3, delay);
  }

  /** `parse_data`: the stripped texts of the elements a CSS selector picks out of
      the page. `select` stands for parsing the page and applying the selector,
      which either gives the elements' texts or raises; here a raise escapes.
      Empty content gives the empty list. */
  function ParseData(html: string, select: string -> Parsed<seq<string>>): (r: Parsed<seq<string>>)
    ensures html == "" ==> r == Returned([])
    ensures html != "" ==> (r.ParseRaised? <==> select(html).ParseRaised?)
    ensures html != "" && r.Returned? ==>
      |r.value| == |select(html).value| && forall i :: 0 <= i < |r.value| ==> r.value[i] == Strip(select(html).value[i])
  {
    if html == "" then Returned([])
    else match select(html)
      case ParseRaised => ParseRaised
      case Returned(texts) => Returned(seq(|texts|, i requires 0 <= i < |texts| => Strip(texts[i])))
  }

  /** What `scrape` returns for what it fetched: an exception from the fetch or
      from parsing escapes, no content or empty content gives `{}`, and otherwise
      the strategy's result. */
  function ScrapeUncaughtResult<R>(content: Content, parse: string -> Parsed<R>): (r: Scraped<R>)
    ensures r.Empty? <==> content == NoPage || content == Page("")
    ensures r.Escaped? <==> content == Raised || (content.Page? && content.text != "" && parse(content.text).ParseRaised?)
    ensures r.Value? ==> content.Page? && r.value == parse(content.text).value
  {
    match content
    case Raised => Escaped
    case NoPage => Empty
    case Page(text) =>
      if text == "" then Empty
      else (match parse(text) case Returned(v) => Value(v) case ParseRaised => Escaped)
  }

  /** What `scrape_old` returns for what it fetched: an exception from the fetch
      or from `parse_data` escapes, no content or empty content gives `[]`, and
      otherwise the stripped texts `parse_data` returns. */
  function ScrapeOldResult(content: Content, select: string -> Parsed<seq<string>>): (r: Scraped<seq<string>>)
    ensures r.Empty? <==> content == NoPage || content == Page("")
    ensures r.Escaped? <==> content == Raised || (content.Page? && content.text != "" && select(content.text).ParseRaised?)
    ensures r.Value? ==> content.Page? && r.value == ParseData(content.text, select).value
  {
    match content
    case Raised => Escaped
    case NoPage => Empty
    case Page(text) =>
      if text == "" then Empty
      else (match ParseData(text, select) case Returned(v) => Value(v) case ParseRaised => Escaped)
  }

  class UnintrusiveScraper {
    const baseUrl: string
    /** `urllib.parse.urljoin`, resolving a reference against a base URL (section
        5.2 of RFC 3986); it is a library call and stays uninterpreted. */
    const urljoin: (string, string) -> string
    const robotsUrl: string
    const rules: RobotRules
    const delay: int
    const maxRetries: int

    /** The cache directory: file name to file contents. */
    var cache: map<string, string>
    /** What the network will answer to the next requests, in order. */
    var network: seq<Outcome>

    /** Every URL requested so far, every pause taken, every cache file looked up. */
    ghost var requested: seq<string>
    ghost var slept: seq<Pause>
    ghost var cacheReads: seq<string>

    /** `__init__`: the base URL is kept as given, robots.txt is resolved against
        it, the delay is one second and at most three attempts are made. */
    constructor (base: string, urljoin: (string, string) -> string, rules: RobotRules,
                 disk: map<string, string>, network: seq<Outcome>)
      ensures baseUrl == base && this.urljoin == urljoin && robotsUrl == urljoin(base, "robots.txt")
      ensures this.rules == rules && delay == 1 && maxRetries == 3
      ensures cache == disk && this.network == network
      ensures requested == [] && slept == [] && cacheReads == []
    {
      baseUrl := base;
      this.urljoin := urljoin;
      robotsUrl := urljoin(base, "robots.txt");
      this.rules := rules;
      delay := 1;
      maxRetries := 3;
      cache := disk;
      this.network := network;
      requested := [];
      slept := [];
      cacheReads := [];
    }

    /** `can_fetch`: the rule set's verdict for the fixed user agent; an error
        while evaluating it is not caught. The proposed file is a separate class
        whose `can_fetch` has the same code as the second revision's, so each
        class keeps its own. */
    function CanFetch(url: string): (answer: RobotsAnswer)
      ensures answer == rules(UserAgent, url)
    {
      rules(UserAgent, url)
    }

    /** What `get_page_content(url)` will do from the current state. */
    function PlanFor(url: string, readFault: bool, writeFault: bool): Fetch
      reads this
    {
      var key := PageScraper.SafeFilename(url);
      Plan(CanFetch(url), if key in cache then Some(cache[key]) else None, readFault, writeFault,
           network, maxRetries, delay)
    }

    /** The state changed as the fetch p of `url` says and in no other way. */
    twostate predicate Did(url: string, p: Fetch)
      reads this
    {
      var key := PageScraper.SafeFilename(url);
      && network == Drop(old(network), p.requests)
      && requested == old(requested) + Repeat(url, p.requests)
      && slept == old(slept) + p.pauses
      && cacheReads == old(cacheReads) + (if p.readCache then [key] else [])
      && cache == (if p.write.Some? then old(cache)[key := p.write.value] else old(cache))
    }

    /** `get_page_content`. */
    method GetPageContent(url: string, readFault: bool, writeFault: bool) returns (content: Content)
      modifies this
      ensures content == old(PlanFor(url, readFault, writeFault)).content
      ensures Did(url, old(PlanFor(url, readFault, writeFault)))
    {
      var answer := CanFetch(url);
      if answer == Raise {
        return Raised;
      }
      if answer == Disallow {
        return NoPage;
      }
      var key := PageScraper.SafeFilename(url);
      cacheReads := cacheReads + [key];
      if key in cache {
        if readFault {
          return Raised;
        }
        return Page(cache[key]);
      }
      var body, requests, rest, pauses := RetryLoop(network, maxRetries, FinallySchedule(delay));
      network := rest;
      requested := requested + Repeat(url, requests);
      slept := slept + pauses;
      if body.None? {
        return NoPage;
      }
      if writeFault {
        return Raised;
      }
      cache := cache[key := body.value];
      content := Page(body.value);
    }

    /** `scrape`: the strategy's path is resolved against the base URL, that page
        is fetched and handed to the strategy; no content and empty content give
        `{}`, and exceptions from fetching or parsing escape. */
    method Scrape<R>(strategy: Strategy<R>, readFault: bool, writeFault: bool) returns (result: Scraped<R>)
      modifies this
      ensures var url := urljoin(baseUrl, strategy.path);
        var p := old(PlanFor(url, readFault, writeFault));
        Did(url, p) && result == ScrapeUncaughtResult(p.content, strategy.parse)
    {
      var url := urljoin(baseUrl, strategy.path);
      var content := GetPageContent(url, readFault, writeFault);
      if content == Raised {
        return Escaped;
      }
      if !content.Page? || content.text == "" {
        return Empty;
      }
      match strategy.parse(content.text) {
        case Returned(v) => result := Value(v);
        case ParseRaised => result := Escaped;
      }
    }

    /** `scrape_old`: the page at `url` itself is fetched and `parse_data` is
        applied to it; no content and empty content give `[]`. */
    method ScrapeOld(url: string, select: string -> Parsed<seq<string>>, readFault: bool, writeFault: bool)
      returns (result: Scraped<seq<string>>)
      modifies this
      ensures var p := old(PlanFor(url, readFault, writeFault));
        Did(url, p) && result == ScrapeOldResult(p.content, select)
    {
      var content := GetPageContent(url, readFault, writeFault);
      if content == Raised {
        return Escaped;
      }
      if content.Page? && content.text != "" {
        match ParseData(content.text, select) {
          case Returned(texts) => result := Value(texts);
          case ParseRaised => result := Escaped;
        }
      } else {
        result := Empty;
      }
    }
  }
}
