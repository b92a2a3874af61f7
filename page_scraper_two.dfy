/**
 * The second revision of the polite fetcher, `UnintrusivePageScraper` of
 * app/unintrusive_scraper/page_scraper_2.py: the base URL is kept verbatim, a
 * robots evaluation error is not caught, the cache key sanitises five
 * characters, every request is preceded by a polite pause, a failed attempt
 * backs off by `delay * 2 ** attempt`, a cache-write error escapes, and
 * `scrape` falls back to the empty list.
 */
module PageScraperTwo {
  import opened Wrappers
  import opened Text
  import opened Fetching

  /** The cache file name of a URL: every '/', ':', '?', '=' and '&' replaced by
      '_' (the scheme is kept) and ".html" appended. */
  function CacheFilename(url: string): (name: string)
    ensures |name| == |url| + 5 && EndsWith(name, ".html")
    ensures forall c :: c in "/:?=&" ==> c !in name
    ensures forall i :: 0 <= i < |url| ==> name[i] == (if url[i] in "/:?=&" then '_' else url[i])
  {
    var a := ReplaceChar(url, '/', '_');
    var b := ReplaceChar(a, ':', '_');
    var c := ReplaceChar(b, '?', '_');
    var d := ReplaceChar(c, '=', '_');
    var e := ReplaceChar(d, '&', '_');
    ReplaceCharRemoves(url, '/', '_', '/');
    ReplaceCharRemoves(a, ':', '_', '/');
    ReplaceCharRemoves(b, '?', '_', '/');
    ReplaceCharRemoves(c, '=', '_', '/');
    ReplaceCharRemoves(d, '&', '_', '/');
    ReplaceCharRemoves(a, ':', '_', ':');
    ReplaceCharRemoves(b, '?', '_', ':');
    ReplaceCharRemoves(c, '=', '_', ':');
    ReplaceCharRemoves(d, '&', '_', ':');
    ReplaceCharRemoves(b, '?', '_', '?');
    ReplaceCharRemoves(c, '=', '_', '?');
    ReplaceCharRemoves(d, '&', '_', '?');
    ReplaceCharRemoves(c, '=', '_', '=');
    ReplaceCharRemoves(d, '&', '_', '=');
    ReplaceCharRemoves(d, '&', '_', '&');
    e + ".html"
  }

  /** The scheme stays in the name: "https://a.b/c?d=e" is cached as
      "https___a.b_c_d_e.html". */
  lemma CacheFilenameKeepsScheme()
    ensures CacheFilename("https://a.b/c?d=e") == "https___a.b_c_d_e.html"
  {
    var name := CacheFilename("https://a.b/c?d=e");
    assert name[..17] == "https___a.b_c_d_e";
    assert name == name[..17] + name[17..];
  }

  /** The URL `scrape` fetches: the base URL as given, followed by the strategy's
      path with a '/' put in front when it does not start with one. */
  function TargetUrl(base: string, path: string): (url: string)
    ensures StartsWith(url, base) && |url| > |base| && url[|base|] == '/'
    ensures StartsWith(path, "/") ==> url == base + path
    ensures !StartsWith(path, "/") ==> url == base + "/" + path
  {
    if StartsWith(path, "/") then base + path else base + ("/" + path)
  }

  /** The pause schedule of this revision: `delay` seconds plus a jitter below 0.5
      before every request, and after a failed attempt that is not the last one a
      backoff of `delay * 2 ** attempt` seconds plus a jitter below 1. */
  function PoliteSchedule(delay: int): Schedule {
    Schedule([Pause(delay, 0.5)], delay, 2, 1.0, [])
  }

  /** The pauses alternate: a polite pause before every request, and between two
      requests the backoff of the attempt that failed. So there are two pauses
      per request but the last. */
  lemma {:induction false} PolitePauses(net: seq<Outcome>, attempt: nat, maxRetries: int, delay: int)
    ensures var r := Attempts(net, attempt, maxRetries, PoliteSchedule(delay));
      PoliteShape(r.pauses, r.requests, attempt, delay)
    decreases maxRetries - attempt
  {
    if attempt < maxRetries - 1 && Nth(net, attempt).Failed? {
      PolitePauses(net, attempt + 1, maxRetries, delay);
      PoliteStep(net, attempt, maxRetries, delay);
    }
  }

  /** `requests` requests took `pauses`: the polite pause before each, and
      between the j-th and the next the backoff `delay * 2 ** (attempt + j)`. */
  ghost predicate PoliteShape(pauses: seq<Pause>, requests: nat, attempt: nat, delay: int) {
    && |pauses| == (if requests == 0 then 0 else 2 * requests - 1)
    && forall i :: 0 <= i < |pauses| ==>
         pauses[i] == (if i % 2 == 0 then Pause(delay, 0.5) else Pause(delay * Pow(2, attempt + i / 2), 1.0))
  }

  /** A failed attempt that is not the last adds its polite pause and its backoff
      in front of the pauses of the attempts after it. */
  lemma PoliteStep(net: seq<Outcome>, attempt: nat, maxRetries: int, delay: int)
    requires attempt < maxRetries - 1 && Nth(net, attempt).Failed?
    requires var rest := Attempts(net, attempt + 1, maxRetries, PoliteSchedule(delay));
      PoliteShape(rest.pauses, rest.requests, attempt + 1, delay)
    ensures var r := Attempts(net, attempt, maxRetries, PoliteSchedule(delay));
      PoliteShape(r.pauses, r.requests, attempt, delay)
  {
    var s := PoliteSchedule(delay);
    var rest := Attempts(net, attempt + 1, maxRetries, s);
    assert rest.requests >= 1;
    PoliteShift(rest.pauses, rest.requests, attempt, delay);
    var r := Attempts(net, attempt, maxRetries, s);
    assert r == Run(rest.response, rest.requests + 1,
                    [Pause(delay, 0.5), Pause(delay * Pow(2, attempt), 1.0)] + rest.pauses);
  }

  /** One more failed attempt in front of `rest`: a polite pause and a backoff
      one step lower keep the alternating shape. */
  lemma PoliteShift(rest: seq<Pause>, requests: nat, attempt: nat, delay: int)
    requires requests >= 1 && PoliteShape(rest, requests, attempt + 1, delay)
    ensures PoliteShape([Pause(delay, 0.5), Pause(delay * Pow(2, attempt), 1.0)] + rest, requests + 1, attempt, delay)
  {
    var all := [Pause(delay, 0.5), Pause(delay * Pow(2, attempt), 1.0)] + rest;
    forall i | 2 <= i < |all|
      ensures all[i] == (if i % 2 == 0 then Pause(delay, 0.5) else Pause(delay * Pow(2, attempt + i / 2), 1.0))
    {
      assert all[i] == rest[i - 2];
      assert (i - 2) % 2 == i % 2 && attempt + 1 + (i - 2) / 2 == attempt + i / 2;
    }
  }

  /** What `get_page_content` does, given the robots answer, the cached text (if
      the cache file exists), whether reading or writing the cache file fails,
      and what the network answers. */
  function Plan(robots: RobotsAnswer, stored: Option<string>, readFault: bool, writeFault: bool,
                net: seq<Outcome>, maxRetries: int, delay: int): (p: Fetch)
    // a robots error escapes; a denial returns None; neither touches cache or network
    ensures robots == Raise ==> p == Fetch(Raised, false, 0, [], None)
    ensures robots == Disallow ==> p == Fetch(NoPage, false, 0, [], None)
    // cache hit: the stored text, with no request and no pause
    ensures robots == Allow && stored.Some? && !readFault ==> p == Fetch(Page(stored.value), true, 0, [], None)
    // at most max_retries requests
    ensures p.requests <= (if maxRetries > 0 then maxRetries else 0)
    // a fetched body is stored, or the write error escapes and the body is lost
    ensures p.requests > 0 && p.content != NoPage ==>
      if writeFault then p.content == Raised && p.write == None
      else p.content.Page? && p.write == Some(p.content.text)
    ensures p.write.Some? ==> p.content == Page(p.write.value) && p.requests > 0
  {
    if robots == Raise then Fetch(Raised, false, 0, [], None)
    else if robots == Disallow then Fetch(NoPage, false, 0, [], None)
    else if stored.Some? && !readFault then Fetch(Page(stored.value), true, 0, [], None)
    else
      var r := Attempts(net, 0, maxRetries, PoliteSchedule(delay));
      AttemptsBound(net, 0, maxRetries, PoliteSchedule(delay));
      match r.response
      case None => Fetch(NoPage, true, r.requests, r.pauses, None)
      case Some(body) =>
        if writeFault then Fetch(Raised, true, r.requests, r.pauses, None)
        else Fetch(Page(body), true, r.requests, r.pauses, Some(body))
  }

  /** When the cache does not answer and all three attempts fail, the fetch
      returns None after three requests and five pauses: polite, a backoff of
      `delay`, polite, a backoff of `2 * delay`, polite. */
  lemma PlanAllFail(stored: Option<string>, readFault: bool, writeFault: bool, net: seq<Outcome>, delay: int)
    requires !(stored.Some? && !readFault)
    requires forall i :: 0 <= i < 3 ==> Nth(net, i).Failed?
    ensures var p := Plan(Allow, stored, readFault, writeFault, net, 3, delay);
      && p.content == NoPage && p.requests == 3 && p.write == None
      && p.pauses == [Pause(delay, 0.5), Pause(delay, 1.0), Pause(delay, 0.5), Pause(delay * 2, 1.0), Pause(delay, 0.5)]
  {
    AllAttemptsFail(net, 0, 3, PoliteSchedule(delay));
    PolitePauses(net, 0, 3, delay);
    var p := Plan(Allow, stored, readFault, writeFault, net, 3, delay);
    assert Pow(2, 0) == 1 && Pow(2, 1) == 2;
    assert p.pauses[1] == Pause(delay * Pow(2, 0), 1.0);
    assert p.pauses[3] == Pause(delay * Pow(2, 1), 1.0);
  }

  class UnintrusivePageScraper {
    const baseUrl: string
    const robotsUrl: string
    const rules: RobotRules
    const delay: int
    const maxRetries: int

    /** The cache directory: file name to file contents. */
    var cache: map<string, string>
    /** What the network will answer to the next requests, in order. */
    var network: seq<Outcome>

    /** Every URL requested so far, every pause taken, every cache file looked up. */
    ghost var requested: seq<string>
    ghost var slept: seq<Pause>
    ghost var cacheReads: seq<string>

    /** `__init__`: the base URL is kept as given, robots.txt is looked for right
        under it, the delay is one second and at most three attempts are made. */
    constructor (base: string, rules: RobotRules, disk: map<string, string>, network: seq<Outcome>)
      ensures baseUrl == base && robotsUrl == base + "/robots.txt" && this.rules == rules
      ensures delay == 1 && maxRetries == 3
      ensures cache == disk && this.network == network
      ensures requested == [] && slept == [] && cacheReads == []
    {
      baseUrl := base;
      robotsUrl := base + "/robots.txt";
      this.rules := rules;
      delay := 1;
      maxRetries := 3;
      cache := disk;
      this.network := network;
      requested := [];
      slept := [];
      cacheReads := [];
    }

    /** `can_fetch`: the rule set's verdict for the fixed user agent, an error
        included (it is not caught here). */
    function CanFetch(url: string): (answer: RobotsAnswer)
      ensures answer == rules(UserAgent, url)
    {
      rules(UserAgent, url)
    }

    /** What `get_page_content(url)` will do from the current state. */
    function PlanFor(url: string, readFault: bool, writeFault: bool): Fetch
      reads this
    {
      var key := CacheFilename(url);
      Plan(CanFetch(url), if key in cache then Some(cache[key]) else None, readFault, writeFault,
           network, maxRetries, delay)
    }

    /** The state changed as the fetch p of `url` says and in no other way. */
    twostate predicate Did(url: string, p: Fetch)
      reads this
    {
      var key := CacheFilename(url);
      && network == Drop(old(network), p.requests)
      && requested == old(requested) + Repeat(url, p.requests)
      && slept == old(slept) + p.pauses
      && cacheReads == old(cacheReads) + (if p.readCache then [key] else [])
      && cache == (if p.write.Some? then old(cache)[key := p.write.value] else old(cache))
    }

    /** `get_page_content`. */
    method GetPageContent(url: string, readFault: bool, writeFault: bool) returns (content: Content)
      modifies this
      ensures content == old(PlanFor(url, readFault, writeFault)).content
      ensures Did(url, old(PlanFor(url, readFault, writeFault)))
    {
      var answer := CanFetch(url);
      if answer == Raise {
        return Raised;
      }
      if answer == Disallow {
        return NoPage;
      }
      var key := CacheFilename(url);
      cacheReads := cacheReads + [key];
      if key in cache && !readFault {
        return Page(cache[key]);
      }
      var body, requests, rest, pauses := RetryLoop(network, maxRetries, PoliteSchedule(delay));
      network := rest;
      requested := requested + Repeat(url, requests);
      slept := slept + pauses;
      if body.None? {
        return NoPage;
      }
      if writeFault {
        return Raised;
      }
      cache := cache[key := body.value];
      content := Page(body.value);
    }

    /** `scrape`: the page at base URL + path (with a leading '/') is fetched and
        handed to the strategy; no content, empty content and a parse exception
        all give `[]`, while an exception from the fetch escapes. */
    method Scrape<R>(strategy: Strategy<R>, readFault: bool, writeFault: bool) returns (result: Scraped<R>)
      modifies this
      ensures var url := TargetUrl(baseUrl, strategy.path);
        var p := old(PlanFor(url, readFault, writeFault));
        Did(url, p) && result == ScrapeResult(p.content, strategy.parse)
    {
      var url := TargetUrl(baseUrl, strategy.path);
      var content := GetPageContent(url, readFault, writeFault);
      if content == Raised {
        return Escaped;
      }
      if !content.Page? || content.text == "" {
        return Empty;
      }
      match strategy.parse(content.text) {
        case Returned(v) => result := Value(v);
        case ParseRaised => result := Empty;
      }
    }
  }
}
