/**
 * The current polite fetcher, `UnintrusivePageScraper` of
 * app/unintrusive_scraper/page_scraper.py: robots gate (an evaluation error
 * counts as "not allowed"), then the file cache, then `max_retries` attempts with
 * exponential backoff (whose sleep raises for a negative or an enormous backoff), a
 * write-through to the cache that may fail harmlessly, and `scrape`, which
 * turns every failure of the strategy into None.
 */
module PageScraper {
  import opened Wrappers
  import opened Text
  import opened Fetching

  /** The cache file name of a URL: every "http://" and then every "https://"
      removed, every '/' and then every ':' replaced by '_', and ".html" appended.
      It can be used as a file name in the cache directory. */
  function SafeFilename(url: string): (name: string)
    ensures '/' !in name && ':' !in name
    ensures EndsWith(name, ".html")
  {
    var bare := ReplaceAll(ReplaceAll(url, "http://", ""), "https://", "");
    var noSlash := ReplaceChar(bare, '/', '_');
    ReplaceCharRemoves(bare, '/', '_', '/');
    ReplaceCharRemoves(noSlash, ':', '_', '/');
    ReplaceCharRemoves(noSlash, ':', '_', ':');
    ReplaceChar(noSlash, ':', '_') + ".html"
  }

  /** Distinct URLs can share a cache file: the scheme is dropped and '/' and ':'
      both become '_'. */
  lemma SafeFilenameCollides()
    ensures "a/b" != "a:b" && SafeFilename("a/b") == SafeFilename("a:b")
  {
    assert ReplaceAll("a/b", "http://", "") == "a/b";
    assert ReplaceAll("a:b", "http://", "") == "a:b";
    assert ReplaceAll("a/b", "https://", "") == "a/b";
    assert ReplaceAll("a:b", "https://", "") == "a:b";
    assert ReplaceChar(ReplaceChar("a/b", '/', '_'), ':', '_') == "a_b";
    assert ReplaceChar(ReplaceChar("a:b", '/', '_'), ':', '_') == "a_b";
  }

  /** The URL `scrape` fetches: the base URL with all trailing '/' removed (as
      stored by the constructor) followed by the strategy's path verbatim. For a
      path that starts with '/', exactly that '/' separates the two parts. */
  lemma FullUrlSeparator(base: string, path: string)
    requires path != [] && path[0] == '/'
    ensures var b := RStripChar(base, '/'); var url := b + path;
      && StartsWith(url, b) && url[|b|] == '/'
      && (b == [] || url[|b| - 1] != '/')
  {
  }

  /** This revision sleeps only after a failed attempt that is not the last one:
      `delay * retry_backoff_factor ** attempt` seconds plus a jitter below 1. */
  function RetrySchedule(delay: int, factor: int): Schedule {
    Schedule([], delay, factor, 1.0, [])
  }

  /** The pauses of the retry loop: one fewer than the requests, none before the
      first request and none after the last, and the j-th is the backoff after the
      j-th failed attempt. */
  lemma {:induction false} RetryPauses(net: seq<Outcome>, attempt: nat, maxRetries: int, delay: int, factor: int)
    ensures var r := Attempts(net, attempt, maxRetries, RetrySchedule(delay, factor));
      && |r.pauses| == (if r.requests == 0 then 0 else r.requests - 1)
      && forall j :: 0 <= j < |r.pauses| ==> r.pauses[j] == Pause(delay * Pow(factor, attempt + j), 1.0)
    decreases maxRetries - attempt
  {
    var s := RetrySchedule(delay, factor);
    if attempt < maxRetries - 1 && Nth(net, attempt).Failed? {
      RetryPauses(net, attempt + 1, maxRetries, delay, factor);
      var rest := Attempts(net, attempt + 1, maxRetries, s);
      var r := Attempts(net, attempt, maxRetries, s);
      assert r.pauses == [Backoff(s, attempt)] + rest.pauses;
      assert rest.requests >= 1;
    }
  }

  /** `time.sleep` raises ValueError for a negative argument and OverflowError
      for one of 2**63 nanoseconds or more, about 9223372036.85 seconds. A
      backoff sleeps `delay * factor ** attempt` whole seconds plus a jitter in
      [0, 1), so with integer tunables it raises for a negative whole part and
      for a whole part of 9223372037 or more; for exactly 9223372036 it raises
      only with a large jitter, which the model counts as raising. */
  const SleepLimit: int := 9223372036

  predicate SleepRaises(seconds: int) {
    seconds < 0 || seconds >= SleepLimit
  }

  /** Whether the backoff sleep after failed attempt `attempt` raises. */
  predicate BackoffRaises(delay: int, factor: int, attempt: nat) {
    SleepRaises(delay * Pow(factor, attempt))
  }

  /** The first backoff from number `j` on, below `n`, whose sleep raises. */
  function FirstRaisingBackoff(delay: int, factor: int, j: nat, n: nat): (r: Option<nat>)
    ensures r.Some? ==> j <= r.value < n && BackoffRaises(delay, factor, r.value)
    ensures r.Some? ==> forall i :: j <= i < r.value ==> !BackoffRaises(delay, factor, i)
    ensures r.None? <==> forall i :: j <= i < n ==> !BackoffRaises(delay, factor, i)
    decreases n - j
  {
    if j >= n then None
    else if BackoffRaises(delay, factor, j) then Some(j)
    else FirstRaisingBackoff(delay, factor, j + 1, n)
  }

  /** The retry loop of `get_page_content` and the write-through of its result:
      the attempts run until a body arrives, the attempts run out, or the sleep
      after a failed attempt raises; in that last case the ValueError or
      OverflowError escapes after the requests made so far. */
  function Retry(net: seq<Outcome>, maxRetries: int, delay: int, factor: int, writeFault: bool): Fetch {
    var r := Attempts(net, 0, maxRetries, RetrySchedule(delay, factor));
    RetryPauses(net, 0, maxRetries, delay, factor);
    match FirstRaisingBackoff(delay, factor, 0, |r.pauses|)
    case Some(j) => Fetch(Raised, true, j + 1, r.pauses[..j], None)
    case None =>
      match r.response
      case None => Fetch(NoPage, true, r.requests, r.pauses, None)
      case Some(body) => Fetch(Page(body), true, r.requests, r.pauses, if writeFault then None else Some(body))
  }

  /** What `get_page_content` does, given the robots verdict, the cached text (if
      the cache file exists), whether reading or writing the cache file fails,
      and what the network answers. */
  function Plan(allowed: bool, stored: Option<string>, readFault: bool, writeFault: bool,
                net: seq<Outcome>, maxRetries: int, delay: int, factor: int): (p: Fetch)
    // robots denial: None, before any cache access or request
    ensures !allowed ==> p == Fetch(NoPage, false, 0, [], None)
    // cache hit: the stored text, with no request and no pause
    ensures allowed && stored.Some? && !readFault ==> p == Fetch(Page(stored.value), true, 0, [], None)
    // only a backoff sleep raises: after a failed request, with every earlier backoff slept
    ensures p.content == Raised ==> p.readCache && p.requests >= 1 && |p.pauses| == p.requests - 1 && p.write == None
    // at most max_retries requests; none when max_retries <= 0
    ensures p.requests <= (if maxRetries > 0 then maxRetries else 0)
    ensures maxRetries <= 0 && p.readCache && !(stored.Some? && !readFault) ==> p.content == NoPage
    // a page read from the network is cached, unless writing fails; the body is returned either way
    ensures p.content.Page? && p.requests > 0 ==> p.write == (if writeFault then None else Some(p.content.text))
    ensures p.write.Some? ==> p.content == Page(p.write.value) && p.requests > 0
  {
    if !allowed then Fetch(NoPage, false, 0, [], None)
    else if stored.Some? && !readFault then Fetch(Page(stored.value), true, 0, [], None)
    else
      AttemptsBound(net, 0, maxRetries, RetrySchedule(delay, factor));
      RetryPauses(net, 0, maxRetries, delay, factor);
      Retry(net, maxRetries, delay, factor, writeFault)
  }

  /** The fetch raises exactly when the attempts reach a failed attempt, not the
      last one, whose backoff sleep raises; it raises at the first such attempt,
      after that attempt's request. */
  lemma PlanRaisesIff(allowed: bool, stored: Option<string>, readFault: bool, writeFault: bool,
                      net: seq<Outcome>, maxRetries: int, delay: int, factor: int)
    ensures var r := Attempts(net, 0, maxRetries, RetrySchedule(delay, factor));
      var p := Plan(allowed, stored, readFault, writeFault, net, maxRetries, delay, factor);
      && (p.content == Raised <==>
            allowed && !(stored.Some? && !readFault) &&
            exists j :: 0 <= j < r.requests - 1 && BackoffRaises(delay, factor, j))
      && (p.content == Raised ==>
            && BackoffRaises(delay, factor, p.requests - 1)
            && forall i :: 0 <= i < p.requests - 1 ==> !BackoffRaises(delay, factor, i))
  {
    var r := Attempts(net, 0, maxRetries, RetrySchedule(delay, factor));
    RetryPauses(net, 0, maxRetries, delay, factor);
    assert |r.pauses| == if r.requests == 0 then 0 else r.requests - 1;
    var p := Plan(allowed, stored, readFault, writeFault, net, maxRetries, delay, factor);
    if allowed && !(stored.Some? && !readFault) {
      assert p == Retry(net, maxRetries, delay, factor, writeFault);
      match FirstRaisingBackoff(delay, factor, 0, |r.pauses|)
      case Some(j) =>
        assert p.content == Raised && p.requests == j + 1;
        assert 0 <= j < r.requests - 1 && BackoffRaises(delay, factor, j);
        assert BackoffRaises(delay, factor, p.requests - 1);
      case None =>
        assert p.content != Raised;
    }
  }

  /** With a non-negative delay and backoff factor and every backoff before
      the last attempt below the sleep limit, nothing escapes the fetch. */
  lemma PlanSafeTunables(allowed: bool, stored: Option<string>, readFault: bool, writeFault: bool,
                         net: seq<Outcome>, maxRetries: int, delay: int, factor: int)
    requires delay >= 0 && factor >= 0
    requires forall j :: 0 <= j < maxRetries - 1 ==> delay * Pow(factor, j) < SleepLimit
    ensures Plan(allowed, stored, readFault, writeFault, net, maxRetries, delay, factor).content != Raised
  {
    PlanRaisesIff(allowed, stored, readFault, writeFault, net, maxRetries, delay, factor);
    var r := Attempts(net, 0, maxRetries, RetrySchedule(delay, factor));
    AttemptsBound(net, 0, maxRetries, RetrySchedule(delay, factor));
    forall j | 0 <= j < r.requests - 1 ensures !BackoffRaises(delay, factor, j) {
      PowNonNegative(factor, j);
    }
  }

  /** With a growing backoff (factor at least 1), the last backoff bounds the
      others: a non-negative delay whose last backoff before the final attempt
      stays below the sleep limit lets nothing escape. */
  lemma PlanSafeGrowingBackoff(allowed: bool, stored: Option<string>, readFault: bool, writeFault: bool,
                               net: seq<Outcome>, maxRetries: int, delay: int, factor: int)
    requires delay >= 0 && factor >= 1
    requires maxRetries < 2 || delay * Pow(factor, maxRetries - 2) < SleepLimit
    ensures Plan(allowed, stored, readFault, writeFault, net, maxRetries, delay, factor).content != Raised
  {
    forall j | 0 <= j < maxRetries - 1 ensures delay * Pow(factor, j) < SleepLimit {
      PowMonotone(factor, j, maxRetries - 2);
      MulMonotone(delay, Pow(factor, j), Pow(factor, maxRetries - 2));
    }
    PlanSafeTunables(allowed, stored, readFault, writeFault, net, maxRetries, delay, factor);
  }

  /** Powers of a base of at least 1 grow with the exponent. */
  lemma {:induction false} PowMonotone(b: int, i: nat, k: nat)
    requires b >= 1 && i <= k
    ensures 1 <= Pow(b, i) <= Pow(b, k)
    decreases k
  {
    if i < k {
      PowMonotone(b, i, k - 1);
      MulMonotone(Pow(b, k - 1), 1, b);
    } else if k > 0 {
      PowMonotone(b, k - 1, k - 1);
      MulMonotone(Pow(b, k - 1), 1, b);
    }
  }

  lemma MulMonotone(a: int, x: int, y: int)
    requires a >= 0 && x <= y
    ensures a * x <= a * y
  {
  }

  /** A delay of 10**10 seconds: the sleep after the first failed attempt
      overflows, after one request and no pause. */
  lemma PlanHugeDelay(net: seq<Outcome>)
    requires Nth(net, 0).Failed?
    ensures Plan(true, None, false, false, net, 2, 10000000000, 2) == Fetch(Raised, true, 1, [], None)
  {
    PlanRaisesIff(true, None, false, false, net, 2, 10000000000, 2);
  }

  /** A negative delay: the sleep after the first failed attempt raises, after
      one request and no pause. */
  lemma PlanNegativeDelay(net: seq<Outcome>)
    requires Nth(net, 0).Failed?
    ensures Plan(true, None, false, false, net, 2, -1, 2) == Fetch(Raised, true, 1, [], None)
  {
    PlanRaisesIff(true, None, false, false, net, 2, -1, 2);
  }

  /** A negative factor: the first backoff is 1 second, the second -2, so the
      sleep after the second failed attempt raises. */
  lemma PlanNegativeFactor(net: seq<Outcome>)
    requires Nth(net, 0).Failed? && Nth(net, 1).Failed?
    ensures Plan(true, None, false, false, net, 3, 1, -2) == Fetch(Raised, true, 2, [Pause(1, 1.0)], None)
  {
    assert Pow(-2, 0) == 1 && Pow(-2, 1) == -2;
    PlanRaisesIff(true, None, false, false, net, 3, 1, -2);
    RetryPauses(net, 0, 3, 1, -2);
  }

  /** When the cache does not answer, every attempt fails and no backoff sleep
      raises, the fetch makes exactly `max_retries` requests, sleeps
      `max_retries - 1` times and returns None. */
  lemma PlanAllFail(allowed: bool, stored: Option<string>, readFault: bool, writeFault: bool,
                    net: seq<Outcome>, maxRetries: int, delay: int, factor: int)
    requires allowed && !(stored.Some? && !readFault) && maxRetries > 0
    requires forall i :: 0 <= i < maxRetries ==> Nth(net, i).Failed?
    requires forall j :: 0 <= j < maxRetries - 1 ==> !BackoffRaises(delay, factor, j)
    ensures var p := Plan(allowed, stored, readFault, writeFault, net, maxRetries, delay, factor);
      p.content == NoPage && p.requests == maxRetries && |p.pauses| == maxRetries - 1 && p.write == None
  {
    AllAttemptsFail(net, 0, maxRetries, RetrySchedule(delay, factor));
    RetryPauses(net, 0, maxRetries, delay, factor);
  }

  /** When the cache does not answer, the first k attempts fail with no raising
      backoff and attempt k succeeds, the fetch returns that body after exactly
      k + 1 requests, having slept the backoff of each failed attempt, and stores
      the body unless writing fails. */
  lemma PlanSucceedsAt(allowed: bool, stored: Option<string>, readFault: bool, writeFault: bool,
                       net: seq<Outcome>, maxRetries: int, delay: int, factor: int, k: nat)
    requires allowed && !(stored.Some? && !readFault) && k < maxRetries
    requires forall i :: 0 <= i < k ==> Nth(net, i).Failed?
    requires forall j :: 0 <= j < k ==> !BackoffRaises(delay, factor, j)
    requires Nth(net, k).Response?
    ensures var p := Plan(allowed, stored, readFault, writeFault, net, maxRetries, delay, factor);
      && p.content == Page(Nth(net, k).body) && p.requests == k + 1
      && p.write == (if writeFault then None else Some(Nth(net, k).body))
      && |p.pauses| == k
      && forall j :: 0 <= j < k ==> p.pauses[j] == Pause(delay * Pow(factor, j), 1.0)
  {
    SucceedsAt(net, 0, k, maxRetries, RetrySchedule(delay, factor));
    RetryPauses(net, 0, maxRetries, delay, factor);
  }

  /** The cache round trip: after a fetch stored a body, the next fetch of the
      same allowed URL returns that body from the cache without any request,
      whatever the network would answer. */
  lemma PlanCachedAfterFetch(stored: Option<string>, readFault: bool, writeFault: bool,
                             net: seq<Outcome>, net2: seq<Outcome>, maxRetries: int, delay: int, factor: int)
    requires Plan(true, stored, readFault, writeFault, net, maxRetries, delay, factor).write.Some?
    ensures var p := Plan(true, stored, readFault, writeFault, net, maxRetries, delay, factor);
      Plan(true, p.write, false, writeFault, net2, maxRetries, delay, factor)
        == Fetch(p.content, true, 0, [], None)
  {
  }

  /** `parse_data`: the stripped texts of the elements a CSS selector picks out
      of the page. `select` stands for parsing the page and applying the selector,
      which either gives the elements' texts or raises. Empty content and a raise
      both give the empty list. */
  function ParseData(html: string, select: string -> Parsed<seq<string>>): (r: seq<string>)
    ensures html == "" ==> r == []
    ensures html != "" && select(html).ParseRaised? ==> r == []
    ensures html != "" && select(html).Returned? ==>
      |r| == |select(html).value| && forall i :: 0 <= i < |r| ==> r[i] == Strip(select(html).value[i])
  {
    if html == "" then []
    else match select(html)
      case ParseRaised => []
      case Returned(texts) => seq(|texts|, i requires 0 <= i < |texts| => Strip(texts[i]))
  }

  class UnintrusivePageScraper {
    const baseUrl: string
    const robotsUrl: string
    const rules: RobotRules
    const delay: int
    const maxRetries: int
    const backoffFactor: int

    /** The cache directory: file name to file contents. */
    var cache: map<string, string>
    /** What the network will answer to the next requests, in order. */
    var network: seq<Outcome>

    /** Every URL requested so far, every pause taken, every cache file looked up. */
    ghost var requested: seq<string>
    ghost var slept: seq<Pause>
    ghost var cacheReads: seq<string>

    /** `__init__`: the base URL loses its trailing '/', robots.txt is looked for
        right under it, and the tunables are kept as given. */
    constructor (base: string, rules: RobotRules, defaultDelay: int, maxRetries: int, retryBackoffFactor: int,
                 disk: map<string, string>, network: seq<Outcome>)
      ensures baseUrl == RStripChar(base, '/') && robotsUrl == baseUrl + "/robots.txt"
      ensures this.rules == rules && delay == defaultDelay
      ensures this.maxRetries == maxRetries && backoffFactor == retryBackoffFactor
      ensures cache == disk && this.network == network
      ensures requested == [] && slept == [] && cacheReads == []
    {
      baseUrl := RStripChar(base, '/');
      robotsUrl := RStripChar(base, '/') + "/robots.txt";
      this.rules := rules;
      delay := defaultDelay;
      this.maxRetries := maxRetries;
      backoffFactor := retryBackoffFactor;
      cache := disk;
      this.network := network;
      requested := [];
      slept := [];
      cacheReads := [];
    }

    /** `can_fetch`: the rule set's verdict for the fixed user agent; an error
        while evaluating it counts as "not allowed". */
    predicate CanFetch(url: string)
      ensures CanFetch(url) <==> rules(UserAgent, url) == Allow
    {
      match rules(UserAgent, url)
      case Allow => true
      case Disallow => false
      case Raise => false
    }

    /** What `get_page_content(url)` will do from the current state. */
    function PlanFor(url: string, readFault: bool, writeFault: bool): Fetch
      reads this
    {
      var key := SafeFilename(url);
      Plan(CanFetch(url), if key in cache then Some(cache[key]) else None, readFault, writeFault,
           network, maxRetries, delay, backoffFactor)
    }

    /** The state changed as the fetch p of `url` says and in no other way. */
    twostate predicate Did(url: string, p: Fetch)
      reads this
    {
      var key := SafeFilename(url);
      && network == Drop(old(network), p.requests)
      && requested == old(requested) + Repeat(url, p.requests)
      && slept == old(slept) + p.pauses
      && cacheReads == old(cacheReads) + (if p.readCache then [key] else [])
      && cache == (if p.write.Some? then old(cache)[key := p.write.value] else old(cache))
    }

    /** `get_page_content`. */
    method GetPageContent(url: string, readFault: bool, writeFault: bool) returns (content: Content)
      modifies this
      ensures content == old(PlanFor(url, readFault, writeFault)).content
      ensures Did(url, old(PlanFor(url, readFault, writeFault)))
    {
      if !CanFetch(url) {
        return NoPage;
      }
      var key := SafeFilename(url);
      cacheReads := cacheReads + [key];
      if key in cache && !readFault {
        return Page(cache[key]);
      }
      content := Download(url, key, writeFault);
    }

    /** The retry loop of `get_page_content` and the write-through of its result
        to the cache file `key`. The loop runs over a copy of the network's
        answers; when a backoff sleep raises, only the requests made before it
        and the pauses slept before it take effect. */
    method Download(url: string, key: string, writeFault: bool) returns (content: Content)
      modifies this
      ensures var f := old(Retry(network, maxRetries, delay, backoffFactor, writeFault));
        && content == f.content
        && network == Drop(old(network), f.requests)
        && requested == old(requested) + Repeat(url, f.requests)
        && slept == old(slept) + f.pauses
        && cacheReads == old(cacheReads)
        && cache == (if f.write.Some? then old(cache)[key := f.write.value] else old(cache))
    {
      var body, requests, rest, pauses := RetryLoop(network, maxRetries, RetrySchedule(delay, backoffFactor));
      RetryPauses(network, 0, maxRetries, delay, backoffFactor);
      var backoffs := if requests == 0 then 0 else requests - 1;
      match FirstRaisingBackoff(delay, backoffFactor, 0, backoffs) {
        case Some(j) =>
          network := Drop(network, j + 1);
          requested := requested + Repeat(url, j + 1);
          slept := slept + pauses[..j];
          content := Raised;
        case None =>
          network := rest;
          requested := requested + Repeat(url, requests);
          slept := slept + pauses;
          if body.Some? && !writeFault {
            cache := cache[key := body.value];
          }
          content := if body.Some? then Page(body.value) else NoPage;
      }
    }

    /** `scrape`: an empty path gives None without fetching; otherwise the page
        at base URL + path is fetched and handed to the strategy. No content,
        empty content and a parse exception become None; an exception from the
        fetch (a raising backoff sleep) escapes, as the fetch is outside the
        `try`. */
    method Scrape<R>(strategy: Strategy<R>, readFault: bool, writeFault: bool) returns (result: Scraped<R>)
      modifies this
      ensures strategy.path == [] ==> result == Empty && unchanged(this)
      ensures strategy.path != [] ==>
        var url := baseUrl + strategy.path;
        var p := old(PlanFor(url, readFault, writeFault));
        Did(url, p) && result == ScrapeResult(p.content, strategy.parse)
    {
      if strategy.path == [] {
        return Empty;
      }
      var url := baseUrl + strategy.path;
      var content := GetPageContent(url, readFault, writeFault);
      if content == Raised {
        return Escaped;
      }
      if !content.Page? || content.text == "" {
        return Empty;
      }
      match strategy.parse(content.text) {
        case Returned(v) => result := Value(v);
        case ParseRaised => result := Empty;
      }
    }
  }

  /** The scenario of `test_caching_mechanism`: once a page has been fetched
      and stored, fetching the same allowed URL again returns the same text
      without any request. */
  method FetchTwice(scraper: UnintrusivePageScraper, url: string) returns (first: Content, second: Content, ghost afterFirst: nat)
    requires scraper.CanFetch(url)
    modifies scraper
    ensures first.Page? ==> second == first && |scraper.requested| == afterFirst
  {
    first := scraper.GetPageContent(url, false, false);
    afterFirst := |scraper.requested|;
    second := scraper.GetPageContent(url, false, false);
  }
}
