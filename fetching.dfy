/**
 * What the three revisions of the polite fetcher share: the network, robots and
 * strategy interfaces they are written against, and the bounded retry loop
 * `for attempt in range(max_retries)` that each of them runs, stated once as a
 * function of the network's answers and of the revision's pause schedule.
 */
module Fetching {
  import opened Wrappers

  /** The identifying User-Agent sent with every request and given to the robots rules. */
  const UserAgent: string := "MyWebScraper/1.0 (contact: example@email.com)"

  /** Why `requests.get(...)` followed by `raise_for_status()` raised: a timeout,
      a 4xx/5xx status, or any other `requests.exceptions.RequestException`. */
  datatype Failure = Timeout | HttpError(status: int) | RequestError

  /** What one request attempt gives: the response text, or a failure. */
  datatype Outcome = Response(body: string) | Failed(failure: Failure)

  /** What the robots.txt rule set answers for a user agent and URL, or that
      evaluating it raised. */
  datatype RobotsAnswer = Allow | Disallow | Raise

  /** The rule set read from robots.txt when the scraper was built, evaluated
      for (user agent, absolute URL). Reading and evaluating robots.txt is not
      part of this model. */
  type RobotRules = (string, string) -> RobotsAnswer

  /** One `time.sleep`: `seconds` is its deterministic part, to which a random
      jitter drawn from [0, jitterCap) is added. */
  datatype Pause = Pause(seconds: int, jitterCap: real)

  /** What `get_page_content` gives back: the page text, None, or an exception
      that escapes it. */
  datatype Content = Page(text: string) | NoPage | Raised

  /** A strategy as the orchestrator sees it: the path from `get_url()`, and
      `parse` applied to the document made from the fetched text, which either
      returns a value or raises. */
  datatype Parsed<R> = Returned(value: R) | ParseRaised
  datatype Strategy<R> = Strategy(path: string, parse: string -> Parsed<R>)

  /** What a `scrape` that has an empty fallback gives: the strategy's result,
      the revision's empty value (None, `[]` or `{}`), or an exception that
      escapes it. */
  datatype Scraped<R> = Value(value: R) | Empty | Escaped

  /** What `scrape` returns for what it fetched, in the revisions that catch a
      parse exception: an exception from the fetch escapes, no content, empty
      content and a parse exception give the empty value, and otherwise the
      strategy's result. */
  function ScrapeResult<R>(content: Content, parse: string -> Parsed<R>): (r: Scraped<R>)
    ensures r.Escaped? <==> content == Raised
    ensures r.Value? <==> content.Page? && content.text != "" && parse(content.text).Returned?
    ensures r.Value? ==> r.value == parse(content.text).value
  {
    match content
    case Raised => Escaped
    case NoPage => Empty
    case Page(text) =>
      if text == "" then Empty
      else (match parse(text) case Returned(v) => Value(v) case ParseRaised => Empty)
  }

  /** What one call of `get_page_content` did, as a function of the state before
      it: what it returned, whether it looked into the cache, how many requests it
      made, the pauses it took, and the body it stored in the cache, if any. */
  datatype Fetch = Fetch(content: Content, readCache: bool, requests: nat, pauses: seq<Pause>, write: Option<string>)

  /** `b ** e` for a non-negative exponent. */
  function Pow(b: int, e: nat): int {
    if e == 0 then 1 else b * Pow(b, e - 1)
  }

  /** A power of a non-negative base is non-negative. */
  lemma {:induction false} PowNonNegative(b: int, e: nat)
    requires b >= 0
    ensures Pow(b, e) >= 0
  {
    if e > 0 {
      PowNonNegative(b, e - 1);
    }
  }

  /** n copies of x. */
  function Repeat<T>(x: T, n: nat): (r: seq<T>)
    ensures |r| == n && forall i :: 0 <= i < n ==> r[i] == x
  {
    if n == 0 then [] else Repeat(x, n - 1) + [x]
  }

  /** The answer the network gives to the i-th request from now on. The network
      is a finite script of answers; once it is used up, every request fails. */
  function Nth(net: seq<Outcome>, i: nat): Outcome {
    if i < |net| then net[i] else Failed(RequestError)
  }

  /** The network after k requests have been made. */
  function Drop(net: seq<Outcome>, k: nat): (rest: seq<Outcome>)
    ensures forall i: nat :: Nth(rest, i) == Nth(net, k + i)
  {
    if k <= |net| then net[k..] else []
  }

  lemma DropDrop(net: seq<Outcome>, a: nat, b: nat)
    ensures Drop(Drop(net, a), b) == Drop(net, a + b)
  {
  }

  /** When a revision sleeps around an attempt: `before` each request; after a
      failed attempt that is not the last one, a backoff of
      `backoffDelay * backoffFactor ** attempt` seconds plus a jitter below
      `backoffJitter`; and then, after every attempt but the last whatever its
      outcome, `settle`. */
  datatype Schedule = Schedule(
    before: seq<Pause>,
    backoffDelay: int,
    backoffFactor: int,
    backoffJitter: real,
    settle: seq<Pause>)

  /** The backoff pause after failed attempt number `attempt`. */
  function Backoff(s: Schedule, attempt: nat): Pause {
    Pause(s.backoffDelay * Pow(s.backoffFactor, attempt), s.backoffJitter)
  }

  /** What the retry loop does from attempt `attempt` on: the body it returns
      (None when it gives up), how many requests it makes and the pauses it takes. */
  datatype Run = Run(response: Option<string>, requests: nat, pauses: seq<Pause>)

  /** The loop `for attempt in range(max_retries)`: the first successful attempt
      returns its body; a failed attempt that is not the last sleeps and goes on;
      a failed last attempt returns None, and so does a loop with no attempts. */
  function Attempts(net: seq<Outcome>, attempt: nat, maxRetries: int, s: Schedule): Run
    decreases maxRetries - attempt
  {
    if attempt >= maxRetries then Run(None, 0, [])
    else match Nth(net, attempt)
      case Response(body) =>
        Run(Some(body), 1, s.before + (if attempt < maxRetries - 1 then s.settle else []))
      case Failed(_) =>
        if attempt < maxRetries - 1 then
          var rest := Attempts(net, attempt + 1, maxRetries, s);
          Run(rest.response, rest.requests + 1, s.before + [Backoff(s, attempt)] + s.settle + rest.pauses)
        else
          Run(None, 1, s.before)
  }

  /** The loop so far accounts for `whole`: `done` requests made and the pauses
      `acc` taken, with `later` still to come. */
  ghost predicate Tracks(whole: Run, done: nat, acc: seq<Pause>, later: Run) {
    && whole.response == later.response
    && whole.requests == done + later.requests
    && whole.pauses == acc + later.pauses
  }

  /** A failed attempt before the last one: the loop backs off and goes on. */
  lemma FailedStep(net: seq<Outcome>, attempt: nat, maxRetries: int, s: Schedule, whole: Run, acc: seq<Pause>)
    requires attempt < maxRetries - 1 && Nth(net, attempt).Failed?
    requires Tracks(whole, attempt, acc, Attempts(net, attempt, maxRetries, s))
    ensures Tracks(whole, attempt + 1, acc + s.before + [Backoff(s, attempt)] + s.settle,
                   Attempts(net, attempt + 1, maxRetries, s))
  {
    var rest := Attempts(net, attempt + 1, maxRetries, s);
    assert acc + (s.before + [Backoff(s, attempt)] + s.settle + rest.pauses)
        == (acc + s.before + [Backoff(s, attempt)] + s.settle) + rest.pauses;
  }

  /** A successful attempt ends the loop with its body. */
  lemma SuccessStep(net: seq<Outcome>, attempt: nat, maxRetries: int, s: Schedule, whole: Run, acc: seq<Pause>)
    requires attempt < maxRetries && Nth(net, attempt).Response?
    requires Tracks(whole, attempt, acc, Attempts(net, attempt, maxRetries, s))
    ensures whole == Run(Some(Nth(net, attempt).body), attempt + 1,
                         acc + s.before + (if attempt + 1 < maxRetries then s.settle else []))
  {
  }

  /** A failed last attempt ends the loop with None. */
  lemma LastFailStep(net: seq<Outcome>, attempt: nat, maxRetries: int, s: Schedule, whole: Run, acc: seq<Pause>)
    requires attempt == maxRetries - 1 && Nth(net, attempt).Failed?
    requires Tracks(whole, attempt, acc, Attempts(net, attempt, maxRetries, s))
    ensures whole == Run(None, attempt + 1, acc + s.before)
  {
  }

  /** The retry loop itself, run on the network's answers `net`: what it
      returns, how many requests it makes and the pauses it takes are those of
      `Attempts`, and `rest` is what the network has left to answer. */
  method RetryLoop(net: seq<Outcome>, maxRetries: int, s: Schedule)
    returns (body: Option<string>, requests: nat, rest: seq<Outcome>, ghost pauses: seq<Pause>)
    ensures Attempts(net, 0, maxRetries, s) == Run(body, requests, pauses)
    ensures rest == Drop(net, requests)
  {
    ghost var whole := Attempts(net, 0, maxRetries, s);
    pauses := [];
    assert whole.pauses == pauses + whole.pauses;
    var attempt: nat := 0;
    while attempt < maxRetries
      invariant Tracks(whole, attempt, pauses, Attempts(net, attempt, maxRetries, s))
    {
      var outcome := Nth(net, attempt);
      if outcome.Response? {
        SuccessStep(net, attempt, maxRetries, s, whole, pauses);
        pauses := pauses + s.before + (if attempt + 1 < maxRetries then s.settle else []);
        body, requests := Some(outcome.body), attempt + 1;
        rest := Drop(net, requests);
        return;
      }
      if attempt == maxRetries - 1 {
        LastFailStep(net, attempt, maxRetries, s, whole, pauses);
        pauses := pauses + s.before;
        body, requests := None, attempt + 1;
        rest := Drop(net, requests);
        return;
      }
      FailedStep(net, attempt, maxRetries, s, whole, pauses);
      pauses := pauses + s.before + [Backoff(s, attempt)] + s.settle;
      attempt := attempt + 1;
    }
    assert pauses + [] == pauses;
    body, requests := None, attempt;
    rest := Drop(net, requests);
  }

  /** The loop makes at most as many requests as attempts remain, none when
      `max_retries` leaves no attempt, and a body is only ever returned after a request. */
  lemma {:induction false} AttemptsBound(net: seq<Outcome>, attempt: nat, maxRetries: int, s: Schedule)
    ensures var r := Attempts(net, attempt, maxRetries, s);
      && r.requests <= (if attempt < maxRetries then maxRetries - attempt else 0)
      && (r.response.Some? ==> r.requests >= 1)
    decreases maxRetries - attempt
  {
    if attempt < maxRetries - 1 && Nth(net, attempt).Failed? {
      AttemptsBound(net, attempt + 1, maxRetries, s);
    }
  }

  /** When every remaining attempt fails, the loop returns None after exactly one
      request per remaining attempt. */
  lemma {:induction false} AllAttemptsFail(net: seq<Outcome>, attempt: nat, maxRetries: int, s: Schedule)
    requires attempt < maxRetries
    requires forall i :: attempt <= i < maxRetries ==> Nth(net, i).Failed?
    ensures Attempts(net, attempt, maxRetries, s).response == None
    ensures Attempts(net, attempt, maxRetries, s).requests == maxRetries - attempt
    decreases maxRetries - attempt
  {
    assert Nth(net, attempt).Failed?;
    if attempt < maxRetries - 1 {
      AllAttemptsFail(net, attempt + 1, maxRetries, s);
    }
  }

  /** When the attempts before k fail and attempt k succeeds, the loop returns the
      body of attempt k after exactly one request per attempt up to k. */
  lemma {:induction false} SucceedsAt(net: seq<Outcome>, attempt: nat, k: nat, maxRetries: int, s: Schedule)
    requires attempt <= k < maxRetries
    requires forall i :: attempt <= i < k ==> Nth(net, i).Failed?
    requires Nth(net, k).Response?
    ensures Attempts(net, attempt, maxRetries, s).response == Some(Nth(net, k).body)
    ensures Attempts(net, attempt, maxRetries, s).requests == k - attempt + 1
    decreases k - attempt
  {
    if attempt < k {
      assert Nth(net, attempt).Failed?;
      SucceedsAt(net, attempt + 1, k, maxRetries, s);
    }
  }

  /** Conversely, what the loop returns is explained by the network: a body is
      the answer to the last request made, after failures only; None means the
      loop had no attempt or every attempt it made failed, and then it made all of them. */
  lemma {:induction false} AttemptsExplained(net: seq<Outcome>, attempt: nat, maxRetries: int, s: Schedule)
    ensures var r := Attempts(net, attempt, maxRetries, s);
      && (forall i :: attempt <= i < attempt + r.requests - 1 ==> Nth(net, i).Failed?)
      && (r.response.Some? ==> r.requests >= 1 && Nth(net, attempt + r.requests - 1) == Response(r.response.value))
      && (r.response.None? ==>
            (maxRetries <= attempt && r.requests == 0) ||
            (r.requests == maxRetries - attempt && forall i :: attempt <= i < maxRetries ==> Nth(net, i).Failed?))
    decreases maxRetries - attempt
  {
    if attempt < maxRetries - 1 && Nth(net, attempt).Failed? {
      AttemptsExplained(net, attempt + 1, maxRetries, s);
    }
  }
}
