/** One check of one listing page (`check_twickets_url`): fetch through the
    rendering proxy with bounded retry on status 500, then scan the prices.
    The proxy's answers are an input and the side effects the check performs
    are returned as a trace, in the order they happen. */
module Fetcher {
  import opened Wrappers
  import opened Url
  import opened Prices
  import opened Telegram

  /** What one request to the rendering proxy comes back with. */
  datatype FetchOutcome =
    | Page(prices: seq<string>)  // success: the texts of the matched price tags, in document order
    | HttpError(status: int)     // `raise_for_status` raised for this status code
    | OtherError                 // any other exception: timeout, connection error, ...

  /** A side effect of the bot. `Request` carries the cleaned listing URL the
      proxy is asked for, `Sleep` a blocking pause in seconds, `Send` a Telegram
      message posted (whether or not the post succeeded). */
  datatype Effect = Request(target: string) | Sleep(seconds: nat) | Send(message: Message)

  /** The result of a check and the effects it performed. */
  datatype Run = Run(found: bool, trace: seq<Effect>)

  /** Pause between attempts after a status 500, in seconds. */
  const RetryDelay: nat := 10

  /** Number of attempts when the caller does not say. */
  const DefaultRetries: nat := 3

  predicate IsServerError(o: FetchOutcome)
  {
    o.HttpError? && o.status == 500
  }

  /** A successful fetch: one request, then an alert for the first qualifying
      price if there is one. A text `int()` rejects ends the check like one
      without a qualifying price. */
  function PageRun(target: string, prices: seq<string>): Run
  {
    match ScanFrom(prices, 0)
    case Found(i) => Run(true, [Request(target), Send(BuildMessage(prices[i], Some(target)))])
    case _ => Run(false, [Request(target)])
  }

  /** The check from attempt `attempt` on; `proxy(k)` is the answer to
      attempt `k`. */
  function AttemptFrom(target: string, retries: nat, attempt: nat, proxy: nat -> FetchOutcome): Run
    requires attempt < retries
    decreases retries - attempt
  {
    match proxy(attempt)
    case Page(prices) => PageRun(target, prices)
    case HttpError(status) =>
      if status == 500 && attempt < retries - 1 then
        var rest := AttemptFrom(target, retries, attempt + 1, proxy);
        Run(rest.found, [Request(target), Sleep(RetryDelay)] + rest.trace)
      else
        Run(false, [Request(target)])
    case OtherError =>
      Run(false, [Request(target)])
  }

  /** The whole check of `url` with `retries` attempts. */
  function CheckRun(url: string, retries: nat, proxy: nat -> FetchOutcome): Run
    requires retries >= 1
  {
    AttemptFrom(CleanUrl(url), retries, 0, proxy)
  }

  /** `check_twickets_url` as `main.py` writes it: an attempt loop with
      early returns, the price scan nested inside it. */
  method CheckTwicketsUrl(url: string, retries: nat, proxy: nat -> FetchOutcome)
    returns (found: bool, trace: seq<Effect>)
    requires retries >= 1
    ensures Run(found, trace) == CheckRun(url, retries, proxy)
  {
    var target := CleanUrl(url);
    trace := [];
    var attempt := 0;
    while attempt < retries
      invariant attempt < retries
      invariant trace + AttemptFrom(target, retries, attempt, proxy).trace == CheckRun(url, retries, proxy).trace
      invariant AttemptFrom(target, retries, attempt, proxy).found == CheckRun(url, retries, proxy).found
      decreases retries - attempt
    {
      ghost var before := trace;
      ghost var remaining := AttemptFrom(target, retries, attempt, proxy);
      var response := proxy(attempt);
      trace := trace + [Request(target)];
      match response {
        case Page(prices) =>
          var scan := Scan(prices);
          if scan.Found? {
            var alert := BuildMessage(prices[scan.index], Some(target));
            assert remaining == Run(true, [Request(target), Send(alert)]);
            trace := trace + [Send(alert)];
            assert trace == before + remaining.trace;
            return true, trace;
          }
          // no qualifying price, or int() raised on a price text
          assert remaining == Run(false, [Request(target)]);
          return false, trace;
        case HttpError(status) =>
          if status == 500 && attempt < retries - 1 {
            trace := trace + [Sleep(RetryDelay)];
          } else {
            assert remaining == Run(false, [Request(target)]);
            return false, trace;
          }
        case OtherError =>
          assert remaining == Run(false, [Request(target)]);
          return false, trace;
      }
      assert remaining.trace
          == [Request(target), Sleep(RetryDelay)] + AttemptFrom(target, retries, attempt + 1, proxy).trace;
      assert trace + AttemptFrom(target, retries, attempt + 1, proxy).trace == before + remaining.trace;
      attempt := attempt + 1;
    }
  }

  // ---------------------------------------------------------------------
  // A closed form of the check: retried attempts, then the deciding one.

  /** The attempt that decides the check from attempt `from` on: the first
      that is not answered with status 500, or else the last one allowed. */
  function DecidingAttempt(retries: nat, from: nat, proxy: nat -> FetchOutcome): (d: nat)
    requires from < retries
    ensures from <= d < retries
    ensures forall k :: from <= k < d ==> IsServerError(proxy(k))
    ensures d < retries - 1 ==> !IsServerError(proxy(d))
    decreases retries - from
  {
    if from == retries - 1 || !IsServerError(proxy(from)) then from
    else DecidingAttempt(retries, from + 1, proxy)
  }

  /** `n` attempts answered with status 500, each followed by the pause. */
  function RetriedAttempts(target: string, n: nat): (t: seq<Effect>)
    ensures |t| == 2 * n
  {
    if n == 0 then [] else [Request(target), Sleep(RetryDelay)] + RetriedAttempts(target, n - 1)
  }

  /** What the deciding attempt makes of its answer. */
  function Decide(target: string, o: FetchOutcome): Run
  {
    if o.Page? then PageRun(target, o.prices) else Run(false, [Request(target)])
  }

  /** Every check is some status-500 attempts, each followed by a pause, and
      then the deciding attempt, whose answer alone fixes the result. */
  lemma {:induction false} AttemptFromClosedForm(target: string, retries: nat, attempt: nat, proxy: nat -> FetchOutcome)
    requires attempt < retries
    ensures var d := DecidingAttempt(retries, attempt, proxy);
            AttemptFrom(target, retries, attempt, proxy)
              == Run(Decide(target, proxy(d)).found,
                     RetriedAttempts(target, d - attempt) + Decide(target, proxy(d)).trace)
    decreases retries - attempt
  {
    var d := DecidingAttempt(retries, attempt, proxy);
    if d == attempt {
      assert AttemptFrom(target, retries, attempt, proxy) == Decide(target, proxy(d));
      assert RetriedAttempts(target, 0) + Decide(target, proxy(d)).trace == Decide(target, proxy(d)).trace;
    } else {
      var rest := AttemptFrom(target, retries, attempt + 1, proxy);
      assert IsServerError(proxy(attempt)) && attempt < retries - 1;
      assert AttemptFrom(target, retries, attempt, proxy)
          == Run(rest.found, [Request(target), Sleep(RetryDelay)] + rest.trace);
      assert d == DecidingAttempt(retries, attempt + 1, proxy);
      AttemptFromClosedForm(target, retries, attempt + 1, proxy);
      assert RetriedAttempts(target, d - attempt)
          == [Request(target), Sleep(RetryDelay)] + RetriedAttempts(target, d - (attempt + 1));
    }
  }

  // ---------------------------------------------------------------------
  // Reading a trace.

  /** Number of requests made to the proxy. */
  function Requests(t: seq<Effect>): nat
  {
    if t == [] then 0 else (if t[0].Request? then 1 else 0) + Requests(t[1..])
  }

  /** The pauses taken, in seconds, in order. */
  function Pauses(t: seq<Effect>): seq<nat>
  {
    if t == [] then [] else (if t[0].Sleep? then [t[0].seconds] else []) + Pauses(t[1..])
  }

  /** The Telegram messages posted, in order. */
  function Sent(t: seq<Effect>): seq<Message>
  {
    if t == [] then [] else (if t[0].Send? then [t[0].message] else []) + Sent(t[1..])
  }

  lemma ReadingAppend(a: seq<Effect>, b: seq<Effect>)
    ensures Requests(a + b) == Requests(a) + Requests(b)
    ensures Pauses(a + b) == Pauses(a) + Pauses(b)
    ensures Sent(a + b) == Sent(a) + Sent(b)
  {
    RequestsAppend(a, b);
    PausesAppend(a, b);
    SentAppend(a, b);
  }

  lemma {:induction false} RequestsAppend(a: seq<Effect>, b: seq<Effect>)
    ensures Requests(a + b) == Requests(a) + Requests(b)
  {
    if a == [] {
      assert a + b == b;
    } else {
      assert (a + b)[0] == a[0] && (a + b)[1..] == a[1..] + b;
      RequestsAppend(a[1..], b);
    }
  }

  lemma {:induction false} PausesAppend(a: seq<Effect>, b: seq<Effect>)
    ensures Pauses(a + b) == Pauses(a) + Pauses(b)
  {
    if a == [] {
      assert a + b == b;
    } else {
      assert (a + b)[0] == a[0] && (a + b)[1..] == a[1..] + b;
      PausesAppend(a[1..], b);
    }
  }

  lemma {:induction false} SentAppend(a: seq<Effect>, b: seq<Effect>)
    ensures Sent(a + b) == Sent(a) + Sent(b)
  {
    if a == [] {
      assert a + b == b;
    } else {
      assert (a + b)[0] == a[0] && (a + b)[1..] == a[1..] + b;
      SentAppend(a[1..], b);
    }
  }

  lemma {:induction false} RetriedAttemptsReading(target: string, n: nat)
    ensures Requests(RetriedAttempts(target, n)) == n
    ensures Pauses(RetriedAttempts(target, n)) == seq(n, _ => RetryDelay)
    ensures Sent(RetriedAttempts(target, n)) == []
  {
    if n > 0 {
      RetriedAttemptsReading(target, n - 1);
      ReadingAppend([Request(target), Sleep(RetryDelay)], RetriedAttempts(target, n - 1));
    }
  }

  /** What a check does, counted. With `d` the deciding attempt: `d + 1`
      requests, never more than `retries`; a 10 second pause after each of
      the first `d` attempts, all of which were answered with status 500; the
      result is true exactly when the deciding answer is a page with a
      qualifying price, and then exactly one alert is posted, for the first
      qualifying price and the cleaned URL; otherwise nothing is posted. */
  lemma CheckRunReading(url: string, retries: nat, proxy: nat -> FetchOutcome)
    requires retries >= 1
    ensures var run := CheckRun(url, retries, proxy);
            var d := DecidingAttempt(retries, 0, proxy);
            var o := proxy(d);
            && Requests(run.trace) == d + 1 <= retries
            && Pauses(run.trace) == seq(d, _ => RetryDelay)
            && (forall k :: 0 <= k < d ==> IsServerError(proxy(k)))
            && (run.found <==> o.Page? && ScanFrom(o.prices, 0).Found?)
            && Sent(run.trace) == (if run.found
                                   then [BuildMessage(o.prices[ScanFrom(o.prices, 0).index], Some(CleanUrl(url)))]
                                   else [])
  {
    var target := CleanUrl(url);
    var d := DecidingAttempt(retries, 0, proxy);
    var last := Decide(target, proxy(d));
    AttemptFromClosedForm(target, retries, 0, proxy);
    RetriedAttemptsReading(target, d);
    ReadingAppend(RetriedAttempts(target, d), last.trace);
    DecideReading(target, proxy(d));
  }

  /** The counts the polling cycle relies on: between one and `retries`
      requests, and one alert exactly when the check found a price. */
  lemma CheckRunCounts(url: string, retries: nat, proxy: nat -> FetchOutcome)
    requires retries >= 1
    ensures var run := CheckRun(url, retries, proxy);
            && 1 <= Requests(run.trace) <= retries
            && |Sent(run.trace)| == (if run.found then 1 else 0)
  {
    CheckRunReading(url, retries, proxy);
  }

  lemma DecideReading(target: string, o: FetchOutcome)
    ensures var run := Decide(target, o);
            && Requests(run.trace) == 1
            && Pauses(run.trace) == []
            && Sent(run.trace) == (if run.found
                                   then [BuildMessage(o.prices[ScanFrom(o.prices, 0).index], Some(target))]
                                   else [])
            && (run.found <==> o.Page? && ScanFrom(o.prices, 0).Found?)
  {
    var run := Decide(target, o);
    if run.found {
      var m := BuildMessage(o.prices[ScanFrom(o.prices, 0).index], Some(target));
      assert run.trace == [Request(target), Send(m)];
      assert run.trace[1..] == [Send(m)];
      assert run.trace[1..][1..] == [];
      assert Requests([Send(m)]) == 0;
      assert Pauses([Send(m)]) == [];
      assert Sent([Send(m)]) == [m];
    } else {
      assert run.trace == [Request(target)];
      assert run.trace[1..] == [];
    }
  }

  // ---------------------------------------------------------------------
  // The retry policy, case by case.

  /** Status 500 on every one of `n` attempts: `n` requests, `n - 1` pauses
      (none after the last attempt) and no alert. */
  lemma AllServerErrors(url: string, n: nat, proxy: nat -> FetchOutcome)
    requires n >= 1
    requires forall k :: 0 <= k < n ==> IsServerError(proxy(k))
    ensures var run := CheckRun(url, n, proxy);
            !run.found && Requests(run.trace) == n &&
            Pauses(run.trace) == seq(n - 1, _ => RetryDelay) && Sent(run.trace) == []
  {
    CheckRunReading(url, n, proxy);
  }

  /** Two answers with status 500 and then a page, with the default three
      attempts: three requests, two pauses, and the page decides. */
  lemma ServerErrorsThenPage(url: string, proxy: nat -> FetchOutcome)
    requires IsServerError(proxy(0)) && IsServerError(proxy(1)) && proxy(2).Page?
    ensures var run := CheckRun(url, DefaultRetries, proxy);
            && Requests(run.trace) == 3
            && Pauses(run.trace) == [RetryDelay, RetryDelay]
            && (run.found <==> ScanFrom(proxy(2).prices, 0).Found?)
  {
    CheckRunReading(url, DefaultRetries, proxy);
    assert DecidingAttempt(DefaultRetries, 0, proxy) == 2;
  }

  /** No retry after any other failure: an HTTP error other than 500, or any
      other exception, on the first attempt ends the check at once. */
  lemma NoRetryOnOtherFailure(url: string, retries: nat, proxy: nat -> FetchOutcome)
    requires retries >= 1
    requires (proxy(0).HttpError? && proxy(0).status != 500) || proxy(0).OtherError?
    ensures CheckRun(url, retries, proxy) == Run(false, [Request(CleanUrl(url))])
  {
  }

  /** A price text `int()` rejects ends the check with no alert and no retry,
      whatever the texts after it and however many attempts are left. */
  lemma UnparsablePriceEndsCheck(url: string, retries: nat, proxy: nat -> FetchOutcome)
    requires retries >= 1
    requires proxy(0).Page? && ScanFrom(proxy(0).prices, 0).ParseFailure?
    ensures CheckRun(url, retries, proxy) == Run(false, [Request(CleanUrl(url))])
  {
  }
}
