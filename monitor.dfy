/** One polling cycle of the bot's main loop: every configured listing is
    checked once, in order, and the cycle ends with the polling pause. */
module Monitor {
  import opened Wrappers
  import opened Telegram
  import opened Fetcher

  /** Pause between cycles, in seconds. */
  const CheckInterval: nat := 300

  /** The listings the bot watches. */
  const TwicketsUrls: seq<string> := [
    "https://www.twickets.live/en/event/1828748649929117696#sort=FirstListed&typeFilter=Any&qFilter=All",
    "https://www.twickets.live/en/event/1828748567179698176#sort=FirstListed&typeFilter=Any&qFilter=All",
    "https://www.twickets.live/en/event/1828444850157002752#sort=FirstListed&typeFilter=Any&qFilter=All"
  ]

  /** Sent once when the bot starts, as plain text. */
  const StartupNotice: Message :=
    BuildMessage("\U{2705} Twickets bot is now running and checking every 5 minutes!", None)

  /** The checks of one cycle, one per listing, in list order;
      `proxies[i]` answers the attempts for `urls[i]`. */
  function CycleRuns(urls: seq<string>, proxies: seq<nat -> FetchOutcome>): (runs: seq<Run>)
    requires |urls| == |proxies|
    ensures |runs| == |urls|
  {
    seq(|urls|, i requires 0 <= i < |urls| => CheckRun(urls[i], DefaultRetries, proxies[i]))
  }

  /** The effects of a series of checks performed one after another. */
  function Concat(runs: seq<Run>): seq<Effect>
  {
    if runs == [] then [] else Concat(runs[..|runs| - 1]) + runs[|runs| - 1].trace
  }

  /** One cycle of the `while True` loop: `any_found` is set by every check
      that returns true, no check is skipped once one has found something,
      and the cycle ends with the polling pause. */
  method RunCycle(urls: seq<string>, proxies: seq<nat -> FetchOutcome>)
    returns (anyFound: bool, trace: seq<Effect>)
    requires |urls| == |proxies|
    ensures anyFound <==> exists i :: 0 <= i < |urls| && CheckRun(urls[i], DefaultRetries, proxies[i]).found
    ensures trace == Concat(CycleRuns(urls, proxies)) + [Sleep(CheckInterval)]
  {
    ghost var runs := CycleRuns(urls, proxies);
    anyFound := false;
    trace := [];
    for i := 0 to |urls|
      invariant anyFound <==> exists j :: 0 <= j < i && runs[j].found
      invariant trace == Concat(runs[..i])
    {
      var found, checkTrace := CheckTwicketsUrl(urls[i], DefaultRetries, proxies[i]);
      assert runs[i] == Run(found, checkTrace);
      assert (exists j :: 0 <= j < i + 1 && runs[j].found)
         <==> (exists j :: 0 <= j < i && runs[j].found) || runs[i].found;
      if found {
        anyFound := true;
      }
      trace := trace + checkTrace;
      assert runs[..i + 1][..i] == runs[..i];
    }
    assert runs[..|urls|] == runs;
    assert forall j :: 0 <= j < |urls| ==> runs[j] == CheckRun(urls[j], DefaultRetries, proxies[j]);
    trace := trace + [Sleep(CheckInterval)];
  }

  /** What every check is known to do: between one and three requests, and
      one alert exactly when it found a price. */
  predicate CheckShaped(run: Run)
  {
    1 <= Requests(run.trace) <= DefaultRetries && |Sent(run.trace)| == (if run.found then 1 else 0)
  }

  lemma CycleRunsShaped(urls: seq<string>, proxies: seq<nat -> FetchOutcome>)
    requires |urls| == |proxies|
    ensures forall i :: 0 <= i < |urls| ==> CheckShaped(CycleRuns(urls, proxies)[i])
  {
    forall i | 0 <= i < |urls|
      ensures CheckShaped(CycleRuns(urls, proxies)[i])
    {
      CheckRunCounts(urls[i], DefaultRetries, proxies[i]);
    }
  }

  /** Over a series of checks: every listing is requested at least once and
      at most three times, at most one alert is posted per listing, and some
      check found tickets exactly when some alert was posted. */
  lemma {:induction false} ConcatReading(runs: seq<Run>)
    requires forall i :: 0 <= i < |runs| ==> CheckShaped(runs[i])
    ensures |runs| <= Requests(Concat(runs)) <= DefaultRetries * |runs|
    ensures |Sent(Concat(runs))| <= |runs|
    ensures (exists i :: 0 <= i < |runs| && runs[i].found) <==> Sent(Concat(runs)) != []
  {
    if runs != [] {
      var n := |runs| - 1;
      var before := runs[..n];
      ConcatReading(before);
      ReadingAppend(Concat(before), runs[n].trace);
      if exists i :: 0 <= i < |runs| && runs[i].found {
        var i :| 0 <= i < |runs| && runs[i].found;
        if i < n {
          assert before[i].found;
        }
      }
      if exists i :: 0 <= i < n && before[i].found {
        var i :| 0 <= i < n && before[i].found;
        assert runs[i].found;
      }
    }
  }

  /** A whole cycle, counted: the check of each listing makes between one
      and three requests and posts one alert exactly when it finds tickets;
      over the cycle that gives between one and three requests per listing
      in total, at most one alert per listing, and tickets found exactly
      when an alert was posted. */
  lemma CycleReading(urls: seq<string>, proxies: seq<nat -> FetchOutcome>)
    requires |urls| == |proxies|
    ensures forall i :: 0 <= i < |urls| ==> CheckShaped(CheckRun(urls[i], DefaultRetries, proxies[i]))
    ensures var checks := Concat(CycleRuns(urls, proxies));
            && |urls| <= Requests(checks) <= DefaultRetries * |urls|
            && |Sent(checks)| <= |urls|
            && ((exists i :: 0 <= i < |urls| && CheckRun(urls[i], DefaultRetries, proxies[i]).found)
                <==> Sent(checks) != [])
  {
    var runs := CycleRuns(urls, proxies);
    CycleRunsShaped(urls, proxies);
    ConcatReading(runs);
    assert forall i :: 0 <= i < |urls| ==> runs[i] == CheckRun(urls[i], DefaultRetries, proxies[i]);
  }

  /** With the three configured listings a cycle makes between three and
      nine requests and posts at most three alerts. */
  lemma ConfiguredCycle(proxies: seq<nat -> FetchOutcome>)
    requires |proxies| == |TwicketsUrls|
    ensures var checks := Concat(CycleRuns(TwicketsUrls, proxies));
            3 <= Requests(checks) <= 9 && |Sent(checks)| <= 3
  {
    CycleReading(TwicketsUrls, proxies);
  }

  /** The startup notice is sent as plain text, unescaped. */
  lemma StartupNoticeIsPlain()
    ensures !StartupNotice.markdownV2
    ensures StartupNotice.text == "\U{2705} Twickets bot is now running and checking every 5 minutes!"
  {
  }
}
