# Twickets price-alert bot: a verified model of its decision core

The bot watches three Twickets event pages. It fetches each page through the
ScrapingBee rendering proxy, reads the ticket prices shown there, and posts a
Telegram alert for the first ticket at or under £250, unless an earlier
`£` price text fails to parse, which ends that check with no alert. This project models the
part of `main.py` that makes decisions and proves properties of it:

- `escape_md`, which escapes text for Telegram's MarkdownV2 format (module `Markdown`,
  built on Python's one-character `str.replace`, modelled in module `Text`);
- `clean_url`, which drops the query and the fragment of a listing URL (module `Url`);
- reading the price texts and scanning them against the £250 ceiling (module `Prices`);
- building the Telegram message (module `Telegram`);
- `check_twickets_url`: the attempt loop with its retry-on-500 policy and the nested
  scan (module `Fetcher`);
- one cycle of the main loop: every configured URL is checked, `any_found` is
  collected, then the bot pauses for 300 seconds (module `Monitor`).

Side effects are not performed. They are returned as a trace, a `seq<Effect>`
in the order they happen:

- `Request(url)` is one call to the proxy for the cleaned URL;
- `Sleep(seconds)` is one blocking pause;
- `Send(message)` is one Telegram post, with its text and whether it uses `parse_mode` MarkdownV2.

The proxy is an input, `proxy: nat -> FetchOutcome`. It gives the answer to
attempt `k`:

- `Page(prices)` is a rendered page, given as the texts of its matched price tags in document order;
- `HttpError(status)` means `raise_for_status` raised;
- `OtherError` is any other exception.

The methods follow the control flow of `main.py`:

- `Markdown.EscapeMarkdown` is the `for ch in escape_chars` rebinding loop;
- `Prices.Scan` is the price loop with its early returns;
- `Fetcher.CheckTwicketsUrl` is the attempt loop;
- `Monitor.RunCycle` is the `for url in TWICKETS_URLS` loop with its `any_found` flag.

Each method is proved against a specification function:

- `Escape` is a single left-to-right pass over the text;
- `ScanFrom` is the first-qualifying-price scan;
- `AttemptFrom`/`CheckRun` is the check, attempt by attempt;
- `CycleRuns`/`Concat` is the cycle.

Lemmas then state the promised properties about those functions.

A few things follow from how the model is built:

- `PageRun` and `Decide` are the one-attempt outcomes. `DecidingAttempt` picks the
  first attempt that is not answered with status 500.
- The closed form `AttemptFromClosedForm` rewrites every check as some retried
  attempts, each followed by a 10-second pause, and then one deciding attempt.
- An alert is recorded as a `Send` whether or not Telegram accepted it. `main.py:57-62`
  swallows delivery errors, so the check returns true either way.
- `Monitor.StartupNotice` is the plain-text "now running" message (`main.py:113`).
  `Monitor.TwicketsUrls` and `Monitor.CheckInterval` are the configured URLs and the 300-second pause.

What the bot does not do:

- The code has no per-source cooldown, no hourly "no results" heartbeat and no
  summary of several prices. It alerts at most once per check, for the first
  qualifying price in document order, unless an earlier `£` text fails to
  parse. For prices £120, £300, £45 it alerts for £120 only.
- After the last allowed status-500 answer the check simply returns `False`.
  There is no separate "transient failure" result.
- The retry pause is 10 seconds. It happens only after a 500 on an attempt that is not the last.

## Model

| member | source | states |
|---|---|---|
| `Text.ReplaceAll` | main.py:43 | `s.replace(ch, rep)` leaves text without `ch` unchanged, and replacing `ch` by itself changes nothing |
| `Markdown.EscapeMarkdown` | main.py:40-44 | the loop that rebinds `text` once per reserved character returns exactly the single-pass per-character escaping `Escape(text)` |
| `Markdown.ReplaceStep` | main.py:41-43 | one `replace(ch, "\\" + ch)` pass over text already escaped for a set of characters gives the text escaped for that set plus `ch`, provided `ch` is new and a backslash is only handled while no backslash has been inserted; this is why backslash comes first in `escape_chars` |
| `Markdown.EscapeLength` | main.py:40-44 | the escaped text is as long as the input plus the number of reserved characters in it (one backslash each) |
| `Markdown.EscapeIdentity` | main.py:40-44 | escaping leaves the text unchanged if and only if it contains no reserved character |
| `Markdown.UnescapeEscape` | main.py:40-44 | unescaping the escaped text gives back the input: every character is kept, unchanged and in order |
| `Markdown.EscapeWellEscaped` | main.py:39-47 | in the escaped text every reserved character stands after a backslash, so price and URL cannot break the MarkdownV2 markup |
| `Markdown.EscapeUnescape` | main.py:40-44 | every well-escaped text is the escaping of its unescaping, so escaping is a bijection onto well-escaped text |
| `Markdown.BackslashLastDoubles` | main.py:41-43 | if the backslash were replaced after another reserved character, the inserted backslash would be doubled: `.` would become `\\.` and not `\.` |
| `Url.CleanUrl` | main.py:64-67 | the cleaned URL is a prefix of the URL, contains no `?` or `#`, and stops exactly at the first `?` or `#` (or at the end) |
| `Url.CleanUrlUnique` | main.py:64-67 | those three properties determine the cleaned URL |
| `Url.CleanUrlIdempotent` | main.py:64-67 | cleaning twice is the same as cleaning once |
| `Url.CleanUrlDropsSuffix` | main.py:64-67 | any query or fragment after a base URL is dropped and the base (scheme, host, path) is kept whole |
| `Prices.ParseDecimal` | main.py:92 | `int()` succeeds exactly on non-empty strings of decimal digits |
| `Prices.ParseShowNat` | main.py:92 | parsing the decimal numeral of `n` gives `n` |
| `Prices.StripSymbolsDeletes` | main.py:92 | `.replace("£", "").replace(",", "")` removes every pound sign and comma and keeps every other character as often as it occurs |
| `Prices.ReadPrice` | main.py:90-92 | a text is ignored if and only if it does not start with `£` |
| `Prices.ReadPoundNumeral` | main.py:91-93 | `£` followed by the numeral of `n` reads as `n` pounds, and it qualifies if and only if `n <= 250` |
| `Prices.CeilingInclusive` | main.py:93 | `£250` qualifies; `£251` reads as 251 and does not qualify |
| `Prices.StripGroupedNumeral` | main.py:92 | stripping `£a,b` for digit strings `a`, `b` leaves `ab` |
| `Prices.ThousandsSeparator` | main.py:92 | `£1,250` reads as 1250 pounds |
| `Prices.ScanFrom` | main.py:89-99 | the index of an alert or of a parse error lies within the scanned texts |
| `Prices.ScanFromMeaning` | main.py:89-99 | an alert is for a qualifying price and an error for an unparsable text; every text before either is ignored or above £250; when nothing is found, that holds of every text |
| `Prices.Scan` | main.py:89-99 | the price loop with its early returns computes `ScanFrom(prices, 0)` |
| `Prices.ScanFindsFirst` | main.py:89-96 | the alert is for the first qualifying price in document order whenever every text before it is passed over |
| `Prices.ScanNoneFoundIff` | main.py:89-99 | nothing is found if and only if every text is ignored or above £250; with no price tags at all this is the normal "nothing found" |
| `Prices.UnparsableAbortsScan` | main.py:89-110 | a `£` text that `int()` rejects ends the scan with an error even when a later price (£100) would qualify |
| `Telegram.BuildMessage` | main.py:36-55 | the message uses MarkdownV2 if and only if a non-empty URL is given; without one the price text is sent unescaped as plain text; with one the text is the alert heading, the escaped price and a link to the escaped URL |
| `Telegram.AlertCarriesPriceAndUrl` | main.py:46-48 | in a MarkdownV2 alert the price slot and the link target are well escaped and unescape to exactly the price text and the URL |
| `Fetcher.CheckTwicketsUrl` | main.py:69-110 | the attempt loop with its early returns performs exactly the result and the effects of `CheckRun` |
| `Fetcher.DecidingAttempt` | main.py:81-107 | the deciding attempt is within `retries`; every attempt before it was answered with status 500; it is not answered with 500 unless it is the last attempt |
| `Fetcher.AttemptFromClosedForm` | main.py:81-110 | every check is some attempts answered with 500, each followed by a 10-second pause, and then the deciding attempt, whose answer alone decides the result and its last effects |
| `Fetcher.CheckRunReading` | main.py:81-110 | a check makes `d + 1 <= retries` requests and takes exactly `d` pauses of 10 seconds, where `d` is the deciding attempt, and every attempt before `d` got a 500; it returns true if and only if the deciding answer is a page with a qualifying price; it then posts exactly one alert, for the first qualifying price and the cleaned URL, and otherwise posts nothing |
| `Fetcher.CheckRunCounts` | main.py:81-110 | a check makes between 1 and `retries` requests and posts one alert exactly when it returns true |
| `Fetcher.AllServerErrors` | main.py:101-107 | `n` answers with status 500 give `n` requests, `n - 1` pauses of 10 seconds, no alert and `False` |
| `Fetcher.ServerErrorsThenPage` | main.py:81-107 | 500, 500 and then a page, with the default three attempts, give three requests and two pauses, and the page decides the result |
| `Fetcher.NoRetryOnOtherFailure` | main.py:101-110 | any HTTP error other than 500, or any other exception, on the first attempt gives exactly one request and `False` |
| `Fetcher.UnparsablePriceEndsCheck` | main.py:89-110 | a page whose scan hits a text `int()` rejects gives one request and `False`; nothing is retried |
| `Monitor.CycleRuns` | main.py:117-118 | a cycle performs one check per configured URL |
| `Monitor.RunCycle` | main.py:115-124 | `any_found` is true if and only if some check returned true; the cycle's effects are the checks of all URLs in list order, none skipped, followed by one 300-second pause |
| `Monitor.ConcatReading` | main.py:116-119 | over checks performed one after another, each making one to three requests and posting one alert exactly when it finds tickets: the total number of requests is between the number of checks and three times it, there are at most as many alerts as checks, and some check found tickets if and only if some alert was posted |
| `Monitor.CycleReading` | main.py:115-124 | in one cycle the check of each configured URL makes between one and three requests and posts one alert exactly when it finds tickets; in total the cycle makes between `|urls|` and `3 * |urls|` requests and posts at most `|urls|` alerts, and `any_found` holds if and only if an alert was posted |
| `Monitor.ConfiguredCycle` | main.py:28-32 | with the three configured listings a cycle makes between 3 and 9 requests and posts at most 3 alerts |
| `Monitor.StartupNoticeIsPlain` | main.py:113 | the startup notice is sent as plain text, without MarkdownV2 and unescaped |

## Left out

- HTTP transport is not modelled. This covers `requests.get` to ScrapingBee and `requests.post` to Telegram, the API key, `render_js` and `chat_id`. Each call is one `Request` or `Send` effect.
- Percent-encoding with `urllib.parse.quote_plus` is not modelled. A `Request` carries the cleaned URL itself.
- HTML parsing is not modelled. BeautifulSoup and the `span.TicketCard__price___3Oxo2` selector belong to a foreign library. A page is given as the texts the selector matched.
- `get_text(strip=True)` whitespace stripping is not modelled. Those texts are taken as already stripped.
- `Url.CleanUrl` keeps the prefix before the first `?` or `#`. It does not model other `urlparse`/`urlunparse` behaviour, such as scheme lower-casing or `;params`, which is library behaviour.
- `Prices.ParseDecimal` accepts only non-empty ASCII digit strings. Python's `int()` also accepts a sign, surrounding whitespace, underscores and other Unicode digits. So `£-5`, which `main.py` reads as -5 and alerts on, is a parse failure here and ends the check with `False`.
- `Fetcher.CheckTwicketsUrl` requires `retries >= 1`. With `retries = 0` the loop in `main.py` never runs and the function returns `None`, which the main loop treats as false. The bot always uses the default of 3.
- Whether a Telegram post was delivered is not modelled. `main.py` logs and swallows delivery errors, so the result does not depend on it.
- Reading `BOT_TOKEN`, `CHAT_ID` and `SCRAPINGBEE_API_KEY` from the environment, and exiting when they are missing, are process setup outside the core.
- `print` logging is left out, including the "No tickets under £250 found at any monitored URLs." line printed when `any_found` is false.
- Real time is not modelled. Pauses are recorded as `Sleep` effects with their length in seconds.
- The endless `while True` loop is modelled as one cycle, `Monitor.RunCycle`. The startup message sent before the loop is the constant `Monitor.StartupNotice`.
