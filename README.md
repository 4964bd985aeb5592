# LinkedIn July 2025 job scraper — a Dafny model

The script `li_july_2025_with_desc.py` pages through a job-search web service.
It keeps the listings posted in July 2025, both ends included. For each listing it keeps,
it fetches the job overview and extracts a description from it. It also counts
what it saw. This project models the script's logic and proves properties
of it:

- `json.dfy` (module `Payload`): the loosely typed JSON payloads, with
  objects kept in entry order, `dict.get`, and Python truthiness.
- `text.dfy` (module `Text`): Python's `str.strip()` over Python's whitespace
  set. Like CPython, it scans for the first non-space index from the left and
  the last from the right, then slices.
- `description.dfy` (module `Description`): `_extract_description`, its fixed
  priority order, and the fact that nothing deeper than one nested level is
  consulted.
- `date_window.dfy` (module `DateWindow`): `in_july_2025` and the inclusive
  window `WIN_START`..`WIN_END`.
- `backoff.dfy` (module `Backoff`): the wait `_backoff_sleep` chooses. That is
  the server's `Retry-After` when it is a usable number, otherwise
  `min(60, 2 ** (attempts - 1))`.
- `fetch.dfy` (module `Fetch`): how `fetch_list` and `fetch_overview` classify
  a status code. Their retry loops run over a finite transcript of server
  responses.
- `pipeline.dfy` (module `Pipeline`): `main`'s page loop and listing loop, as
  methods proved against the functions `Flatten`, `JulyRows`, `KeptCount` and
  `OverviewCount`.

Foreign code enters the model as function parameters:

- `dateutil.parser.parse(...).date()` is `parse: string -> Option<Date>`.
- `float(...)` on the `Retry-After` text is `toNumber: string -> Option<real>`.
- The overview service is `overviewOf: string -> Json`, for a non-empty job id.
- The page loop takes the extractor as `describe: Json -> string`.
  `Pipeline.Scrape` passes it `Description.ExtractDescription`, which is what
  `main` calls.

## Model

| member | source | states |
|---|---|---|
| `Payload.Truthy` | li_july_2025_with_desc.py:103 | a decoded value is falsy exactly when it is one of Python's falsy values: `""`, `{}`, `[]`, `0`, `false` or `null` (the `or {}` at line 103 and `1 if ov else 0` at line 170) |
| `Payload.Get` | li_july_2025_with_desc.py:122 | `dict.get` gives None exactly when no entry has the key; otherwise the value of the first entry with that key |
| `Text.IsSpace` | li_july_2025_with_desc.py:123 | the characters `strip()` removes: never a letter or digit, and among ASCII exactly space, tab, newline, carriage return, vertical tab, form feed and the separators 0x1C-0x1F |
| `Text.SkipLeft` | li_july_2025_with_desc.py:123 | the index found is the first non-whitespace character at or after the start, and everything skipped is whitespace |
| `Text.SkipRight` | li_july_2025_with_desc.py:123 | the index found ends the last non-whitespace run, and everything cut off is whitespace |
| `Text.Strip` | li_july_2025_with_desc.py:123-124 | `strip()` returns a string with no whitespace at either end, no longer than its input, and empty exactly when the input is all whitespace (the `val.strip()` truth test) |
| `Text.StripStripped` | li_july_2025_with_desc.py:124 | stripping a string that has no surrounding whitespace returns it unchanged |
| `Text.StripIdempotent` | li_july_2025_with_desc.py:124 | `s.strip().strip() == s.strip()` |
| `Text.StripIsInfix` | li_july_2025_with_desc.py:124 | the stripped text is a slice of the input whose removed prefix and suffix are all whitespace |
| `Description.FirstObject` | li_july_2025_with_desc.py:114-117 | the object the search over an array's elements finds is one of its elements |
| `Description.FirstObjectNone` | li_july_2025_with_desc.py:114-117 | the search finds nothing exactly when no element is an object |
| `Description.FirstObjectIsFirst` | li_july_2025_with_desc.py:115-117 | the object chosen is the first object element (`break` at the first `dict`) |
| `Description.WorkingObject` | li_july_2025_with_desc.py:113-119 | an object payload is used as is; a payload that is neither an object nor an array gives `{}` |
| `Description.NonBlankText` | li_july_2025_with_desc.py:123-124 | a value qualifies exactly when it is a string that is not all whitespace, and then yields its stripped, non-empty text |
| `Description.PreferredText` | li_july_2025_with_desc.py:121-124 | any text the preferred-key search finds is non-empty and stripped |
| `Description.PreferredTextNone` | li_july_2025_with_desc.py:121-124 | the preferred-key search fails exactly when none of the keys holds a non-blank string |
| `Description.PreferredTextIsFirst` | li_july_2025_with_desc.py:121-124 | the text returned is that of the first key, in the order `description`, `job_description`, `full_description`, that qualifies |
| `Description.LongText` | li_july_2025_with_desc.py:127-128 | a value qualifies exactly when it is a string whose stripped length exceeds 40, and yields that stripped text |
| `Description.FirstLongText` | li_july_2025_with_desc.py:126-128 | any text the scan over the values finds is longer than 40 and stripped |
| `Description.FirstLongTextNone` | li_july_2025_with_desc.py:126-128 | the scan fails exactly when no value is a string longer than 40 once stripped |
| `Description.FirstLongTextIsFirst` | li_july_2025_with_desc.py:126-128 | the text returned is that of the first qualifying value in entry order |
| `Description.NestedText` | li_july_2025_with_desc.py:131-135 | only an object value can yield nested text |
| `Description.FirstNestedText` | li_july_2025_with_desc.py:130-135 | any text the nested search finds is non-empty and stripped |
| `Description.FirstNestedTextNone` | li_july_2025_with_desc.py:130-135 | the nested search fails exactly when no value is an object with a qualifying preferred key |
| `Description.FirstNestedTextIsFirst` | li_july_2025_with_desc.py:130-135 | the text returned is that of the first nested object, in entry order, that has one |
| `Description.DescriptionOf` | li_july_2025_with_desc.py:121-137 | the result of the three searches, or "", never has surrounding whitespace |
| `Description.ExtractDescription` | li_july_2025_with_desc.py:111-137 | `_extract_description` is total and its result never has surrounding whitespace |
| `Description.PreferredKeyWins` | li_july_2025_with_desc.py:121-124 | a non-blank string under the first usable preferred key is the result, stripped, whatever else the payload holds |
| `Description.LongStringWins` | li_july_2025_with_desc.py:126-128 | with no usable preferred key, the first string value longer than 40 once stripped is the result |
| `Description.NestedObjectWins` | li_july_2025_with_desc.py:130-135 | with neither earlier step succeeding, the preferred-key text of the first nested object that has one is the result |
| `Description.NothingFound` | li_july_2025_with_desc.py:137 | when no step finds anything the result is "" |
| `Description.FirstObjectElementUsed` | li_july_2025_with_desc.py:114-117 | an array payload describes like its first object element; elements before it that are not objects are skipped |
| `Description.NoObjectGivesEmpty` | li_july_2025_with_desc.py:113-119 | a payload that is neither an object nor an array holding an object gives "" |
| `Description.ListWithLongValue` | li_july_2025_with_desc.py:114-128 | `[null, {k: s}]`, with `k` not a preferred key and `s` a stripped string longer than 40, describes as `s` |
| `Description.LeafEntries` | li_july_2025_with_desc.py:131-135 | blanking a nested object keeps its keys and strings in place |
| `Description.ShallowEntries` | li_july_2025_with_desc.py:126-135 | blanking the working object keeps its keys and, one level down, its strings in place |
| `Description.KeyTextOfMapped` | li_july_2025_with_desc.py:122-124 | the preferred-key test on a key depends only on the keys and on each value's non-blank text |
| `Description.PreferredTextOfSame` | li_july_2025_with_desc.py:121-124 | two objects on which every preferred key tests alike give the same preferred text |
| `Description.PreferredTextOfShallow` | li_july_2025_with_desc.py:121-124 | the preferred-key step ignores everything except string values |
| `Description.NestedTextOfShallow` | li_july_2025_with_desc.py:131-135 | the nested step looks only at the strings of a directly nested object |
| `Description.FirstLongTextOfShallow` | li_july_2025_with_desc.py:126-128 | the long-string step ignores every value that is not a string |
| `Description.FirstNestedTextOfShallow` | li_july_2025_with_desc.py:130-135 | the nested-object step ignores everything deeper than one level below the working object |
| `Description.DeeperNestingIgnored` | li_july_2025_with_desc.py:111-137 | the description depends only on the working object's strings and on the strings of its directly nested objects |
| `DateWindow.InWindow` | li_july_2025_with_desc.py:145 | a date inside `WIN_START <= d <= WIN_END` lies in July 2025 |
| `DateWindow.InWindowIsJuly2025` | li_july_2025_with_desc.py:48-49 | `WIN_START <= d <= WIN_END` holds exactly for the days 1 to 31 of July 2025 |
| `DateWindow.InJuly2025` | li_july_2025_with_desc.py:139-145 | true exactly when the string is present, non-empty and parses to a date in July 2025; a missing or empty string is false |
| `DateWindow.WindowBoundaries` | li_july_2025_with_desc.py:48-49 | 2025-07-01 and 2025-07-31 are in the window; 2025-06-30, 2025-08-01 and unparsable text are not |
| `Backoff.Pow2` | li_july_2025_with_desc.py:61 | `2 ** n` is at least 1 |
| `Backoff.Pow2Monotone` | li_july_2025_with_desc.py:61 | `2 ** n` grows with `n` |
| `Backoff.BaseDelay` | li_july_2025_with_desc.py:61 | the exponential delay lies between 1 and 60 seconds |
| `Backoff.BaseDelayMonotone` | li_july_2025_with_desc.py:61 | the exponential delay never decreases as attempts grow |
| `Backoff.BaseDelayValues` | li_july_2025_with_desc.py:61 | the delay is `2 ** (attempts - 1)` up to attempt 6, doubles between consecutive attempts before that, and is 60 from attempt 7 on |
| `Backoff.RetryDelay` | li_july_2025_with_desc.py:55-61 | the server's `Retry-After` is used exactly when it is non-empty and converts to a non-negative number, and then as given; otherwise the wait is `BaseDelay(attempts)`, i.e. `min(60, 2 ** (attempts - 1))` |
| `Backoff.HintIgnoresAttempts` | li_july_2025_with_desc.py:56-58 | a usable `Retry-After` makes the wait independent of the attempt count |
| `Fetch.ListStep` | li_july_2025_with_desc.py:81-91 | a listing request is retried exactly on 429, 500, 502, 503 and 504; a 200 with a JSON array gives that array; a non-empty page comes only from a 200 array body |
| `Fetch.OverviewBody` | li_july_2025_with_desc.py:102-105 | `r.json() or {}` is the body when it parses and is truthy, otherwise `{}` |
| `Fetch.OverviewStep` | li_july_2025_with_desc.py:101-109 | an overview request is retried exactly on the transient statuses; a truthy overview comes only from a 200 response with that body; any other outcome is `{}` |
| `Fetch.FetchList` | li_july_2025_with_desc.py:77-91 | the page returned is the decision on the first response that is not transient; every earlier response was transient and was followed by the wait RetryDelay(attempt, its Retry-After) |
| `Fetch.FetchOverview` | li_july_2025_with_desc.py:93-109 | an empty job id gives `{}` with no request; otherwise as FetchList, deciding by OverviewStep |
| `Fetch.UnavailableTwiceThenOk` | li_july_2025_with_desc.py:77-91 | two 503 responses and then a 200 array give that array on the third request, after waits of 1 and 2 seconds |
| `Pipeline.KeptCount` | li_july_2025_with_desc.py:167 | no more listings are kept than are seen |
| `Pipeline.OverviewFor` | li_july_2025_with_desc.py:94-95 | a listing with an empty job id gets `{}` and so is never counted as an overview; a non-empty overview is the service's answer for the listing's non-empty id (line 168) |
| `Pipeline.Enrich` | li_july_2025_with_desc.py:172-181 | the row copies the listing's seven fields unchanged; a listing without a job id gets the description of `{}` |
| `Pipeline.JulyRows` | li_july_2025_with_desc.py:162-182 | `july_rows` gets exactly one row per listing in the window (`len(july_rows) == total_july`) |
| `Pipeline.JulyRowsInWindow` | li_july_2025_with_desc.py:167-182 | every row is for a listing whose posting date lies in July 2025 |
| `Pipeline.OverviewCount` | li_july_2025_with_desc.py:170 | `overviews_fetched` never exceeds the number of listings kept |
| `Pipeline.NextListing` | li_july_2025_with_desc.py:162-182 | one more listing adds its row, its kept count and its non-empty overview count, and only when it is in the window |
| `Pipeline.FilledPagesNext` | li_july_2025_with_desc.py:157-160 | the pages before the current one are all non-empty, since the loop stops at the first empty page |
| `Pipeline.JulyRowsAppend` | li_july_2025_with_desc.py:157-186 | the rows of consecutive runs of listings are the rows of each run, concatenated |
| `Pipeline.JulyRowAt` | li_july_2025_with_desc.py:162-182 | a kept listing's row sits at the position given by the number of kept listings before it (encounter order) |
| `Pipeline.KeptCountIncreases` | li_july_2025_with_desc.py:162-182 | rows of earlier kept listings come strictly before rows of later ones |
| `Pipeline.OverviewCountAppend` | li_july_2025_with_desc.py:170 | the non-empty overview count of consecutive runs of listings is the sum of the counts |
| `Pipeline.FlattenNext` | li_july_2025_with_desc.py:157-162 | the listings seen after one more page are the earlier ones followed by that page |
| `Pipeline.ScanPage` | li_july_2025_with_desc.py:162-184 | one page adds its listing count to `total_seen`, its rows to `july_rows`, its kept count to `total_july` and its non-empty overview count to `total_overviews` |
| `Pipeline.Run` | li_july_2025_with_desc.py:151-187 | the loop stops at the first empty page after non-empty ones; the counters and rows are those of all listings on the earlier pages; `total_july == len(july_rows)` and `total_overviews <= total_july` |
| `Pipeline.Scrape` | li_july_2025_with_desc.py:151-187 | `main` with `_extract_description` as the extractor: it stops at the first empty page; `total_seen`, `july_rows`, `total_july` and `total_overviews` are exactly those of all listings on the earlier pages, and `total_overviews <= total_july` |
| `Pipeline.JulyScenario` | li_july_2025_with_desc.py:151-187 | one page with a July listing between two June 30 listings, then an empty page: 3 seen, 1 kept, its row is the July listing's, and one overview is counted when it is non-empty |

## Left out

- Environment configuration, the API key check and the request parameters (lines 29-45, 64-75 and 148-149) are not modelled: they only shape the HTTP request.
- HTTP itself, timeouts and JSON decoding are left out. A response is a status code, an optional decoded body and an optional `Retry-After` header.
- The sleeps and their random jitter (lines 61, 184 and 187) are left out, since time and randomness are outside the model. `Backoff.RetryDelay` gives the deterministic part of the wait.
- Fetch.FetchList: the source retries forever. The model runs over a finite transcript of responses and returns None when it runs out while every response was transient.
- Fetch.FetchOverview: same as FetchList for the finite transcript.
- Backoff.RetryDelay: a `Retry-After` outside the range `time.sleep` can represent raises OverflowError, which the handler does not catch, and ends the script. That range is a magnitude of about 9.2e9 seconds, and it covers finite values such as `1e10` and `-1e10` as well as `inf` and `-inf`. The model has no outcome that ends the script. `toNumber` is taken to give None for such values, so the model waits the exponential delay instead.
- Pipeline.Run: the pages the service returns are given as `pages`, with pages past the end empty, rather than obtained through `FetchList`. The page loop at lines 157-160 has no page cap and never ends if the service never returns an empty page. A finite `pages` rules that case out, and the loop's termination proof relies on it. `overviewOf` makes the overview of a job id the same every time it is requested.
- Listing fields are modelled as strings only. A `job_id` present but null or not a string, and page elements that are not objects (which make `j.get` raise), are left out.
- Writing the JSON and CSV files and the console report (lines 189 onwards) is left out.
- Date parsing is the `parse` parameter. The model does not capture which strings dateutil accepts or how it resolves time zones. Called without a `default`, dateutil fills a missing year, month or day from today's date, so the same text (e.g. "15") can parse to different dates on different days. A fixed `parse` hides this clock dependency: it stands for one run on one day.
