# hfdflood incremental sync, modelled in Dafny

hfdflood archives the river-level readings of one Environment Agency flood-monitoring measure.
The archive is one JSON *dayfile* per calendar day, named `<isodate>.json` and holding
`{meta, items}`.

Each run does the same steps:
1. It looks back from today, at most seven days, for the newest dayfile.
2. If that file is missing, it *bootstraps*: it fetches every reading since the located date and
   stops.
3. Otherwise it takes the latest `dateTime` in the file as a cursor. It fetches the readings
   since the cursor, sorts them by `dateTime`, trims each to `{dateTime, value}` and groups them
   by day. It then appends each day's group to that day's file, creating the file if needed.

The same algorithm exists twice:
- `hfdflood_ingest.py` runs as an AWS Lambda over an S3 bucket.
- `hfdflood-local.py` runs as a script over the working directory.

Both are modelled over one abstract blob store: a map from key to dayfile, held in the field of
the class `Sync.DayfileStore`.

Modules, in dependency order:
- `Errors`: the exceptions the core can raise, as an `Error` value inside `Result`.
- `Digits`, `Lex`: fixed-width decimal rendering, and Python's code-point string order `LexLe`.
- `Calendar`: days as ordinals (`date.toordinal()`, 1 to 3652059). `IsoDate` renders a day as a
  fixed-width digit string, and `DayfileKey` appends `.json`.
- `TimeMath`: `str_to_datetime` (drop one trailing `Z`, then parse) and the reading-count
  estimate.
- `Readings`: `trim_reading`, keying a reading by its day, and the sort by `dateTime`.
- `Partition`: the dict of lists that the partition loop builds. Its days are kept in insertion
  order, and concatenating its lists gives back the sorted input.
- `Fetching`: the query with its optional `_limit`, the URL, and `fetch_readings_since` as a
  method. Its partition loop is the method `PartitionByDay`, which it calls.
- `Dayfiles`: merge-or-create, the backward search (as written, and corrected), the cursor, and
  the archive invariant.
- `Sync`: the cycle as a specification function with its lemmas. The class `DayfileStore` holds
  the methods `add_to_dayfile`, `bootstrap_series` and `lambda_handler`/`main`.

Timestamps stay strings, because the source sorts them as strings and uses the latest one as the
cursor. Each timestamp is a date of `DateWidth` digits, optionally followed by `T<hh>:<mm>:<ss>`
and at most one `Z`. The date has a fixed width, so string order never puts a later day first
(`TimeMath.DayOrder`).

A Python dict keyed by ISO date strings is keyed here by the day itself. This is equivalent
because `IsoDate` is injective and parses back (`Calendar.IsoDateRoundTrip`). That also covers
`add_to_dayfile` re-parsing its day key with `fromisoformat`.

The two files differ in a few places, and the model matches both:
- **Storage probe:** S3 `NoSuchKey` in `hfdflood_ingest.py`, `os.path.isfile` in
  `hfdflood-local.py`. Both are "is the key in the store".
- **Ending a bootstrap:** `return None` in `hfdflood_ingest.py`, `exit(0)` in
  `hfdflood-local.py`. Both end the run.
- **The estimate:** `hfdflood-local.py` recomputes it three times from the same inputs, so every
  use sees the same value.

Line correspondence between the two files:

| in `hfdflood_ingest.py` | in `hfdflood-local.py` |
|---|---|
| 24-30 | 19-26 |
| 33-48 | 29-40 |
| 51-53 | 43-45 |
| 56-66 | 48-58 |
| 69-77 | 61-69 |
| 80-84 | 72-76 |
| 87-118 | 79-109 |
| 121-137 | 112-131 |
| 140-165 | 134-158 |

A run that finds no dayfile in its seven-day window bootstraps from the oldest day it probed,
today minus 7 (`Sync.CycleBootstraps` together with `Dayfiles.LocateEmptyWindow`). The bare ISO
date it sends as `since` always parses (`TimeMath.DateOnlyRoundTrip`).

## Model

| member | source | states |
|---|---|---|
| Calendar.IsoDate | hfdflood_ingest.py:53 | The rendering of a day has the fixed width `DateWidth` and is all digits. |
| Calendar.DayfileKey | hfdflood_ingest.py:51-53 | The key has the fixed length `DateWidth + 5`: the date, then `.json`. That it parses back is `Calendar.DayfileKeyParses`. |
| Calendar.DayfileKeyParses | hfdflood_ingest.py:51-53 | The key has a fixed length, ends in `.json`, and its first `DateWidth` characters parse back to the day. |
| Calendar.DayfileKeyInjective | hfdflood-local.py:43-45 | Equal dayfile keys mean equal days, so distinct days never share a file. |
| Calendar.ParseIsoDate | hfdflood_ingest.py:123 | A parse succeeds exactly on a string of `DateWidth` digits naming a day in range, and gives the day whose rendering is that string. |
| Calendar.IsoDateRoundTrip | hfdflood-local.py:114 | Parsing the ISO rendering of a day, as `add_to_dayfile` does with its dict key, gives back that day. |
| TimeMath.ParseLocal | hfdflood_ingest.py:62 | Errors are `FormatError`. On success the string starts with the ISO date of the parsed day, ends in a digit, and holds only timestamp characters. Exactly the bare dates and the renderings are accepted (`TimeMath.ParseLocalRenders`, `TimeMath.RenderRoundTrip`). |
| TimeMath.StrToDatetime | hfdflood_ingest.py:56-66 | Errors are `FormatError`. On success the string starts with the ISO date of the parsed day and holds only timestamp characters and `Z`. Exactly those forms, bare or with one trailing `Z`, are accepted (`TimeMath.StrToDatetimeRenders`). |
| TimeMath.TrailingZ | hfdflood-local.py:50-52 | An accepted timestamp parses the same with or without one trailing `Z`. A second `Z` is malformed. |
| TimeMath.DateOnlyRoundTrip | hfdflood_ingest.py:27 | The bare ISO date that `bootstrap_series` sends parses as midnight of that day. |
| TimeMath.RenderRoundTrip | hfdflood_ingest.py:62 | Every datetime renders to a timestamp that parses back to it, both bare and with the API's trailing `Z`. |
| TimeMath.ParseLocalRenders | hfdflood_ingest.py:62 | A string that parses is either the bare ISO date of its day, at midnight, or the rendering of the parsed datetime. Every other string raises. |
| TimeMath.StrToDatetimeRenders | hfdflood_ingest.py:56-66 | A string that parses is a bare date at midnight or a datetime's rendering, each alone or followed by one `Z`. Every other string raises. |
| TimeMath.MalformedRejected | hfdflood-local.py:53-57 | The empty string and a lone `Z` raise a format error instead of yielding a datetime. |
| TimeMath.DayOrder | hfdflood_ingest.py:108-112 | In string order, a timestamp never sorts before one from an earlier day. |
| TimeMath.EarlierDayFirst | hfdflood_ingest.py:157 | A timestamp on an earlier day sorts before one on a later day. |
| TimeMath.EstimateReadings | hfdflood_ingest.py:80-84 | The estimate is the number of whole 15-minute intervals elapsed: `n*900 <= elapsed < (n+1)*900` seconds. |
| TimeMath.EstimateRoundsDown | hfdflood-local.py:72-76 | 149 minutes give 9 readings and 150 minutes give 10. |
| Readings.TrimReading | hfdflood_ingest.py:69-77 | Succeeds iff both `dateTime` and `value` are present. The result holds exactly those two fields with the raw values. Otherwise the error names the missing field. |
| Readings.KeyReading | hfdflood_ingest.py:112-116 | Succeeds iff the reading has a parseable `dateTime` and a `value`. The trimmed reading is then filed under the day of its own timestamp. |
| Readings.KeyAll | hfdflood_ingest.py:111-116 | On success there is one keyed reading per input reading. The elementwise statement is `Readings.KeyAllSpec`. |
| Readings.KeyAllSpec | hfdflood-local.py:102-107 | Succeeds iff every reading can be keyed, giving them elementwise in order. |
| Readings.KeyAllFirstError | hfdflood_ingest.py:111-116 | When the loop first fails at reading n, that reading's error is the error of the whole loop. |
| Readings.InsertSorted | hfdflood_ingest.py:108 | Inserting into a list sorted by `dateTime` keeps it sorted. |
| Readings.InsertPermutes | hfdflood_ingest.py:108 | Inserting adds exactly the new item: the result is a permutation of the list plus that item. |
| Readings.SortByDateTime | hfdflood-local.py:99 | Fails with a missing `dateTime` iff some item lacks one. Otherwise it returns a permutation of the items, sorted by `dateTime` in string order. |
| Partition.Group | hfdflood_ingest.py:110-116 | The dict built from the keyed readings has distinct days, and its keys are exactly those days. |
| Partition.DaysInOrderMembers | hfdflood-local.py:101-107 | A day is a key of the dict iff at least one reading falls on it. |
| Partition.GroupCovers | hfdflood_ingest.py:111-116 | Every keyed reading appears in the list of its own day. |
| Partition.ReadingsOnOnDay | hfdflood_ingest.py:112-116 | Every reading in day D's list has a timestamp on day D. |
| Partition.ReadingsOnSorted | hfdflood-local.py:99-107 | Each day's list is in ascending `dateTime` order when the input was. |
| Partition.FlattenGroup | hfdflood_ingest.py:108-116 | For input ordered by day, concatenating the day lists in dict order gives back every reading in input order. |
| Fetching.QueryFor | hfdflood_ingest.py:90-97 | The query fails, with `FormatError`, iff the `since` timestamp does not parse, and otherwise keeps `since` unchanged. |
| Fetching.Url | hfdflood_ingest.py:90-97 | The URL always begins with the plain request URL ending in `?since=<since>`. The `_limit` suffix is stated by `Fetching.LimitParameter`. |
| Fetching.LimitParameter | hfdflood-local.py:82-88 | The URL carries `&_limit=` iff the estimate exceeds 500, and then its number reads back as estimate + 1. Otherwise the URL ends in `?since=<since>`. |
| Fetching.PartitionStep | hfdflood_ingest.py:113-116 | One pass of the loop appends to the day's list if present, or starts the list and the key. Either way the dict still describes the readings seen. |
| Fetching.PartitionByDay | hfdflood_ingest.py:110-116 | The loop over the sorted items gives the grouped keyed readings when every item can be keyed, and otherwise the error of the first item that cannot. |
| Fetching.Fetch | hfdflood_ingest.py:87-118 | On success the result holds the query built for `since`. Its dict has distinct days, and its keys are exactly those days. |
| Fetching.FetchReadingsSince | hfdflood_ingest.py:87-118 | The result equals `Fetch`: the query error, the sort or first key error, or the grouped readings with the response's meta. |
| Fetching.FetchPartition | hfdflood-local.py:99-109 | On success, the lists are non-empty, on their days and in order. Concatenated, they are the sorted items, each trimmed. |
| Dayfiles.Merge | hfdflood_ingest.py:121-137 | One merge adds exactly the day's key to the store. What it stores is `Dayfiles.MergeEffect`. |
| Dayfiles.MergeEffect | hfdflood_ingest.py:121-137 | One merge adds only the day's key. An existing file keeps its meta and gets the readings appended with no deduplication. A new file is `{meta, readings}`. Other keys are untouched. |
| Dayfiles.MergeDays | hfdflood_ingest.py:164-165 | Merging a dict of batches never removes a key. |
| Dayfiles.MergeDaysEffect | hfdflood-local.py:156-158 | Merging all batches adds exactly the batches' keys and merges each day's file as above. No other key changes. |
| Dayfiles.MergeExtends | hfdflood_ingest.py:126-136 | One merge only appends: every stored file keeps its meta, and its old items are a prefix of its new ones. |
| Dayfiles.MergeDaysExtends | hfdflood-local.py:112-131 | Merging is append-only: every stored file survives with its meta, and its old items are a prefix of its new items. |
| Dayfiles.MergeArchived | hfdflood-local.py:119 | Merging a non-empty batch of readings on the file's day keeps every dayfile non-empty and on its day. |
| Dayfiles.MergeDaysArchived | hfdflood_ingest.py:29-30 | The loop over batches keeps every dayfile non-empty and on its day. |
| Dayfiles.FindMostRecentAsWritten | hfdflood_ingest.py:33-48 | The search as written. The result is never after start and, while fewer than 7 tries are used, never before start - (7 - tries), whatever `search_limit` says. |
| Dayfiles.Locate | hfdflood-local.py:29-40 | The corrected search, which forwards `search_limit`. It equals the source's search at the default of 7 (`Dayfiles.SearchAgreesAtDefault`). The result lies in the window `[start - limit, start]`. |
| Dayfiles.LocateSpec | hfdflood-local.py:29-40 | Of the corrected search, equal to the source's at the default of 7 (`Dayfiles.SearchAgreesAtDefault`): no dayfile exists after the result, up to start. The result is an existing dayfile or the oldest day probed. |
| Dayfiles.SearchAgreesAtDefault | hfdflood_ingest.py:33-48 | With the default limit of 7, the search as written equals the corrected search. |
| Dayfiles.SearchLimitNotForwarded | hfdflood_ingest.py:48 | Asked for 3 days over an empty store, the search as written returns start - 7 and the corrected one returns start - 3. |
| Dayfiles.LocateFindsExisting | hfdflood-local.py:32-34 | If a dayfile exists in the window, the search returns an existing dayfile no older than it, which is the latest one. |
| Dayfiles.LocateEmptyWindow | hfdflood_ingest.py:42-45 | With no dayfile in the window, the search returns the sentinel `start - limit`. |
| Dayfiles.LatestDateTime | hfdflood_ingest.py:157 | The cursor is the `dateTime` of one of the items and at least every item's `dateTime` in string order. |
| Dayfiles.LatestDateTimeUnique | hfdflood_ingest.py:157 | An item's `dateTime` that is at least every item's is the cursor, so the cursor is the unique maximum. |
| Dayfiles.LocatedCursorIsLatest | hfdflood-local.py:150 | In a well-formed archive, that cursor is at least every reading stored for any day up to today. |
| Sync.Ingest | hfdflood_ingest.py:161-165 | A failed fetch writes nothing. A successful one removes no key. |
| Sync.IngestContents | hfdflood_ingest.py:161-165 | A successful fetch-and-store adds exactly the fetched days' keys, merges each day's file, and leaves every other file as it was. |
| Sync.IngestKeepsArchive | hfdflood-local.py:22-25 | Fetch-and-store writes nothing on error. It is append-only and keeps every dayfile well formed. |
| Sync.Cycle | hfdflood_ingest.py:140-165 | A run locates with the search as written, at the default of 7, as line 142 does. It reports a bootstrap only when the located day has no dayfile. Its branches are stated by the lemmas below, through `Dayfiles.SearchAgreesAtDefault`. |
| Sync.CycleKeepsArchive | hfdflood_ingest.py:140-165 | A run is append-only and keeps the archive well formed. A failed run writes nothing. |
| Sync.CycleBootstraps | hfdflood_ingest.py:150-154 | If the located dayfile is missing, the run fetches from that day's ISO date, whose query always parses, stores the result, and does no incremental fetch. |
| Sync.CycleEmptyDayfile | hfdflood-local.py:150 | If the located dayfile has no items, the run fails and writes nothing. |
| Sync.CycleResumes | hfdflood-local.py:149-158 | If the located dayfile has items, the run fetches since their latest `dateTime` and merges every fetched batch. |
| Sync.CycleCursorIsLatest | hfdflood_ingest.py:157-161 | A resuming run asks for readings since the latest reading stored for any day up to today. |
| Sync.DayfileStore.AddToDayfile | hfdflood-local.py:112-131 | Only the day's key is added. An existing file gets the readings appended and keeps its meta. A new file gets the given meta and readings. No other key changes. |
| Sync.DayfileStore.AddAll | hfdflood_ingest.py:164-165 | The loop over the dict applies `add_to_dayfile` day by day, in insertion order. The store ends with exactly the effect of `Dayfiles.MergeDaysEffect`. |
| Sync.DayfileStore.BootstrapSeries | hfdflood_ingest.py:24-30 | Fetches since the given day's ISO date and stores every batch. On error the store is unchanged. |
| Sync.DayfileStore.SyncSince | hfdflood-local.py:153-158 | Fetches since a timestamp and merges every batch. The result and the new store are those of `Sync.Ingest`. |
| Sync.DayfileStore.RunCycle | hfdflood-local.py:134-158 | The run locates with the search as written, at the default of 7. Its outcome and new store are `Sync.Cycle` of the old store, whose branches are proved in the lemmas above. |

## Left out

- HTTP: the request, the User-Agent header, charset decoding and JSON decoding. The API is a
  parameter `source: Query -> Response` that returns the raw items and an opaque meta.
- Storage I/O: boto3, `open`, `os.path.isfile` and `json.dump`. The store is a map from key to
  dayfile, and JSON layout and pretty-printing are not modelled.
- Environment variables and logging.
- Reading values and `meta`: both are opaque strings.
- The clock: `datetime.now()` is bound when the function is defined, and `date.today()` is read
  at run time. Both become the parameters `now` (seconds on the `InstantOf` scale) and `today`
  (a day ordinal).
- Float arithmetic in `total_seconds() / 60 / 15`: elapsed time is whole seconds, and
  microseconds are not modelled.
- `fromisoformat` accepts only the two forms above (`TimeMath.ParseLocalRenders`, `TimeMath.StrToDatetimeRenders`). Other ISO 8601 forms (offsets, fractions,
  week dates) are rejected, and dates are rendered as fixed-width ordinals, not Gregorian
  `YYYY-MM-DD`.
- Stored files with a different schema: missing `items`, non-list `items` or non-string
  `dateTime` raise errors that are not modelled. Stored items are trimmed readings.
- Storage failures other than a missing key (permissions, network, disk full), and a crash part
  way through the merge loop.
- Concurrent runs: the source assumes a single writer.
- `tools/csv2json.py`: a stdin/stdout conversion script outside the sync core.
- Sync.DayfileStore.RunCycle: requires `today - 7 >= MinDay`. Below that, `date - timedelta`
  raises `OverflowError`, which is not modelled.
- Dayfiles.Locate: requires its window to stay within the date range, for the same
  `OverflowError` reason.
- Dayfiles.FindMostRecentAsWritten: requires `tries == search_limit`, or `tries` below 7 with
  the window above the minimum date. With `tries >= 7` and `tries != search_limit`, the recursion
  never meets `tries == 7` again, because `search_limit` is not forwarded (see Findings). It then
  recurses until it finds a dayfile, or raises `RecursionError`, or `OverflowError` at the
  minimum date. None of that is modelled. The only call site starts at `tries = 0`.
- Readings.SortByDateTime: its contract states sortedness and permutation but not stability
  (Python's `sorted` keeps equal `dateTime`s in input order). The insertion sort used is
  stable, but no lemma states it.
- Fetching.FetchReadingsSince: the readings that `since` selects, and any overlap with stored
  readings, are up to the `source` parameter. So the model, like the source, does not
  deduplicate a re-sent last reading.

## Findings

| source | as written | input that shows it | evidently intended | confidence | as-written member | corrected member |
|---|---|---|---|---|---|---|
| hfdflood_ingest.py:48 (also hfdflood-local.py:40) | The recursive call of `find_most_recent_dayfile` passes `day - 1` and `tries + 1` but not `search_limit`. Every call after the first therefore compares `tries` with the default 7. | `find_most_recent_dayfile(start, 0, 3)` over an empty store returns `start - 7`, not `start - 3` (`Dayfiles.SearchLimitNotForwarded`). | The recursion forwards `search_limit`, so the search probes exactly `search_limit + 1` days. The only call site uses the default 7, where both agree (`Dayfiles.SearchAgreesAtDefault`). | not executed | Dayfiles.FindMostRecentAsWritten | Dayfiles.Locate |
