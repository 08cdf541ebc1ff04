# YouTube playlist duration engine, in Dafny

This project models the calculation behind `YouTubePlaylistCalculator` in
`app.py`. Given a playlist URL and an optional 1-based range of video numbers,
the calculator does the following:

- it extracts the playlist id from the URL;
- it pages through the playlist listing, 50 items per request;
- it looks up the videos' ISO 8601 durations in batches of 50;
- it decodes the durations and sums them over the selected videos;
- it builds a table of viewing times at 1.0, 1.25, 1.5, 1.75 and 2.0 times speed.

Each step is proved against a specification function. Lemmas then state what
the source promises about that function.

The modules follow the steps:

- `Wrappers`: `Option` and `Result`.
- `Errors`: one constructor per exception message the thread can show.
- `Decimal`: digit strings and `str()` of a natural number.
- `Duration`: the decoder `parse_duration` and the formatter `format_time`.
- `PlaylistId`: `extract_playlist_id`, as a scan in place of the regular expression.
- `Fetcher`: `get_playlist_videos`. The pages the API would return are a finite sequence.
- `Resolver`: `get_video_durations`. The API call is a function from a batch of ids to a reply.
- `Calculator`: the range, the sum, the speed loop, and `_calculate_thread` as a whole.

Loops in the source are methods with loops here:

- `ParseDuration` is proved equal to `Decode`.
- `GetPlaylistVideos` is proved equal to `Listing`.
- `GetVideoDurations` and its inner loop `RecordItems` are proved equal to `Durations` and `Record`.
- `SpeedTable` is proved equal to `RowsFor` and `ChartFor`.
- `CalculateThread` and `Summarize` are proved equal to `Calculation` and `Summary`.

The searching, slicing, summing and formatting code is pure, and is modelled as functions.

Modelling choices:

- API failures, a malformed duration, and the three checks the thread raises
  on are `Err` values of `Errors.Error`. The source raises exceptions for these.
- In the model, `int()` on a duration component accepts exactly the non-empty
  ASCII digit strings. Anything else makes the decoder return `None`, where the
  source raises `ValueError`. Python's `int()` accepts more; see "Left out".
- A refused duration gives `Errors.BadDuration` holding the whole `duration`
  token of the reply.
- `split(c)[1]` is the text between the first and the second `c`, as in Python.
  For example, `"1H2H"` keeps only `"2"`.
- `videos[start_idx:end_idx]` follows Python's slice rules exactly, including a
  negative end, which counts from the back.
- `timedelta(seconds=n)` splits `n` into days and seconds by floor division by
  86400, so `FormatTime` is defined on every integer.
- The speed arithmetic is exact, over `real`. `int()` of the non-negative
  quotient is `Floor`.
- A speed row keeps the truncated seconds that `format_time` receives. Its texts
  are the members `TimeText` (`format_time` of the time) and `SavedText`
  (`"Saves "` and `format_time` of the saving, or `""` for the 1.0 row).

A range start past the last video gives an empty selection, which sums to 0
and raises "No valid video durations found" (`Calculator.SummaryStartPastEnd`).

## Model

| member | source | states |
|---|---|---|
| Decimal.NatToStringRoundTrip | app.py:535-539 | the decimal text used by `format_time` is a digit string, and reading it back as an integer gives the number |
| Duration.Decode | app.py:507-526 | definition of `parse_duration` as a value, without a contract of its own; what it computes is stated by `DecodeToken`, `DesignatorIgnored`, `NoUnitsIsZero` and the `NotInteger` lemmas |
| Duration.ParseDuration | app.py:507-526 | the method decodes exactly as `Decode`: it drops two characters, then peels hours, minutes and seconds, failing on a non-integer component |
| Duration.DecodeToken | app.py:509-526 | for digit strings h, m and s, any of them possibly absent, `"PT" h "H" m "M" s "S"` decodes to h*3600 + m*60 + s |
| Duration.DesignatorIgnored | app.py:509 | the first two characters are dropped unread: any two give the same result |
| Duration.NoUnitsIsZero | app.py:511-526 | text without H, M or S after the first two characters decodes to 0 (`"PT"`, `"P1D"`) |
| Duration.HoursNotInteger | app.py:515-516 | a non-integer text before the first H makes decoding fail, whatever follows |
| Duration.MinutesNotInteger | app.py:515-520 | after a well-formed hours part or none, a non-integer text before the next M makes decoding fail, whatever follows |
| Duration.SecondsNotInteger | app.py:515-524 | after well-formed hours and minutes parts, each possibly absent, a non-integer text before the next S makes decoding fail, whatever follows (`"PTXS"`, `"PT1M2.5S"`) |
| Duration.DecodeExampleAllParts | app.py:507-526 | `"PT1H2M3S"` decodes to 3723 |
| Duration.DecodeExampleZero | app.py:511-526 | `"PT0S"` and `"PT"` decode to 0 |
| Duration.DecodeExampleNoCarry | app.py:519-520 | `"PT90M"` decodes to 5400: minutes are not carried into hours |
| Duration.DecodeExampleTenMinutes | app.py:519-520 | `"PT10M"` decodes to 600 |
| Duration.DecodeExampleTwentyMinutes | app.py:519-520 | `"PT20M"` decodes to 1200 |
| Duration.DecodeExampleThirtyMinutes | app.py:519-520 | `"PT30M"` decodes to 1800 |
| Duration.DecodeExampleRejected | app.py:515-520 | `"PTXM"` and the day form `"P1DT2H"` fail to decode, so no result |
| Duration.DecodeExampleFraction | app.py:523-524 | `"PT1M2.5S"` fails to decode: fractional seconds are refused |
| Duration.Breakdown | app.py:530-532 | days, hours < 24, minutes < 60 and seconds < 60, with days*86400 + hours*3600 + minutes*60 + seconds equal to the input |
| Duration.BreakdownUnique | app.py:530-532 | that breakdown is the only one within those bounds |
| Duration.FormatTime | app.py:528-539 | definition of `format_time` by its three tiers, without a contract of its own; its texts are stated by `FormatTimeMinutes`, `FormatTimeHours`, `FormatTimeDays` and `FormatTimeDropsSeconds` |
| Duration.FormatTimeMinutes | app.py:538-539 | under an hour the text is `"{m}m {s}s"` |
| Duration.FormatTimeHours | app.py:536-537 | from one hour to under a day the text is `"{h}h {m}m"` |
| Duration.FormatTimeDays | app.py:534-535 | from one day on the text is `"{d}d {h}h {m}m"` |
| Duration.FormatTimeDropsSeconds | app.py:534-537 | from one hour on, the seconds do not change the text |
| Duration.FormatTimeExamples | app.py:528-539 | 3723 is `"1h 2m"`, 90061 is `"1d 1h 1m"`, 45 is `"0m 45s"` |
| PlaylistId.RunFrom | app.py:434 | the id is the longest run of `[a-zA-Z0-9_-]` at the given offset |
| PlaylistId.SearchList | app.py:433-441 | the leftmost `?list=` or `&list=` followed by an id character, or none anywhere |
| PlaylistId.SearchPlaylist | app.py:435-441 | the leftmost `playlist?list=` followed by an id character, or none anywhere |
| PlaylistId.Extract | app.py:431-442 | definition of `extract_playlist_id` from the two searches, without a contract of its own; stated by `ExtractLeftmost`, `ExtractNone` and `ExtractIsId` |
| PlaylistId.ExtractLeftmost | app.py:438-441 | at the leftmost match the result is the maximal id run after `list=`, and it is non-empty and well-formed |
| PlaylistId.ExtractNone | app.py:438-442 | `None` exactly when no `?list=` or `&list=` is followed by an id character |
| PlaylistId.ExtractIsId | app.py:438-442 | any result is a non-empty string of id characters |
| PlaylistId.PlaylistMatchIsListMatch | app.py:434-435 | each match of the second pattern is a match of the first, 8 characters later |
| PlaylistId.SecondPatternSubsumed | app.py:438-442 | the second pattern is never reached with a match: when the first finds nothing, so does it |
| PlaylistId.BareIdRejected | app.py:438-442 | a bare id without `list=` gives `None` |
| PlaylistId.ExtractFromQuery | app.py:433-441 | in a URL with `?list=<id>` or `&list=<id>` as its first query separator, the result is that id |
| Fetcher.FirstEndFrom | app.py:449-475 | the first page from an offset where the loop stops: a non-200 status or a falsy token |
| Fetcher.Flatten | app.py:468-471 | definition of the accumulated `videos` list as the pages' items in order, without a contract of its own; its length is stated by `FlattenLength` |
| Fetcher.Listing | app.py:444-477 | definition of the listing's outcome up to the first stopping page, without a contract of its own; stated by `ListingOk` and `ListingFailFast`, and `GetPlaylistVideos` is proved equal to it |
| Fetcher.Requests | app.py:451-461 | one request per page fetched, each asking for 50 items; the first has no token, each later one the previous page's token |
| Fetcher.GetPlaylistVideos | app.py:444-477 | the loop returns `Listing`: the items of the pages up to the first stopping page, in order, or that page's error; it sends exactly the requests up to that page |
| Fetcher.ListingOk | app.py:449-477 | when pages 0..n-1 are 200 with a truthy token and page n is 200 with a falsy one, the result is the concatenation of pages 0..n, and its length is their item count |
| Fetcher.ListingFailFast | app.py:463-464 | a non-200 page before the end makes the listing fail with that page's status and body |
| Fetcher.FlattenLength | app.py:468-471 | the concatenation has as many entries as the pages have items |
| Fetcher.ListingThreePages | app.py:449-477 | pages of 50, 50 and 7 items, the last without a token, give the 107 entries in order |
| Fetcher.ListingEmpty | app.py:449-477 | a single empty page without a token gives the empty list |
| Resolver.BatchesPartition | app.py:484-485 | the batches concatenate to the ids; there are ceil(n/50) of them; each holds 1 to 50 ids, and all but the last hold 50 |
| Resolver.Batches120 | app.py:484-485 | 120 ids give batches of 50, 50 and 20 |
| Resolver.Batches | app.py:484-485 | definition of `video_ids[i:i+50]` for i in steps of 50, without a contract of its own; stated by `BatchesPartition` and `Batches120` |
| Resolver.Record | app.py:500-503 | definition of the inner loop's map, without a contract of its own; stated by `RecordAppend`, `RecordKeys` and `RecordValue` |
| Resolver.Durations | app.py:479-505 | definition of `get_video_durations` over the batches, without a contract of its own; stated by `DurationsFromResponses`, `ResolveFailFast` and `DurationsOfNothing`, and `GetVideoDurations` is proved equal to it |
| Resolver.RecordItems | app.py:500-503 | the inner loop's map is `Record`: each item's decoded duration stored under its id, or the first bad duration |
| Resolver.GetVideoDurations | app.py:479-505 | the loop returns `Durations`; the batches sent are a prefix of `Batches`, and all of them on success |
| Resolver.RecordAppend | app.py:500-503 | recording two item lists in turn is recording their concatenation |
| Resolver.ResolveRecordsAll | app.py:484-505 | on success the map is the record of every item of every reply, in order |
| Resolver.RecordKeys | app.py:500-503 | the keys added are exactly the ids of the items |
| Resolver.RecordValue | app.py:503 | a key's value is the decoded duration of the last item with that id |
| Resolver.DurationsFromResponses | app.py:484-505 | the keys of the result are exactly the ids some reply returned, so ids missing from the replies are absent; each value is the last such item's decoded duration |
| Resolver.ResolveFailFast | app.py:495-496 | a non-200 reply to any batch makes the whole resolution fail |
| Resolver.DurationsOfNothing | app.py:481-484 | no ids: no batches, so no requests, and the empty map |
| Calculator.SliceBound | app.py:584 | a Python slice bound lands in `0..len`, counting a negative bound from the back |
| Calculator.PySlice | app.py:584 | definition of Python's `s[lo:hi]` by the two `SliceBound`s, without a contract of its own; stated through `Select` by `SelectContiguous`, `SelectRange` and `SelectNegativeEnd` |
| Calculator.Select | app.py:578-584 | definition of `start_idx`, `end_idx` and the slice, without a contract of its own; stated by `SelectContiguous`, `SelectRange`, `SelectNegativeEnd`, `SelectClampExample` and `SelectEverything` |
| Calculator.SelectContiguous | app.py:578-584 | the selection is a contiguous run of the playlist |
| Calculator.SelectRange | app.py:578-584 | with a non-negative end or none, the selection is videos number `max(1, start)` to `min(end, len)`, inclusive, or empty |
| Calculator.SelectNegativeEnd | app.py:582-584 | a negative end counts from the back, as Python slicing does |
| Calculator.SelectClampExample | app.py:578-584 | on 30 videos, 25..100 gives videos 25..30, and a start of 40 selects nothing |
| Calculator.SelectEverything | app.py:578-584 | both fields empty selects every video, as 1 to len |
| Calculator.Ids | app.py:587 | one id per selected video, in order |
| Calculator.Total | app.py:591 | definition of the sum of `durations.get(id, 0)` over the selection, without a contract of its own; stated by `TotalAppend`, `TotalCountsDuplicates`, `TotalZero` and `TotalAtLeast` |
| Calculator.TotalAppend | app.py:591 | the sum over two runs of videos is the sum of the sums |
| Calculator.TotalCountsDuplicates | app.py:591 | a video listed twice counts twice |
| Calculator.TotalZero | app.py:591-594 | the total is 0 exactly when every selected video is unresolved or of length 0 |
| Calculator.TotalAtLeast | app.py:591 | the total is at least the duration of any selected video |
| Calculator.Row | app.py:602-610 | definition of one speed's row, without a contract of its own; stated by `SavedAddsUp`, `RowTexts` and `ProjectionExample` |
| Calculator.RowsFor | app.py:597-610 | definition of `speeds_data` over a list of speeds, without a contract of its own; stated by `TableAt`, and `SpeedTable` is proved equal to it |
| Calculator.ChartFor | app.py:597-603 | definition of `chart_times` over a list of speeds, without a contract of its own; stated by `TableAt`, and `SpeedTable` is proved equal to it |
| Calculator.TableAt | app.py:597-610 | one row and one chart value per speed, in order; row i is speed i's row, and chart value i is its time in hours |
| Calculator.SpeedEntry | app.py:602-610 | one pass of the speed loop gives that speed's row and its time in hours |
| Calculator.SpeedTable | app.py:597-610 | the speed loop builds exactly `RowsFor(total, Speeds)` and `ChartFor(total, Speeds)` |
| Calculator.SavedAddsUp | app.py:602-608 | at each speed, time + saved = total and 0 <= saved <= total; the saving is positive above 1.0 |
| Calculator.TimesDecrease | app.py:597-602 | for a positive total the times strictly decrease along the table |
| Calculator.RowTexts | app.py:605-610 | each row carries its own speed; the saved text is empty exactly for the 1.0 row and starts with `"Saves "` otherwise |
| Calculator.ProjectionExample | app.py:602-608 | two hours take two hours at 1.0 and one hour at 2.0, saving none and one hour |
| Calculator.TableExample | app.py:597-610 | for one hour: the 1.0 row is 3600 s with no saving, the 2.0 row is 1800 s saving 1800 s, and its chart value is 0.5 h |
| Calculator.Summarize | app.py:577-610 | from the listed videos on, the method computes `Summary`: range, durations, sum, the zero guard and the table |
| Calculator.CalculateThread | app.py:565-610 | the whole thread computes `Calculation`, the report passed to `update_results_ui` or the error shown |
| Calculator.CalculationStages | app.py:566-576 | an unmatched URL gives InvalidUrl; a failed listing gives its error; an empty playlist gives EmptyPlaylist; otherwise the result is `Summary` of the listed videos |
| Calculator.Summary | app.py:577-610 | definition of the thread from the listed videos on, without a contract of its own; stated by `SummaryReport`, `SummaryNoDurations`, `SummarySucceeds` and `SummaryStartPastEnd`, and `Summarize` is proved equal to it |
| Calculator.Calculation | app.py:565-610 | definition of the whole thread's outcome, without a contract of its own; stated by `CalculationStages` and `CalculationExample`, and `CalculateThread` is proved equal to it |
| Calculator.SummaryReport | app.py:578-614 | a report has a positive total equal to the sum over the selection, a range start of at least 1, one row per speed, and a 1.0 row of the whole total with no saving |
| Calculator.SummaryNoDurations | app.py:591-594 | when every selected video is unresolved or of length 0, the result is NoDurations |
| Calculator.SummarySucceeds | app.py:591-594 | one selected video with a positive duration makes it succeed, other videos missing from the replies counting 0, with a total at least that video's |
| Calculator.SummaryStartPastEnd | app.py:578-594 | a start past the last video selects nothing and ends in NoDurations |
| Calculator.ListingOnePage | app.py:449-477 | a single 200 page without a token is the whole listing |
| Calculator.RecordThree | app.py:500-503 | three items whose durations decode to x, y and z record as the map of their ids to x, y and z |
| Calculator.ExampleDurations | app.py:479-505 | a one-batch reply for ids a, b, c with durations decoding to 600, 1200 and 1800 resolves to that map |
| Calculator.ExampleTotal | app.py:587-591 | for videos a, b, c the ids are a, b, c and the sum over 600, 1200 and 1800 is 3600 |
| Calculator.CalculationExample | app.py:565-610 | a one-page playlist of three videos of 10, 20 and 30 minutes, full range: 3 videos, range 1 to 3, 3600 seconds |

## Left out

- The customtkinter user interface: cards, charts, animation and `update_results_ui`. These are presentation.
- The thread, the `after` callbacks and the message boxes. These are concurrency and UI plumbing. `CalculateThread` returns what the thread would display.
- HTTP and JSON. `requests.get` and `response.json()` are replaced by a page sequence and a lookup function. Transport exceptions raised by `requests.get` and a body that `response.json()` cannot parse are not modelled. A reply that lacks `items`, `snippet` or `contentDetails` raises `KeyError` in the source; replies here always have that shape.
- Fetcher.GetPlaylistVideos: the pages are the API's replies in order, given in advance. The reply to a request does not depend on its token. The listing must end within the given pages (`Terminates`): the loop itself has no bound in the source.
- The API key. It is sent with each request but has no effect on the logic modelled.
- The empty-field checks for the API key and URL in `calculate_playlist_time`, app.py:541-555. They are UI validation before the thread starts.
- Duration.ParseDuration: the leniency of Python's `int()` (signs, surrounding whitespace, underscores, non-ASCII digits) is not modelled. Such components make the decoder fail here, where the source would accept them.
- Calculator.Select: the range fields are given as integers, or `None` when empty. Text that `int()` rejects is not modelled: the source raises `ValueError` for it.
- Calculator.SpeedTable: IEEE float rounding of `total_seconds / speed` and of the division by 3600. The model computes exactly over `real`.
- Calculator.SpeedRow: a row holds the truncated seconds of its time and saving. The strings the source builds are the row's `TimeText` and `SavedText`.
- Calculator.Report: the constant list `speeds` that the thread also passes on for the chart is not part of the report. It is `Calculator.Speeds`.
- Calculator.CalculationExample: the durations are any replies that decode to 10, 20 and 30 minutes. `"PT10M"`, `"PT20M"` and `"PT30M"` do so, by the three Duration examples.
- `main()`, the package checks and the printing, app.py:645-711. These are environment I/O.
