# secinfo roster refresh, modelled in Dafny

`secinfo` keeps the InfoSec streamer directory up to date. A run reads the roster
`streamers.csv` and the roster of retired entries, `inactive_streamers.csv`. It looks every
roster entry up: first its channel id, then a weighted score of the hours it streamed in the last
30 days. It splits the entries into an active
list and an inactive list, ranks both by hours, and rewrites both CSV files sorted by name.
Last, it splices one Markdown table row per streamer into the two page templates, giving
`index.md` and `inactive.md`. On `index.md`, a streamer shown online on the previous page
stays online, with the language code from that page.

The model has six modules, loaded together:

- `Text` (`text.dfy`): the byte-string helpers the Go code takes from `strings`.
  These are `TrimSpace`, `Split`, `Join`, `Index`, `Contains`, `ToLower`, `EqualFold` and
  byte-order comparison. A Dafny `char` stands for one byte of a Go string. `TrimSpace` strips
  the ASCII white space and the UTF-8 byte sequences of the other Unicode white space runes
  (U+0085, U+00A0, U+1680, U+2000 to U+200A, U+2028, U+2029, U+202F, U+205F and U+3000).
- `Streamers` (`streamers.dfy`): the `Streamer` record and the `StreamerList` class.
  It covers the in-place sorts, the case-insensitive membership and removal, and the
  weighted hours score.
- `Markdown` (`markdown.dfy`): the table row of one streamer (`ReturnMarkdownLine`) and the
  scan of the previous page for the online marker (`OnlineNow`).
- `CsvStore` (`csv_store.dfy`): the `name,url` CSV reader and writer. Files are a `FileSystem`
  class whose `files` map stands for the afero file system.
- `Secinfo` (`secinfo.dfy`): the refresh run of `main`. It covers the lookup and routing loop,
  the carried-over inactive records, the two ranked lists, the file writes and the page
  splices. The network is an `Oracle` value: one total function for the channel page lookup
  and one for the hours series.
- `Fixtures` (`fixtures.dfy`): the data and the checked outcomes of the repository's tests,
  stated as lemmas over the model.

A run is `Secinfo.Refresh`. Its contract says the run either stops at once, leaving every
file as it was, because `streamers.csv` cannot be opened, or ends in the state `Refreshed`
describes:

- the active list holds exactly the looked-up entries that have an id and positive hours,
  and is sorted by hours, highest first;
- the inactive list holds all the other looked-up entries plus every record of
  `inactive_streamers.csv`, flagged as carried over, and is sorted the same way;
- `streamers.csv` and `inactive_streamers.csv` hold the two lists sorted by name;
- `index.md` and `inactive.md` are their templates with the rows spliced in after the table
  header.

Lemmas about the parts of that state follow. Nothing is lost or duplicated by the routing.
Every carried record ends up inactive. The CSV files read back as what was written, for records that are `Safe`: name and URL already
trimmed, no line break in either, no comma in the name, and a non-empty name. Each
row has the column and link structure the pages expect, and an online row re-reads as
online with its language.

## Model

| member | source | states |
|---|---|---|
| Streamers.StreamerList.constructor | streamers/streamers.go:31-34 | a list holds exactly the given streamers |
| Streamers.StreamerList.Swap | streamers/streamers.go:47-49 | entries i and j trade places and nothing else changes |
| Streamers.StreamerList.Sort | streamers/streamers.go:37-54 | afterwards the list is in non-increasing 30-day hours and is a permutation of the old list |
| Streamers.SameRankByName | streamers/streamers.go:57-59 | two streamers tie in the name order exactly when their names are equal ignoring ASCII case |
| Streamers.StreamerList.SortByName | streamers/streamers.go:57-61 | afterwards the list is the stable case-insensitive name order of the old list, so it is sorted by lower-cased name and is a permutation |
| Streamers.RankedSorted | streamers/streamers.go:57-61 | the reference insertion sort yields a list sorted by the order |
| Streamers.RankedPermutation | streamers/streamers.go:57-61 | the reference insertion sort keeps the multiset of entries |
| Streamers.RankedStable | streamers/streamers.go:57-61 | entries that tie under the order keep their relative order |
| Streamers.SortedUnique | streamers/streamers.go:52-54 | two sorted permutations of a tie-free list are equal, so any correct sort gives the same result |
| Streamers.ContainsStreamer | streamers/streamers.go:64-71 | true exactly when some entry's name equals the streamer's name ignoring ASCII case |
| Streamers.RemoveStreamer | streamers/streamers.go:74-82 | returns the list without the entries whose name equals the streamer's name ignoring case, order kept |
| Streamers.WithoutSpec | streamers/streamers.go:74-82 | after removal the name is no longer contained, and an entry survives exactly when it was there and its name differs |
| Streamers.WithoutAbsent | streamers/streamers.go:74-82 | removing a name that is not in the list leaves the list unchanged |
| Streamers.Score | streamers/streamers.go:193-198 | the hours are the sum of bucket i times i |
| Streamers.ScorePositive | streamers/streamers.go:193-198 | with non-negative buckets the score is non-negative, and positive exactly when some bucket is positive |
| Streamers.ScoreOfTestSeries | streamers/streamers_test.go:117-127 | the test's series 0,1,2,3,0,... scores 20 hours |
| Markdown.Presence | streamers/streamers.go:202-213 | a language is found exactly when some line of the old page marks the name online, and it is the last two bytes of the first such line |
| Markdown.OnlineNow | streamers/streamers.go:202-213 | the scan over the page's lines reports online exactly when Presence finds a line, and then sets the streamer's language to that line's last two bytes |
| Markdown.ReturnMarkdownLine | streamers/streamers.go:218-242 | every row ends with a newline |
| Markdown.RowColumns | streamers/streamers.go:218-242 | a row of a streamer with hours has three column separators; one without hours has one |
| Markdown.RowLinks | streamers/streamers.go:218-242 | a row has two links when the streamer has a YouTube URL and one (Twitch) otherwise |
| Markdown.RowStart | streamers/streamers.go:218-242 | a row starts with the name cell for an inactive streamer, with the online glyph when online, and with a blank cell otherwise |
| Markdown.RowEnd | streamers/streamers.go:218-242 | an online row ends with the language column |
| Markdown.RowLinkText | streamers/streamers.go:218-242 | a row contains the Twitch link of the streamer's name, and the YouTube link of its URL when it has one |
| Markdown.RowRescan | streamers/streamers.go:202-242 | an online row with a two-letter language is read back by OnlineNow as online with that same language |
| Markdown.RowNotOnline | streamers/streamers.go:202-242 | a row that is not online never carries the online marker, so it cannot be read as online for any name |
| Markdown.RowIgnoresLang | streamers/streamers.go:218-242 | the language only shows on online rows |
| Markdown.PresenceAppend | streamers/streamers.go:202-213 | the scan of two pieces of a page finds the first piece's line when there is one, and the second's otherwise |
| CsvStore.FieldsOfSpec | streamers/streamers.go:362-371 | a line with a comma splits at its first comma into name and URL, and the two rejoin to the line |
| CsvStore.ParseCSVData | streamers/streamers.go:357-374 | the parsing loop computes ParseCSV |
| CsvStore.ParseCSVSpec | streamers/streamers.go:357-374 | parsing succeeds exactly when every non-blank trimmed line was read; on failure the error message carries the whole data and parsing stopped at a line without a comma; each record read is its line split at the first comma |
| CsvStore.ParseStreamers | streamers/streamers.go:255-276 | a directory or an empty file gives no records and the "not a file" error; otherwise the outcome is that of parsing the content, with no records on error |
| CsvStore.BuildCSVContent | streamers/streamers.go:325-340 | the writing loop produces one line per streamer with a non-blank trimmed name (trimmed name, comma, trimmed URL), joined by newlines with none at the end |
| CsvStore.BuildParseRoundTrip | streamers/streamers.go:325-374 | for streamers whose name and URL are trimmed and hold no line break, and whose name has no comma and is not empty, parsing the built content gives back their names and URLs, in order, without error |
| CsvStore.ReadCSV | streamers/streamers.go:342-355 | a missing or empty file reads as an empty list without error; otherwise the content is parsed |
| CsvStore.FileSystem.ReadCSVFile | streamers/streamers.go:342-355 | reading a file gives ReadCSV of the current files |
| CsvStore.FileSystem.WriteCSV | streamers/streamers.go:284-290 | the file now holds the streamers sorted by name, as CSV, and no other file changes |
| CsvStore.FileSystem.WriteFile | secinfo.go:130 | the file now holds the content and no other file changes |
| CsvStore.FileSystem.AppendToCSV | streamers/streamers.go:298-308 | a read error is returned and changes nothing; a name already present changes nothing; otherwise the file holds the old records plus the streamer, sorted by name |
| CsvStore.FileSystem.RemoveFromCSV | streamers/streamers.go:316-323 | a read error is returned and changes nothing; otherwise the file holds the old records without the streamer's name, sorted by name |
| CsvStore.WriteReadRoundTrip | streamers/streamers.go:284-290 | a list written by WriteCSV reads back as its names and URLs sorted by name |
| CsvStore.AppendReadsBack | streamers/streamers.go:298-308 | after an append the file reads back sorted by name, holding the old records plus the new one, which is now contained |
| CsvStore.RemoveReadsBack | streamers/streamers.go:316-323 | after a removal the file reads back sorted by name, holding the old records without the name, which is no longer contained |
| CsvStore.ContainsPermutation | streamers/streamers.go:64-71 | membership by name does not depend on the order of the list |
| CsvStore.ParsedKept | streamers/streamers.go:357-374 | parsed records carry only a name and a URL: no id, no hours, no language, not carried over |
| CsvStore.EmptyParse | streamers/streamers.go:357-374 | empty data parses to no records and no error |
| Secinfo.Resolved | streamers/streamers.go:94-154 | a found channel page sets the id and the displayed name and changes nothing else; a failed lookup leaves the record unchanged |
| Secinfo.Measured | streamers/streamers.go:157-199 | only the hours can change, and a record without an id is left unchanged |
| Secinfo.GetStats | streamers/streamers.go:157-199 | the hours become the weighted score of the series when there is an id and the request succeeds |
| Secinfo.Looked | secinfo.go:51-58 | a record left without an id is exactly the resolved record, unscored; the id is the resolved one |
| Secinfo.LookedAll | secinfo.go:49-65 | each roster entry is looked up on its own, position by position |
| Secinfo.KeepShares | secinfo.go:59-64 | filtering by activity splits a list into two parts whose sizes and multisets add up to the list |
| Secinfo.KeepMembers | secinfo.go:59-64 | an entry lands on a side exactly when its activity matches that side |
| Secinfo.RouteConserves | secinfo.go:49-65 | the routing keeps every looked-up entry exactly once across the two lists |
| Secinfo.RouteSides | secinfo.go:49-65 | an entry is active exactly when it has an id and positive hours, and inactive exactly when it lacks an id or has no positive hours |
| Secinfo.RouteEach | secinfo.go:49-65 | each roster entry's looked-up record is on the active side exactly when it is active and on the inactive side otherwise; without an id it keeps its hours |
| Secinfo.Carried | secinfo.go:40-42 | each record of the inactive roster is flagged as carried over, position by position, with nothing else changed |
| Secinfo.CarriedKept | secinfo.go:40-42 | the flag is not written to the CSV: the carried records write the same names and URLs |
| Secinfo.MarkCarried | secinfo.go:40-42 | the loop flags every record of the list in place |
| Secinfo.Reconcile | secinfo.go:49-71 | the active list is the routed active entries in roster order; the inactive list is the routed inactive entries followed by the carried records |
| Secinfo.SpliceSpec | secinfo.go:117-128 | the page is the template with the rows inserted right after the first anchor: removing them gives the template back, and the anchor is still first at the same place |
| Secinfo.SpliceNothing | secinfo.go:117-128 | with no rows the page equals its template |
| Secinfo.RenderIndex | secinfo.go:109-130 | the index page is the template with each active streamer's row, online as the old page says, in list order after the header |
| Secinfo.RenderInactive | secinfo.go:132-156 | the inactive page is the template with every inactive row, never online, in case-insensitive name order after the header |
| Secinfo.LoadRosters | secinfo.go:20-45 | the roster is the parsed streamers.csv (empty on a parse error), and the backlog is the parsed inactive roster, empty when missing, every record flagged as carried |
| Secinfo.RankByStats | secinfo.go:82-84 | a list comes back sorted by hours, highest first, as a permutation of itself |
| Secinfo.Publish | secinfo.go:96-156 | both CSV files hold their lists sorted by name, and both pages are rendered from their templates; no other file changes |
| Secinfo.Refresh | secinfo.go:14-157 | a missing streamers.csv ends the run with nothing written; otherwise the lists and all four files are as Refreshed states |
| Secinfo.RunConserves | secinfo.go:49-84 | after a run the two lists together are as long as both rosters together, every active entry is active, and every carried record is on the inactive list |
| Secinfo.EmptyRun | secinfo_test.go:52-73 | empty rosters give empty lists, empty CSV files, and pages equal to their templates |
| Fixtures.ParseStreamersPass | streamers/streamers_test.go:19-50 | the test roster with a blank line parses without error to nine records, with the names and URLs the test checks |
| Fixtures.ParseStreamersFail | streamers/streamers_test.go:52-101 | an empty file gives no records and the "not a file" error; a file without commas gives the "not a CSV" error naming its content |
| Fixtures.NoBreakSpaceLine | streamers/streamers.go:357-366 | a record line followed by a line holding only a no-break space (bytes C2 A0) parses to that one record without error, as the trimmed blank line is skipped |
| Fixtures.ActiveOrder | secinfo_test.go:18-50 | three active streamers with 2, 10 and 5 hours are listed 10, 5, 2 on the index page |
| Fixtures.InactiveOrder | secinfo_test.go:18-50 | inactive streamers Zulu, alpha and Echo are listed alpha, Echo, Zulu on the inactive page |

## Left out

- The `SECINFO_TEST` replay branch and the JSON snapshots (`secinfo.go:72-80`, `86-95`). The model covers the refresh branch only, and the pages are rendered from the refreshed lists.
- HTTP scraping and JSON decoding in `GetUID` and `GetStats`. They are the `Oracle` parameter. For `GetStats` its `None` answers stand for exactly the early returns: a failed `client.Do` or a body that does not decode (`streamers/streamers.go:178-191`). For `GetUID` they stand for exactly its three early returns: a failed `client.Do` (`streamers/streamers.go:112-116`), a failed `ReadAll` (`streamers/streamers.go:120-124`), and a page that does not contain the name (`streamers/streamers.go:130-133`). Every other `GetUID` page is a `Some` answer. That includes a `PageInfo` that does not parse, which is only printed (`streamers/streamers.go:145-148`), and a `PageInfo` without an `id` key. In both cases `fmt.Sprintf("%.0f", nil)` makes the id the string `%!f(<nil>)`, and the name is still replaced (`streamers/streamers.go:151-153`).
- Secinfo.Resolved: when `http.NewRequest` fails, as for a roster name with a control byte or a bad percent escape such as `a%zz`, `GetUID` only prints the error, and `request.Header.Set` then panics on the nil request (`streamers/streamers.go:100-106`). `GetStats` does the same (`streamers/streamers.go:166-172`). This panic is not modelled: the oracle answers every name.
- Secinfo.Resolved: as `GetUID`, a page without the header span or without `PageInfo` makes the Go code panic when it indexes `[1]` (`streamers/streamers.go:136-140`). The panic is not modelled.
- Secinfo.GetStats: a series response with an empty dataset list makes the Go code panic on `Datasets[0]`. The oracle returns the first dataset's buckets, so the panic is not modelled.
- Streamers.Score: the Go sum is `float32`; the model sums exact `real` values, so rounding is not modelled.
- Text.EqualFold and Text.ToLower fold ASCII letters only; Unicode case folding is not modelled.
- Streamers.StreamerList.Sort: `sort.Sort` is not stable, so the contract promises only order and permutation. The body is an insertion sort, which is one allowed outcome.
- Printing, and `os.Exit` after a failed `streamers.csv` open, are not modelled; the exit is the `exited` result of `Refresh`.
- File errors other than "does not exist" are not modelled: permission, directory and write failures. `Refresh` treats the roster files as plain files.
- Secinfo.Refresh: both templates must be present and hold their anchors. Without an anchor `strings.Index` gives -1, so the Go code inserts the rows at byte `len(heading) - 1` of the template (byte 24 on the index page, byte 9 on the inactive page), and panics only when the template is shorter than that. This path is not modelled.
- Secinfo.RenderIndex: in `secinfo.go:122` the argument `OnlineNow(...)` runs before the receiver `streamer` is read, as the gc compiler orders it, so the row shows the language that `OnlineNow` just set. The model follows that order; the other order the Go specification allows is not modelled.
- `inactiveByName` shares its backing array with `inactive`; `inactive` is not read after the sort, so only the values are modelled.
- `secinfo/streamers/streamers.go` (an older copy of the package) and `activity/activity.go` are not part of this model.
- Markdown.OnlineNow: it matches by substring, as the source does, so a name inside another online row's name also reads as online. The model keeps this behaviour and proves nothing stronger about it.
