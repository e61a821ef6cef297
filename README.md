# FBMessageScraper, modelled in Dafny

FBMessageScraper is two scripts.

`dumper.py` pages through one Facebook Messenger conversation:
- Each request asks for `limit` messages at `offset`.
- It drops the 9-character prefix in front of the JSON body.
- It retries when the document or its payload is null.
- Otherwise it appends the page's `actions` to `messages`, writes the body to `<offset>-<offset+limit>.json` and advances `offset` by `limit`.
- It stops once the body contains the end-of-history marker, then writes every action to `complete.json`.

`grapher.py` turns dumped pages and a Hangouts export into `(person, timestamp)` messages:
- Senders are resolved through a fixed id-to-name table.
- Timestamps are parsed, with a fallback that reads "Today".
- Hangouts conversations are ordered by their number of events.
- Messages per day are counted between two dates.

The project has these modules:

- `Wrappers` (`wrappers.dfy`): `Option` and `Result`.
- `Seqs` (`seqs.dfy`): associativity of concatenation, shared by the proofs.
- `Decimal` (`decimal.dfy`): Python's `str()` of an integer, and a reader that parses such numbers back. Page names and day keys are built from it.
- `Records` (`records.dfy`): the raw action records that the fetcher stores and the grapher reads.
- `Dumper` (`dumper.dfy`): the fetch loop.
  - `RunFrom` is its pass-by-pass specification over a finite script of response bodies.
  - `Fetch` is the imperative loop, proved against `RunFrom`.
  - Lemmas describe offsets, messages, page files and termination.
- `Grapher` (`grapher.dfy`): the parts of `loadMessages`.
  - Person lookup, `parseDate` and the directory filter.
  - Gathering each directory's page, both as written and corrected.
  - The record-to-message loop.
- `Hangouts` (`hangouts.dfy`): `loadHangouts`.
  - The stable sort by event count, specified as an insertion sort.
  - Microsecond to second conversion.
  - The nested emission loop.
- `DayCount` (`daycount.dfy`): the counting loop of `plotTotalMessages`.
  - Unpadded `month/day/year` keys and their read-back.
  - The dictionary specified as `Tally`.
  - Lemmas for per-day counts, kept keys, the untouched `""` entry and the total.

## Model

| member | source | states |
|---|---|---|
| Decimal.ParseIntRoundTrip | dumper.py:89 | reading back the text of `str(i)` gives `i` and leaves what follows, when no digit follows |
| Decimal.IntToStringInjective | dumper.py:89 | `str` gives different integers different texts |
| Decimal.IntToStringSign | dumper.py:89 | `str(i)` starts with a digit exactly when `i` is not negative |
| Dumper.StripPrefix | dumper.py:91 | `messages_data[9:]` is empty for bodies of at most 9 characters, otherwise 9 shorter, and character `i` of it is character `i + 9` of the body |
| Dumper.InitialDataLacksEndMark | dumper.py:39-40 | the initial `"lolno"` does not contain the end marker, so the loop body runs at least once |
| Dumper.ContainsAt | dumper.py:67 | the marker test holds exactly when the marker occurs at some position of `messages_data` |
| Dumper.PageNameRoundTrip | dumper.py:89 | the page name `str(offset) + "-" + str(limit+offset) + ".json"` reads back as the range `(offset, offset + limit)` |
| Dumper.PageNamesDiffer | dumper.py:89 | pages for different offsets get different file names, whatever the limit |
| Dumper.MalformedPayloadAborts | dumper.py:93-97 | a non-null payload that is not an object, or an `actions` that is not a list, raises an uncaught TypeError: the run ends with an empty page, the offset and messages unchanged |
| Dumper.PassEffect | dumper.py:89-108 | one pass opens the page at the current offset; a success writes the stripped body, appends its actions and advances the offset by `limit`; a retry or crash leaves the page empty and keeps offset and messages |
| Dumper.RunAdvancesOffset | dumper.py:93-108 | after any run the offset is the start plus `limit` times the number of successful responses consumed |
| Dumper.RunCollectsActions | dumper.py:93-97 | after any run `messages` is the in-order concatenation of the actions of the successful responses consumed; a page without `actions` adds nothing |
| Dumper.RunLogsPages | dumper.py:89-105 | one page file per consumed response, as `PageLog` lists them |
| Dumper.RunStopsAtFirstHalt | dumper.py:67-113 | a run consumes at least one response when there is one; it stops at the first response that crashes or carries the end marker and only there; an exhausted script was consumed in full; complete.json receives `messages` exactly on reaching the end of history |
| Dumper.PageLogAt | dumper.py:89-108 | the `j`-th page opened is at the offset reached after the successes before it, and holds the stripped body exactly when response `j` succeeds |
| Dumper.DirectoryElsewhere | dumper.py:89 | writing files of other names leaves a file as it was |
| Dumper.DirectoryKeeps | dumper.py:89-105 | a page whose offset no later pass reopens keeps its data |
| Dumper.LaterPagesElsewhere | dumper.py:89-108 | every page opened after a success is for a later offset when the limit is positive, and for an earlier one when it is negative |
| Dumper.SuccessPagesKept | dumper.py:89-108 | with any non-zero limit, after the run the page file of every successful response holds its stripped body, since retries never reopen an earlier page |
| Dumper.SuccessesGrow | dumper.py:108 | each success counts in every longer prefix of the responses |
| Dumper.Fetch | dumper.py:36-113 | the loop starts from `offset = start`, `messages = []` and `messages_data = "lolno"` and computes `RunFrom`; offset, messages and pages are as the run lemmas state; it consumes a response whenever there is one; complete.json is written only at the end of history |
| Grapher.Resolve | grapher.py:56-59 | the table's name when the id is a key (int and string ids are distinct keys), the raw id unchanged otherwise |
| Grapher.PeopleLookups | grapher.py:156-195 | three numeric ids share the name "Dags"; the string and numeric ids for "Rachel" resolve alike; a numeric id written as a string is not a key |
| Grapher.NullIdKept | grapher.py:56-59 | a JSON `null` sender is not a key of the table, so the raw `None` is kept |
| Grapher.FirstToken | grapher.py:148 | `split(" ")[0]` is a space-free prefix of the text, followed by a space or by the end |
| Grapher.ParseDateToday | grapher.py:147-150 | `parseDate` gives today exactly for "Today" and text starting "Today ", and None otherwise |
| Grapher.ConversationDirs | grapher.py:40 | a directory named by a numeric conversation id is read; the Hangouts exports and `.DS_Store` are skipped |
| Grapher.AsWrittenAgrees | grapher.py:37-49 | when every conversation directory holds one of the two page files, the loop as written gathers the same actions as `Gathered` |
| Grapher.EmptyDirectoryRepeats | grapher.py:41-49 | a directory with neither file re-adds the previous directory's actions, and one that comes first ends the run |
| Grapher.GatherActions | grapher.py:37-49 | the corrected first loop gathers `Gathered`: the "0-40000.json" page or else the "0-23000.json" page of each directory that passes the filter, in order |
| Grapher.TimestampMissing | grapher.py:60-63 | a message lacks a timestamp exactly when the general parse and the "Today" fallback both fail |
| Grapher.LoadMessages | grapher.py:55-66 | one message per action in action order, its sender resolved and its timestamp parsed; the run ends (None) exactly when some action lacks a field |
| Hangouts.Insert | grapher.py:75 | inserting keeps every conversation and adds the new one |
| Hangouts.SortByLength | grapher.py:75 | the sort is a permutation of the conversations |
| Hangouts.InsertSorted | grapher.py:74-75 | inserting into a sequence ordered by event count keeps it ordered |
| Hangouts.InsertOfLength | grapher.py:74-75 | inserting puts the new conversation last among those with the same event count and leaves every other count class alone |
| Hangouts.SortByLengthStable | grapher.py:74-75 | the sort orders by ascending event count, is a permutation, and keeps conversations of equal count in input order |
| Hangouts.SortKeepsTotal | grapher.py:75 | sorting keeps the total number of events |
| Hangouts.Seconds | grapher.py:84 | `//1000000` gives the whole seconds rounded toward minus infinity |
| Hangouts.EventMessages | grapher.py:78-86 | one message per event, in event order |
| Hangouts.EmittedLength | grapher.py:77-86 | one message per event over all conversations |
| Hangouts.LoadHangouts | grapher.py:70-89 | the messages of the sorted conversations, conversation by conversation in event order, each with its resolved sender and timestamp in seconds; as many messages as events |
| Decimal.DigitsUnpadded | dumper.py:89 | `str(n)` of a non-negative number has no leading zero: its first digit is `0` only for zero |
| DayCount.DateKeyUnpadded | grapher.py:101 | a day's key is its month, day and year in decimal joined by `/`, with no number zero-padded |
| DayCount.DateKey | grapher.py:101 | a day's key is non-empty and starts with a digit |
| DayCount.ParseKeyRoundTrip | grapher.py:101-103 | parsing a day's `month/day/year` key gives the day back |
| DayCount.DateKeyInjective | grapher.py:101 | different days have different keys |
| DayCount.BeforeOrder | grapher.py:103 | the comparison of days is irreflexive, transitive and total |
| DayCount.TallySucceeds | grapher.py:100-101 | the loop gets through the messages exactly when each has a timestamp |
| DayCount.TallyValid | grapher.py:97-114 | every key is listed once in insertion order and `""` stays at 0 |
| DayCount.TallyCountsDay | grapher.py:97-114 | a day's key is present exactly when the day is strictly between start and end and some message falls on it, and its count is the number of such messages; out-of-range messages are not counted |
| DayCount.TallyKeepsBlank | grapher.py:97 | the initial `""` entry stays 0 |
| DayCount.TallyKeys | grapher.py:100-114 | every other key reads back as an in-range day whose key it is |
| DayCount.BumpSum | grapher.py:105-114 | one increment or insertion adds one to the sum of the counts |
| DayCount.TallySum | grapher.py:97-114 | the counts sum to the number of in-range messages |
| DayCount.CountPerDay | grapher.py:97-114 | the loop, with its `date == msg_date` shortcut and its lookup branch, builds `Tally`, or fails when a message has no timestamp |

## Left out

- HTTP requests, cookies, tokens, gzip and the response read (dumper.py:42-51, 69-90). These are network I/O. The model starts from the decompressed body of each response, given as a finite script `bodies`.
- `json.loads` of the stripped body (dumper.py:92). It is the parameter `loads`. It classifies the document only as far as lines 93-97 react to it: unparseable, `null`, not an object, no payload, null payload, a malformed payload (not an object, or `actions` not a list), or a payload object whose actions list may be absent. The JSON values themselves are not modelled.
- Command-line handling (dumper.py:28-41). The usage message and exit, `int()` of the arguments, and the start offset defaulting to 0 when the third argument is absent are not modelled. `Fetch` takes the start offset and `limit` as integers.
- Dumper.SuccessPagesKept: a `limit` of 0 is excluded. Every pass then reopens the same page, so a later retry or crash can empty an earlier success's page.
- Fetch: a finite script replaces unbounded retries, since the real loop can retry for ever. A run that exhausts the script stops with `ScriptExhausted`.
- `time.sleep`, `os.makedirs`, `os.system("python -mjson.tool …")`, the pretty copies, and closing files (dumper.py:57-65, 102, 106-109, 114-115). These are timing and filesystem plumbing. Page files and complete.json are values in the model.
- The code is followed even where a retry or a fallback might be expected:
  - A body that does not parse, has no `payload` key, or has a malformed payload raises an uncaught exception and ends the run. It is not retried.
  - A retried pass leaves an empty page file, because the file is opened for writing before the check.
  - Normalisation stops at a record missing `other_user_fbid` or `timestamp_datetime`, instead of using a fallback.
  - No body text is read.
- Records.Id: a sender id is modelled as a JSON integer, string or `null`. A `null` id is not a key of the table, so the raw `None` is kept (grapher.py:57-59). Two kinds of id are not modelled. A float id such as `1702257415.0` equals the integer key and resolves to its name. A list or object id is unhashable and raises an uncaught TypeError.
- `dateutil.parse` of free-form timestamps (grapher.py:61). It is the parameter `parse`.
- `datetime.fromtimestamp` (grapher.py:84). It is the parameter `fromTimestamp`, because it depends on the local time zone.
- `datetime.date.today()` (grapher.py:150). It is the parameter `today`.
- The time of day is dropped: dates are (year, month, day) triples, which is all the counting loop uses.
- DayCount.ParseKey: reads `month/day/year` keys only. dateutil's two-digit-year rule and its range checks are not modelled, because keys of real dates have four-digit years.
- The `int()` of the Hangouts timestamp string (grapher.py:84). Events carry the integer.
- Reading and decoding the Hangouts file and the page files (grapher.py:42-49, 72). Entries and conversations arrive decoded.
- The `OrderedDict` sort of the record by `strftime("%s")`, and the plotting (grapher.py:116-141). Both are platform-dependent library calls and UI.
- Pickle caching and `os.chdir` in `main` (grapher.py:21-34). These are I/O.
- Printing. It has no effect on the results.

## Findings

| source | as written | input that shows it | evidently intended | confidence | as-written member | corrected member |
|---|---|---|---|---|---|---|
| grapher.py:41-49 | when a directory has neither `0-40000.json` nor `0-23000.json`, the `except` only prints, and `json.loads(encoded_jsons)` still runs on the previous directory's text | directory "1" with page `[x]`, then directory "2" with no page: the actions are `[x, x]`; directory "2" alone raises UnboundLocalError | skip a directory without pages: `[x]` and `[]` | high (not executed) | Grapher.GatheredAsWritten, Grapher.EmptyDirectoryRepeats | Grapher.GatherActions, Grapher.Gathered, Grapher.AsWrittenAgrees |
