# GitHub Archive to Sky importer, modelled in Dafny

The importer reads hourly GitHub Archive files, which are gzip-compressed
JSON records of public GitHub activity, and loads them into a Sky
behavioural database as per-user events. It exists in two versions:

- **the old importer** (`sky_gharchive_importer.go`) reads each hour's
  archive line by line and sends every acceptable record at once with a
  merge-mode `AddEvent`. The first line that is neither a JSON object nor
  null, a read error or a failed download stops the program with status 1.
  A null line is dropped with the warning that it has no timestamp.
- **the new importer** (`main.go`) decodes each hour's archive value by
  value into a batch and sorts the batch by timestamp. It then hands the
  batch over a channel to a stream loop, which sends each batch in one
  `Stream` session. A bad archive costs only its own hour: it is reported
  as an invalid file and the range goes on.

Both versions share these parts, and the model writes each of them once:

- the command-line date range and the hour loop. The hour count is
  `int(end.Sub(start) / time.Hour) + 1`, with Go's division truncating
  toward zero.
- the archive URL with zero-padded month and day.
- `setup`. It pings the server and looks the table up. An existing table
  is reused, or deleted first when overwrite is set. Otherwise it creates
  the table and its seven properties in order, stopping at the first
  failure.
- the guard chain from a record to an event: `created_at` must be a
  string, then valid RFC 3339, then `actor` must be a non-empty string.
  The new importer adds `action` (the record's `type`) to the event data.

Modules, one per file:

| file | module | what it holds |
|---|---|---|
| wrappers.dfy | Wrappers | `Option`, `Result` |
| json.dfy | Json | decoded JSON values; Go map lookup; unmarshalling into a map |
| clock.dfy | Clock | instants, durations, truncating hour count, calendar fields |
| archive_url.dfy | ArchiveUrl | the archive URL and a parser for it (its round-trip partner) |
| records.dfy | Records | the guard chain, event data of both versions, "sorted by timestamp" |
| seqs.dfy | Seqs | sequence helpers: concatenation, first index and all indices satisfying a predicate |
| lines.dfy | Lines | `bufio.Reader.ReadBytes('\n')` and the lines of a body |
| sky.dfy | Sky | the server as a class: tables, request log, which requests fail |
| provisioning.dfy | Provisioning | `setup`, as a specification function and as a method |
| cli.dfy | Cli | the date arguments |
| outcomes.dfy | Outcomes | hour errors and the lines written to standard error |
| importer_v1.dfy | ImporterV1 | the old importer: reading loop, hour loop, `main` |
| batch_sort.dfy | BatchSort | `sort.Sort(UserEvents(events))` in place on an array |
| importer_v2.dfy | ImporterV2 | the new importer: decoding loop, channel, stream loop, `main` |

Each loop of the source is a method with a `while` or `for` loop. The
method is proved against a specification function, and the properties
are lemmas about that function. The Sky server is a class whose methods
append to a request log. The property of a server that decides which
requests fail is a constant function `refuses`, so every result holds
whatever fixed answer the server gives each distinct request. Foreign code is passed in as function-typed
parameters:

- the download with its decompression (`fetch`);
- `json.Unmarshal` of one line in the old importer (`unmarshal`);
- RFC 3339 parsing (`parse`).

Where a reading of the program's documentation and its code differ, the
model follows the code:

- `sort.Sort` is not stable. Only "sorted and a permutation" is promised,
  and `Records.SortIsNotStable` shows that both orders of equal
  timestamps qualify.
- A record whose repository lacks one of the five keys still gets that
  key in its event data, set to null. Absent keys are not omitted.
- An existing table without overwrite is reused, not reported as an
  error.

## Model

| member | source | states |
|---|---|---|
| Json.Get | sky_gharchive_importer.go:221-226 | a missing key of a Go map reads as nil; a present key reads as its value |
| Json.AsRecord | main.go:168-169 | decoding into a fresh map succeeds exactly for an object (its fields) or null (an empty map); any other value is an error |
| Clock.TruncHours | sky_gharchive_importer.go:109 | the quotient truncates toward zero: it is the floor for non-negative durations and the ceiling for negative ones |
| Clock.Sub | main.go:77 | defines `t.Sub(u)`: the duration from u to t, in nanoseconds, whatever the zones |
| Clock.Add | main.go:79 | defines `t.Add(d)`: the instant d nanoseconds later, in t's zone |
| Clock.Before | main.go:236 | defines `t.Before(u)`: t is strictly earlier than u, whatever the zones |
| Clock.HourCount | sky_gharchive_importer.go:109 | defines the loop bound `int(end.Sub(start) / time.Hour) + 1` with truncating division; its meaning is stated by `Clock.Hours` and the range lemmas below |
| Clock.HourAt | sky_gharchive_importer.go:111 | defines the i-th hour as start plus i hours in start's zone |
| Clock.Hours | sky_gharchive_importer.go:109-111 | the loop visits max(count, 0) hours, and the i-th is start + i hours |
| Clock.SingleHour | sky_gharchive_importer.go:84-89 | end == start visits exactly the start hour |
| Clock.HoursCoverRange | main.go:77-79 | for end >= start, hour i is visited iff start + i hours is not after end |
| Clock.BackwardRangeIsEmpty | main.go:77-78 | an end an hour or more before the start visits no hour |
| Clock.SlightlyBackwardRangeVisitsStart | sky_gharchive_importer.go:109-111 | an end less than an hour before the start still visits the start hour, where floor division would give -1 |
| Clock.Civil | sky_gharchive_importer.go:186 | the calendar fields of a time in its own zone: month 1-12, day 1-31, hour 0-23 |
| Clock.NextHourOfDay | sky_gharchive_importer.go:111 | each step of the loop advances the hour of day by one, modulo 24 |
| Clock.CivilExample | sky_gharchive_importer.go:186 | day 0 is 1970-01-01 and day 15706 is 2013-01-01 |
| ArchiveUrl.NatDigits | sky_gharchive_importer.go:186 | `%d` of a natural number: at least one digit, no leading zero, no sign |
| ArchiveUrl.Pad2 | main.go:145 | `%02d` of 0-99 is exactly two digits |
| ArchiveUrl.Decimal | main.go:145 | defines `%d`: a minus sign for negatives, then the digits of the magnitude |
| ArchiveUrl.Url | sky_gharchive_importer.go:186 | defines the URL as the fixed prefix, `Y-MM-DD-H` and the `.json.gz` suffix; `ParseUrl` is its inverse (see `UrlRoundTrip`) |
| ArchiveUrl.UrlOf | main.go:145 | defines the URL fetched for a time as the URL of its calendar hour in its own zone |
| ArchiveUrl.UrlRoundTrip | sky_gharchive_importer.go:186 | parsing the URL of any calendar hour with a non-negative year gives back that hour |
| ArchiveUrl.UrlInjective | main.go:145 | distinct calendar hours are fetched from distinct URLs |
| ArchiveUrl.UrlExample | sky_gharchive_importer.go:186 | hour 5 of 2013-01-02 is `http://data.githubarchive.org/2013-01-02-5.json.gz`: month and day padded, hour not |
| Records.Admit | sky_gharchive_importer.go:216-218 | a record passes iff `created_at` is a string that parses and `actor` is a non-empty string; otherwise it names the first guard that failed, in order |
| Records.RepositoryData | sky_gharchive_importer.go:221-227 | with a repository object, exactly the five keys, each with the repository's value; without one, nothing |
| Records.DataV1 | sky_gharchive_importer.go:219-227 | the old importer's event data has no `action` and only repository keys |
| Records.DataV2 | main.go:178-187 | the new importer's data is `action` (the record's `type`) plus the repository keys with their values |
| Records.MapV1 | sky_gharchive_importer.go:216-238 | a record maps to an event iff it passes the guards; the event's user is the `actor` and its timestamp the parsed `created_at` (from `Admit`), with the old data; otherwise the guard's reason |
| Records.MapV2 | main.go:175-198 | as for the old importer: user `actor`, timestamp the parsed `created_at`, with the new data |
| Records.MissingRepositoryKeysAreNull | sky_gharchive_importer.go:221-226 | all five keys are present, and the missing ones are null |
| Records.RepositoryDataOf | main.go:181-187 | with a repository object, the data is exactly the five lookups |
| Records.AliceRepositoryData | sky_gharchive_importer.go:221-226 | a repository with only `language` and `forks` gives null `watchers`, `stargazers` and `size` |
| Records.AliceAdmitted | main.go:175-177 | a well-formed record passes the guards with its actor and parsed time |
| Records.AliceDataV2 | main.go:179-186 | the new data of that record is `action` plus the five keys |
| Records.AliceRecordV2 | main.go:175-189 | the whole event of that record in the new importer |
| Records.SortIsNotStable | main.go:203 | two events with equal timestamps may come out in either order |
| Records.SortKeepsEvents | main.go:203 | sorting keeps the length and the set of events |
| Records.SortedHeadIsEarliest | main.go:235-237 | no event of the hour is earlier than the first of the sorted batch |
| Records.Less | main.go:235-237 | defines `UserEvents.Less`: a strictly earlier timestamp |
| Records.SortsTo | main.go:203 | defines what `sort.Sort` promises: the output is sorted by `Less` and a permutation of the input |
| Records.SortedTimesUnique | main.go:203 | any two sorted permutations of a batch have the same timestamps in the same places |
| Lines.ReadBytes | sky_gharchive_importer.go:202 | one read returns up to and including the next newline; without a newline, the rest at end of stream |
| Lines.Chunks | sky_gharchive_importer.go:199-207 | a body splits into complete lines plus a newline-free tail that spell the body |
| Lines.ChunksUnique | sky_gharchive_importer.go:202-204 | that split is the only one |
| Lines.ReadNext | sky_gharchive_importer.go:199-207 | each read from the reader's position yields the next line of the split, or ends after the last |
| Sky.Server.constructor | sky_gharchive_importer.go:132 | a client starts with no requests sent |
| Sky.Server.Ping | sky_gharchive_importer.go:136 | up iff not refused; logged; tables unchanged |
| Sky.Server.GetTable | sky_gharchive_importer.go:141 | found iff not refused and the table exists; logged |
| Sky.Server.DeleteTable | sky_gharchive_importer.go:144 | on success the table is gone; otherwise nothing changes but the log |
| Sky.Server.CreateTable | sky_gharchive_importer.go:154-155 | on success a table with no properties exists |
| Sky.Server.CreateProperty | sky_gharchive_importer.go:170 | on success the property is appended to the table |
| Sky.Server.AddEvent | sky_gharchive_importer.go:229 | a merge-mode add is logged; tables unchanged |
| Sky.Server.StreamEvent | main.go:215 | a streamed add is logged; tables unchanged |
| Provisioning.AcceptedCount | sky_gharchive_importer.go:169-173 | the count of leading accepted properties; the next, if any, is refused |
| Provisioning.Schema | sky_gharchive_importer.go:159-167 | defines the seven properties of a fresh table, in creation order: `username` (not transient, string), then `action` and `language` (factors) and `forks`, `watchers`, `stargazers`, `size` (integers), all transient; the new importer's list at main.go:122-130 is the same |
| Provisioning.SetupSpec | sky_gharchive_importer.go:128-177 | defines `setup`: ping first; a found table is kept, or deleted and re-created with overwrite; otherwise created; `Provisioning.Setup` is proved against it |
| Provisioning.CreateSpec | sky_gharchive_importer.go:152-174 | defines the creation branch: the table, then the properties in order up to the first refusal |
| Provisioning.CreateProperties | main.go:132-136 | the loop creates the accepted prefix and stops at the first refusal, after sending it |
| Provisioning.CreateWithProperties | sky_gharchive_importer.go:152-174 | creating the table and its properties matches the specification of that branch |
| Provisioning.Setup | sky_gharchive_importer.go:128-177 | error, final tables and every request sent match the specification of `setup` |
| Provisioning.PingFirst | main.go:99-101 | a server that does not answer the ping gets no other request |
| Provisioning.ExistingTableReused | sky_gharchive_importer.go:141-152 | without overwrite a found table is reused: no error, nothing changes |
| Provisioning.ExistingTableOverwritten | main.go:104-113 | with overwrite, a found table is deleted first; if the delete fails nothing more is sent |
| Provisioning.FreshTableSchema | sky_gharchive_importer.go:152-174 | a new table ends with a prefix of the seven properties; success iff all are accepted; after a failure, nothing later was requested |
| Provisioning.SetupLeavesTable | main.go:91-140 | after success the table exists, either kept or with the full schema; other tables are untouched |
| Provisioning.CreateTouchesOnlyName | main.go:115-137 | creating changes only the named table, and on success it holds exactly the properties |
| Cli.ParseRange | sky_gharchive_importer.go:80-99 | no argument is the usage error; one is a one-hour range; two or more are start and end; an unparsable date names the argument |
| Cli.ExtraArgumentsIgnored | main.go:54-63 | arguments after the second do not matter |
| Cli.SingleDateIsOneHour | main.go:48-53 | a single valid date imports exactly its hour |
| ImporterV1.Classify | sky_gharchive_importer.go:210-238 | a line is malformed iff unmarshalling fails; otherwise it is admitted or dropped exactly as the record maps, and an admitted line carries the record's actor and parsed time |
| ImporterV1.Requests | sky_gharchive_importer.go:215-229 | defines the requests of a run of lines: one merge-mode `AddEvent` per admitted line, in order |
| ImporterV1.Skips | sky_gharchive_importer.go:230-237 | defines the warnings of a run of lines: one per dropped line, numbered from 1 |
| ImporterV1.ImportBody | sky_gharchive_importer.go:198-241 | defines one body's result: the complete lines up to the first malformed one are handled; then `JsonInvalid`, or `ReadFailed` on a broken stream |
| ImporterV1.ImportHour | sky_gharchive_importer.go:184-242 | defines `importDate`: the URL warning, then the download error or the body's result |
| ImporterV1.ImportDate | sky_gharchive_importer.go:184-242 | error, warnings and requests of one hour match its specification, URL first |
| ImporterV1.ReadLines | sky_gharchive_importer.go:198-241 | the reading loop handles the complete lines up to the first malformed one; a final unterminated line is not handled |
| ImporterV1.HandleLine | sky_gharchive_importer.go:209-238 | one line either adds its event, writes its warning, or is malformed |
| ImporterV1.RequestsAreEvents | sky_gharchive_importer.go:229 | every request is a merge-mode `AddEvent` on the table by a non-empty actor |
| ImporterV1.RequestsAreAdmittedLines | sky_gharchive_importer.go:215-229 | the requests are exactly the admitted lines in order: the j-th is the `AddEvent` of the line at the j-th admitted index, with that line's user and event |
| ImporterV1.BodySucceedsIff | sky_gharchive_importer.go:198-213 | a body is read without error iff the stream ends cleanly and no complete line is malformed; a body never fails with the download error |
| ImporterV1.HourStartsWithUrl | sky_gharchive_importer.go:186-191 | an hour's first warning is its URL; it fails with the download error iff `http.Get` fails |
| ImporterV1.EveryLineAccountedFor | sky_gharchive_importer.go:215-238 | without malformed lines, each line yields exactly one request or one warning |
| ImporterV1.SkipsAreDroppedLines | sky_gharchive_importer.go:230-237 | warnings are exactly the dropped lines: numbered from 1, increasing, with the right reason, none missing |
| ImporterV1.PartialLastLineIgnored | sky_gharchive_importer.go:202-204 | bytes after the last newline change nothing |
| ImporterV1.MalformedLineEndsHour | sky_gharchive_importer.go:210-213 | a malformed line ends the hour with an error; nothing after it is handled |
| ImporterV1.ImportHours | sky_gharchive_importer.go:108-116 | defines the run over hours: each imported in turn, the first failure ending the run with its error |
| ImporterV1.ImportRange | sky_gharchive_importer.go:108-116 | the hour loop matches the run specification: hours in order, stopping at the first failure |
| ImporterV1.FailureEndsRun | sky_gharchive_importer.go:112-115 | after a failed hour, later hours change nothing |
| ImporterV1.RunSucceedsIff | sky_gharchive_importer.go:110-116 | the run succeeds iff every hour does |
| ImporterV1.FailedRunStopsAtFirstFailure | sky_gharchive_importer.go:110-116 | a failed run is the run up to the first failing hour and ends with its error |
| ImporterV1.Run | sky_gharchive_importer.go:73-117 | bad arguments: status 1, nothing sent; setup failure: status 1 after its requests; otherwise status 0 iff every hour succeeds, with every request accounted for |
| BatchSort.Swap | main.go:239-241 | exchanges two events and keeps the multiset |
| BatchSort.SortByTime | main.go:203 | the array ends sorted by timestamp and a permutation of its old contents |
| ImporterV2.Accepted | main.go:175-189 | defines the batch of a run of values: the event of each admitted record, in decoding order |
| ImporterV2.Skips | main.go:190-197 | defines the verbose warnings of a run of values: one per dropped record, numbered from 1, with its guard's reason |
| ImporterV2.DecodeBody | main.go:164-200 | defines one body's result: values up to the first non-record are handled; that value, or a broken stream, fails the hour with its 1-based number; warnings only when verbose |
| ImporterV2.RawData | main.go:143-207 | defines `getRawData`: the URL warning, then the download or gzip error, or the body's result |
| ImporterV2.DecodeValues | main.go:164-200 | the decoding loop matches the specification: events in order, error at the failing value's number |
| ImporterV2.HandleValue | main.go:168-198 | one value is malformed, or yields its event or its warning |
| ImporterV2.GetRawData | main.go:143-207 | one hour: a failure sends nothing; a success sends exactly one batch, a sorted permutation of the decoded events |
| ImporterV2.Channel.constructor | main.go:73 | a new channel holds no batch |
| ImporterV2.Channel.Send | main.go:204 | the batch joins the end of the queue |
| ImporterV2.Channel.Receive | main.go:212 | the oldest batch leaves the queue |
| ImporterV2.BatchRequests | main.go:213-219 | defines the requests of one `Stream` session: one `StreamEvent` per event of the batch, in order |
| ImporterV2.BatchWarnings | main.go:214-217 | defines the warnings of one `Stream` session: `Unaddable(i)` for each refused event, i its 1-based index in the batch |
| ImporterV2.StreamRequests | main.go:210-221 | defines the requests of the stream loop: the sessions of the batches in the order received |
| ImporterV2.StreamWarnings | main.go:210-221 | defines the warnings of the stream loop: each received batch's session warnings, in the order received |
| ImporterV2.StreamBatch | main.go:213-219 | every event is streamed in order; each refused one is reported by its 1-based index and the batch goes on |
| ImporterV2.Stream | main.go:210-221 | all queued batches are streamed in the order sent |
| ImporterV2.ImportHours | main.go:76-83 | defines the run over hours: every hour is tried; a failed one writes "Invalid file" and sends no batch |
| ImporterV2.ImportRange | main.go:76-83 | the hour loop queues a sorted copy of each successful hour's batch, in order, with the right warnings |
| ImporterV2.Run | main.go:37-84 | bad arguments or setup failure: status 1, nothing streamed; otherwise status 0 with every batch sorted and streamed in order |
| ImporterV2.RangeComposes | main.go:78-83 | a failed hour does not stop the range: two stretches of hours compose |
| ImporterV2.OneBatchPerHour | main.go:78-83 | when every hour succeeds there is one batch per hour, in order |
| ImporterV2.BatchIffSuccess | main.go:143-207 | an hour sends a batch iff it succeeds; its first warning is its URL; it fails with the download error iff `http.Get` fails and with the gzip error iff the body is not gzip |
| ImporterV2.DecodeFailureNamesValue | main.go:169-172 | a decoding failure names the 1-based value where it happened; all before it were records |
| ImporterV2.DecodeSucceedsIff | main.go:164-200 | a body decodes iff every value is a record and the stream ends cleanly; the batch is then the accepted events of all values |
| ImporterV2.QuietUnlessVerbose | main.go:190-197 | without verbose, dropped records write nothing |
| ImporterV2.AcceptedAreEvents | main.go:175-189 | every batched event has a non-empty actor and an `action`; with no malformed value, each value is an event or a warning |
| ImporterV2.EventOf | main.go:175-189 | a value has an event iff it is a record that passes the guards; the event is `MapV2`'s, with the record's actor and parsed time |
| ImporterV2.AcceptedAreAdmittedValues | main.go:175-189 | the batch is exactly the admitted records in decoding order: the j-th event is the event of the value at the j-th admitted index |
| ImporterV2.DropOf | main.go:175-198 | a value is dropped iff it is a record that fails a guard, with that guard's reason |
| ImporterV2.SkipsAreDroppedValues | main.go:190-197 | warnings are exactly the dropped records: numbered from 1, increasing, with the right reason, none missing |
| ImporterV2.EveryEventStreamed | main.go:214-218 | a session tries every event of its batch, in order |
| ImporterV2.WarningsAreRefusals | main.go:215-216 | the stream warnings are exactly the refused events, by 1-based index, increasing |
| ImporterV2.StreamInOrder | main.go:211-212 | streaming is first in, first out: a + b streams a, then b |

## Left out

- HTTP, gzip and the JSON tokenizer are not modelled. The download with its decompression, and `json.Unmarshal` of one line, are parameters of type `World`.
- A JSON number is kept as its literal text. encoding/json decodes every number into a float64 before the importer copies it, so `3` and `3.0` become the same value and integers above 2^53 are rounded. This conversion is not modelled, and the model keeps such numbers apart.
- `time.Parse` with RFC 3339 is a parameter. Calendar fields use a fixed zone offset per time, and any zone database is not part of this model.
- int64 overflow of `time.Duration` products and of `time.Add` is not modelled; integers are unbounded.
- The sky.go client, its HTTP protocol and its error values are not modelled. The server is a table map plus a request log, and failures come from an arbitrary `refuses` function.
- `refuses` answers identical requests identically. A server whose answer depends on its history, for example one that accepts the first of two identical `AddEvent` requests in a `Stream` session and refuses the second, is not covered.
- Host, port and table flags are parameters; the `flag` package is not modelled.
- The "Connecting to host:port" line written by `setup` is not modelled.
- `runtime.GOMAXPROCS` is not modelled.
- Old importer: the error from `gzip.NewReader` is ignored by the source (sky_gharchive_importer.go:195). For a body that is not gzip, the reader is then nil and the first `ReadBytes` panics, ending the process with status 2 and no error line. The panic is not modelled: `fetch` only yields decompressed bodies, so such a body has no counterpart in the model.
- Old importer: the result of `table.AddEvent` is ignored by the source, and the model ignores it too. The request is still logged.
- New importer: the stream loop runs in its own goroutine, and the model runs it after the hour loop. Interleaving, the channel capacity of 5 and blocking on a full channel are not modelled.
- New importer: the order in which the standard-error lines of the two goroutines interleave is not modelled, so `ImporterV2.Run` returns them as two lists.
- ImporterV2.Stream: it stops when the channel is empty, while the source loops forever waiting for more.
- ImporterV2.Run: `main` returns without waiting for the stream goroutine, so batches still queued at exit may never be sent in the source. The model states what is sent when the stream loop is allowed to drain the channel.
- The error that `t.Stream` itself returns is ignored by the source and not modelled.
- BatchSort.SortByTime: it is an insertion sort. It promises what `sort.Sort` promises, a sorted permutation, not the particular order `sort.Sort` gives equal timestamps.
