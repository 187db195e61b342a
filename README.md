# counter — a verified model of the substring-counting core

The Go program reads origins (file paths and http/https URLs) one per line,
classifies each as a file source or a URL source, and hands the sources to a
pool of workers. A worker loads a source and counts a configured substring
in its bytes, reading through a fixed-size buffer. It sends back a result
holding the subtotal, the origin and any error, and the results are added
into a total. The repository is mid-refactor. `count/` holds the current
pipeline and `counter/` an older one, and the two disagree in places. The
model takes each file on its own terms.

What is modelled, module by module:

- `Stream` (stream.dfy) models an `io.ReadCloser`. A reader is fixed up front as the
  reads it will return: data with a nil error, then one last read with EOF
  or another error. `ChunkReader.Read` fills the front of the buffer and
  leaves the rest of it as it was. The counters depend on that.
- `BytesCount` (bytes_count.dfy) models `bytes.Count`: leftmost, non-overlapping occurrences.
  `WholeBufferTally` specifies the older counters, which count over the
  whole buffer after every read, stale tail included.
- `CountWorker` (count_worker.dfy) models count/worker.go. `CountSubstr` is the
  one-cursor automaton whose cursor survives across reads, proved equal to
  one scan of the concatenated bytes, so the count does not depend on the
  buffer size. `CountSubstring` is the stop-checked whole-buffer counter.
  `CountWorkerExamples` holds the test vectors of
  count/count_substring_test.go and the cases where the counters disagree.
- `Sources` (count_source.dfy) models count/source.go.
  - `NewSource` classifies in priority order: empty origin, then regular file, then http(s) URL, then unknown.
  - `IsHTTPURL` is `url.Parse` up to the scheme (section 3.1 of RFC 3986), compared without regard to case.
  - `RepeatUntilNotError` is the bounded retry.
  - The `Source` class holds the load/read/close state: `contentIsLoaded`, the body and the cancel function.
  - The file system and the network are oracle parameters: a set of regular files, an open outcome, and one fetch outcome per attempt.
- `Run` (count_run.dfy) models count/run.go and its near-copy count/count.go. `ProcessInput`
  filters origin lines through `NewSource` and keeps their order.
  `CalculateTotal` adds the subtotals of error-free results.
- `WorkerPool` (count_worker_pool.dfy) models count/worker_pool.go: the bounded worker
  count with a decrement matched to each spawn, and one worker's loop as a
  method over the sequence of events its `select` observes.
- `CounterWorker` (counter_worker.dfy) models counter/worker.go: the uint64 whole-buffer
  counter and the worker loop that shares one buffer across all its
  sources. counter/source.go is not part of this model. There a source is an
  origin and a `ChunkReader`.
- `CounterPool` (counter_worker_pool.dfy) models counter/worker_pool.go: the spawn,
  try-send, send dispatch policy, whose worker count only grows.
- `Config` (config.dfy) models config/config.go: defaults, validation and the
  milliseconds-to-nanoseconds conversion. The environment is a map, and
  `strconv` is a signed-decimal int64 parser.

Behaviour of the code that the contracts make explicit:

- A task whose processing was cut short by cancellation yields no result
  (count/worker_pool.go:144-147), so a dispatched task yields one result
  only when it is not cancelled. `WorkerPool.RunWorker` states both cases.
- counter/worker_pool.go starts one worker even when `maxPoolSize` is zero or
  negative, so the worker count stays within `maxPoolSize` only when
  `maxPoolSize >= 1`. See `CounterPool.Cap`.
- counter/worker.go accumulates each subtotal into a uint64, which wraps
  modulo 2^64. See `CounterWorker.Uint64TallyIsWrappedTally`.
- Only `countSubstr` is independent of the buffer size. The two whole-buffer
  counters are not (see "## Findings").

## Model

| member | source | states |
|---|---|---|
| Stream.Reported | count/worker.go:45-49 | EOF is reported as no error; any other read error is reported as itself |
| Stream.ChunkReader.constructor | count/worker.go:15 | a fresh reader has served no read and is open |
| Stream.ChunkReader.Read | count/worker.go:26 | the next read's data fills the front of `p`, the rest of `p` keeps its old bytes, and the error comes with the last read; once exhausted, every read returns 0 bytes and the same error, changing nothing |
| Stream.ChunkReader.Close | count/worker.go:16 | the reader is closed and its read position is kept |
| BytesCount.Count | count/worker.go:65 | `bytes.Count` with a non-empty separator counts leftmost, non-overlapping occurrences: never more than the length of the input, and none when the input is shorter than the separator |
| BytesCount.CountBound | count/worker.go:65 | the occurrences `bytes.Count` counts are disjoint: count × separator length ≤ length |
| BytesCount.CountPositiveIffOccurs | count/worker.go:65 | `bytes.Count` is positive exactly when the separator occurs somewhere |
| BytesCount.CountMonotone | counter/worker.go:15 | appending bytes never lowers `bytes.Count` |
| BytesCount.Fill | count/worker.go:63 | after a read of `data` the buffer starts with `data`, keeps its old tail, and keeps its length |
| BytesCount.WholeBufferTally | count/worker.go:63-66 | the whole-buffer tally leaves a buffer of the same length |
| BytesCount.TallyStep | count/worker.go:63-66 | one more read extends the tally by `bytes.Count` of the refilled buffer when the read returned data |
| BytesCount.ReadTallied | counter/worker.go:13-16 | a read through the buffer advances the reader by one and extends the whole-buffer tally by `bytes.Count(buf)` when it returned data; the error is the stream's end exactly when the reader is exhausted |
| BytesCount.TallyAtLeastPerRead | counter/worker.go:15 | stale bytes only add: the whole-buffer tally is at least the sum of `bytes.Count` over each read's own data |
| BytesCount.TallyOfFullReads | counter/worker.go:15 | when every read fills the buffer, the whole-buffer tally is exactly the per-read sum |
| CountWorker.Step | count/worker.go:29-40 | the cursor stays below the substring length; a match completes exactly when the cursor is on the last byte and the byte matches, and resets the cursor; a matching byte advances; a mismatch re-tests the byte against the first substring byte only |
| CountWorker.Scan | count/worker.go:28-41 | the cursor stays in range and at most one match is counted per byte |
| CountWorker.ScanAppend | count/worker.go:18 | scanning `a + b` is scanning `a`, then `b` from the cursor `a` left, with the counts added |
| CountWorker.StepIsMatchedPrefix | count/worker.go:29-36 | after one byte, the bytes seen end with the substring prefix the cursor points past |
| CountWorker.CursorIsMatchedPrefix | count/worker.go:28-40 | a cursor at k means the last k bytes seen equal the first k bytes of the substring |
| CountWorker.ScanReads | count/worker.go:25-43 | folding the automaton over the reads keeps the cursor below the substring length |
| CountWorker.ScanReadsIsScanOfConcatenation | count/worker.go:18 | the cursor carried across reads makes the fold over reads equal one scan of their concatenation |
| CountWorker.BufferSizeIndependence | count/worker.go:18 | two read splittings of the same bytes give the same count and cursor |
| CountWorker.CountSubstr | count/worker.go:15-53 | with a non-empty substring, reads to the end; the total is the automaton's count over all bytes delivered, including the failing read's; the error is nil for EOF and the read error otherwise; the source is closed |
| CountWorker.ReadsBeforeStop | count/worker.go:58-61 | the stop signal can cut the reads short only at the check where it is seen |
| CountWorker.CountSubstring | count/worker.go:55-77 | a stop seen before a read ends with "got.stop.signal"; otherwise reads to the end; the total is the whole-buffer tally of the reads made; the source is closed |
| CountWorkerExamples.ExampleSingleByte | count/count_substring_test.go:12 | "aaaaaaaa" / "a" with a 10-byte buffer counts 8 |
| CountWorkerExamples.ExampleStraddling | count/count_substring_test.go:13 | "abcdabcd" / "abcd" with a 3-byte buffer counts 2, both matches straddling reads |
| CountWorkerExamples.FlattenThree | count/count_substring_test.go:13 | three reads deliver their concatenation |
| CountWorkerExamples.ScanOfWord | count/worker.go:29-40 | "abcd" through the automaton for "abcd" completes one match and resets the cursor |
| CountWorkerExamples.ExampleNonOverlapping | count/count_substring_test.go:14 | "ababababababa" / "aba" with a 4-byte buffer counts 3: matches do not overlap |
| CountWorkerExamples.ExampleOverlapCountsOnce | count/worker.go:37-40 | "aaa" / "aa" counts 1 |
| CountWorkerExamples.ExampleNotOccurrenceCount | count/worker.go:31-35 | "aaab" holds "aab" (and `bytes.Count` finds it) but the automaton counts 0 |
| CountWorkerExamples.WholeBufferCountsStaleBytes | count/worker.go:63-66 | "aba" / "ab" through a 2-byte buffer tallies 2 where the stream holds one occurrence and the automaton counts 1 |
| CountWorkerExamples.WholeBufferMissesStraddling | count/worker.go:63-66 | "ab" / "ab" through a 1-byte buffer tallies 0 where the automaton counts 1 |
| Sources.ToLowerAscii | count/source.go:181 | lower-casing maps exactly the letters to 'a'..'z' and leaves every other character alone |
| Sources.Lower | count/source.go:181 | lower-casing keeps the length |
| Sources.BeforeHash | count/source.go:176 | the part before the fragment is the longest '#'-free prefix |
| Sources.GetScheme | count/source.go:176 | the scheme `url.Parse` finds is a non-empty proper prefix of the URL followed by ':'; a "missing protocol scheme" error comes only from a leading ':' |
| Sources.SchemeFound | count/source.go:176 | scheme characters up to a ':' make that prefix the scheme |
| Sources.IsHTTPURL | count/source.go:175-183 | checks only the part before the fragment, its control characters and its scheme; an accepted URL has its ':' right after four or five characters (`HTTPURLIffPrefix` gives the exact condition) |
| Sources.PrefixIsScheme | count/source.go:175-183 | a case-insensitive "http:" or "https:" prefix is the parsed scheme and its ':' |
| Sources.HTTPURLHasPrefix | count/source.go:175-183 | an accepted URL starts with "http:" or "https:" in some letter case |
| Sources.HTTPURLIffPrefix | count/source.go:175-183 | `isHTTPURL` holds exactly when the part before any '#' has no control character and the URL starts with "http:" or "https:", ignoring case |
| Sources.NoControlCharBeforeHash | count/source.go:176 | printable text has no control character before its fragment |
| Sources.LowerWithoutCapitals | count/source.go:181 | text without capitals is its own lower-case form |
| Sources.HTTPSExample | count/source_test.go:11 | "https://some.url" is an http(s) URL |
| Sources.HTTPExample | count/source_test.go:12 | "http://some.url" is an http(s) URL |
| Sources.NoSchemeExample | count/source_test.go:13 | "some.url" is not an http(s) URL |
| Sources.NewSource | count/source.go:26-42 | the empty origin fails first; a regular file gives a file source; otherwise an http(s) URL gives a URL source with the timeout; anything else is an unknown source (each case both ways); a built source keeps the origin |
| Sources.DevUrandomIsUnknown | count/source_test.go:16-24 | "/dev/urandom", not a regular file, is an unknown source |
| Sources.RepeatUntilNotError | count/source.go:114-123 | at most `times` calls (at least one when `times > 0`), every call before the last failed, the last call's outcome is returned, and stopping early means success |
| Sources.FetchErrors | count/source.go:136-146 | an attempt reports no error exactly when it fetched |
| Sources.Source.constructor | count/source.go:26-42 | a new source keeps its origin (what `Origin` returns) and kind and has loaded nothing |
| Sources.Source.Read | count/source.go:50-56 | without a body: 0 bytes and no error, nothing changes; with one: the body's read, which advances it by one read, returns that read's length and error, and puts its data at the front of `p` with the rest of `p` unchanged; an exhausted body returns 0 bytes and leaves `p` alone; the body stays open or closed as it was |
| Sources.Source.LoadFile | count/source.go:74-94 | once loaded, nothing changes and no error; a failed open returns "can't open file" and leaves the source unloaded; a successful one installs a fresh unread body |
| Sources.Source.LoadURL | count/source.go:134-149 | once loaded, nothing changes; otherwise it succeeds exactly when one of the first 10 attempts fetched, keeping the first such attempt's body and cancel function; otherwise it returns the 10th attempt's error and changes nothing |
| Sources.Source.Close | count/source.go:125-132 | a held cancel function is called once and cleared; a loaded body is closed and its close result is returned; an unloaded source calls nothing and returns nil |
| Run.Forwarded | count/run.go:44-55 | the sources `processInput` sends: at most one per line, failed classifications dropped |
| Run.ForwardedAppend | count/run.go:48-55 | skipping a line does not disturb the lines after it: forwarding distributes over concatenation |
| Run.ForwardedSound | count/run.go:48-55 | every forwarded source is the classification of one of the lines |
| Run.ForwardedComplete | count/count.go:48-55 | every line that classifies is forwarded |
| Run.ProcessInput | count/run.go:27-61 | scans lines until they run out or the context is done, and sends exactly the classified ones, in order, skipping the rest |
| Run.SumOfSuccessful | count/run.go:63-76 | every error-free subtotal is at most the total, and results that all errored total 0 |
| Run.CalculateTotal | count/run.go:63-76 | the total is the sum of subtotals of error-free results |
| Run.SumAppend | count/count.go:65-73 | the total over two batches is the sum of their totals |
| Run.SumOrderIndependent | count/run.go:65-73 | the total does not depend on the order results arrive in |
| Run.MultisetWithout | count/run.go:65 | removing one result removes one copy of it from the multiset |
| Run.SumWithout | count/run.go:65-73 | removing one result removes exactly its contribution |
| Run.ErroredResultsExcluded | count/run.go:66-69 | an errored result adds nothing to the total |
| WorkerPool.Pool.constructor | count/worker_pool.go:110-121 | a new pool has no workers and the given maximum |
| WorkerPool.Pool.CanSpawnWorkers | count/worker_pool.go:81-83 | true only when one more worker stays within the cap, and for a non-negative count exactly then |
| WorkerPool.Pool.IncNumberOfWorkers | count/worker_pool.go:94-96 | the count goes up by one, nothing else changes |
| WorkerPool.Pool.SpawnWorker | count/worker_pool.go:85-90 | a newly numbered worker is running |
| WorkerPool.Pool.SpawnWorkerIfPossible | count/worker_pool.go:66-83 | below the cap the count goes up by one and one new worker runs; at the cap nothing changes; 0 ≤ count ≤ cap is preserved |
| WorkerPool.Pool.DecNumberOfWorkers | count/worker_pool.go:98-102 | only a running worker's stop decrements, once, so the count stays non-negative and equal to the running set |
| WorkerPool.Pool.GetNumberOfWorkers | count/worker_pool.go:104-108 | returns the count, within 0 ..cap, changing nothing |
| WorkerPool.Pool.SendWork | count/worker_pool.go:59-64 | the source is handed off unless the context is done first |
| WorkerPool.Pool.Process | count/worker_pool.go:54-57 | spawns exactly when below the cap (at most one), returning the new worker's number, which joins the running set so its stop can later be counted; then sends |
| WorkerPool.Emitted | count/worker_pool.go:139-149 | a worker sends at most one result per event it observes |
| WorkerPool.Tasks | count/worker_pool.go:139 | every element of the task list is a received task |
| WorkerPool.OneResultPerTask | count/worker_pool.go:139-149 | without cancellation, every task taken yields one result, with its origin, in order |
| WorkerPool.RunWorker | count/worker_pool.go:123-162 | results are exactly those of tasks not cut short by cancellation; a closed channel, a done context, an expired idle timer or a cancelled task end the worker, with that reason; no earlier event ended it; each task re-arms the timer |
| CounterWorker.Wrap | counter/worker.go:10 | truncation to uint64 is below 2^64 and leaves smaller values alone |
| CounterWorker.WrapIsModulo | counter/worker.go:15 | truncation is the remainder modulo 2^64 |
| CounterWorker.AddModulo | counter/worker.go:15 | one uint64 addition: truncating the running total before adding gives the same result as truncating after |
| CounterWorker.Uint64Sum | counter/worker.go:15 | Go's `total += x` on a uint64 over a series of additions: the running total stays below 2^64 |
| CounterWorker.Uint64SumIsWrappedSum | counter/worker.go:15 | over any series of additions, truncating after every one equals truncating the exact sum once |
| CounterWorker.TallyCounts | counter/worker.go:14-16 | one addend per read, `bytes.Count` of the refilled buffer or 0 for an empty read, summing to the whole-buffer tally |
| CounterWorker.Uint64TallyIsWrappedTally | counter/worker.go:12-23 | the uint64 total `countSubstringIn` accumulates, truncated after each read's addition, is the whole-buffer tally truncated once |
| CounterWorker.CountSubstringIn | counter/worker.go:10-25 | reads until any error, which is dropped; the total is the whole-buffer tally truncated to uint64; the buffer ends as the tally leaves it; the source is closed |
| CounterWorker.CountReadBytes | counter/worker.go:15 | counting only the bytes each read delivered gives the per-read sum, truncated, whatever the buffer held before |
| CounterWorker.WorkerRun | counter/worker.go:36-42 | one subtotal per source, each below 2^64, and the buffer keeps its length |
| CounterWorker.WorkerRunSnoc | counter/worker.go:36-42 | one more source's subtotal is the truncated tally over the buffer the earlier sources left |
| CounterWorker.TakeNext | counter/worker.go:39-42 | one loop turn counts the next source, closes it and sends its result; other sources are untouched |
| CounterWorker.RunCounterWorker | counter/worker.go:27-49 | one result per source, in order, each with its origin and its subtotal counted through the worker's one shared, initially zero buffer; every source is read to the end and closed |
| CounterWorkerExamples.PreviousSourceLeaksIntoSubtotal | counter/worker.go:15 | sources "ab" then "a", counting "ab" through a 2-byte buffer, give subtotals 1 and 1 although the second source's own bytes count 0 |
| CounterWorkerExamples.FirstSourceRun | counter/worker.go:36-42 | the first source "ab" gives subtotal 1 and leaves "ab" in the buffer |
| CounterWorkerExamples.FirstSourceTally | counter/worker.go:13-16 | "ab" read into a zeroed 2-byte buffer tallies 1 |
| CounterWorkerExamples.SecondSourceTally | counter/worker.go:13-16 | "a" read into a buffer holding "ab" tallies 1 |
| CounterPool.Cap | counter/worker_pool.go:18-47 | the cap is the pool size when that is at least 1, and 1 otherwise |
| CounterPool.Spawned | counter/worker_pool.go:17-30 | one call starts at most 2 workers, at least 1 when there were none, at most 1 otherwise; it never takes the count past the cap; the second spawn happens exactly when still under the pool size and the try-send failed |
| CounterPool.HandOffOf | counter/worker_pool.go:22-29 | the non-blocking send delivers exactly when it is tried (under the pool size) and a worker waits; then at most one worker was started |
| CounterPool.CountStaysWithinCap | counter/worker_pool.go:17-53 | over any series of calls from a new pool the count never decreases, never exceeds the cap, and is at least 1 after the first call |
| CounterPool.WorkerPool.constructor | counter/worker_pool.go:55-64 | a new pool has no workers, nothing sent, and the given size |
| CounterPool.WorkerPool.CanSpawnWorkers | counter/worker_pool.go:45-47 | true only when one more worker stays within the cap; once a worker runs, exactly then |
| CounterPool.WorkerPool.SpawnWorker | counter/worker_pool.go:49-53 | the count goes up by one |
| CounterPool.WorkerPool.TrySendWork | counter/worker_pool.go:32-39 | succeeds exactly when a worker waits, and sends only then |
| CounterPool.WorkerPool.SendWork | counter/worker_pool.go:41-43 | the source is sent |
| CounterPool.WorkerPool.Process | counter/worker_pool.go:17-30 | the source is sent exactly once; the count grows by `Spawned` and stays within the cap; the send used is `HandOffOf` |
| Config.ValueOr | config/config.go:18-21 | an unset or empty variable takes the default, a non-empty one is used as it is, so a non-empty default gives a non-empty value |
| Config.ParseInt64 | config/config.go:46 | an accepted string is an optional sign and decimal digits only, and its value is in the int64 range; a negative value has a '-' |
| Config.FormatNat | config/config.go:46 | decimal formatting writes one or more digits |
| Config.FormatNatValue | config/config.go:46 | the digits written denote the number |
| Config.ParseFormatRoundTrip | config/config.go:46 | parsing reads back every int64 that formatting writes |
| Config.ParseMaxNumberOfWorkers | config/config.go:18-26 | an accepted worker count is at least 1; a refusal names the value read |
| Config.MaxNumberOfWorkersAccepted | config/config.go:22-25 | every int64 written in decimal is accepted exactly when positive, with that value |
| Config.SubstringOf | config/config.go:28-32 | the substring is never empty and is "Go" when the variable is unset or empty |
| Config.ParseDurationMs | config/config.go:40-52 | an accepted duration is a whole number of milliseconds, at least 1 ms; a refusal names the variable and the value read |
| Config.DurationAccepted | config/config.go:46-51 | every int64 number of milliseconds written in decimal is accepted exactly when at least 1, as that many × 1,000,000 ns |
| Config.NonNumericRefused | config/config.go:46-49 | a value with a non-digit after its first character is refused |
| Config.Defaults | config/config.go:18-35 | with every variable unset or empty: 5 workers, "Go", and 60000 ms for both timeouts |
| Config.Config.constructor | config/config.go:55 | the zero Config |
| Config.Config.LoadFromEnv | config/config.go:17-38 | fields are set in source order and the first invalid setting stops the load with its error; on success every field holds its parsed value and all are valid |
| Config.Load | config/config.go:54-58 | a fresh Config, loaded; it loads without error exactly when all three numeric settings are valid, and is then valid and holds the parsed worker count, the substring and both parsed timeouts |

## Left out

- Goroutines, channels, the wait groups, the mutex, `select` and timers. The pools keep the state those guard. A worker's loop observes a
  sequence of events. `consume` (count/worker_pool.go:23-48) and its
  close-after-wait ordering are not modelled.
- File and network I/O are oracle inputs: `os.Stat`, `os.Open`, `http.NewRequest`, `client.Do`, `httpDo` with its
  header and context timeout (count/source.go:87-104, 151-168, 190-213).
  `loadFromURL`'s separate error wrapping is folded into one cause string.
- `url.Parse` beyond the fragment, the control-character check and the scheme.
  `IsHTTPURL` does not check the rest of the URL. An origin that url.Parse
  would refuse later (a bad port, a bad escape) counts as a URL here.
- Panic recovery in the workers (count/worker_pool.go:125-129,
  count/worker.go:81-85, counter/worker.go:29-33), log output, and the empty
  substring panic of `countSubstr`. The last is a precondition `|substr| > 0`.
- count/worker.go `workerFunc` (79-107), which drives `countSubstring` over a
  task channel. The pool's worker loop is modelled from
  count/worker_pool.go, with `processSource` as an oracle. `processSource`
  is not part of this model.
- `Run`, 1.go and main.go: wiring, signal handling and entry points.
- counter/source.go is not part of this model.
- Sources.Source.LoadURL: the context passed to each attempt and its cancellation are not modelled. An attempt's outcome is an input.
- Config.ParseDurationMs: does not model the int64 overflow of ms × 1,000,000 in `time.Duration` (config/config.go:51). A value above 9223372036854 ms would wrap in Go and is kept unbounded here.
- Config.ParseInt64: Go's error kinds (syntax vs range) are not distinguished, since both panic the same way.
- Config.Config.LoadFromEnv: the substring is kept as text, without the byte conversion of `[]byte(substring)`.
- CounterWorker.CountSubstringIn: the loop adds without bound and truncates once on return. `Uint64TallyIsWrappedTally` proves this equals Go's truncation after every addition over the whole run.
- CounterWorker.RunCounterWorker: the source's `Load` (counter/source.go) is not modelled. Each task brings a reader that is ready.
- BytesCount.Count: an empty separator is not modelled (`|sep| > 0`). Go's `bytes.Count` then returns the number of UTF-8 runes plus one. The configuration never yields an empty substring (`Config.SubstringOf`).
- CountWorker.CountSubstring: requires a non-empty substring, for the same reason as `BytesCount.Count`; `Config.SubstringOf` guarantees one.
- CounterWorker.CountSubstringIn: requires a non-empty substring, for the same reason as `BytesCount.Count`; `Config.SubstringOf` guarantees one.
- Stream.ChunkReader: only readers that end can be expressed. After its chunks a reader returns its final error. A reader that returns 0 bytes and a nil error forever, which `io.Reader` permits, is not modelled. The read loops at count/worker.go:25-51 and 58-75 and counter/worker.go:12-23 have no progress guard and would spin on one.
- CountWorker.CountSubstr: terminates because every `Stream.ChunkReader` ends; a reader that never ends is not modelled (the same holds for `CountWorker.CountSubstring` and `CounterWorker.CountSubstringIn`).
- Stream.ChunkReader.Read: leaves `p[n:]` as it was. `io.Reader` allows an implementation to use all of `p` as scratch space during the call. The readers this program gets, `os.File` and net/http response bodies, write only the bytes they return, as `bytes.Buffer` does. The two findings below and `BytesCount.TallyAtLeastPerRead` depend on this.
- Sources.Source.Close: the error a loaded body's `Close` returns (count/source.go:58-61) is an input, `bodyCloseErr`, since `Stream.ChunkReader.Close` models no failure. Every caller discards it (`defer source.Close()`).

## Findings

| source | as written | input that shows it | evidently intended | confidence | as-written member | corrected member |
|---|---|---|---|---|---|---|
| count/worker.go:63-66 | `countSubstring` adds `bytes.Count(buf, sep)` over the whole buffer after each read, so bytes left from earlier reads are counted again, and a match split by a read boundary is never seen | "aba" / "ab" through a 2-byte buffer gives 2 (the stream holds one); "ab" / "ab" through a 1-byte buffer gives 0 | a count that does not depend on how the stream is cut into reads, as `countSubstr` in the same file gives and count/count_substring_test.go:13 expects | not executed | CountWorkerExamples.WholeBufferCountsStaleBytes | CountWorker.CountSubstr |
| counter/worker.go:15 | `countSubstringIn` counts over the whole buffer, which one worker shares across all its sources, so bytes of a previous source leak into the next source's subtotal | sources "ab" then "a", counting "ab", 2-byte buffer: subtotals 1 and 1, where the second source holds no "ab" | each source's subtotal counts only that source's bytes: `bytes.Count(buf[:n], sep)` | not executed | CounterWorkerExamples.PreviousSourceLeaksIntoSubtotal | CounterWorker.CountReadBytes |
