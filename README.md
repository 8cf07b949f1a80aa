# svg-term-cli core, modelled in Dafny

This project models the parts of `svg-term-cli` that decide what happens before
and around rendering. It verifies the model with Dafny 4.11:

- **The asciinema cast parser** (`Parser`). It detects the format of a recording
  (generation 1: one JSON array; generation 2: a header line followed by one
  event per line). It parses either format into a header and a list of events,
  and it wraps each failure in an `AsciinemaError` whose kind says whether the
  format was unknown or parsing failed.
- **The cast player** (`Player`). It is a class with the fields `isPlaying`,
  `isPaused` and `currentTimeout`. `pause`, `resume` and `stop` are guarded
  updates of those fields. `play` clears the screen, writes every output
  event, and sleeps between events by their time difference, divided by the
  speed and capped by the idle-time limit.
- **The batch coordinator** (`Batch`). It finds `.cast` files, by glob query or
  by a recursive directory walk. It splits them into at most `parallel` chunks
  (4 by default). It converts every chunk's files into one shared
  `BatchResult`, either skipping failed files or stopping at the first failure.
- **The flag checks** run before a conversion (`Validation`): the asciinema
  install check, then the numeric, string and timeline flag groups. The first
  failing group is reported as one error listing its messages.
- **The value coercions** `toNumber` and `toBoolean` (`Conversion`).

Seven supporting modules:

- `Wrappers`: `Option` and `Result`.
- `Errors`: the error kinds.
- `Json`: decoded JSON values, with property reads and truthiness.
- `Cast`: the recording and option records.
- `JsString`: the JavaScript string built-ins the core calls: `trim`,
  `split('\n')`, `endsWith` and `parseInt(s, 10)`.
- `JsValue`: dynamically typed flag values, with `String(v)`.

Environment effects become parameters of the model:

- `JSON.parse` is an uninterpreted `decode` function.
- The file system is a value: the glob hits, or the directory listings for the
  fallback walk.
- The per-file conversion is an oracle `convert` from path to outcome.
- Whether asciinema is installed is a boolean.
- Timers are the recorded list of waits. The `pause`/`resume`/`stop` calls
  other code makes while `play` sleeps are given as a schedule, one list of
  calls per sleep.

Behaviour of the code worth knowing:

- `play` never reaches its `break` on `!isPlaying`. `stop` only runs while
  `play` awaits a sleep, and it clears that sleep's timer, so the awaited
  promise never settles. The model calls this outcome `Suspended`.
- Nothing enforces a positive header width or height. Any truthy value is
  copied, and a falsy value is replaced by 80 or 24.
- `toNumber` is declared as taking `string | null`, but callers pass raw flag
  values. So a number flag can reach it, and `0` gives `undefined`.
- In strict mode the error recorded for the failing file stays in `errors`,
  and the error is then rethrown.

## Model

| member | source | states |
|---|---|---|
| Parser.Lines | src/asciinema/parser.ts:50 | the trimmed content always splits into at least one line |
| Parser.DetectFormat | src/asciinema/parser.ts:45-72 | empty or whitespace-only content and a first line that is not JSON are unknown; generation 2 exactly when the first line is an object with version 2; generation 1 exactly when it is a non-empty array whose first element is an object with version 1 |
| Parser.MakeHeader | src/asciinema/parser.ts:83-91 | reading the header fails exactly when the header is null, with the TypeError text naming `width`; otherwise width and height are the header's truthy values or 80 and 24, the other fields are copied, and idle_time_limit and env are kept only for generation 2 |
| Parser.V1Events | src/asciinema/parser.ts:93-103 | the events succeed exactly when every item is an array of at least 3 elements, one event per item in order; otherwise the generation-1 event error |
| Parser.ParseV1 | src/asciinema/parser.ts:74-110 | succeeds exactly when the JSON is an array of at least 2 elements with a non-null header and event tuples after it; the result is generation 1 with one event per remaining item; a non-array or short array gives the shape error |
| Parser.LineSteps | src/asciinema/parser.ts:137-156 | one step per line, each the outcome of that line alone |
| Parser.NonBlank | src/asciinema/parser.ts:139 | the positions of the event lines are in range and never blank |
| Parser.NonBlankIncreasing | src/asciinema/parser.ts:137-139 | event lines are visited in increasing line order |
| Parser.NonBlankComplete | src/asciinema/parser.ts:137-139 | every non-blank line after the header is visited |
| Parser.CollectOk | src/asciinema/parser.ts:137-156 | the event loop succeeds exactly when no line fails |
| Parser.CollectInOrder | src/asciinema/parser.ts:148-152 | on success, the k-th event comes from the k-th non-blank line |
| Parser.CollectFirstFailure | src/asciinema/parser.ts:153-155 | on failure, the error is that of the first failing line |
| Parser.ParseV2 | src/asciinema/parser.ts:112-163 | the method computes the generation-2 result of the trimmed, split content |
| Parser.V2ShapeFailure | src/asciinema/parser.ts:113-117 | trimmed content without a newline is refused with `Invalid v2 format: expected at least 2 lines`, whatever the decoder; any newline gives at least two lines |
| Parser.ParseV2Lines | src/asciinema/parser.ts:115-156 | the loop over lines, with `continue` on blank lines and a throw on the first bad line, yields the generation-2 result of the line list |
| Parser.Parse | src/asciinema/parser.ts:11-34 | fails with INVALID_CAST_FORMAT exactly when the format is unknown; every other failure is PARSING_FAILED; a success has the detected format, the matching version and at least one event |
| Parser.ParseResultShape | src/asciinema/parser.ts:11-34 | the same five facts about the specification of `parse`, for use by lemmas |
| Parser.ParseResultV1 | src/asciinema/parser.ts:22-33 | for generation-1 content, failures are PARSING_FAILED and a result has version 1 and at least one event |
| Parser.ParseResultV2 | src/asciinema/parser.ts:24-33 | for generation-2 content, failures are PARSING_FAILED and a result has version 2 and at least one event |
| Parser.ParsedV2OfContent | src/asciinema/parser.ts:112-163 | a generation-2 success on content that is not blank has at least one event |
| Parser.ParsedV2NonEmpty | src/asciinema/parser.ts:137-156 | when the last line is not blank and parsing succeeds, there is at least one event |
| Parser.Validate | src/asciinema/parser.ts:36-43 | true exactly when `parse` succeeds |
| Parser.ParsedV2Shape | src/asciinema/parser.ts:137-162 | a generation-2 result has version 2 and one event per non-blank line, each the event tuple decoded from that trimmed line |
| Parser.StepGood | src/asciinema/parser.ts:138-152 | a line yields an event only when it is not blank and decodes to an event tuple, and the event is built from that tuple |
| Parser.EventLineExists | src/asciinema/parser.ts:137-139 | a non-blank last line is an event line |
| Parser.ParsedV2Succeeds | src/asciinema/parser.ts:120-156 | with a non-null header, generation-2 parsing succeeds exactly when every later line is blank or a valid event |
| Parser.ParsedV2FirstFailure | src/asciinema/parser.ts:141-155 | a generation-2 failure is the error of a non-blank line j, naming line j + 1, with every line before it valid |
| Parser.FailureAt | src/asciinema/parser.ts:141-155 | the first failing line is not blank, its own error is the result, and every line before it is valid |
| Parser.StepBad | src/asciinema/parser.ts:141-155 | a failing line is not blank, and its error names line i + 1 |
| Parser.V2EventFailure | src/asciinema/parser.ts:144-155 | every error of an event line names that line, 1-based |
| Parser.LastLineNonBlank | src/asciinema/parser.ts:113 | content that is not only whitespace has a last line that is not blank after trimming and splitting |
| Parser.DetectByFirstLine | src/asciinema/parser.ts:50-54 | only the first line decides the format |
| Parser.FirstLineOf | src/asciinema/parser.ts:50 | a trimmed first line without a newline is the first element of the split |
| Parser.OneLine | src/asciinema/parser.ts:50 | trimmed content without a newline is a single line |
| Parser.SpreadV1IsUnknown | src/asciinema/parser.ts:52-69 | a generation-1 recording spread over several lines, whose first line is not JSON on its own, is unknown |
| JsString.SkipSpace | src/asciinema/parser.ts:46 | the first position at or after i that is not whitespace |
| JsString.BackSpace | src/asciinema/parser.ts:46 | the position after the last position before j that is not whitespace |
| JsString.Trim | src/asciinema/parser.ts:46 | `trim()` is empty exactly when the string is only whitespace; otherwise it has no whitespace at either end and is the slice between them |
| JsString.TrimKeepsFront | src/asciinema/parser.ts:50 | trimming a string that starts with an already trimmed part keeps that part at its front |
| JsString.Split | src/asciinema/parser.ts:50 | `split('\n')` gives at least one piece, no piece holds the separator, and joining the pieces gives back the string |
| JsString.SplitWithoutSeparator | src/asciinema/parser.ts:50 | a string without the separator splits into itself |
| JsString.SplitHead | src/asciinema/parser.ts:50 | the first piece is everything before the first separator |
| JsString.SplitLast | src/asciinema/parser.ts:113 | the last piece ends with the string's last character when that is not a separator |
| JsString.DigitChar | src/utils/validation.ts:25 | a digit character whose value is d |
| JsString.SkipDigits | src/utils/validation.ts:25 | the end of the run of digits that starts at i |
| JsString.NatToString | src/utils/validation.ts:27 | decimal rendering: non-empty digits, no leading zero, whose value is n |
| JsString.ParseInt | src/utils/validation.ts:25-26 | `parseInt(s, 10)` is a number exactly when, after leading whitespace and an optional sign, a digit follows |
| JsString.ParseIntOfRendering | src/utils/conversion.ts:5 | `parseInt` reads back the decimal rendering of every integer, ignoring what follows the digits |
| JsString.ParseIntOfNegativeRendering | src/utils/conversion.ts:5 | the same for negative integers |
| JsString.ParseIntOfDigits | src/utils/conversion.ts:5 | a run of digits reads as its decimal value |
| JsString.ParseIntOfNegative | src/utils/conversion.ts:5 | a minus sign and a run of digits read as the negated value |
| JsValue.ParseIntValueMeaning | src/utils/validation.ts:25-26 | `parseInt` of a flag value is a number exactly for numbers and strings with a leading digit, and gives back every number |
| JsValue.NoLeadingDigit | src/utils/validation.ts:25-26 | `undefined`, `null`, `true`, `false` and other words give NaN |
| Conversion.ToNumber | src/utils/conversion.ts:1-11 | defined exactly for a truthy number or a string with a leading digit, and a number is returned unchanged |
| Conversion.ToBoolean | src/utils/conversion.ts:13-25 | undefined gives the fallback; any other value is true exactly when it is `'true'` or `true` |
| Conversion.ToNumberOfNothing | tests/unit/utils/conversion.test.ts:13-14 | `null` and the empty string give undefined |
| Conversion.ToNumberWithoutDigits | src/utils/conversion.ts:5-8 | a string without a leading digit gives undefined |
| Conversion.ToNumberOfRendering | src/utils/conversion.ts:1-11 | every integer's rendering, followed by anything that is not a digit, gives that integer |
| Conversion.ToNumberOf42 | tests/unit/utils/conversion.test.ts:7 | `'42'` gives 42 |
| Conversion.ToNumberOf0 | tests/unit/utils/conversion.test.ts:8 | `'0'` gives 0 |
| Conversion.ToNumberOfMinus10 | tests/unit/utils/conversion.test.ts:9 | `'-10'` gives -10 |
| Conversion.ToNumberOfDecimal | src/utils/conversion.ts:1-11 | a string that is exactly an integer's rendering gives that integer |
| Conversion.ToNumberOfLetters | tests/unit/utils/conversion.test.ts:15 | `'abc'` gives undefined |
| Conversion.ToNumberOfNumber | src/utils/conversion.ts:2-10 | a number flag is returned unchanged, except 0, which is falsy and gives undefined |
| Conversion.ToBooleanIgnoresFallback | src/utils/conversion.ts:13-25 | only undefined consults the fallback; `'true'` and `'false'` decide, and `null` is false |
| Validation.CliError | src/utils/validation.ts:97-103 | the error has the message, and its help is the command line's help text |
| Validation.Ensure | src/utils/validation.ts:86-95 | at most one message per name; none exactly when every check passes; every message is that of some failing name |
| Validation.EnsureOne | src/utils/validation.ts:91-94 | for one name, the result is its check's message when that check fails, and nothing otherwise |
| Validation.EnsureAppend | src/utils/validation.ts:91-94 | checking `a + b` reports the failures of `a`, then those of `b`; with the one-name case, every failing name's message appears, in name order |
| Validation.ValidateFlags | src/utils/validation.ts:6-84 | an error always carries the command line's help text, and its message starts with `svg-term: ` |
| Validation.NumericCheckMeaning | src/utils/validation.ts:20-31 | a present height or width passes exactly when it is a number or a string with a leading digit; otherwise the "expected to be number" message |
| Validation.TimelineCheckMeaning | src/utils/validation.ts:61-77 | a present timeline flag passes exactly when it reads as a number and, unless it is `at`, `at` does not read as one |
| Validation.AtDisallows | src/utils/validation.ts:61-77 | `from` or `to` that reads as a number, next to an `at` that reads as a number, is refused with the `--at flag disallows` message |
| Validation.AbsentFlagsPass | src/utils/validation.ts:21-23 | absent flags are never reported |
| Validation.InstallCheckFirst | src/utils/validation.ts:10-17 | with `command` present and asciinema missing, the two-line installation error is returned whatever the other flags hold |
| Validation.ValidNoFailure | src/utils/validation.ts:6-84 | `validateFlags` returns null exactly when the install check and every flag check pass |
| Validation.GroupsPass | src/utils/validation.ts:33-81 | each group reports nothing exactly when each of its names passes |
| Validation.GroupsInOrder | src/utils/validation.ts:33-81 | the first failing group, in the order numeric, string, timeline, is reported with its messages joined by newlines |
| Validation.OneMalformedHeight | src/utils/validation.ts:20-35 | a single bad height gives exactly that flag's message after the prefix |
| Player.Apply | src/asciinema/player.ts:82-101 | pause sets `isPaused` only while playing; resume clears it only while playing; stop clears both flags and the timer |
| Player.ApplyAllSettled | src/asciinema/player.ts:82-101 | a player that is not playing stays neither paused nor holding a timer, whatever calls follow |
| Player.StopIsFinal | src/asciinema/player.ts:94-101 | after a stop, no later call makes the player play or pause again |
| Player.NoStopKeepsPlaying | src/asciinema/player.ts:82-92 | without a stop a playing player keeps playing and its timer |
| Player.PlayingKeepsTimer | src/asciinema/player.ts:82-101 | a player still playing after some calls was playing before them and kept its timer |
| Player.StopSettles | src/asciinema/player.ts:94-101 | any list of calls containing a stop leaves the player not playing |
| Player.Speed | src/asciinema/player.ts:27 | the speed is the option when it is set and non-zero; otherwise it is 1; it is never 0 |
| Player.GapDelayRule | src/asciinema/player.ts:53-64 | a wait happens only between two timed events and is positive; it is the time difference in ms divided by the speed, except that a truthy idle limit it exceeds replaces it by the limit in ms |
| Player.SpeedScales | src/asciinema/player.ts:54 | at a positive speed s every wait is the speed-1 wait divided by s, and the speed never decides whether a wait happens |
| Player.GapOf | src/asciinema/player.ts:45-53 | at most one wait follows an event, and none follows the last event |
| Player.FirstStopUnique | src/asciinema/player.ts:94-101 | the first sleep whose scheduled calls hold a stop is unique |
| Player.PlayingMeansNoStop | src/asciinema/player.ts:94-101 | a player still playing after a list of calls saw no stop among them |
| Player.StopEndFrom | src/asciinema/player.ts:34-65 | a stop at the first stopping sleep, after event i's poll or gap, ends the loop with nothing written since that sleep, event i counted exactly when its gap was the last wait |
| Player.GapsUpTo | src/asciinema/player.ts:34-65 | the waits before event k number fewer than k once the end is reached |
| Player.EmittedCount | src/asciinema/player.ts:48-50 | one write happens per output event |
| Player.EmittedFromOutputs | src/asciinema/player.ts:48-50 | everything written is the data of some output event |
| Player.EmittedIgnoresRest | src/asciinema/player.ts:34-50 | what the first n events write does not depend on later events |
| Player.CastPlayer.constructor | src/asciinema/player.ts:12-14 | a new player is not playing, not paused, holds no timer and has written nothing |
| Player.CastPlayer.Pause | src/asciinema/player.ts:82-86 | the guarded pause transition; the output is unchanged |
| Player.CastPlayer.Resume | src/asciinema/player.ts:88-92 | the guarded resume transition; the output is unchanged |
| Player.CastPlayer.Stop | src/asciinema/player.ts:94-101 | both flags cleared and the timer released; the output is unchanged |
| Player.CastPlayer.Perform | src/asciinema/player.ts:82-101 | a list of control calls applies them in order |
| Player.CastPlayer.Sleep | src/asciinema/player.ts:103-107 | a sleep holds a timer, counts one timer, records a gap's delay, and applies the calls made while it waits |
| Player.CastPlayer.AwaitResume | src/asciinema/player.ts:40-42 | the pause loop ends playing and unpaused, or blocks stopped or unresumed at the end of the schedule; it never polls when not paused; a stop came in its last poll and in no earlier one |
| Player.CastPlayer.AwaitGap | src/asciinema/player.ts:61-63 | one gap sleep; the player is then stopped, by a stop scheduled for that sleep, or still playing with a timer and no stop scheduled; calm calls leave it playing unpaused |
| Player.CastPlayer.AwaitNext | src/asciinema/player.ts:53-64 | the wait after event i is exactly that event's gap; a stop ends it only in that gap's sleep |
| Player.CastPlayer.WriteEvent | src/asciinema/player.ts:48-50 | input events write nothing; an output event with string data is written; other data fails with the playback error; what is written is added to the writes since the last sleep |
| Player.CastPlayer.PlayEvent | src/asciinema/player.ts:39-64 | one loop iteration: wait while paused, write, then wait for the next event; a halt is a write failure or a suspension; a stop ends it in its first stopping sleep with nothing written after |
| Player.CastPlayer.Advance | src/asciinema/player.ts:34-64 | one pass keeps the loop's running state for the next event, or ends it as `play`'s loop ends |
| Player.CastPlayer.PlayEvents | src/asciinema/player.ts:34-65 | the loop writes exactly the output data of the events it played and waits exactly their gaps; it finishes after every event, fails on the first unwritable event, or suspends; a stop suspends it at the first stopping sleep, with nothing written since that sleep, after the gap of the last event played or the poll before the next; writable events with calm calls always finish |
| Player.CastPlayer.Play | src/asciinema/player.ts:16-80 | a second call fails with "Player is already playing" and changes nothing; otherwise the screen is cleared, the events are written and waited as above, a failure wraps the write error, a stop ends it at the first stopping sleep with nothing written after, and a finished or failed play leaves the player idle |
| Player.StopFromSchedule | src/asciinema/player.ts:94-101 | a player that stops while sleeping was stopped by a stop scheduled for that sleep |
| Batch.FindCastFilesRecursive | src/asciinema/batch.ts:80-97 | the walk returns exactly the specified depth-first list of `.cast` file paths, or the first unreadable directory's error |
| Batch.CastFilesOk | src/asciinema/batch.ts:80-97 | the walk succeeds exactly when every directory it reaches is readable |
| Batch.EntriesFilesOk | src/asciinema/batch.ts:85-94 | the entry loop succeeds exactly when every sub-directory so far is readable |
| Batch.CastFilesSuffix | src/asciinema/batch.ts:91-92 | every path found by the walk ends with `.cast` |
| Batch.EntriesFilesSuffix | src/asciinema/batch.ts:85-94 | the same for the entry loop |
| Batch.JoinKeepsSuffix | src/asciinema/batch.ts:86 | joining a directory keeps a name's `.cast` suffix |
| Batch.CastFilesInOrder | src/asciinema/batch.ts:85-94 | the files of a listing are the files of its first entries followed by those of the rest |
| Batch.EntriesAppend | src/asciinema/batch.ts:85-94 | the entry loop over two lists concatenates their files |
| Batch.EntriesPrefix | src/asciinema/batch.ts:85-94 | the loop over a prefix does not depend on later entries |
| Batch.EntriesFailureSticks | src/asciinema/batch.ts:89 | once a sub-directory fails, the whole loop fails with that error |
| Batch.GlobFiles | src/asciinema/batch.ts:58-64 | the glob loop keeps exactly the hits that are regular files |
| Batch.FindCastFiles | src/asciinema/batch.ts:49-78 | discovery uses the glob query when it exists and the walk otherwise, and wraps any failure as BATCH_PROCESSING_FAILED with the "Failed to find cast files" prefix |
| Batch.DiscoveryFailureMessage | src/asciinema/batch.ts:71-77 | a discovery failure reaches the caller with both prefixes |
| Batch.WorkerCount | src/asciinema/batch.ts:30 | the workers are `parallel` (4 when absent or 0), capped by the file count, and at least 1 when there are files |
| Batch.CeilDiv | src/asciinema/batch.ts:31 | `Math.ceil(n / w)`: the least c with c * w >= n |
| Batch.ChunkArray | src/asciinema/batch.ts:142-148 | the loop produces the specified chunking |
| Batch.ChunksStep | src/asciinema/batch.ts:144-145 | each step takes the next `size` items, or all that remain |
| Batch.ChunksFlatten | src/asciinema/batch.ts:142-148 | concatenating the chunks gives back the input |
| Batch.ChunksShape | src/asciinema/batch.ts:142-148 | every chunk is non-empty and at most `size`, and all but the last are exactly `size` |
| Batch.ChunksCount | src/asciinema/batch.ts:142-148 | there are `ceil(n / size)` chunks |
| Batch.AtMostWorkers | src/asciinema/batch.ts:30-31 | chunking n files by `ceil(n / w)` gives at most w chunks |
| Batch.ChunkPlan | src/asciinema/batch.ts:30-37 | the chunks are at most the worker count, cover every file in order, and all but the last have the same size |
| Batch.Record | src/asciinema/batch.ts:106-113 | a success increments `succeeded`; a failure increments `failed` and appends the file with its message |
| Batch.CountConverted | src/asciinema/batch.ts:104-107 | at most one success per file |
| Batch.FirstFailed | src/asciinema/batch.ts:115-117 | the index of the first failing file, with every earlier file converted |
| Batch.RunChunkSkipping | src/asciinema/batch.ts:104-119 | with `skipErrors` nothing is thrown, every file is counted once, and the errors are the failures in order |
| Batch.RunChunkStrict | src/asciinema/batch.ts:104-119 | without `skipErrors` the chunk throws exactly when a file fails, with the first failure's message, after counting the files before it and that failure |
| Batch.RunChunkAppend | src/asciinema/batch.ts:104-119 | running two lists of files is running the first, then the second unless the first threw |
| Batch.RunChunksFlatten | src/asciinema/batch.ts:33-37 | running the chunks one after another is running their concatenation |
| Batch.BatchResult.constructor | src/asciinema/batch.ts:13-18 | a fresh result with all counts zero and no errors |
| Batch.ProcessChunk | src/asciinema/batch.ts:99-120 | the chunk loop updates the shared result's counts and errors as specified, leaving `processed` alone, and reports what it throws |
| Batch.Process | src/asciinema/batch.ts:12-47 | a discovery failure is rethrown with the batch prefix; otherwise the result holds the file count and the counts and errors of converting every file, and a strict-mode failure throws BATCH_PROCESSING_FAILED with the failing file's message |
| Batch.NothingFound | src/asciinema/batch.ts:25-27 | no files give an empty result and nothing thrown |
| Batch.SkippingCountsEveryFile | src/asciinema/batch.ts:104-119 | with `skipErrors` every file is a success or a failure, and there is one error per failure |
| Batch.StrictFailsOnFirstFailure | src/asciinema/batch.ts:115-117 | without `skipErrors` the batch throws exactly when some file fails, with the first failing file's message |

## Left out

- Real time is not modelled. Timers, the 100 ms poll and `setTimeout` are recorded as waits, and calls made by other code during a sleep come from a schedule parameter.
- Batch.Process: the chunks run one after another, not interleaved under `Promise.all`. So the order of `errors` across chunks is the sequential order. In strict mode the message rethrown is that of the first failing file in order, not the first rejection in time.
- Batch.Process: `parallel` must be absent or at least 0. A negative value makes `Math.ceil(n / parallel)` non-positive, and then `chunkArray` never terminates. A fractional `parallel` is not modelled.
- `processFile` (batch.ts:122-140) is not part of this model. It is a placeholder that writes files, and it is the `convert` oracle here.
- Batch.FindCastFiles: the glob pattern, `path.join`, `path.resolve` and `fs.stat` are file-system I/O. The hits arrive already resolved and classified, `pattern` only shapes that query, and the walk ignores its `pattern` argument, as the source does.
- Batch.JoinPath: path normalisation by `path.join` and `path.resolve` is not modelled.
- Numbers in flag values and in `String(v)` are integers. Floating point, NaN, Infinity and the exponent form of large numbers are not modelled. Event times and the speed are reals without NaN.
- Flag values that are arrays or objects are not modelled.
- `JSON.parse` is uninterpreted; which texts parse is not modelled.
- The `details` argument of `AsciinemaError` (the caught error) is dropped.
- Player.CastPlayer.WriteEvent: the Node error text that describes the rejected value is not modelled. Only the fixed part of the message is kept.
- Player.TimeValue: strings with numeric text (`"1.5"`, `" 2 "`, `"0x10"`, `"Infinity"`), and one-element arrays holding such a string, count as NaN. JavaScript converts them to their number. Turning string text into a number is not modelled.
- Player.GapOf: a wait whose event time is such a string or array is taken as absent, by way of `Player.TimeValue`.
- Player.CastPlayer.PlayEvents: a `stdout.write` that throws for any other reason is not modelled.
- `command('asciinema')`, the installation probe, becomes the `installed` parameter.
- The theme, clipboard, recorder, terminal, input, rendering and command-line modules are not part of this model.
