# terravision-ui core, modelled in Dafny

This project models three small parts of terravision-ui whose behaviour can be
stated exactly:

- **The write endpoint** (`terravision_write` and `write_file` in
  `terravision/app.py`). A POST carries a JSON object keyed by configuration
  file names. The handler visits `main.tf`, `variables.tf` and
  `terraform.tfvars` in that order. For each name present it stores
  `data[name]["value"]` in `data/<name>`, truncating the file first. For each
  name absent it only logs a warning. The first failure ends the request:
  400 for unparseable JSON or a missing `"value"`, 500 for anything else
  (including a body whose bytes do not decode as text). The except clauses as
  written do not deliver that split; see "## Findings".
  Earlier writes are never rolled back.
- **The process streamer** (`stream_process`). The child process is replaced
  by its two pipes. The generator reads standard output line by line to end of
  file, and only then reads standard error the same way.
- **The console accumulator** (`useConsole` in `lib/useConsole.tsx`). It holds
  an output string. Clearing resets it to `""`. Streaming reads chunks until
  done; each chunk has the matches of `ESC \[ [0-9;]* [mG]` removed and is then
  appended.

Files:

- `wrappers.dfy`: `Option`.
- `json.dfy`: the parsed JSON shapes the handler distinguishes. These are
  object, array, string, and a scalar (number, boolean or null).
- `file_store.dfy`: the disk as a class (`FileSystem`: the set of directories
  and a map from path to content). `WriteFileSpec` is the specification of
  `write_file` and `WriteFile` implements it step by step. Operating-system
  failures are an `IoFault` parameter.
- `write_endpoint.dfy`: `Handle`, `WriteAll` and `WriteEntry` specify the
  handler. `TerravisionWrite` runs it step by step, with `WriteNames` as its
  loop over the fixed names. The file ends
  with the lemmas.
- `process_streamer.dfy`: `Lines` gives the lines `readline()` returns. A
  `Pipe` class has a `ReadLine` method, and `StreamProcess` drains the two
  pipes.
- `console.dfy`: `Strip` is the regular-expression replace and `Scan` the
  same scan as a list of kept characters and removed matches. `Console` is the
  state machine, and `Reader` is the stream reader it consumes.

`stream_process` does not interleave the two streams: all of standard output
comes first (`StreamOrder`).

## Model

| member | source | states |
|---|---|---|
| `FileStore.DataPath` | terravision/app.py:55 | The path `os.path.join("data", name)`: `data/<name>`, or the name itself when it is absolute. `DataPathInjective` shows distinct names give distinct paths. |
| `FileStore.DataPathInjective` | terravision/app.py:55 | The path `os.path.join("data", name)` is built with no check on the name. Distinct names still give distinct path strings. |
| `FileStore.WriteFileSpec` | terravision/app.py:54-68 | `write_file` on a disk: a value without a length raises first, then `data` is created, the file is opened (truncated) and written, and any failure is re-raised with the file left as it is. `WriteFileMeaning` states what it does to the disk and when it succeeds. |
| `FileStore.WriteFileMeaning` | terravision/app.py:54-68 | Only `data/<name>` can change, and the only directory it may create is `data` (creation is idempotent). The write succeeds exactly when the content is text and the disk cooperates (an encoding failure counts as the disk not cooperating); then the file holds exactly that text. On failure the file is unchanged, emptied, or holds a prefix of the text: nothing is cleaned up and the error is re-raised. A value without a length changes nothing. |
| `FileStore.WriteFile` | terravision/app.py:54-68 | The step-by-step write leaves the disk and the raised error exactly as `WriteFileSpec` says, so `WriteFileMeaning` holds of it. |
| `WriteEndpoint.AbsentMembers` | terravision/app.py:125-126 | A warning is logged for a name exactly when it is one of the visited names and the body leaves it out. |
| `WriteEndpoint.WriteEntry` | terravision/app.py:120-124 | One present entry: `data[name]["value"]`, the `content[:100]` of the log line, then `write_file`, each with the exception it raises turned into the response the handler gives. `WriteEntryMeaning` states its outcome and its frame. |
| `WriteEndpoint.WriteEntryMeaning` | terravision/app.py:120-124 | For one present entry, only its own file can change. It succeeds exactly when the entry is `{"value": <text>}` and the write goes through; then the file holds that text. It gives 400 "Missing required key: 'value'" exactly when the entry is an object without `"value"`, and then nothing changes. Every other failure is a 500. |
| `WriteEndpoint.ProcessEntry` | terravision/app.py:120-124 | Handling one present entry step by step leaves the disk and the failure response exactly as `WriteEntry` says, so `WriteEntryMeaning` holds of it. |
| `WriteEndpoint.WriteAll` | terravision/app.py:118-126 | The loop creates no directory other than `data`. Its only 400 is the missing-`"value"` one. |
| `WriteEndpoint.Handle` | terravision/app.py:109-139 | The handler on a disk: an undecodable body is a 500, an unparseable one a 400, one past the parser's limits a 500, a non-object a 500, and an object runs the loop over the three names. `HandleMalformedBody`, `HandleSuccess`, `HandleOnlyWritesExpectedFiles`, `HandleAbsentFileUntouched` and `HandleFailureKeepsEarlierWrites` state what it does. |
| `WriteEndpoint.Visit` | terravision/app.py:119-126 | One pass of the loop body reports a warning exactly for an absent name. Either it fails, and the whole loop's outcome is that failure on the current disk, or the loop's outcome is this pass's warning followed by the rest of the loop from the new disk. |
| `WriteEndpoint.WriteNames` | terravision/app.py:118-126 | The loop over the names, run step by step against the shared disk, ends with exactly the disk, response and warnings of `WriteAll`. |
| `WriteEndpoint.TerravisionWrite` | terravision/app.py:103-139 | The handler's disk, response and warnings are exactly those of `Handle`. These cover: undecodable body, unparseable body, body past the parser's limits, body that is not an object, and the loop over the three fixed names in order, stopping at the first failure. |
| `WriteEndpoint.FirstRejected` | terravision/app.py:118-124 | Gives the index of the first name that is present and does not pass. Every earlier name passes. |
| `WriteEndpoint.WriteAllFrame` | terravision/app.py:118-126 | A path that no present name maps to keeps its file, whatever the outcome. |
| `WriteEndpoint.WriteAllKeeps` | terravision/app.py:118-126 | The file of a name that is absent from the body, or not visited, keeps its content, whatever the outcome. |
| `WriteEndpoint.WriteEntryKeeps` | terravision/app.py:120-124 | Handling one entry leaves every other name's file as it was. |
| `WriteEndpoint.WriteAllSucceeds` | terravision/app.py:118-129 | The loop succeeds exactly when every name is absent, or is `{"value": <text>}` with a working disk. |
| `WriteEndpoint.WriteAllSuccessLands` | terravision/app.py:118-129 | After success, each present name's file holds exactly its submitted text. Each absent name's file is unchanged, and the warnings are exactly the absent names in order. |
| `WriteEndpoint.WriteAllStops` | terravision/app.py:118-136 | On failure the loop stops at the first rejected name, which is present. The response is 400 exactly when that entry is an object lacking `"value"`. |
| `WriteEndpoint.WriteAllStopWarnings` | terravision/app.py:118-136 | A failing loop has logged warnings for exactly the absent names before the one it stopped at, in order. |
| `WriteEndpoint.WriteAllFailureKeepsEarlier` | terravision/app.py:118-139 | On failure, every name before the failing one holds what success would have left: earlier writes are not rolled back. |
| `WriteEndpoint.WriteAllFailureKeepsLater` | terravision/app.py:118-139 | On failure, every name after the failing one is untouched. |
| `WriteEndpoint.HandleMalformedBody` | terravision/app.py:109-139 | The response is 400 "Invalid JSON data" exactly when the body is text that is not JSON. Then the disk is unchanged and no warning is logged. A body whose bytes do not decode as text is a 500 (`UnicodeDecodeError` falls through to the last clause), and so is JSON nested deeper than the recursion limit or holding an over-long integer literal (`RecursionError`, `ValueError`), and a JSON body that is not an object; none of them writes anything or logs a warning. |
| `WriteEndpoint.HandleSuccess` | terravision/app.py:112-129 | `success: true` comes exactly when the body is an object whose expected entries are each absent, or `{"value": <text>}` with a working disk. Then each of the three files holds exactly the text sent (truncate and write) or its old content if absent. One warning is logged per missing name, in the fixed order. |
| `WriteEndpoint.HandleOnlyWritesExpectedFiles` | terravision/app.py:115-118 | No file other than `data/main.tf`, `data/variables.tf` and `data/terraform.tfvars` ever changes; extra keys in the body are ignored. No directory other than `data` is ever created. |
| `WriteEndpoint.HandleAbsentFileUntouched` | terravision/app.py:119-126 | A name the body leaves out keeps its file, whether the request succeeds or fails. |
| `WriteEndpoint.HandleFailureKeepsEarlierWrites` | terravision/app.py:118-139 | A failed request stops at the first bad expected name. Earlier names stay written, later names are untouched. The response is 400 "Missing required key: 'value'" exactly when that entry is an object without `"value"`, and 500 otherwise (an entry that is a string, list or number also has no `"value"`, but subscripting it raises `TypeError`). Warnings cover the missing names before it. |
| `WriteEndpoint.HandleAsWritten` | terravision/app.py:131-139 | The handler with its except clauses as written: the same effects as `Handle`, but any failure is Flask's own 500 page. `AsWrittenHasNoClientErrors` states the difference. |
| `WriteEndpoint.AsWrittenHasNoClientErrors` | terravision/app.py:103-139 | With the except clauses as written (where `json` is the `flask.json` imported at line 5), every request that raises gets Flask's own 500 page: there is no 400 at all, not even for a body that is not JSON, which the intended handler answers with 400 "Invalid JSON data". Success, the files written and the warnings logged are the same as the intended handler's. |
| `ProcessStreamer.LineLength` | terravision/app.py:47 | One `readline()` takes a piece of the text that is nonempty whenever the text is, and no longer than it. |
| `ProcessStreamer.LineLengthStopsAtNewline` | terravision/app.py:47 | No newline comes before the end of a line read, and the line ends in a newline unless the text ran out. |
| `ProcessStreamer.Lines` | terravision/app.py:47-48 | The lines `iter(readline, "")` yields from a text, each taken as `LineLength` says. `LinesWellFormed`, `ConcatLines` and `LinesOfConcat` state that they are lines, that they join back to the text, and that joining lines and splitting again gives them back. |
| `ProcessStreamer.ConcatLines` | terravision/app.py:47-51 | Reading a text line by line loses and adds nothing: the lines concatenate back to the text. |
| `ProcessStreamer.LinesWellFormed` | terravision/app.py:47 | Every line read is nonempty, has a newline only as its last character, and all but the last end in a newline. |
| `ProcessStreamer.LinesOfConcat` | terravision/app.py:47 | This is the inverse direction: splitting the concatenation of well-formed lines gives back the same lines. |
| `ProcessStreamer.LinesAppend` | terravision/app.py:47-51 | When standard output is empty or ends in a newline, the yielded lines are those of stdout followed by stderr read as one text. |
| `ProcessStreamer.UnterminatedLineStaysSeparate` | terravision/app.py:47-51 | Without a final newline on stdout, its last line and stderr's first line are yielded separately, not joined. |
| `ProcessStreamer.StreamOrder` | terravision/app.py:47-51 | The yielded text is exactly stdout followed by stderr. The first lines make up all of stdout and the rest all of stderr, so no stderr line comes before the last stdout line. |
| `ProcessStreamer.Pipe.constructor` | terravision/app.py:38-45 | A fresh pipe has all of the child's output unread. |
| `ProcessStreamer.Pipe.ReadLine` | terravision/app.py:47 | `readline()` returns the next line up to and including its newline, or `""` at end of file, and advances past it. |
| `ProcessStreamer.Drain` | terravision/app.py:47-48 | One `iter(readline, "")` loop yields exactly the lines of the unread text and leaves the pipe at end of file. |
| `ProcessStreamer.StreamProcess` | terravision/app.py:34-51 | The generator yields all lines of stdout, then all lines of stderr, and drains both pipes. |
| `ConsoleOutput.ParamRun` | lib/useConsole.tsx:36 | Gives the length of the maximal run of digits and `;` at the start of the text. |
| `ConsoleOutput.EscapeLength` | lib/useConsole.tsx:36 | A match at the start is absent (0) or at least three characters long, and fits in the text. |
| `ConsoleOutput.EscapeLengthMatches` | lib/useConsole.tsx:36 | `EscapeLength` finds the match of `ESC \[ [0-9;]* [mG]` at the start of the text. No other prefix matches, and when it returns 0 no prefix matches at all. |
| `ConsoleOutput.Strip` | lib/useConsole.tsx:35-37 | `text.replace(ansiRegex, '')`: a left-to-right scan that drops each match and keeps every other character. `ScanJoins`, `ScanKeeps`, `ScanRemovesMatches` and `ScanKeepsOnlyNonMatches` show it is the regular expression's leftmost, non-overlapping replace. |
| `ConsoleOutput.ScanJoins` | lib/useConsole.tsx:35-37 | The global replace's scan splits the text into pieces that put back together give the text. |
| `ConsoleOutput.ScanKeeps` | lib/useConsole.tsx:35-37 | The cleaned text is exactly the characters the scan keeps, in order. |
| `ConsoleOutput.ScanRemovesMatches` | lib/useConsole.tsx:35-37 | Every piece the scan removes is a match of `ESC \[ [0-9;]* [mG]`. |
| `ConsoleOutput.ScanKeepsOnlyNonMatches` | lib/useConsole.tsx:35-37 | No match starts at a kept character, so the matches removed are the leftmost ones, without overlap. |
| `ConsoleOutput.StripNoEscape` | lib/useConsole.tsx:35-38 | A chunk without an escape character comes out unchanged. |
| `ConsoleOutput.StripIsSubsequence` | lib/useConsole.tsx:37 | The cleaned text is a subsequence of the raw text, so it is no longer than it. |
| `ConsoleOutput.StripNotIdempotent` | lib/useConsole.tsx:35-37 | Cleaning is not idempotent: ESC ESC `[m` `[m` cleans to ESC `[m`, which cleans to `""`. |
| `ConsoleOutput.SplitSequenceSurvives` | lib/useConsole.tsx:33-40 | Chunks are cleaned independently. ESC in one chunk followed by `[0m` in the next survives, though the joined text would clean to `""`. |
| `ConsoleOutput.StripAll` | lib/useConsole.tsx:33-40 | What a stream adds to the output: each chunk cleaned on its own, in order. `SplitSequenceSurvives` shows this differs from cleaning the joined text, and `StreamConsoleOutput` appends exactly this. |
| `ConsoleOutput.Reader.constructor` | lib/useConsole.tsx:23 | A reader obtained from a stream has all of the stream's chunks unread, and whether the stream errors after them is fixed. |
| `ConsoleOutput.Reader.Read` | lib/useConsole.tsx:40-43 | `read()` gives the next chunk while there is one. After the last it gives done, or rejects if the stream errors. |
| `ConsoleOutput.Console.constructor` | lib/useConsole.tsx:18 | The output starts as `""`. |
| `ConsoleOutput.Console.ClearOutput` | lib/useConsole.tsx:20 | `clearOutput` sets the output to `""`. |
| `ConsoleOutput.Console.Append` | lib/useConsole.tsx:33-38 | A read that is not done appends exactly the cleaned chunk, so the old output is a prefix of the new. |
| `ConsoleOutput.Console.StreamConsoleOutput` | lib/useConsole.tsx:22-44 | With a null stream the output is unchanged. Otherwise the output becomes the old output followed by the cleaned chunks, in order and each cleaned alone, and the stream is read to its end. The result says whether the stream ended by rejecting. |

## Left out

- Launching the child process and the two shell pipelines (`terraform init/validate/graph`, `sed`, `node ../index.js`, `tee`, `dot`). These are external tools, and the `&&` and pipe semantics belong to the shell. `stream_process` is modelled from the point where its two pipes exist.
- Laziness and timing of `stream_process`: the model gives the sequence of yielded lines, not when each line becomes available. Possible deadlock on a full stderr pipe is not modelled.
- Text-mode newline translation of the pipes (`\r\n` and `\r` read as `\n`): pipe contents are taken as already translated.
- `ProcessStreamer.Pipe.ReadLine`: the pipes are opened in text mode with the locale's strict decoding, so a byte the child writes that does not decode makes `readline` raise `UnicodeDecodeError` part-way through the stream. The model takes pipe contents as already-decoded strings and does not capture that error or the lines lost after it.
- The graph and validate handlers, their `except` branches (which cannot see launch errors, because the generator runs lazily), the output and health endpoints, CORS and the request/response logging hooks. These are thin framework wrappers.
- Info-level logging. Only the "missing expected file" warnings are modelled, as the `warnings` result.
- The exact text of Python exception messages in 500 responses. `ServerError` carries a `Cause` that says which exception was raised, not its `str(e)`.
- `WriteEndpoint.WriteEntryMeaning`: an entry whose `"value"` is itself an object is modelled as a 500 at `content[:100]`. That is what Python before 3.12 does (the slice is unhashable). From 3.12 the slice lookup raises `KeyError`, which would make it a 400.
- Raw request bytes and their decoding: a body is a JSON value, text that is not JSON, bytes that do not decode as text (`Undecodable`, a 500), or JSON past the parser's recursion or integer-digit limit (`ParserLimit`, a 500). Which byte sequences decode, and where those limits lie, is not modelled.
- `FileStore.WriteFileMeaning` (and with it `WriteEndpoint.HandleSuccess`): the file is opened in text mode in the locale's encoding with strict errors. Text that does not encode, such as a lone surrogate that `json.loads` accepts from `"\ud800"` and a Dafny string cannot hold, makes `f.write` raise `UnicodeEncodeError` after `open` has truncated the file, and the request is a 500. The model can show that case only as a `WriteFails(_, 0)` fault; "succeeds exactly when the content is text and the disk cooperates" is stated for text the locale can encode.
- `FileStore.DataPathInjective`: files are identified by their path string. Normalisation of `.`, `..` and repeated `/`, and symbolic links, are not modelled, so names such as "main.tf" and "./main.tf" are different files in the model though one on disk.
- `os.makedirs` meeting a plain file named `data` is folded into the `MakedirsFails` fault.
- Concurrency between requests sharing `data/` and the diagram file: there is no locking in the code to model.
- `ConsoleOutput.Console.StreamConsoleOutput`: `stream?.getReader()` throws when the stream is already locked to another reader, and the promise then rejects with the output unchanged. The model starts from a `Reader` it can use and does not capture that case.
- `ConsoleOutput.Console.StreamConsoleOutput`: `pump` gives control back to the event loop at every `await reader.read()`, so `clearOutput` or a second `streamConsoleOutput` can run between two chunks. The model runs the pump without interruption, and its promise that the output ends as the old output followed by every cleaned chunk holds only when nothing else changes the output meanwhile.
- `TextDecoder` UTF-8 decoding in the console: chunks are modelled as already-decoded strings. A multi-byte character split across chunks is not modelled.
- React context and provider plumbing, and React's batching of `setOutput` updates. Updates are applied in order, one per chunk.
- `lib/files.ts` only reads example files from disk, which is I/O. Its `fileNames` list is the same as `ExpectedFiles`.
- `app/api/terravision/[...path]/route.ts` is a proxy to the Flask service and is not part of this model.

## Findings

| source | as written | input that shows it | evidently intended | confidence | as-written member | corrected member |
|---|---|---|---|---|---|---|
| terravision/app.py:131 | `json` is `flask.json` (imported at line 5), which defines no `JSONDecodeError`, so the first except clause raises `AttributeError` once the try body raises, and every failing request gets Flask's generic 500 page | a POST with body `{` (or an entry without `"value"`) | 400 "Invalid JSON data" for a body that is not JSON, 400 "Missing required key" for a missing `"value"`, 500 with the error text otherwise | medium: not executed; depends on the Flask release lacking `flask.json.JSONDecodeError` | `WriteEndpoint.AsWrittenHasNoClientErrors` | `WriteEndpoint.HandleMalformedBody` |
