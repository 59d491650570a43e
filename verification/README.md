# Image analysis agent: a Dafny model of `ImageAnalysisAgent`

This project models the bookkeeping and selection logic of the image analysis
agent, the class `ImageAnalysisAgent` in `src/agent.py`. The agent watches a
directory, picks the image files it has not analysed yet, sends each one to a
vision model, writes a text report and a JSON record for it, and remembers the
processed paths in `processed_images.json`.

The model is in nine modules:

- `Wrappers`: `Option`.
- `Paths`: the parts of `pathlib` the agent uses (`name`, `suffix`, `stem`), and `str.lower`.
- `Scanner`: a directory listing is a sequence of `Entry(path, isFile, mtime)` records. The module covers which of them are new images, and the stable sort by modification time.
- `Mime`: the extension-to-MIME-type table.
- `Results`: the success and failure result shapes, and the dictionary each becomes.
- `ProcessedLog`: the processed-images log, and how it is loaded and saved.
- `Report`: the output file names, and the report text, both as written and as evidently intended.
- `Runner`: what `save_analysis`, `process_image` and a pass of `run_once` leave in the output directory, as functions.
- `Agent`: the class `ImageAnalysisAgent`. Its fields are the processed set, the log and the report files. Its methods change them step by step, as the Python methods do, and each method is proved against the `Runner` and `Scanner` functions.

Everything the agent asks of its environment becomes a parameter:

- the directory listing;
- the backend's reply for each call, an `Answer(content, totalTokens)` or an `Error(message)`;
- the two clock readings for each image: the ISO-8601 time in the result and the `YYYYMMDD_HHMMSS` time in the file names.

For a pass of `run_once`, `answers(k)` is what the k-th `process_image` call observes.

The code's own structure shows how a failed analysis is meant to end:

- `analyze_image` turns every backend exception into a failure result (`src/agent.py:123-131`);
- `save_analysis` has an `else` branch that writes `ERROR: ...` for it (`src/agent.py:153-154`);
- `process_image` marks the path after the save, for every result (`src/agent.py:171-176`).

So a failure is meant to be reported and marked processed, and the pass is meant to go on. But a failure result has no `'model'` key, and `save_analysis` reads `result['model']` at `src/agent.py:145`. That raises `KeyError`. `process_image` and `run_once` do not catch it, so the failed image is not marked processed and the pass ends. The class follows the code as written; `Runner` also defines the save and the pass as intended, and "## Findings" sets the two side by side.

## Model

| member | source | states |
|---|---|---|
| Paths.LastIndexOf | src/agent.py:165 | the index found holds the character and no later index does, or -1 when it does not occur (`str.rfind`, used by `suffix`) |
| Paths.LastIndexOfSplit | src/agent.py:165 | in `a + [c] + b` with no `c` in `b`, the last `c` is the one right after `a` |
| Paths.Name | src/agent.py:116 | `Path.name` contains no '/' and is no longer than the path |
| Paths.NameIsFinalComponent | src/agent.py:116 | the name is the tail of the path, preceded by a '/' unless it is the whole path |
| Paths.NameOfJoin | src/agent.py:116 | the name of `dir/name` is `name` whenever `name` has no '/' |
| Paths.Suffix | src/agent.py:165 | the suffix is empty or a '.' followed by a dot-free tail |
| Paths.SuffixIsTail | src/agent.py:165 | a non-empty suffix is a proper tail of the name |
| Paths.StemAndSuffix | src/agent.py:135 | stem followed by suffix gives back the name |
| Paths.Stem | src/agent.py:135 | `Path.stem`: its contract is StemAndSuffix (stem followed by suffix is the name) and SuffixOfJoin (`base.ext` has stem `base`) |
| Paths.SuffixOfJoin | src/agent.py:135 | `base.ext` with a non-empty base and a dot-free `ext` has suffix `.ext` and stem `base` |
| Paths.Lower | src/agent.py:165 | `lower()` keeps the length, maps every character, and leaves no upper-case ASCII letter |
| Paths.LowerIdempotent | src/agent.py:165 | lower-casing twice is lower-casing once |
| Scanner.FormatsOrDefault | src/agent.py:28 | a missing or empty format list selects the six default formats; any other list is kept |
| Scanner.IsImage | src/agent.py:165 | the file and format test: IsImageByExtension states it for `dir/base.ext`, and SelectNew and Scan state what it selects |
| Scanner.IsNew | src/agent.py:165-166 | an image whose path is not processed: SelectNew and Scan keep exactly these entries, and RescanFindsNothing shows none is left once the scan is marked |
| Scanner.SelectNew | src/agent.py:164-167 | an entry is kept iff it is a file, its lower-cased suffix is a supported format, and its path is not processed |
| Scanner.Insert | src/agent.py:169 | inserting adds exactly one occurrence of the entry (multiset) |
| Scanner.InsertSorted | src/agent.py:169 | inserting into a sequence sorted by mtime keeps it sorted |
| Scanner.SortByMtime | src/agent.py:169 | the result is sorted by non-decreasing mtime and is a permutation of the input |
| Scanner.Scan | src/agent.py:161-169 | the scan returns exactly the new images of the listing, sorted by mtime |
| Scanner.WithMtimeInsert | src/agent.py:169 | inserting adds the entry to its own mtime group only, at the front of the group |
| Scanner.SortIsStable | src/agent.py:169 | within each mtime group, the sort keeps listing order |
| Scanner.StableSortUnique | src/agent.py:169 | two sorted sequences with the same mtime groups are equal, so a stable sort has exactly one result |
| Scanner.HeadsAgreeOnTime | src/agent.py:169 | two sorted sequences with the same mtime groups start with the same mtime |
| Scanner.TailsAgree | src/agent.py:169 | after equal heads, the tails still have the same groups and stay sorted |
| Scanner.WithMtimeMember | src/agent.py:169 | an entry is in the group of time `t` iff it is in the sequence with mtime `t` |
| Scanner.ScanIsStableSort | src/agent.py:161-169 | any sorted sequence that keeps the listing order within each mtime group is the scan result |
| Scanner.SelectNewDistinct | src/agent.py:164-167 | filtering a listing without repeated paths repeats no path |
| Scanner.InsertDistinct | src/agent.py:169 | inserting an entry with a new path repeats no path |
| Scanner.SortDistinct | src/agent.py:169 | sorting repeats no path |
| Scanner.ScanDistinct | src/agent.py:161-169 | the scan of a listing without repeated paths has no duplicates |
| Scanner.RescanFindsNothing | src/agent.py:161-169 | once every scanned path is marked processed, the same listing scans to nothing |
| Scanner.RescanFindsRest | src/agent.py:161-176 | once the first k scanned images are marked processed, a rescan finds exactly the rest |
| Scanner.RescanMember | src/agent.py:164-167 | for one entry: it is new after marking the first k iff it is among the rest |
| Scanner.IsImageByExtension | src/agent.py:165 | a file `dir/base.ext` is an image iff the lower-cased `.ext` is a supported format |
| Scanner.LowerPng | src/agent.py:165 | `".PNG".lower()` is `".png"` |
| Scanner.LowerTxt | src/agent.py:165 | `".txt"` stays `".txt"` and is not a default format |
| Scanner.MixedCasePngIsImage | src/agent.py:165 | with the default formats, `a.PNG` passes the file and format test (`IsImage`) |
| Scanner.TextFileIsNotImage | src/agent.py:165 | with the default formats, `note.txt` fails the file and format test (`IsImage`) |
| Mime.MimeType | src/agent.py:58-66 | the lookup is total and always returns an `image/...` type |
| Mime.MimeTypeOf | src/agent.py:56-66 | the type sent for a path is an `image/...` type |
| Mime.KnownExtensions | src/agent.py:58-65 | `.jpg` and `.jpeg` map to `image/jpeg`; `.png`, `.gif`, `.bmp` and `.webp` map to their own types |
| Mime.TableCoversDefaultFormats | src/agent.py:58-66 | the table's keys are exactly the default formats, each mapped to the type named after it |
| Mime.UnknownExtensionIsJpeg | src/agent.py:66 | every other extension gets `image/jpeg` |
| Results.AnalyzeImage | src/agent.py:111-131 | a reply gives a success result with content, model and token count; an exception gives a failure result with its text; both carry the path, name and time |
| Results.ToRecord | src/agent.py:113-131 | the result dictionary: ToRecordKeys gives its keys, RecordRoundTrip and RecordReadsBackOnlyItsResult show it holds exactly the result |
| Results.ToRecordKeys | src/agent.py:113-131 | a success dictionary has the seven success keys, and a failure dictionary has the five failure keys |
| Results.RecordRoundTrip | src/agent.py:156-157 | every field of a result survives the trip through its JSON record |
| Results.RecordReadsBackOnlyItsResult | src/agent.py:156-157 | a record that reads back as a result is exactly that result's record |
| Results.ModelKeyOnlyOnSuccess | src/agent.py:119 | the dictionary has a `model` key iff the result is a success |
| ProcessedLog.Loaded | src/agent.py:38-42 | no log leaves the set as it is; a log without `processed` gives the empty set; otherwise the set is the listed paths |
| ProcessedLog.Saved | src/agent.py:46 | the saved document has the single key `processed` |
| ProcessedLog.ListOf | src/agent.py:46 | `list(set)` lists every element exactly once |
| ProcessedLog.LoadAfterSave | src/agent.py:38-46 | loading the saved log gives back the saved set |
| ProcessedLog.EnumerationSize | src/agent.py:46 | the saved list has as many entries as the set |
| Report.Rule | src/agent.py:142 | `'=' * n` is n characters, all '=' |
| Report.NatToString | src/agent.py:152 | the printed token count is a non-empty string of digits |
| Report.NatToStringRoundTrip | src/agent.py:152 | the printed token count reads back as the count |
| Report.OutputName | src/agent.py:137-138 | `stem_timestamp_analysis.ext`: OutputNameParses shows it is a plain name with that stem and suffix, OutputNameDeterminesStemAndTime that it fixes stem and time |
| Report.TextName | src/agent.py:137 | the `.txt` name: OutputNameParses with `txt`, and TextAndJsonNamesDiffer |
| Report.JsonName | src/agent.py:138 | the `.json` name: OutputNameParses with `json`, and TextAndJsonNamesDiffer |
| Report.OutputNameParses | src/agent.py:137-138 | an output name is a plain file name whose stem is `stem_timestamp_analysis` and whose suffix is the extension |
| Report.TextAndJsonNamesDiffer | src/agent.py:137-138 | the `.txt` and the `.json` name of one save differ |
| Report.OutputNameDeterminesStemAndTime | src/agent.py:134-138 | with fixed-width timestamps, an output name determines the image stem and the timestamp |
| Report.FixedWidthSplit | src/agent.py:137 | equal names with equal-width timestamps have equal stems and timestamps |
| Report.SameStemSameSecondCollide | src/agent.py:134-138 | `x.png` and `x.jpg` saved in the same second get the same output names |
| Report.HeaderStartsWithBanner | src/agent.py:141-144 | the header starts with the title and a line of 80 '=' |
| Report.Header | src/agent.py:141-144 | the four header writes: HeaderStartsWithBanner gives the banner, RenderAsWritten shows a failure leaves exactly this text |
| Report.Render | src/agent.py:140-154 | the intended report starts with the title and the 80-'=' line; a success report ends with the analysis, a rule and `Tokens used: n`; a failure report ends with `ERROR: error` |
| Report.RenderAsWritten | src/agent.py:140-152 | the writes stop with KeyError('model') iff the dictionary has no `model` key, leaving just the header |
| Report.AsWrittenAgreesOnSuccess | src/agent.py:140-152 | on a success result, the code as written produces the intended report |
| Report.FailureNeverReachesErrorLine | src/agent.py:145-154 | on a failure result, the code as written stops before the model line, so the `ERROR:` line is never written |
| Report.TimeoutExample | src/agent.py:145 | a timeout on `photo.png` leaves only the header and raises for `model` |
| Runner.SaveEffect | src/agent.py:133-157 | a success writes the intended report and the record; a failure raises KeyError('model'), writes only the header, and writes no record |
| Runner.SaveRecordNames | src/agent.py:156-157 | a save adds the JSON name to the records iff the result is a success |
| Runner.Save | src/agent.py:133-157 | `save_analysis` as written: SaveEffect states the files it leaves and whether it raises |
| Runner.ProcessStatus | src/agent.py:171-173 | `process_image` returns normally iff the backend answered, and otherwise raises for `model` |
| Runner.ProcessRecordKeys | src/agent.py:171-173 | `process_image` adds its JSON record iff the backend answered |
| Runner.Process | src/agent.py:171-173 | the analysis and save of `process_image`: ProcessStatus and ProcessRecordKeys state its outcome and its record |
| Runner.FirstError | src/agent.py:214-215 | the number of answers before the first backend error, or n when there is none |
| Runner.FirstErrorUnique | src/agent.py:214-215 | any k with answers before it and an error at it (or k = n) is FirstError |
| Runner.FirstErrorAfterAnswers | src/agent.py:214-215 | when all earlier answers succeeded, the last answer decides FirstError |
| Runner.RunOutputsNext | src/agent.py:214-215 | processing image n-1 applies `process_image` to what the earlier images left |
| Runner.RunOutputs | src/agent.py:214-215 | the files after the first n images: RunOutputsNext applies Process to each image in scan order, RunRecords gives the records |
| Runner.SavedNameAt | src/agent.py:134-138 | entry i of the saved names is the JSON name of image i at its clock reading |
| Runner.RunOutputsJsonNext | src/agent.py:214-215 | image n-1 of a pass adds its JSON name iff the backend answered it |
| Runner.RunOutputsKeysNext | src/agent.py:214-215 | the same fact, stated with the saved names |
| Runner.RunOutputsRecordKeysStep | src/agent.py:214-215 | one more image keeps the records equal to the running list of answered names |
| Runner.RunOutputsRecordKeys | src/agent.py:214-215 | after n images, the records are the old ones plus the names of the answered images |
| Runner.RecordKeysBeforeError | src/agent.py:214-215 | when only the last answer may fail, the answered names are those before the first error |
| Runner.RunRecords | src/agent.py:214-215 | a pass that stops at its first error leaves a record for exactly the images before it, and keeps every old record |
| Runner.SaveIntended | src/agent.py:140-157 | `save_analysis` as evidently intended, the intended report and the record for every result: SaveIntendedAgreesOnSuccess and SaveIntendedReportsFailure state it |
| Runner.IntendedPass | src/agent.py:171-176 | the loop of `run_once` as evidently intended, each image saved with SaveIntended and then marked: IntendedPassMarks and IntendedRunOnceFindsNothing state it |
| Runner.SaveIntendedAgreesOnSuccess | src/agent.py:140-157 | on a success, the intended save (Render and the record) is exactly the save as written |
| Runner.SaveIntendedReportsFailure | src/agent.py:153-157 | on a failure, the intended save ends the report with `ERROR: error` and writes a record that reads back as the failure, where the save as written raises for `model` |
| Runner.IntendedPassMarks | src/agent.py:171-176 | the intended pass marks the path of every image it processes, whatever the backend answered |
| Runner.IntendedRunOnceFindsNothing | src/agent.py:202-217 | after `run_once` as intended, a rescan of the same listing finds nothing, with no condition on the backend |
| Agent.ImageAnalysisAgent.constructor | src/agent.py:14-36 | fields as given, default formats when none are given, and the set loaded from the log, consistent with it |
| Agent.ImageAnalysisAgent.LoadProcessedImages | src/agent.py:38-42 | the set becomes what the log holds, or stays as it is with no log |
| Agent.ImageAnalysisAgent.SaveProcessedImages | src/agent.py:44-46 | the log lists the set, once per path, under `processed`, and reloads to it |
| Agent.ImageAnalysisAgent.ScanForNewImages | src/agent.py:161-169 | the loop and sort compute Scan of the listing against the current set |
| Agent.ImageAnalysisAgent.SaveAnalysis | src/agent.py:133-157 | the write sequence leaves what Save states, including the KeyError after the header on a failure |
| Agent.ImageAnalysisAgent.ProcessImage | src/agent.py:171-176 | on an answer, the set grows by exactly the path and is persisted; on an error it raises KeyError('model') with the set and log unchanged |
| Agent.ImageAnalysisAgent.ProcessEntry | src/agent.py:214-215 | one loop iteration advances the outputs by one image |
| Agent.ImageAnalysisAgent.ProcessAll | src/agent.py:214-215 | exactly the images before the first backend error are marked processed; the pass ends after the call that raises |
| Agent.ImageAnalysisAgent.RunOnce | src/agent.py:202-217 | an empty scan changes nothing; otherwise the scanned images are processed in order up to the first error; after an error-free pass a rescan finds nothing |
| Agent.PathsOfSnoc | src/agent.py:175 | marking one more scanned image adds its path |
| Agent.SelectNewSnoc | src/agent.py:164-167 | one more loop step appends the entry iff it is a new image |

## Left out

- The chat-completions call, its prompt, its parameters and the response parsing (`src/agent.py:69-111`) are a foreign network client. The backend is a parameter that answers `Answer(content, totalTokens)` or `Error(message)`.
- `encode_image` (`src/agent.py:48-50`) only feeds the foreign call.
- The API client and key (`src/agent.py:33`) and the directory creation (`src/agent.py:30-31`) are environment set-up with no state the model uses.
- File system access is not modelled. The listing is given as a sequence; the log and the reports are fields. JSON formatting (indent, `ensure_ascii`) and text encoding are left out.
- `st_mtime` is a float; it is modelled as an integer, which keeps the order the sort uses.
- `datetime.now()` and its formatting: the two readings per image are given as strings.
- `run_continuous` (`src/agent.py:178-200`) is an endless loop driven by `time.sleep` and `KeyboardInterrupt`. One iteration of it is `run_once` without the early return.
- The console output is left out.
- `run.py` and the demo scripts only forward arguments and exercise the class.
- The constructor's default arguments `model="gpt-4o"` and `check_interval=5` (`src/agent.py:19-20`) are not modelled; the constructor takes both as parameters. `check_interval` is used only by `run_continuous`.
- Paths.Lower: lower-cases ASCII letters only, not all of Unicode as Python's `str.lower` does.
- Results.AnalyzeImage: a reply whose message content is `None` is not modelled; the content is always a string.
- ProcessedLog.Loaded: a log that is not valid JSON, or whose `processed` entry is not a list of strings, is not modelled; the log is always a map from keys to lists of strings.
- Paths.Name: paths are taken as the listing yields them (`dir/name`); `pathlib` normalisation (repeated or trailing '/') is not modelled.
- ProcessedLog.ListOf: the order of `list(set)` is left unspecified; the contract states only that every element appears once.

## Findings

| source | as written | input that shows it | evidently intended | confidence | as-written member | corrected member |
|---|---|---|---|---|---|---|
| src/agent.py:145 | `save_analysis` reads `result['model']` for every result, but a failure result (`src/agent.py:125-131`) has no `model` key. It raises KeyError after writing the header, so the `ERROR:` line, the JSON record and the processed mark are never written, and `run_once` stops at that image | a backend timeout on `photo.png`: `Failure("images/photo.png", "photo.png", "2024-01-01T12:00:00", "Request timed out.")` | the failure branch writes `ERROR: <error>` after a model line (`N/A` when absent, like `tokens_used`) and the JSON record is written; the path is marked and the pass goes on, so a rescan finds nothing | not executed | Report.RenderAsWritten, Report.FailureNeverReachesErrorLine, Report.TimeoutExample | Report.Render, Runner.SaveIntendedReportsFailure, Runner.IntendedPassMarks, Runner.IntendedRunOnceFindsNothing |
