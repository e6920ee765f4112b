# Navigation-narration core of YOLOV8-Tool, in Dafny

YOLOV8-Tool turns a walking video into spoken guidance for visually
impaired users. Objects are detected in the frames, and each label is mapped
to a caution sentence by a fixed lexicon. The sentences are joined into one
narration, which is spoken.

The policy exists in three variants, and this project models all three:

- the Supabase edge function `process-video`, with its `serve` handler,
  which writes the job's `processing_status`;
- the reference Python script, with its frame-sampling loop;
- the FastAPI backend, with its file name and path handling.

It also models the upload page's list of videos and that list's status
transitions.

The modules follow the source files:

| module | source | form |
|---|---|---|
| `Text` | library operations the sources use: `join`, lower-casing, `[...new Set(xs)]` | functions and lemmas |
| `Lexicon` | the two label→sentence tables | constants and lemmas |
| `Narration` | `generateNarration` (edge) and `get_narration` (reference) | spec functions; loop methods proved against them |
| `FrameAnalysis` | the reply parsing and token-scan fallback of `analyzeVideoFrame` | functions and lemmas |
| `EdgeHandler` | the `serve` handler | class for the job row; method `Serve` proved against the pure `Handle` |
| `ReferencePipeline` | the `process_video_with_audio` loop | loop method proved against the fold `Run`; lemmas about `Run` |
| `Backend` | `get_narration`, the sanitiser, paths, `process_video`, the endpoint | functions, one loop method, lemmas |
| `VideoUpload` | `validateFile`, `handleFiles`, `removeFile`, `processVideo` | functions, a partition loop, class `UploadList` over `videoFiles` |

These things are inputs rather than computations:

- the detectors;
- the speech and vision services;
- storage and the row writes;
- the iteration order of a Python set (a function from a set to a listing of it);
- the clock- and random-based ids.

Three behaviours of the code are worth stating outright:

- **Case variants.** `generateNarration` deduplicates the raw labels *before*
  lower-casing. So `["Car", "car"]` yields the car sentence twice
  (`Narration.CaseVariantsBothNarrated`); it does not collapse to one.
- **Empty input.** An empty detection list has no dedicated sentence: it
  gets the fallback with an empty list,
  `"Detected objects: . Please be careful."`
  (`Narration.EmptyInputFallback`).
- **Stored labels.** The labels stored on a completed job are the raw input
  labels. They are not lower-cased, and case variants are not removed
  (`EdgeHandler.CompletedWhateverTheUpload`).

## Model

| member | source | states |
|---|---|---|
| Text.Dedup | supabase/functions/process-video/index.ts:50 | the result has the same members as the input, has no duplicates, and is no longer |
| Text.DedupFirstOccurrenceOrder | supabase/functions/process-video/index.ts:50 | the distinct labels keep the order of their first occurrences |
| Text.DedupOfDistinct | supabase/functions/process-video/index.ts:50 | a duplicate-free list is left unchanged |
| Text.LowerIsLowerCase | supabase/functions/process-video/index.ts:53 | lower-casing keeps the length, leaves no upper-case letter, and is idempotent |
| Text.JoinSnoc | supabase/functions/process-video/index.ts:63 | joining one more part appends the separator and that part |
| Lexicon.PythonLastBindingWins | public/reference/final_implementation_2.py:29-42 | in the Python literal the later bindings of "truck" (line 39) and "stop sign" (line 42) are in force, and they differ from the edge table's sentences |
| Lexicon.PythonIsEdgeWithRebindings | public/reference/final_implementation_2.py:23-53 | the Python table is the edge table with exactly those two keys rebound |
| Lexicon.SentencesNonEmpty | supabase/functions/process-video/index.ts:18-46 | every sentence of both tables is non-empty, so a truthy lookup means the key is present |
| Narration.Sentences | supabase/functions/process-video/index.ts:52-57 | there are no more sentences than labels, and each found sentence is a sentence of the table |
| Narration.SentencesAppend | supabase/functions/process-video/index.ts:52-57 | the sentence list distributes over concatenation of the labels: sentences come in label order |
| Narration.ComposeNonEmpty | supabase/functions/process-video/index.ts:59-63 | the narration is never empty, for any labels, when the table has no empty sentence |
| Narration.ComposeUsesLexiconSentences | supabase/functions/process-video/index.ts:52-63 | when no label is known under its lower-cased form the narration is exactly the fallback listing the labels; when one is, it is the labels' own sentences, in label order, joined by single spaces |
| Narration.SentencesEmptyIffUnknown | supabase/functions/process-video/index.ts:52-57 | no sentence is found exactly when no label is a key under its lower-cased form |
| Narration.EmptyInputFallback | supabase/functions/process-video/index.ts:59-60 | an empty input gives exactly "Detected objects: . Please be careful." |
| Narration.ExactRepeatCollapses | supabase/functions/process-video/index.ts:50 | repeating a label already present does not change the edge narration |
| Narration.CaseVariantsBothNarrated | supabase/functions/process-video/index.ts:50-53 | two distinct spellings of one known label both contribute its sentence |
| Narration.RepeatedLabelRepeatsSentence | public/reference/final_implementation_2.py:55-63 | without deduplication, a repeated known label gives its sentence twice |
| Narration.ComposeOne | public/reference/final_implementation_2.py:55-63 | one known label gives its sentence; one unknown label gives "Detected objects: <label>. Please be careful." |
| Narration.GenerateNarration | supabase/functions/process-video/index.ts:48-64 | the loop's result equals the spec `EdgeNarration` (deduplicate, then compose with the edge table) and is non-empty |
| Narration.GetNarration | public/reference/final_implementation_2.py:55-63 | the loop's result equals `Compose` with the Python table over the labels as given, and is non-empty |
| Narration.PrototypeNameLeaks | supabase/functions/process-video/index.ts:53-55 | as written, the input ["constructor"] narrates "function Object() { [native code] }"; with the table's own keys it falls back |
| FrameAnalysis.Split | supabase/functions/process-video/index.ts:119 | splitting on separator runs gives at least one piece, and no piece contains a separator |
| FrameAnalysis.SplitJoin | supabase/functions/process-video/index.ts:119 | separator-free words joined by any separator run split back into the same words |
| FrameAnalysis.KeepKeys | supabase/functions/process-video/index.ts:120 | a word is kept iff it is a word of the input and a key of the table, with no more words than the input |
| FrameAnalysis.KeepKeysAppend | supabase/functions/process-video/index.ts:120 | the filter distributes over concatenation: kept words stay in order and repeats are kept |
| FrameAnalysis.KeepKeysOne | supabase/functions/process-video/index.ts:120 | a single word is kept exactly when it is a key of the table |
| FrameAnalysis.TokenScanOnlyKeys | supabase/functions/process-video/index.ts:119-120 | membership in the scan is exactly "token of the lower-cased text and key"; every result is a key without a space |
| FrameAnalysis.MultiWordKeysNeverScanned | supabase/functions/process-video/index.ts:119-120 | "traffic light" and "stop sign" are never produced by the scan |
| FrameAnalysis.ReplyText | supabase/functions/process-video/index.ts:111 | a missing or empty content reads as the non-empty text "[]" |
| FrameAnalysis.AnalyzeFrame | supabase/functions/process-video/index.ts:105-125 | a rejected or failed call, or a JSON value that is not an array, gives []; a JSON array is returned item for item, neither lower-cased nor checked against the table; non-JSON text gives the token scan of the text, hence only space-free table keys |
| FrameAnalysis.MissingContentReadsAsEmptyArray | supabase/functions/process-video/index.ts:111 | missing content and empty content are handled exactly like "[]" |
| FrameAnalysis.ScanFindsCommaSeparatedLabels | supabase/functions/process-video/index.ts:116-120 | the non-JSON reply "Dog, bicycle" yields ["dog", "bicycle"] |
| FrameAnalysis.PrototypeNameScanned | supabase/functions/process-video/index.ts:120 | as written, the reply "constructor" yields ["constructor"]; against the table's keys it yields [] |
| EdgeHandler.ProcessingRecord.Update | supabase/functions/process-video/index.ts:179-182 | one row update sets exactly the columns it names |
| EdgeHandler.Serve | supabase/functions/process-video/index.ts:158-276 | the reply equals `Handle`'s reply, and the row ends as the old row with `Handle`'s updates applied in order |
| EdgeHandler.MissingIdsWriteNothing | supabase/functions/process-video/index.ts:164-174 | a request without both ids gets 400 before any write |
| EdgeHandler.ProcessingWrittenFirst | supabase/functions/process-video/index.ts:179-249 | at most two writes; the first is always "processing", and no later write is "processing" |
| EdgeHandler.DownloadFailureMarksFailed | supabase/functions/process-video/index.ts:185-203 | a failed download replies 500 "Failed to download video" and leaves the row failed with that error |
| EdgeHandler.SpeechFailureLeavesProcessing | supabase/functions/process-video/index.ts:266-274 | a speech failure (line 146 throws, line 216 awaits) replies 500 and leaves the row exactly as "processing" |
| EdgeHandler.CompletedWhateverTheUpload | supabase/functions/process-video/index.ts:220-249 | after speech succeeds, the row is completed with the public audio URL, the narration and the raw input labels; the upload outcome changes nothing |
| EdgeHandler.FailedRecordUpdateHidden | supabase/functions/process-video/index.ts:237-264 | when the final update fails, the reply is still a 200 success while the row stays "processing" |
| EdgeHandler.CompletedHasNarrationAndAudio | supabase/functions/process-video/index.ts:237-249 | a row this invocation leaves completed has an audio URL and a non-empty narration |
| EdgeHandler.TerminalJobsReopen | supabase/functions/process-video/index.ts:179-182 | a failed job invoked again goes back to "processing", and a successful retry keeps the old error text |
| ReferencePipeline.ProcessVideoWithAudio | public/reference/final_implementation_2.py:89-133 | a zero `frame_skip` fails (line 97 divides by it); otherwise the loop's variables equal the fold `Run` over the frames |
| ReferencePipeline.UnsampledFrameIgnored | public/reference/final_implementation_2.py:109-133 | a frame whose index is not a multiple of `frame_skip` changes nothing |
| ReferencePipeline.UnlabelledFrameOnlyWritten | public/reference/final_implementation_2.py:123-132 | a sampled frame with no labels is written, and audio, `last_narration` and `processed_frames` stay the same |
| ReferencePipeline.ListingEmpty | public/reference/final_implementation_2.py:117 | the listed label union is empty iff both detectors returned nothing |
| ReferencePipeline.WrittenFrames | public/reference/final_implementation_2.py:109-132 | only frames read are written; each sampled frame is written `frame_skip` times (0 if negative), and other frames never |
| ReferencePipeline.WrittenLength | public/reference/final_implementation_2.py:109-132 | written frames = copies × number of sampled frames |
| ReferencePipeline.SampledCountIsCeiling | public/reference/final_implementation_2.py:109 | the number of sampled frames c satisfies N ≤ frame_skip·c < N + frame_skip, i.e. c = ceil(N / frame_skip) |
| ReferencePipeline.AudioAlternatesWithoutRepeats | public/reference/final_implementation_2.py:124-128 | the audio alternates narration and a 500 ms pause; no narration equals the one before it; `last_narration` is the last one spoken, or "" |
| ReferencePipeline.SpokenAreNarrationsWithoutRepeats | public/reference/final_implementation_2.py:109-128 | the spoken narrations are the narrations of the labelled sampled frames, in frame order, with each one equal to its predecessor dropped; `last_narration` is the last narration produced, or "" |
| ReferencePipeline.ProcessedCountsLabelledFrames | public/reference/final_implementation_2.py:123-129 | `processed_frames` is the number of sampled frames whose label union is non-empty |
| Backend.GetNarration | backend/main.py:56-59 | the result is None exactly when the label list is empty |
| Backend.NarrationListsLabels | backend/main.py:59 | one label gives "Detected: <label>"; each further label appends ", <label>" |
| Backend.Sanitize | backend/main.py:138 | the sanitised name has the length of the original; `SanitizeProperties` fixes every character |
| Backend.SanitizeProperties | backend/main.py:138 | each allowed character (word characters, '.', '-') stays in place and every other character becomes '_'; so the output uses only allowed characters (never '/'), and sanitising is idempotent |
| Backend.SanitizeKeepsSafeNames | backend/main.py:138 | a name of allowed characters only is unchanged |
| Backend.PathJoin | backend/main.py:139-140 | an absolute second part wins; otherwise a directory without a trailing '/' is joined with one '/' |
| Backend.Basename | backend/main.py:152 | the basename is the longest '/'-free suffix of the path: everything after the last '/', or the whole path when it has none |
| Backend.BasenameAfterSlash | backend/main.py:152 | the basename of dir + "/" + name is name when name has no '/' |
| Backend.InputPathShape | backend/main.py:139 | the input path is "uploads/" + id + "_" + the sanitised name |
| Backend.OutputPathShape | backend/main.py:140 | the output path is "processed/processed_" + the sanitised name |
| Backend.OutputPathsCollide | backend/main.py:138-140 | two uploads share an output path iff their names sanitise alike, while distinct same-length ids keep their inputs apart |
| Backend.AudioPathPointwise | backend/main.py:122 | the audio path has the output path's length and differs only in the '4' of every ".mp4", which becomes '3' |
| Backend.AudioOverwritesVideoUnlessMp4 | backend/main.py:122-129 | the audio path equals the video's output path iff that path contains no ".mp4" |
| Backend.ProcessVideo | backend/main.py:82-117 | every frame is written exactly once, in order, and the spoken narrations are `SpokenNarrations` of the frames |
| Backend.OneNarrationPerLabelledFrame | backend/main.py:105-115 | one narration is spoken per frame with a non-empty label union |
| Backend.RepeatedFrameRepeatsNarration | backend/main.py:113-115 | two consecutive identical labelled frames speak the same narration twice |
| Backend.UploadVideo | backend/main.py:136-153 | a processing error gives 500 with its message; success gives "http://localhost:5000/processed/processed_" + the sanitised name |
| VideoUpload.ValidateFile | src/pages/VideoUpload.tsx:42-50 | the format error iff the type is not one of the five; the size error iff the type is accepted and the size exceeds 1 GiB; otherwise none |
| VideoUpload.ValidationBoundaries | src/pages/VideoUpload.tsx:39-49 | exactly 1 GiB is accepted, one byte more is not, and "video/webm" is refused |
| VideoUpload.CreateVideoFile | src/pages/VideoUpload.tsx:52-60 | a new entry is pending, has no result, and carries the file and the given id |
| VideoUpload.PartitionIsExact | src/pages/VideoUpload.tsx:65-75 | accepted entries + error messages = number of picked files; accepted entries are pending and valid; each message names an invalid file and its error |
| VideoUpload.PartitionPlacesEveryFile | src/pages/VideoUpload.tsx:68-75 | each valid file becomes a pending entry in the accepted list, each invalid file a message with its name and error |
| VideoUpload.PartitionAppend | src/pages/VideoUpload.tsx:68-75 | both lists distribute over concatenation of the picked files, so each keeps the pick's order |
| VideoUpload.PartitionFiles | src/pages/VideoUpload.tsx:65-75 | the loop's two lists equal `Accepted` and `Rejections` (the valid files and the invalid ones, in pick order) |
| VideoUpload.WithoutId | src/pages/VideoUpload.tsx:123 | an entry survives removal iff it was present and has another id |
| VideoUpload.WithoutIdKeepsOrder | src/pages/VideoUpload.tsx:117-124 | removal distributes over concatenation and leaves lists without that id unchanged, so relative order is kept |
| VideoUpload.WithProcessedUrl | src/pages/VideoUpload.tsx:157 | the processed URL is set and earlier result fields are kept (absent when there was no result) |
| VideoUpload.PressChangesOnlyTarget | src/pages/VideoUpload.tsx:127-176 | with distinct ids, a press changes only the pressed entry: on failure it becomes that entry with status error, on success that entry with status completed and the URL merged into its result (id, file and preview kept); signed out or without the button, nothing |
| VideoUpload.CompletedIsTerminal | src/pages/VideoUpload.tsx:419-438 | no press changes a completed entry |
| VideoUpload.UploadList.HandleFiles | src/pages/VideoUpload.tsx:62-92 | no file list leaves the list unchanged; otherwise the accepted entries are appended and the rejection messages returned |
| VideoUpload.UploadList.AddRecorded | src/pages/VideoUpload.tsx:281-288 | a recorded clip is appended as a new pending entry without validation |
| VideoUpload.UploadList.RemoveFile | src/pages/VideoUpload.tsx:117-125 | the list becomes `WithoutId` of the old list |
| VideoUpload.UploadList.BeginProcessing | src/pages/VideoUpload.tsx:128-139 | signed out, nothing changes; otherwise the entries with the id become "processing" |
| VideoUpload.UploadList.FinishProcessing | src/pages/VideoUpload.tsx:150-169 | a failure marks the entries with the id "error"; success marks them completed with the URL |
| VideoUpload.UploadList.PressProcess | src/pages/VideoUpload.tsx:419-438 | the list becomes `AfterPress` of the old list: processed only from pending or error |

## Findings

| source | as written | input that shows it | evidently intended | confidence | as-written member | corrected member |
|---|---|---|---|---|---|---|
| supabase/functions/process-video/index.ts:53 | `objectNarrations[obj.toLowerCase()]` on a plain object also finds Object.prototype's members | detected label "constructor" narrates "function Object() { [native code] }"; "__proto__" narrates "[object Object]" | only the table's own keys have sentences; unknown labels fall back | not executed | Narration.PrototypeNameLeaks | Narration.ComposeUsesLexiconSentences |
| supabase/functions/process-video/index.ts:120 | the token filter `objectNarrations[word]` is truthy for inherited names | the non-JSON reply "constructor" yields the label "constructor" | only lexicon keys survive the scan | not executed | FrameAnalysis.PrototypeNameScanned | FrameAnalysis.TokenScanOnlyKeys |

## Left out

- HTTP, storage and database I/O. Their outcomes are inputs: the vision reply, the download, speech, upload and final row update, the backend's processing error, and the browser's request outcome. The first two row writes of `serve` are assumed to succeed.
- Detectors, speech synthesis, OpenCV drawing, moviepy muxing, pydub audio and the waveform scaling. These are floating-point or native code. A frame is its pair of label lists; an audio track is a sequence of spoken texts and pauses.
- `btoa`/`atob` and the byte conversions of the audio in `serve`.
- `JSON.parse`. It is an input `parse` giving "not JSON", "array of strings" or "other". Arrays holding non-strings are not modelled.
- The hard-coded sample labels of `serve` (index.ts:210). `Serve` narrates an arbitrary label list given as a parameter.
- The clock, random numbers, `uuid4` and `URL.createObjectURL`/`revokeObjectURL`. Ids and previews are inputs.
- The iteration order of a Python `set`. It is an input function from the set to a listing of it.
- Asynchrony: `PressProcess` runs both halves of `processVideo` with no other update between them. `BeginProcessing` and `FinishProcessing` model the halves separately.
- React rendering, toasts and drag and drop.
- `Text.Lower`: models ASCII case mapping only. Non-ASCII characters are left unchanged, so a label that reaches a lexicon key only through non-ASCII case mapping is not found: "TRUC\u212A" (KELVIN SIGN, which JavaScript `toLowerCase` and Python `lower()` map to 'k') gets the truck sentence in the source but the fallback in the model.
- `Backend.Sanitize`: treats `\w` as ASCII letters, digits and underscore. Python's `re` also counts non-ASCII letters and digits as word characters.
- `Backend.UploadVideo`: does not model an upload without a file name, or the write of the input file.
- `EdgeHandler.Serve`: does not model ids that are present but are not strings.
- `ReferencePipeline.ProcessVideoWithAudio`: does not model the video writer's frame rate `fps/frame_skip` beyond its division by zero.
- The rest of the repository: the camera recorder component, the other pages and routing, and the authentication wrappers.
