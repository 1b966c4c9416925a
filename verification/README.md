# magetool front end: a Dafny model of its client-side logic

magetool is a web front end. It uploads images, documents and videos to a remote
conversion API, follows the progress the server reports, and saves the converted
files under sensible names. This project models the client-side logic that decides
what the user sees and what gets sent or saved:

- **`src/lib/api.ts`**:
  - how multipart forms are built;
  - the upload percentage;
  - the MIME-type table;
  - how a download gets its file name (`ensureExtension`, the Content-Disposition
    header, and the MIME fallback);
  - how server-sent progress events are dispatched to the `onProgress`,
    `onComplete` and `onError` callbacks.
- **`src/lib/store.ts`**: the file-list store and its actions, capped at 40 items.
- **`src/lib/useTaskProgress.ts`**: the task-progress hook. This covers the
  WebSocket updater, the polling updater, `startTask`, `reset` and `isLoading`.
- **`src/app/files/converter/page.tsx`**: the document converter page.
  - the conversion table and the accepted upload types;
  - normalising the server's three response shapes into one result list;
  - moving through the progress stages.
- **`src/app/images/converter/page.tsx`**: the image converter page. This covers
  per-file status and result bookkeeping in the store, and renaming a download to
  the target format.
- **`src/app/videos/youtube`, `shorts` and `reels` pages**: the three video
  downloader pages.
  - URL validation;
  - the safe save name;
  - the duration label;
  - the progress percentage;
  - the page state the stream callbacks leave behind.

Each source file is one module:

| source | module | file |
|---|---|---|
| `src/lib/api.ts` | `Api` | `api.dfy` |
| `src/lib/store.ts` | `Store` | `store.dfy` |
| `src/lib/useTaskProgress.ts` | `TaskProgress` | `task_progress.dfy` |
| `src/app/files/converter/page.tsx` | `FileConverter` | `file_converter.dfy` |
| `src/app/images/converter/page.tsx` | `ImageConverter` | `image_converter.dfy` |
| the three video pages | `VideoDownload` | `video_download.dfy` |

The video pages are near-copies of each other, so `VideoDownload` covers all three
and takes a `Site` parameter. `Text` (`text.dfy`) holds the JavaScript string
built-ins the code relies on:
- `lastIndexOf`, `includes`, `trim`, `padStart` and `toLowerCase`;
- number-to-string conversion;
- `replace` with a string pattern.

`Common` holds `Option`, `Result` and JavaScript truthiness for optional strings.
`ProgressTracker` holds the stages of the progress widget.

The source's form is kept:
- Stateful parts are classes whose methods update fields, and each method's
  `ensures` ties the new state to a function of the old state. These are:
  - the zustand store (`Store.FileStore`);
  - the hook's state together with its open sockets, poll interval and pending
    `setTimeout` (`TaskProgress.TaskTracker`);
  - an `EventSource` (`Api.ProgressStream`);
  - the React state of each page (`FileConverter.ConverterPage`,
    `ImageConverter.ConverterPage`, `VideoDownload.DownloaderPage`).
- Loops become methods with loop invariants: the `forEach` loops of
  `createFormData`, of the response normalisation and of the image page's status
  and result updates.
- The pure helpers are functions, and the properties are lemmas about those
  functions.

JavaScript behaviour is written out explicitly:
- Truthiness: `""`, `0`, `null` and `undefined` are falsy. `||` falls back on any
  falsy value, while `??` falls back only on a missing one.
- `lastIndexOf` returns -1 when the character is absent.
- `Math.round` rounds halves up.
- `slice` with a negative end counts from the back.
- `String.prototype.replace` with a string pattern replaces only the first match.
- `trim` uses the ECMAScript white-space and line-terminator set.
- The regular expressions `/\.[^/.]+$/`, `/filename[^;=\n]*=((['"]).*?\2|[^;\n]*)/`
  and `/[^a-zA-Z0-9 ]/g` are each modelled by a function whose contract states the
  match it finds. For the Content-Disposition pattern this is the leftmost match,
  with the quoted alternative taking the shortest run up to the same quote.

This repository holds only the browser client. The broader description of the
system also covers a server-side job engine (job registry, executor, progress
channel with replay). That engine is not in this repository, so it is not part of
this model. Where that description and the client code disagree, the model
follows the code:
- The description says a job with more than 40 inputs fails with `TooManyFiles`.
  The client never reports this: `addFiles` silently keeps only the first 40 files.
  A list longer than 40 that was installed through `setFiles` even keeps growing
  (`Store.OverfullListStillGrows`).
- The description says polling keeps going until the terminal state is observed.
  The client's polling stops on `ready` or `FAILURE`. A transport error, or a
  status of `error` over the socket, never produces the `error` status
  (`TaskProgress.SocketNeverReportsError`).
- `reset` clears the running interval but not the pending 3-second `setTimeout`.
  A reset task can therefore resume polling (`TaskProgress.ResetDoesNotCancelScheduledPoll`).
- `reset` closes the current socket even while it is still connecting. A browser
  fails such a socket and fires its `error` event, whose handler starts polling the
  reset task (`TaskProgress.ResetWhileConnectingResumesPolling`).
- The interval does not wait for a fetch to answer, and a stopped or reset poll
  does not ignore late answers. An older `PENDING` answer arriving after the final
  one leaves the task loading with no poll running
  (`TaskProgress.LateResponseAfterStop`). An answer arriving after `reset` takes the
  state out of `idle` (`TaskProgress.LateResponseAfterReset`).

## Model

`Api.DivBounds`, `Api.MulMonotone` and `Api.DivExact` have no rows. They are arithmetic
helpers for the proofs of `Api.UploadPercent` and `Api.UploadPercentMonotone`, and model
nothing of their own.

| member | source | states |
|---|---|---|
| Api.CreateFormData | src/lib/api.ts:45-56 | the form holds one `files` field per file, in order, followed by one text field per additional entry, and nothing else |
| Api.FilesUnderAppend | src/lib/api.ts:45-56 | reading the files under a key distributes over concatenating forms |
| Api.UploadedFilesRoundTrip | src/lib/api.ts:45-56 | the files read back under `files` from a built form are exactly the files supplied, whatever additional data is sent |
| Api.FileFieldsRead | src/lib/api.ts:47-49 | the file fields alone read back as the supplied files |
| Api.TextFieldsHoldNoFiles | src/lib/api.ts:50-54 | additional text fields contribute no file under `files` |
| Api.UploadPercent | src/lib/api.ts:66-71 | no report without a truthy total; otherwise the percentage rounded half up, within 0..100 when loaded does not exceed total, and 100 when the upload is complete |
| Api.UploadPercentMonotone | src/lib/api.ts:66-71 | the reported percentage never decreases as more bytes are loaded |
| Api.MimeTableExtensionsWellFormed | src/lib/api.ts:77-96 | every extension in the MIME table starts with a dot and has one more character, so the fallback always adds a dot |
| Api.BorrowedExtension | src/lib/api.ts:107-112 | the extension taken from the source file name: empty exactly when there is no dot after the first character, otherwise a proper dotted suffix of that name with no further dot |
| Api.HasExtensionIffLastDot | src/lib/api.ts:101-105 | a download name counts as having an extension exactly when its last dot is not at position 0 and comes after every slash and backslash |
| Api.EnsureExtension | src/lib/api.ts:99-113 | a name that has an extension is kept; otherwise the source's extension is appended; the given name is always a prefix of the result |
| Api.EnsureExtensionIdempotent | src/lib/api.ts:99-113 | for a non-empty name and a separator-free extension, applying the step twice gives the same result as once |
| Api.EnsureExtensionOnEmptyNameRepeats | src/lib/api.ts:101-110 | a leading dot does not count as an extension: an empty name becomes the source's extension, and that extension alone gets it appended a second time (`.mp4` becomes `.mp4.mp4`) |
| Api.FirstIndexFrom | src/lib/api.ts:137 | the first position at or after p where a character class stops, or the end |
| Api.NameParamAt | src/lib/api.ts:137 | `filename[^;=\n]*=` tried at p: when it matches, the result is the one end of the match (the word `filename` at p, a run without `;`, `=` or newline, then `=`); when no such match exists, nothing |
| Api.FindNameParam | src/lib/api.ts:137 | the leftmost match at or after the search start: it matches there and at no earlier position; nothing exactly when no position matches |
| Api.CapturedValue | src/lib/api.ts:137 | a prefix of the text after `=`: from a quote to the first same quote on that line when there is one; otherwise the run up to the next `;` or newline, or the end |
| Api.StripQuotes | src/lib/api.ts:139 | no quote is left; a single character is dropped exactly when it is a quote; quote-free text is unchanged |
| Api.StripQuotesKeepsOthers | src/lib/api.ts:139 | every character other than a quote is kept, as often as it occurs |
| Api.StripQuotesAppend | src/lib/api.ts:139 | quote removal works character by character, so it distributes over concatenation |
| Api.HeaderFilename | src/lib/api.ts:133-141 | a header name comes only from a header containing `filename=`, holds no quote, and is then present exactly when the leftmost match captures something, being that capture without its quotes |
| Api.IncludesFilenameMatches | src/lib/api.ts:136-138 | whenever the header contains `filename=`, the regular expression matches |
| Api.FindNameParamReaches | src/lib/api.ts:137 | the search finds a match whenever one exists at or after its start |
| Api.ResolveDownloadName | src/lib/api.ts:133-157 | the saved name extends the header name or the given name, via `ensureExtension`; a known content type guarantees a dot in the result |
| Api.StartName | src/lib/api.ts:133-140 | a usable header name wins; otherwise the caller's download name when it is non-empty, else the stored file name |
| Api.ContentTypeOf | src/lib/api.ts:152 | the header's content type when it is truthy, otherwise the blob's type |
| Api.FinalNameSteps | src/lib/api.ts:143-157 | after the start name, the result extends it, is the start name when that already has an extension, and holds a dot whenever the content type is in the table |
| Api.DownloadFile | src/lib/api.ts:116-169 | a network failure is rethrown; 404 gives the expired-file message and any other non-2xx status gives `Download failed: <status>`; it succeeds exactly on 2xx, with a name that extends the chosen start name |
| Api.Dispatch | src/lib/api.ts:261-277 | each event triggers at most one callback, and the stream closes exactly when that callback is `onComplete` or `onError`; `complete` goes to `onComplete`, `error` to `onError`, any other status to `onProgress`, unparsable data to none, and a connection error to `onError('Connection lost')` |
| Api.ProgressStream.constructor | src/lib/api.ts:259 | a fresh stream is open and has triggered nothing |
| Api.ProgressStream.Deliver | src/lib/api.ts:261-277 | the dispatched callbacks are appended to the record, and the stream stays open exactly when the event does not close it |
| Api.ProgressStream.Close | src/lib/api.ts:265 | closing stops the stream and triggers no callback |
| Store.NewItem | src/lib/store.ts:34-42 | a new item copies the file's name, size and type, has the given id, is pending at progress 0, and has no result |
| Store.NewItems | src/lib/store.ts:34-42 | one new item per file, in order |
| Store.SliceTo | src/lib/store.ts:48 | JavaScript `slice(0, end)`: a non-negative end is clamped to the length, and a negative end counts from the back |
| Store.WithAdded | src/lib/store.ts:33-52 | the old list is kept as a prefix and the appended items are a prefix of the new items, in order; at most min(n, 40) of the n new files are ever added; a list within the cap ends with exactly min(40, old + new) items, and an overfull list grows only by what its first 40 new files leave after the excess |
| Store.AddKeepsCap | src/lib/store.ts:44-51 | adding files never takes a list of at most 40 items above 40 |
| Store.OverfullListStillGrows | src/lib/store.ts:46-48 | a 41-item list grows to 43 items when 3 files are added, because `slice` is given a negative end |
| Store.WithStatus | src/lib/store.ts:64-70 | items with the id get the new status, and the given progress or else their old one; every other item is unchanged |
| Store.WithResultOn | src/lib/store.ts:75 | the result is attached, the status is `error` exactly when the result has a truthy error, otherwise `completed`, and the size and MIME type are kept |
| Store.WithResult | src/lib/store.ts:72-78 | items with the id get the result and the derived status; every other item is unchanged |
| Store.Without | src/lib/store.ts:54-58 | no item with the id remains, and every other item keeps its multiplicity |
| Store.WithoutAppend | src/lib/store.ts:56 | removal distributes over concatenation, so the kept items stay in order |
| Store.WithoutAbsentId | src/lib/store.ts:56 | removing an id no item has changes nothing |
| Store.WithoutIdempotent | src/lib/store.ts:54-58 | removing the same id twice is the same as removing it once |
| Store.Ids | src/lib/store.ts:3-4 | the ids of the list, in order |
| Store.UpdatesKeepIds | src/lib/store.ts:64-78 | status and result updates never change which items are in the list, nor their order |
| Store.Uploads | src/app/files/converter/page.tsx:59 | the browser files behind the items, in order |
| Store.FileStore.constructor | src/lib/store.ts:31 | the store starts empty |
| Store.FileStore.AddFiles | src/lib/store.ts:33-52 | the new list is the capped append of the old one; the old list stays a prefix; the cap is kept |
| Store.FileStore.RemoveFile | src/lib/store.ts:54-58 | the new list is the old one without the id |
| Store.FileStore.ClearFiles | src/lib/store.ts:60-62 | the list becomes empty |
| Store.FileStore.UpdateFileStatus | src/lib/store.ts:64-70 | the new list is the status update of the old one |
| Store.FileStore.UpdateFileResult | src/lib/store.ts:72-78 | the new list is the result update of the old one |
| Store.FileStore.SetFiles | src/lib/store.ts:80-82 | the list is replaced, with no cap applied |
| TaskProgress.ProgressOr | src/lib/useTaskProgress.ts:57 | `progress \|\| prev`: a missing or zero progress keeps the previous value |
| TaskProgress.AfterSocketData | src/lib/useTaskProgress.ts:55-61 | a socket message gives `success` exactly on `complete` and `processing` otherwise, so the task is loading exactly when the message is not `complete`; it keeps the task id; progress and result are the new ones when truthy and the old ones otherwise; the message is the new one, or empty when absent |
| TaskProgress.SocketCloses | src/lib/useTaskProgress.ts:64-66 | the socket closes exactly when the status is `complete` or the progress is 100 |
| TaskProgress.SocketNeverReportsError | src/lib/useTaskProgress.ts:55-66 | a socket message never yields `error`; closing on a bare progress of 100 leaves the task loading; every closing message leaves `success` or progress 100 |
| TaskProgress.AfterPollData | src/lib/useTaskProgress.ts:95-101 | a poll gives `success` exactly when ready, `error` exactly on `FAILURE` when not ready, and `processing` otherwise; it keeps the task id; progress and result are the new ones when truthy and the old ones otherwise; the message is the new one, or empty when absent |
| TaskProgress.PollStatus | src/lib/useTaskProgress.ts:98 | `success` exactly when ready, `error` exactly on `FAILURE` when not ready, `processing` exactly otherwise |
| TaskProgress.PollStopsIffFinal | src/lib/useTaskProgress.ts:95-108 | a poll answer stops the interval exactly when it leaves a final status, that is exactly when it leaves the task no longer loading |
| TaskProgress.AfterCall | src/lib/useTaskProgress.ts:127-166 | a truthy `task_id` gives processing with that id and returns nothing; any other response gives success at 100 with the response as result and also returns it; a throw gives error with the error's message, or `Failed` |
| TaskProgress.UpdatesKeepWellFormed | src/lib/useTaskProgress.ts:55-166 | no updater produces an idle or pending state other than the initial and starting ones |
| TaskProgress.TaskTracker.constructor | src/lib/useTaskProgress.ts:20-29 | the hook starts idle, with no socket, no interval and no pending timer |
| TaskProgress.TaskTracker.IsLoadingNow | src/lib/useTaskProgress.ts:190 | loading exactly while pending or processing |
| TaskProgress.TaskTracker.BeginTask | src/lib/useTaskProgress.ts:119-125 | the task starts pending with `Starting...`, and the sockets and timers are left alone |
| TaskProgress.TaskTracker.SettleTask | src/lib/useTaskProgress.ts:127-166 | the state and the returned value follow the call's outcome; a background task opens its socket, which starts out connecting, and schedules a poll |
| TaskProgress.TaskTracker.OnSocketOpen | src/lib/useTaskProgress.ts:48-50 | a connecting socket becomes open, and nothing else changes |
| TaskProgress.TaskTracker.OnSocketMessage | src/lib/useTaskProgress.ts:52-70 | messages come only from an open socket; unparsable data changes nothing; data updates the state and closes the socket on `complete` or progress 100 |
| TaskProgress.TaskTracker.OnSocketError | src/lib/useTaskProgress.ts:72-75 | an error from a connecting or open socket, or from one that `reset` closed while it was connecting, leaves the state alone, starts polling that task and retires the socket |
| TaskProgress.TaskTracker.OnPollTimer | src/lib/useTaskProgress.ts:144 | the pending timer fires and starts polling its task, replacing any running interval |
| TaskProgress.TaskTracker.OnPollTick | src/lib/useTaskProgress.ts:90-92 | each tick of the running interval sends one more fetch for its task, leaving the state alone |
| TaskProgress.TaskTracker.OnPollResponse | src/lib/useTaskProgress.ts:91-111 | a fetch answers and leaves the in-flight set; a failed fetch changes nothing else; otherwise the state is updated whatever happened since the fetch was sent, a final answer clears the current interval, and while an interval was running it stops exactly when the new state is no longer loading |
| TaskProgress.TaskTracker.Reset | src/lib/useTaskProgress.ts:170-184 | the state returns to idle, the interval is cleared and the current socket is closed; a socket closed while still connecting still owes its `error` event; pending timers survive |
| TaskProgress.ResetDoesNotCancelScheduledPoll | src/lib/useTaskProgress.ts:144-184 | after a reset, the timer already scheduled still restarts polling the old task |
| TaskProgress.ResetWhileConnectingResumesPolling | src/lib/useTaskProgress.ts:72-75 | a reset while the current socket is still connecting lets that socket's `error` event restart polling the old task, and its first answer leaves the state processing instead of idle |
| TaskProgress.LateResponseAfterStop | src/lib/useTaskProgress.ts:90-112 | when two fetches overlap and the later one answers `ready` first, the older `PENDING` answer leaves the task processing with no poll running |
| TaskProgress.LateResponseAfterReset | src/lib/useTaskProgress.ts:90-112 | a fetch still in flight at `reset` answers afterwards and leaves the state processing instead of idle |
| FileConverter.FindConversion | src/app/files/converter/page.tsx:43 | the first table entry with the value, and nothing exactly when no entry has it |
| FileConverter.FirstWithValue | src/app/files/converter/page.tsx:43 | `find` over a list: the first element with the value (no earlier element has it), and nothing exactly when there is none |
| FileConverter.ConversionValuesDistinct | src/app/files/converter/page.tsx:16-36 | the seven conversion values are distinct, and the initial value `pdf-to-png` is one of them |
| FileConverter.AcceptTypes | src/app/files/converter/page.tsx:133-148 | a known source type accepts exactly one MIME type, and any other type accepts nothing |
| FileConverter.EveryConversionAcceptsUploads | src/app/files/converter/page.tsx:16-27 | every conversion's source type is handled by the accept table, so the dropzone always accepts something |
| FileConverter.AcceptTypesAgreeWithDownloadTable | src/app/files/converter/page.tsx:133-148 | each accepted MIME type accepts the `.` + source type extension, and the download MIME table maps it to an accepted extension |
| FileConverter.OrElse | src/app/files/converter/page.tsx:92 | `a \|\| b` for strings: a truthy `a`, otherwise `b` |
| FileConverter.PageEntry | src/app/files/converter/page.tsx:83-86 | a page result keeps the page's file name and is labelled by its original (default `PDF`) and its page number, or else by its 1-based position in the results |
| FileConverter.PageEntries | src/app/files/converter/page.tsx:82-87 | one entry per page, in order, each numbered from the results already collected |
| FileConverter.PageEntriesSnoc | src/app/files/converter/page.tsx:82-87 | adding one more page adds exactly its entry at the end |
| FileConverter.ItemEntries | src/app/files/converter/page.tsx:80-97 | an item with a page array gives its pages; otherwise a truthy file name gives one entry; otherwise (an error) nothing |
| FileConverter.Normalized | src/app/files/converter/page.tsx:75-106 | the `files` array is preferred, then a truthy single `file`, otherwise the result is empty |
| FileConverter.NormalizeResults | src/app/files/converter/page.tsx:75-106 | the pushing loops compute exactly the normalised result list |
| FileConverter.PushItem | src/app/files/converter/page.tsx:80-97 | one item's entries are appended to the results so far |
| FileConverter.NormalizedCount | src/app/files/converter/page.tsx:77-98 | the number of results is the sum of each item's page count, or one for a named item |
| FileConverter.NormalizedPrefix | src/app/files/converter/page.tsx:78 | a later item never changes the entries of earlier ones |
| FileConverter.NormalizedAppend | src/app/files/converter/page.tsx:78-98 | processing one more item appends its entries, numbered from the current count |
| FileConverter.ErrorItemsAddNothing | src/app/files/converter/page.tsx:94-96 | an item with only an error adds no result |
| FileConverter.NormalizedFilesReported | src/app/files/converter/page.tsx:77-98 | every result file name was reported by some item, as a page file or as its own file name |
| FileConverter.PagesNumberedByPosition | src/app/files/converter/page.tsx:85 | pages without a truthy page number are labelled by position: page 0 is shown as `Page 2` |
| FileConverter.PageLabelledByPosition | src/app/files/converter/page.tsx:85 | the one-page step that `FileConverter.PagesNumberedByPosition` uses: a page of `doc.pdf` with no truthy page number is labelled `doc.pdf - Page ` + its position + 1 |
| FileConverter.ConvertOutcome | src/app/files/converter/page.tsx:73-127 | completed exactly when the server reports success with a non-empty normalised list, which is then shown with `<n> file(s) ready for download`; otherwise failed: with the thrown message, `Conversion failed` when the server reports failure, or `No files were converted` when success brings no file |
| FileConverter.ConverterPage.Selected | src/app/files/converter/page.tsx:43 | the selected conversion is always one in the table |
| FileConverter.ConverterPage.constructor | src/app/files/converter/page.tsx:35-41 | the page starts on `pdf-to-png`, idle, with no results |
| FileConverter.ConverterPage.ChooseConversion | src/app/files/converter/page.tsx:175 | choosing a conversion clears the store and the results and returns to idle |
| FileConverter.ConverterPage.BeginConvert | src/app/files/converter/page.tsx:45-60 | an empty store sends nothing and changes nothing; otherwise it starts uploading at 0, sends the store's files with the target format, and captures the selected conversion's label |
| FileConverter.ConverterPage.OnUploadProgress | src/app/files/converter/page.tsx:61-67 | a report below 100 sets the percentage; at 100 or more the page moves to processing at 0 and names the conversion captured when the upload began |
| FileConverter.ConverterPage.FinishConvert | src/app/files/converter/page.tsx:73-130 | the stage, the message and the shown results follow the outcome, and processing ends |
| FileConverter.ConverterPage.ConvertMore | src/app/files/converter/page.tsx:215 | clears the store and the results and returns to idle |
| FileConverter.ProgressNamesStartedConversion | src/app/files/converter/page.tsx:45-67 | choosing another conversion during the upload does not change the conversion the progress message names |
| ImageConverter.FinalExtensionStart | src/app/images/converter/page.tsx:82 | where `/\.[^/.]+$/` matches: a dot followed by at least one character and no further dot or slash; nothing exactly when no such dot exists |
| ImageConverter.ReplaceFinalExtension | src/app/images/converter/page.tsx:82 | the final extension is replaced and the part before it kept; a name without one is unchanged |
| ImageConverter.DownloadName | src/app/images/converter/page.tsx:80-83 | a name with a final extension becomes its stem + `.` + the lower-cased format; a name without one is left as it is |
| ImageConverter.UnchangedWithoutExtension | src/app/images/converter/page.tsx:82 | a name is not renamed when every dot in it (if any) has a slash after it, or when it ends in a dot |
| ImageConverter.ReplaceIdempotent | src/app/images/converter/page.tsx:82 | renaming to the same extension twice is the same as renaming once |
| ImageConverter.RenamedKeepsExtensionOnDownload | src/app/images/converter/page.tsx:82-83 | a renamed name with a non-empty stem passes through `ensureExtension` unchanged |
| ImageConverter.WithStatusForIdsEffect | src/app/images/converter/page.tsx:39 | after updating each id in turn, an item whose id is in the batch has the status, and the given progress or else its old one; other items are unchanged |
| ImageConverter.WithStatusForAllIds | src/app/images/converter/page.tsx:39 | updating the list's own ids gives every item the new status |
| ImageConverter.ResultOnlyAt | src/app/images/converter/page.tsx:63 | with distinct ids, attaching a result by id touches exactly one position |
| ImageConverter.AttachStep | src/app/images/converter/page.tsx:61-65 | one more iteration attaches the next result to its own file |
| ImageConverter.ResultsGoToTheirFiles | src/app/images/converter/page.tsx:61-65 | with distinct ids, the i-th converted result goes to the i-th file, and files past the end of the results are unchanged |
| ImageConverter.ResultsStep | src/app/images/converter/page.tsx:61-65 | with distinct ids, attaching the n-th result keeps the first n-1 attachments and adds the n-th to the n-th file |
| ImageConverter.ConverterPage.TargetFormat | src/app/images/converter/page.tsx:14-18 | the chosen format is always one of the eight offered |
| ImageConverter.ConverterPage.constructor | src/app/images/converter/page.tsx:17-23 | the page starts on PNG, idle, with no results |
| ImageConverter.ConverterPage.ChooseFormat | src/app/images/converter/page.tsx:18 | only the format changes |
| ImageConverter.ConverterPage.BeginConvert | src/app/images/converter/page.tsx:25-43 | an empty store sends nothing; otherwise the store's files become the batch, every file is marked uploading at 0, the batch is sent with the lower-cased format, and the format is captured |
| ImageConverter.ConverterPage.StartBatch | src/app/images/converter/page.tsx:26-36 | the batch and format are captured and the page enters uploading at 0 with the file count in its message |
| ImageConverter.ConverterPage.MarkAll | src/app/images/converter/page.tsx:39-74 | each file of the batch gets the status update, one id at a time |
| ImageConverter.ConverterPage.OnUploadProgress | src/app/images/converter/page.tsx:44-51 | every batch file takes the reported progress; at 100 or more the page moves to processing at 0 and names the format captured when the upload began |
| ImageConverter.ConverterPage.FinishConvert | src/app/images/converter/page.tsx:55-77 | success shows the server's files and attaches them to the batch; a throw marks every batch file as error; `success: false` leaves the stage alone; processing always ends |
| ImageConverter.ConverterPage.AttachResults | src/app/images/converter/page.tsx:61-65 | the results are attached by position to the batch files |
| ImageConverter.ConverterPage.DownloadNameFor | src/app/images/converter/page.tsx:80-82 | the name a download is saved under for the current format |
| ImageConverter.ProgressNamesStartedFormat | src/app/images/converter/page.tsx:25-51 | choosing another format during the upload does not change the format the progress message names |
| Text.LastIndexOf | src/lib/api.ts:101-108 | the last position of the character, or -1 exactly when it is absent |
| Text.TrimEmptyIffBlank | src/app/videos/youtube/page.tsx:24 | a string trims to empty exactly when every character is white space |
| Text.RemoveFirst | src/app/videos/youtube/page.tsx:93 | removes the first occurrence of the character only, and returns strings without it unchanged |
| Text.NatToStringRoundTrip | src/app/videos/youtube/page.tsx:81 | the decimal text of a number reads back as that number |
| Text.PadStart | src/app/videos/youtube/page.tsx:81 | the string is left-padded with the character to the width, and ends with the original |
| Text.ToLowerAscii | src/app/images/converter/page.tsx:81 | each ASCII capital is lowered, and nothing else changes |
| VideoDownload.UrlRejection | src/app/videos/youtube/page.tsx:24-32 | a blank URL is always refused; shorts and reels accept any non-blank URL; YouTube also needs `youtube.com` or `youtu.be` |
| VideoDownload.UrlAcceptedIff | src/app/videos/shorts/page.tsx:19-22 | a URL is accepted exactly when it has a non-white-space character and, on YouTube, contains a YouTube host |
| VideoDownload.HostCheckIsSubstringSearch | src/app/videos/youtube/page.tsx:29 | the host check is a substring search: a non-YouTube URL that mentions `youtu.be` in its query is accepted |
| VideoDownload.KeepSafe | src/app/videos/youtube/page.tsx:72 | only letters, digits and spaces are kept, each as many times as in the title; a single character is kept exactly when it is safe |
| VideoDownload.KeepSafeAppend | src/app/videos/youtube/page.tsx:72 | filtering distributes over concatenation, so the kept characters stay in the title's order |
| VideoDownload.KeepSafeOfSafe | src/app/videos/youtube/page.tsx:72 | a title that is already safe is unchanged |
| VideoDownload.SafeName | src/app/videos/youtube/page.tsx:72 | the save name ends in `.mp4` and its stem is the first min(50, n) of the title's n safe characters |
| VideoDownload.SaveName | src/app/videos/shorts/page.tsx:167 | YouTube saves under the safe name of the title (youtube/page.tsx:72-73); Shorts always saves as `youtube_shorts.mp4` and Reels (reels/page.tsx:163) as `instagram_reels.mp4` |
| VideoDownload.SafeNameKeepsExtension | src/app/videos/youtube/page.tsx:72-73 | a safe name with a non-empty stem passes through `ensureExtension` unchanged |
| VideoDownload.SafeNameOfUnsafeTitle | src/app/videos/youtube/page.tsx:72-73 | a title with no safe character is saved as `.mp4`, which has no extension, so the server file's extension is appended |
| VideoDownload.SaveNamesAreMp4 | src/app/videos/shorts/page.tsx:167 | on every page, the requested save name ends in `.mp4` |
| VideoDownload.FormatDuration | src/app/videos/youtube/page.tsx:78-82 | minutes in decimal, a colon, then two digits |
| VideoDownload.TwoDigitSeconds | src/app/videos/youtube/page.tsx:81 | seconds below 60 pad to exactly two digits with the same value |
| VideoDownload.DurationRoundTrip | src/app/videos/youtube/page.tsx:78-82 | reading the label back gives the number of seconds |
| VideoDownload.DurationLabel | src/app/videos/shorts/page.tsx:163 | a duration is shown exactly on the YouTube and shorts pages when it is positive, formatted as minutes:seconds |
| VideoDownload.ProgressPercent | src/app/videos/youtube/page.tsx:89-97 | no progress gives 0; a truthy numeric percent wins, capped at 100; otherwise the text percent without its first `%` is parsed, capped at 100, with NaN as 0; never more than 100 |
| VideoDownload.NumericPercentTakesPrecedence | src/app/videos/youtube/page.tsx:91 | with a truthy numeric percent, the text is never parsed |
| VideoDownload.NoLowerBound | src/app/videos/youtube/page.tsx:91 | a negative numeric percent passes through unclamped |
| VideoDownload.PercentSignDropped | src/app/videos/youtube/page.tsx:92-94 | `42.5%` is parsed as `42.5` |
| VideoDownload.StartingProgress | src/app/videos/youtube/page.tsx:36 | the initial progress is a `starting` record with no percent |
| VideoDownload.Started | src/app/videos/youtube/page.tsx:34-36 | a started download is processing, with no result and the starting progress |
| VideoDownload.AfterCallback | src/app/videos/youtube/page.tsx:46-66 | progress replaces the shown progress; completion stores the result and ends processing; an error clears the progress and ends processing |
| VideoDownload.AfterEvent | src/lib/api.ts:261-277 | an event's page effect is the effect of the callback it dispatches, or none |
| VideoDownload.ClosingEventsEndProcessing | src/app/videos/reels/page.tsx:33-48 | every event that closes the stream ends processing and clears the progress, so the percentage drops to 0 |
| VideoDownload.CompletionStoresResult | src/app/videos/reels/page.tsx:34-43 | a `complete` event stores the file name, title and size, with the duration except on reels; an `error` event keeps the old result |
| VideoDownload.DownloaderPage.constructor | src/app/videos/youtube/page.tsx:14-21 | the page starts idle, with no stream |
| VideoDownload.DownloaderPage.HandleDownload | src/app/videos/youtube/page.tsx:23-68 | a refused URL changes nothing, and a running stream stays open with its callbacks as they were; an accepted URL closes the old stream, opens a fresh one and starts the download |
| VideoDownload.DownloaderPage.OnStreamEvent | src/app/videos/youtube/page.tsx:43-67 | the stream dispatches the event, and the page applies the callback's effect |
| VideoDownload.DownloaderPage.Percent | src/app/videos/youtube/page.tsx:89-97 | the bar shows the parsed percentage of the progress on screen, never more than 100, and 0 while no progress is shown |
| VideoDownload.DownloaderPage.SaveNameNow | src/app/videos/youtube/page.tsx:70-73 | a save name exists exactly when there is a result; it is the site's save name for the result's title, and it ends in `.mp4` |

## Left out

- Network, timers and browser APIs are outside the model.
  - `fetch`, axios, `EventSource`, `WebSocket`, `setInterval` and `setTimeout` are
    modelled only as the events they deliver (messages, errors, timer firings,
    responses), which the classes' methods take as inputs.
  - Creating the blob URL and clicking the link are left out: they have no effect
    on the program's own state.
- Request URLs are left out: URL building, `encodeURIComponent`, `getBackendUrl`,
  `getClientId` and the `X-Client-ID` interceptor.
- Toasts and console logging are left out: they show information but decide nothing.
- Randomness and numeric parsing become parameters.
  - `Math.random` ids in `addFiles` are the parameter `ids`.
  - `parseFloat` is the parameter `parse`, with `None` standing for NaN.
- Number types are simplified.
  - Progress values, sizes and durations are integers, or reals for the video
    percentage.
  - Fractional durations, and `NaN` or `Infinity` in server data, are not modelled.
- Api.MimeTableExtensionsWellFormed: the lookup `mimeToExt[contentType]` is a map
  lookup, so JavaScript prototype keys such as `constructor` (which would be truthy)
  are not modelled.
- Concurrency is not modelled. In-flight requests of two overlapping conversions
  are not interleaved; each page handles one conversion from start to finish.
  The task tracker does model the order of socket, poll and timer events. This
  includes status fetches that answer after polling has stopped or after `reset`
  (`TaskProgress.LateResponseAfterStop`, `TaskProgress.LateResponseAfterReset`), and
  the `error` event of a socket closed while connecting
  (`TaskProgress.ResetWhileConnectingResumesPolling`).
- Unmounting is not modelled: the hook's unmount cleanup and React re-rendering are
  left out.
- ImageConverter.ConverterPage.FinishConvert: a success response without a `files`
  array (which throws a `TypeError` in the source) is not modelled. The response
  type always carries the list.
- Server data is assumed to have its declared types (strings are strings, arrays
  are arrays). The `Array.isArray` checks are modelled as the `Option` of a list.
- Selections are modelled by index. The selected conversion or image format is
  kept as an index into its table rather than as the value string the source keeps.
  `find(...)!` therefore cannot fail.
- Text.ToLowerAscii: lower-cases ASCII letters only. The image formats are ASCII,
  so Unicode case mapping is not modelled.
- TaskProgress.AfterCall: `error instanceof Error` is modelled as a thrown value
  with or without a message. `FileConverter.ConvertOutcome` carries the message as a
  `Failure` string.
- Api.DownloadFile: states the error cases and that the name extends the start
  name. The exact name is stated by `Api.ResolveDownloadName`, which it calls.
- Only the three video pages and the two converter pages are modelled. The other
  pages repeat the same patterns.
- The `FileDropzone` component's size and count limits are not part of this model.
