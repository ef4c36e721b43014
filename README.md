# Model of the chat client's core

This project models the React front end of a chat application that talks to
Gemini models or to a self-hosted "custom" model server through a backend, and
manages the knowledge-base files the backend uses for retrieval (RAG).

It covers three source files:

- `src/App.js`: the chat session. It holds the conversation log, the selected
  model, the system prompt and the RAG toggle. It loads the model catalog and
  picks the best model in it. Sending a message builds the request from the
  non-error entries among the last ten entries of the log. It handles the reply, adopts the model the
  server says it used, and logs failures as `error` entries.
- `src/components/ChatSidebar.js`: the sidebar. It shows the model choices and
  the knowledge-base list. It uploads files with progress, deletes them after a
  confirmation, and tracks drag-and-drop state.
- `src/components/FileManager.js`: the stand-alone file manager. It does the
  same file operations, plus statistics and success and error banners.

Every network response is an input value to the transition that consumes it, as
are the answer to a confirmation dialog and the files a picker or a drop
delivers. The file classes keep a ghost log of the requests they issue. That log
lets "a declined delete issues no request" and "n files give n uploads, in
order" be stated.

Modules:

- `Options`: an optional value, used for JSON fields that may be missing.
- `Text`: the JavaScript string operations the code relies on:
  - `trim` with the ECMAScript whitespace set;
  - `startsWith`, `endsWith` and `includes`;
  - `split('/').pop()` and `split('/')[1]`;
  - ASCII `toUpperCase`;
  - decimal rendering of status codes.
- `ModelRegistry`: `pickBestModel`, normalisation of catalog names, and
  re-selection after a catalog refresh.
- `Conversation`: log entries, the request window, the request record, the entry
  a reply or failure becomes, and model adoption.
- `ChatApp`: the `ChatSession` class, with the catalog refresh, the two halves
  of `sendMessage`, `clearChat` and the send button's enabled state.
- `Assets`: file records, the list and delete replies, the icon classifier, the
  type label, progress rounding and the drag rule. Both file components use them.
- `Sidebar`: the model options and the `SidebarFiles` class.
- `FileManager`: the `FileManagerState` class, its banner texts and the listing
  correction described under Findings.

Two facts about the code shape the model:

- src/App.js has no client-side retry when a model is not found. A fallback
  model reaches the client only through `stats.model` of a reply, which the
  session then adopts (src/App.js:178-183).
- The preference order is `gemini-2.5-flash`, then `gemini-2.0-flash`
  (src/App.js:49-57). No "pro" model is preferred.

## Model

| member | source | states |
|---|---|---|
| Text.Trim | src/App.js:126 | the trimmed text is empty exactly when the input is all whitespace |
| Text.TrimShape | src/App.js:152 | trim removes whitespace at both ends and nowhere else: the result is a slice of the input, everything before and after it is whitespace, and its own ends are not whitespace |
| Text.TrimKeepsTrimmed | src/App.js:152 | text with no whitespace at either end is unchanged by trim |
| Text.Contains | src/components/ChatSidebar.js:155-158 | `includes` holds exactly when the part occurs at some position |
| Text.LastSegment | src/App.js:61 | `split('/').pop()` contains no slash, is a suffix of the input preceded by a slash, and is the whole input when there is no slash |
| Text.LastSegmentOfNamespaced | src/App.js:56 | a name ending in `/` + a slash-free model name normalises to that model name |
| Text.SecondSegment | src/components/FileManager.js:269 | `split('/')[1]` is missing exactly when there is no slash; when present it contains no slash |
| Text.SecondSegmentOf | src/components/FileManager.js:269 | for `a/b...` with slash-free `a` and `b`, the second segment is `b` |
| Text.FirstSegmentOf | src/components/FileManager.js:269 | the first segment of a slash-free head followed by `/...` is that head |
| Text.UpperAscii | src/components/FileManager.js:269 | a lower-case ASCII letter becomes the capital of the same letter; every other character is kept |
| Text.ToUpper | src/components/FileManager.js:269 | upper-casing keeps the length and upper-cases each letter in place |
| Text.NatToStringRoundTrip | src/App.js:95 | the rendered status code reads back as the same number |
| ModelRegistry.NormalizeAll | src/App.js:103 | the flat names are the catalog entries with their namespace removed, position by position |
| ModelRegistry.FirstOffered | src/App.js:49-57 | the first preference that the catalog offers, bare or namespaced; no earlier preference is offered; none when no preference is offered |
| ModelRegistry.PickBestModel | src/App.js:46-64 | `gemini-2.5-flash` if offered, else `gemini-2.0-flash` if offered, else the first entry's bare name, else `gemini-2.5-flash` for an empty catalog; the result is always a bare name from the catalog when the catalog is not empty |
| ModelRegistry.Offers | src/App.js:54-56 | a preference counts as offered when some catalog entry is that name or ends in `/` + that name; a bare listing always offers it |
| ModelRegistry.OfferedIsNormalized | src/App.js:54-56 | a preference offered in either form appears among the flat names |
| ModelRegistry.Reselect | src/App.js:102-110 | the selection is kept when it is among the flat names; otherwise it becomes the best model whenever that is non-empty, and is kept when the best model is empty; any change is to the best model |
| ModelRegistry.ReselectIsOffered | src/App.js:102-110 | after a refresh the selection is one of the catalog's bare names, or the default for an empty catalog, unless the first entry's bare name is empty and the old selection stays |
| ModelRegistry.PreferenceBeatsCatalogOrder | src/App.js:49-57 | a catalog listing namespaced 2.0 before namespaced 2.5, under any namespace, still yields `gemini-2.5-flash` |
| Conversation.UserMessage | src/App.js:128 | the appended user entry carries the text as sent, untrimmed, with no statistics or sources |
| Conversation.Recent | src/App.js:139 | `slice(-10)` is the last min(10, n) entries of the log |
| Conversation.DropErrors | src/App.js:139 | the filtered log has no error entries and is no longer than the input |
| Conversation.Turns | src/App.js:140-143 | each entry becomes a turn with the same role and content, position by position |
| Conversation.Window | src/App.js:138-144 | the request carries 1 to 11 turns, none of them an error, and ends with the new user turn |
| Conversation.DropErrorsIsOrderedFilter | src/App.js:139 | the error filter keeps the other entries in order with their multiplicities and removes every error entry |
| Conversation.DropErrorsOfClean | src/App.js:139 | a log without errors passes the filter unchanged |
| Conversation.WindowOfShortCleanLog | src/App.js:139-144 | a log of at most ten entries and no errors is sent whole, followed by the new turn |
| Conversation.WindowIgnoresOlderEntries | src/App.js:139 | entries older than the last ten never influence the request |
| Conversation.SystemPromptField | src/App.js:152 | the system prompt is sent exactly when the toggle is on and the text is not blank, and then it is sent trimmed |
| Conversation.SystemPromptExamples | src/App.js:152 | a blank prompt and a disabled prompt are omitted; a trimmed prompt is sent verbatim |
| Conversation.BuildRequest | src/App.js:148-154 | the request names the selected model for Gemini and the server's default model for the custom provider; it carries the window, the system prompt field and the RAG flag |
| Conversation.FailureDetail | src/App.js:163-187 | a thrown error's message is kept as is; an HTTP failure's message starts `Backend HTTP ` and ends with `: ` and the response body |
| Conversation.ReplyMessage | src/App.js:168-191 | a reply becomes an assistant entry with its content, stats and sources; any failure becomes an error entry whose text is `Error: ` followed by the failure's message: the thrown error's own message, or `Backend HTTP ` with the status, `: ` and the body |
| Conversation.AdoptedModel | src/App.js:180-183 | the selection changes only after a Gemini reply that reports a non-empty model different from the requested one, and then it becomes that model |
| ChatApp.ModelsErrorText | src/App.js:94-113 | a failed catalog load records a non-empty message: `Backend HTTP` and the status for an HTTP failure, the thrown error's message when it is non-empty, and `Failed to get models list` otherwise |
| ChatApp.SendText | src/App.js:124-125 | the text sent is the string argument when one is given, otherwise the input box |
| ChatApp.SendAccepted | src/App.js:126 | a send goes ahead exactly when the trimmed text is non-empty and no request is in flight |
| ChatApp.SendEnabled | src/App.js:371 | the button is enabled exactly when the input is not blank, nothing is in flight, and the provider is Gemini or the custom server is configured; an enabled button always leads to an accepted send |
| ChatApp.EnterKeyBypassesServerGate | src/App.js:197-202 | in an idle session with an unconfigured custom server, every non-blank input is refused by the button and still sent by the Enter key |
| ChatApp.ChatSession.constructor | src/App.js:6-22 | the initial state: an empty log, `gemini-2.0-flash-lite`, the default prompt enabled, RAG on, the Gemini provider and an unconfigured `qwen2:0.5b` server |
| ChatApp.ChatSession.RefreshModels | src/App.js:87-116 | for Gemini, stores the catalog (empty when missing), re-selects the model and marks it loaded, or records the error and keeps the catalog and selection; for the custom provider, nothing changes |
| ChatApp.ChatSession.BeginSend | src/App.js:122-154 | a blank text or a busy session changes nothing; otherwise the user entry is appended, the input box is cleared when it was the source, the session is busy, and exactly one request, built from the earlier log, is posted; only the log, the input box, the busy flag and the request log may change |
| ChatApp.ChatSession.CompleteSend | src/App.js:163-194 | the reply or error entry is appended, the model is adopted, and the session is no longer busy |
| ChatApp.ChatSession.SendMessage | src/App.js:122-195 | an accepted send appends exactly the user entry and then the reply or error entry, and posts one request; a refused send changes nothing |
| ChatApp.ChatSession.ClearChat | src/App.js:204-206 | the log is emptied; it is the only field that may change |
| Assets.HttpFailureMessage | src/components/FileManager.js:23-25 | a non-2xx listing fails with `HTTP ` followed by decimal digits that read back as the status code |
| Assets.Uploads | src/components/ChatSidebar.js:131 | a selection produces one upload per file, in order |
| Assets.ListedFiles | src/components/ChatSidebar.js:63 | a listing stores the received files, an empty list when the body has none, and keeps the current list on failure |
| Assets.GetFileIcon | src/components/ChatSidebar.js:153-160 | the icon of the first matching test, in the order image, pdf, word, excel or sheet, text; the folder icon exactly when none matches |
| Assets.Glyph | src/components/ChatSidebar.js:153-160 | the folder glyph is drawn exactly for the folder icon, that is, only for a type no test recognises |
| Assets.PickerTypesHaveIcons | src/components/ChatSidebar.js:265 | images from the file picker get the image icon, PDF the PDF icon, and plain text a specific icon |
| Assets.WordTypesHaveIcons | src/components/ChatSidebar.js:265 | .doc and .docx files from the picker get a specific icon, not the folder |
| Assets.SheetTypesHaveIcons | src/components/ChatSidebar.js:265 | .xls and .xlsx files from the picker get a specific icon, not the folder |
| Assets.TypeLabel | src/components/FileManager.js:269 | the type label is missing exactly when the MIME type has no slash; when present it is slash-free and has no lower-case letters |
| Assets.TypeLabelOf | src/components/FileManager.js:269 | the label of `kind/subtype` is the upper-cased subtype |
| Assets.RoundPercent | src/components/ChatSidebar.js:86 | the percentage is the nearest integer to 100·loaded/total, rounding halves up; it is 0 at the start, 100 at the end, and at most 100 while loaded ≤ total |
| Assets.RoundPercentMonotone | src/components/ChatSidebar.js:84-88 | more bytes sent never shows a lower percentage |
| Assets.ProgressAfter | src/components/ChatSidebar.js:84-88 | an event without a computable length leaves the progress unchanged; otherwise the progress becomes the rounded percentage `RoundPercent(loaded, total)`, which is at most 100 while loaded ≤ total |
| Assets.NextDragActive | src/components/ChatSidebar.js:135-143 | `dragenter` and `dragover` activate, `dragleave` deactivates, and other events keep the state |
| Assets.DragKeepsWithoutSwitch | src/components/ChatSidebar.js:135-143 | a sequence of drag events with no enter, over or leave leaves the highlight as it was |
| Assets.DragFollowsLastSwitch | src/components/ChatSidebar.js:135-143 | after a sequence of drag events, the highlight is on exactly when the last enter, over or leave event was not a leave |
| Sidebar.ModelOptions | src/components/ChatSidebar.js:199-215 | Gemini with a catalog lists its bare names; Gemini without a catalog lists the two fixed fallbacks; the custom provider lists only its default model |
| Sidebar.SelectionIsOffered | src/components/ChatSidebar.js:199-205 | after a catalog refresh, the selected model is among the options the selector shows, whenever the selection was listed or the best model is non-empty |
| Sidebar.SidebarFiles.constructor | src/components/ChatSidebar.js:48-52 | no files, not loading, not uploading, progress 0, no drag |
| Sidebar.SidebarFiles.LoadFiles | src/components/ChatSidebar.js:55-69 | issues one listing request, stores the listed files (or keeps them on failure), and ends loading |
| Sidebar.SidebarFiles.StartUpload | src/components/ChatSidebar.js:75-79 | marks the upload as running at 0% and posts the file |
| Sidebar.SidebarFiles.UploadProgress | src/components/ChatSidebar.js:84-88 | sets the progress from the event and changes nothing else |
| Sidebar.SidebarFiles.UploadLoaded | src/components/ChatSidebar.js:91-97 | a 201 reloads the list; any other status does not; either way the upload ends at 0% |
| Sidebar.SidebarFiles.UploadFailed | src/components/ChatSidebar.js:99-102 | the upload ends at 0% and the list is untouched |
| Sidebar.SidebarFiles.DeleteFile | src/components/ChatSidebar.js:113-127 | a declined confirmation issues no request and changes nothing; a successful delete reloads the list; a failed one changes nothing |
| Sidebar.SidebarFiles.UploadAll | src/components/ChatSidebar.js:131 | each file is uploaded once, in order; the indicator runs whenever at least one file was given |
| Sidebar.SidebarFiles.SelectFiles | src/components/ChatSidebar.js:129-133 | picking files uploads each of them once, in order |
| Sidebar.SidebarFiles.HandleDrag | src/components/ChatSidebar.js:135-143 | the drag state follows the drag rule; nothing else changes |
| Sidebar.SidebarFiles.HandleDrop | src/components/ChatSidebar.js:145-151 | a drop ends the drag state and uploads each dropped file once, in order |
| FileManager.UploadSuccessText | src/components/FileManager.js:63 | the upload banner names the uploaded file and ends with the "uploaded" wording |
| FileManager.ListFailureDetail | src/components/FileManager.js:23-30 | the list failure's message is the thrown error's own message, or `HTTP ` and the status for a non-2xx reply |
| FileManager.DeleteFailureDetail | src/components/FileManager.js:96-106 | the delete failure's message is the thrown error's own message, or `HTTP ` and the status for a non-2xx reply |
| FileManager.LoadErrorText | src/components/FileManager.js:30 | the list error banner starts with its prefix and carries the failure's message right after it |
| FileManager.UploadErrorText | src/components/FileManager.js:67 | the upload error banner shows the server's message, or "unknown error" when there is none |
| FileManager.DeleteErrorText | src/components/FileManager.js:106 | the delete error banner starts with its prefix and ends with the failure's message |
| FileManager.DeleteSuccessText | src/components/FileManager.js:103 | the delete banner names the deleted file and ends with the "deleted" wording |
| FileManager.SuccessBannersIdentify | src/components/FileManager.js:103 | a success banner determines the file it names, and no upload banner equals a delete banner |
| FileManager.StoredListingAsWritten | src/components/FileManager.js:26-28 | the listing as written keeps the page on failure; on success the page can render again exactly when the body has both `files` and `stats` |
| FileManager.IncompleteBodyBreaksPage | src/components/FileManager.js:27-28 | a 200 body without `files` or without `stats` leaves the page, as written, with nothing its render can read, whatever it held before, where the corrected listing holds the empty list or the initial statistics |
| FileManager.ListedStats | src/components/FileManager.js:28 | the corrected listing stores the received statistics, the initial statistics when the body has none, and keeps them on failure |
| FileManager.CorrectedListingAgrees | src/components/FileManager.js:26-28 | wherever the listing as written leaves the page renderable, the corrected listing holds exactly the same list and statistics |
| FileManager.FileManagerState.constructor | src/components/FileManager.js:5-12 | no files, statistics of 0 files and "0 Bytes", no banners, nothing running |
| FileManager.FileManagerState.LoadFiles | src/components/FileManager.js:18-34 | issues one listing request and clears the error; on success stores the corrected listing (see Findings), on failure sets the load error banner; ends loading |
| FileManager.FileManagerState.StartUpload | src/components/FileManager.js:41-45 | clears both banners, marks the upload as running at 0% and posts the file |
| FileManager.FileManagerState.UploadProgress | src/components/FileManager.js:53-58 | sets the progress from the event and changes nothing else |
| FileManager.FileManagerState.UploadLoaded | src/components/FileManager.js:60-71 | a 201 shows the success banner with the file name and reloads the list (corrected listing); another status shows the server's error; the upload ends at 0% |
| FileManager.FileManagerState.UploadFailed | src/components/FileManager.js:73-77 | a network error shows its banner and ends the upload at 0% |
| FileManager.FileManagerState.DeleteFile | src/components/FileManager.js:89-108 | a declined confirmation changes nothing; success shows the banner with the file name and reloads the list; failure shows the delete error with the status |
| FileManager.FileManagerState.ClearMessages | src/components/FileManager.js:170-173 | both banners are cleared and nothing else changes |
| FileManager.FileManagerState.UploadAll | src/components/FileManager.js:123 | each file is uploaded once, in order; when at least one file is given, the banners are cleared and the indicator runs |
| FileManager.FileManagerState.SelectFiles | src/components/FileManager.js:121-125 | picking files uploads each of them once, in order; when at least one file is picked, both banners are cleared and the indicator runs at 0%; the list, statistics, loading flag and drag state are kept |
| FileManager.FileManagerState.HandleDrag | src/components/FileManager.js:128-136 | the drag state follows the drag rule; nothing else changes |
| FileManager.FileManagerState.HandleDrop | src/components/FileManager.js:138-145 | a drop ends the drag state and uploads each dropped file once, in order; when at least one file is dropped, both banners are cleared and the indicator runs at 0%; the list, statistics and loading flag are kept |

## Left out

- Transport is not modelled: `fetch`, `XMLHttpRequest`, `FormData`, JSON bodies and backend URLs from the environment. Each response is an input value.
- JSON parse errors of a `fetch` reply are not modelled separately. A `fetch` body that does not parse is a `Failed(message)` outcome of the request that read it, since the rejection reaches the same `catch`.
- Loading the custom-server configuration is not modelled (src/App.js:67-84, src/components/ChatSidebar.js:28-45). The configured flag and the default model are plain fields that keep their initial values. The sidebar keeps a second copy of this configuration, and the model uses one value for both.
- Plain setters are not modelled as operations: input text, provider, model selector, system prompt, toggles and sidebar visibility. Each only assigns one field.
- Presentation is not modelled:
  - timestamps (`new Date()`) and locale formatting of dates and times;
  - scrolling and the Escape key;
  - copy to clipboard;
  - `downloadFile` (src/components/FileManager.js:111-118);
  - resetting the file input's value.
- `window.confirm` is a boolean input.
- Concurrency is not modelled. Each handler runs atomically. A send is split into `BeginSend` and `CompleteSend`, and the upload listeners are separate calls. The other async operations take their awaited responses as parameters and run start and completion as one call: ChatApp.ChatSession.RefreshModels, both `LoadFiles` methods, both `DeleteFile` methods, and the 201 reload inside `UploadLoaded`. So their pending states (loading on, `modelsLoaded` off) are never observable in the model. React re-runs the models effect when `selectedModel` changes; the model has one refresh per call. Several uploads in flight share one progress indicator, and the model shows that indicator, not per-file progress.
- Assets.RoundPercent: computes `Math.round` exactly on rationals instead of in floating point. A length-computable event with total 0 (NaN in the source) is excluded by the `requires` of `ProgressAfter` and both `UploadProgress` methods.
- Text.UpperAscii: capitalises the ASCII letters `a` to `z` only; every other character is kept, where `toUpperCase` also maps non-ASCII letters.
- Text.ToUpper: upper-cases ASCII letters only, through Text.UpperAscii. The MIME subtypes it is applied to are ASCII.
- The `typeof` test in `sendMessage` (src/App.js:124-126) is not modelled: the text is always a string here, and a non-string argument is modelled as no argument.
- The `try`/`catch` around creating and sending the upload request (src/components/ChatSidebar.js:106-110, src/components/FileManager.js:81-85) is not modelled: that path is unreachable once transport is an input.
- FileManager.FileManagerState.UploadLoaded: takes the uploaded file's name from the 201 body and the server's message from any other body as parameters, and always resets the indicator. In src/components/FileManager.js:62 and :66 the `load` listener parses the body itself, outside any `catch`: a body that is not JSON (a proxy's HTML error page, say) or a 201 body without a `file` object throws there, so the indicator is never reset and keeps running. Those bodies are not modelled. Its 201 reload stores the corrected listing, as LoadFiles does.
- FileManager.FileManagerState.LoadFiles: stores the corrected listing (an absent `files` becomes the empty list, absent `stats` the initial statistics), where src/components/FileManager.js:27-28 stores `undefined`. The code as written is FileManager.StoredListingAsWritten; see Findings.
- FileManager.FileManagerState.DeleteFile: its reload after a successful delete stores the corrected listing, as LoadFiles does.
- ModelRegistry.ReselectIsOffered: when no preferred model is offered and the first catalog entry's bare name is empty (for example `["models/"]`), the best model is falsy and the selection is kept even if the catalog does not offer it; this lemma states that exception, and Sidebar.SelectionIsOffered covers every other catalog.
- src/App.js has no client-side retry when a model is not found, so none is modelled; a fallback model chosen by the backend is adopted through ChatApp.ChatSession.CompleteSend.

## Findings

| source | as written | input that shows it | evidently intended | confidence | as-written member | corrected member |
|---|---|---|---|---|---|---|
| src/components/FileManager.js:27-28 | a successful listing stores `data.files` and `data.stats` with no fallback | a 200 response whose body has no `files` field: `files` becomes undefined, and rendering the list then reads `files.length` of undefined | fall back to an empty list, as src/components/ChatSidebar.js:63 does, and to the initial statistics | medium; not executed | FileManager.StoredListingAsWritten, FileManager.IncompleteBodyBreaksPage | Assets.ListedFiles, FileManager.ListedStats, FileManager.CorrectedListingAgrees |
