# OCR session controller — a Dafny model

This project models the client side of an image-to-text web page. The page
has a `useOCR` hook (`src/hooks/use-ocr.ts`) and the page component that
drives it (`src/components/page/ocrText.tsx`). The hook keeps one OCR session:

- the file held in the form field `file`;
- the image preview;
- a busy flag (`isProcessing`);
- a simulated progress percentage;
- the extraction result (text, confidence, processing time);
- whether the preview is shown.

The hook's handlers are:

- `handleFileSelect`: validates the type, then the size;
- `handleDrop`: forwards the first dropped file;
- `processOCR`: currently a mock. It waits, ticks a fake progress bar and
  stores a fixed text with a random confidence;
- `clearAll`;
- `copyToClipboard` and `downloadText`;
- the derived `textStats`.

The page adds its own transitions on top: the preview toggle, editing of the
result text, the Extract button (disabled while busy) and the hidden file
input. It also decides which panels to render.

The session is an immutable record and every handler is a pure function.
`processOCR` is split into its steps:

- `StartProcess`: the opening lines;
- `NextProgress` / `ProgressTick`: one firing of the progress timer;
- `Finish`: the end of the run, made of `Complete` (success) and `Settle` (the
  `finally` block).

`Math.random()` becomes a parameter `r` with `0 <= r < 1`. `Date.now()`
differences become an `elapsed` parameter, and the download timestamp becomes
a parameter `now`. Progress and confidence are exact `real`s.

Modules:

- `Options`: the nullable-field wrapper;
- `OcrTypes`: the records from `src/type/ocr.ts`;
- `TextOps`: JavaScript's `split` with a one-character separator, `join`, and
  decimal rendering of a timestamp;
- `UseOcr`: the hook;
- `OcrView`: the page;
- `OcrSession`: the page and the hook together as one event-driven machine,
  with an invariant proved to hold in every reachable session.

Behaviours of the code worth noting:

- The size limit is `10 * 1024 * 1024` bytes (10 MiB). A file of exactly that
  size is accepted.
- `processOCR` itself checks only that a file is present, not that a run is
  already going on. The only guard against a second run is the disabled
  Extract button (`OcrView.ClickExtractTwice`, `OcrView.StartProcessNotGuarded`).
- Progress is not monotone and not bounded by 100. Below 90 a tick adds up to
  just under 15, so it can reach up to (not including) 105. The next tick sets
  it back to exactly 90 (`UseOcr.ProgressOvershoots`). The invariant that
  holds is `0 <= progress < 105`.
- Starting a run does not clear the previous result, so "busy" and "result
  shown" can hold together (`OcrSession.ResultSurvivesRestart`).
- `clearAll` does not reset the busy flag. A run in progress continues and
  still stores its result (`OcrSession.ClearDuringRun`).
- The `finally` block of `processOCR` does not stop the progress timer. This
  has no effect in the mock: the timer is stopped before anything that could
  throw, and nothing before that point can throw.

## Model

| member | source | states |
|---|---|---|
| `UseOcr.ValidateFile` | src/hooks/use-ocr.ts:23-31 | A file passes exactly when its type starts with `image/` and its size is at most 10 MiB. A non-image is rejected as a bad type whatever its size, because the type is checked first. An image is rejected as too large exactly when it exceeds 10 MiB. |
| `UseOcr.HandleFileSelect` | src/hooks/use-ocr.ts:21-46 | A rejected file leaves the session unchanged. An accepted file becomes the selected file and clears the result. Busy flag, progress, preview and preview toggle are untouched. |
| `UseOcr.PreviewLoaded` | src/hooks/use-ocr.ts:36-40 | The reader's data URL becomes the preview and nothing else changes. |
| `UseOcr.HandleDrop` | src/hooks/use-ocr.ts:48-57 | A drop with no files changes nothing. Otherwise the outcome is that of selecting the first file alone. |
| `UseOcr.StartProcess` | src/hooks/use-ocr.ts:63-67 | Without a file this is a no-op. With one the session becomes busy with progress 0. File, earlier result, preview and toggle are kept, and there is no check for a run already in progress. |
| `UseOcr.NextProgress` | src/hooks/use-ocr.ts:72-78 | From 90 or more a tick gives exactly 90. Below 90 it gives a value at least the previous one and below it plus 15. |
| `UseOcr.ProgressTick` | src/hooks/use-ocr.ts:71-79 | A timer firing changes only the progress and keeps it within [0, 105). |
| `UseOcr.Ticks` | src/hooks/use-ocr.ts:71-79 | Any number of timer firings starting in [0, 105), such as the run's start at 0, stay within [0, 105). |
| `UseOcr.TicksStayAt90` | src/hooks/use-ocr.ts:73-76 | Once progress reaches 90, every later firing yields exactly 90, so the timer cancelling itself there changes nothing visible. |
| `UseOcr.ProgressOvershoots` | src/hooks/use-ocr.ts:72-78 | A tick from 89 can give 102.5, above 100. The next tick lowers it to 90. |
| `UseOcr.Complete` | src/hooks/use-ocr.ts:83-98 | On success, progress jumps to 100 and the stored result has the mock text, confidence in [85, 95) and the elapsed time. Nothing else changes. |
| `UseOcr.Settle` | src/hooks/use-ocr.ts:105-108 | The `finally` block leaves the session idle with progress 0 and changes nothing else. |
| `UseOcr.Finish` | src/hooks/use-ocr.ts:83-108 | Every completed run ends idle with progress 0 and stores the mock text with confidence in [85, 95) and the elapsed time. File, preview and toggle are untouched. |
| `UseOcr.ProcessOcr` | src/hooks/use-ocr.ts:63-109 | Without a file the whole run is a no-op. With one, whatever the timer did, it ends idle at progress 0 holding the mock text with confidence in [85, 95) and the elapsed time. File, preview and toggle are unchanged. |
| `UseOcr.ClearAll` | src/hooks/use-ocr.ts:135-141 | Clearing removes the file, preview and result, sets progress to 0 and reopens the preview. The busy flag is kept. |
| `UseOcr.ClearAllIdempotent` | src/hooks/use-ocr.ts:135-141 | Clearing twice is the same as clearing once. |
| `UseOcr.ClearAllRestoresInitial` | src/hooks/use-ocr.ts:135-141 | Clearing gives the mount-time session except for the busy flag, and exactly the mount-time session when idle. |
| `UseOcr.TextStats` | src/hooks/use-ocr.ts:143-149 | The statistics are absent exactly when there is no result or its text is empty. Otherwise the character count is the text length and the line count is the number of line breaks plus one. |
| `UseOcr.CopyToClipboard` | src/hooks/use-ocr.ts:111-120 | Something is copied exactly when the result has non-empty text, and what is copied is that text. |
| `UseOcr.DownloadText` | src/hooks/use-ocr.ts:122-134 | A file is produced exactly when the result has non-empty text. Its content is that text unchanged, its type is `text/plain`, and its name is `ocr-result-<digits>.txt`, where the digits have no leading zero and read back as the timestamp. |
| `UseOcr.CopyAndDownloadAgree` | src/hooks/use-ocr.ts:111-125 | Copy and download act under the same condition and hand out the same text. |
| `TextOps.Split` | src/hooks/use-ocr.ts:147 | Splitting yields at least one piece, and no piece contains the separator. |
| `TextOps.SplitLength` | src/hooks/use-ocr.ts:147 | Splitting on a character gives one piece more than the number of occurrences of that character. |
| `TextOps.JoinSplit` | src/hooks/use-ocr.ts:147 | Joining the pieces of a split with the separator gives back the original text. |
| `TextOps.Decimal` | src/hooks/use-ocr.ts:129 | A timestamp renders as a non-empty string of decimal digits with no leading zero. |
| `TextOps.DecimalRoundTrip` | src/hooks/use-ocr.ts:129 | Reading the rendered digits back gives the timestamp. |
| `OcrView.TogglePreview` | src/components/page/ocrText.tsx:97-103 | The eye button negates `showPreview` and changes nothing else. |
| `OcrView.TogglePreviewTwice` | src/components/page/ocrText.tsx:100-102 | Two presses restore the session. |
| `OcrView.EditText` | src/components/page/ocrText.tsx:193-201 | Without a result an edit does nothing. With one, only the text changes, to the typed value, and confidence and processing time are kept. |
| `OcrView.EditTextLastWins` | src/components/page/ocrText.tsx:195-201 | Two edits in a row equal the last one alone. |
| `OcrView.EditTextSameValue` | src/components/page/ocrText.tsx:195-201 | Writing back the current text leaves the session unchanged. |
| `OcrView.EditTextStats` | src/components/page/ocrText.tsx:205-210 | After an edit, the statistics describe the edited text and disappear when it is empty. |
| `OcrView.ClickExtract` | src/components/page/ocrText.tsx:133-139 | A click while busy is ignored. Otherwise it starts the run. |
| `OcrView.ClickExtractTwice` | src/components/page/ocrText.tsx:133-135 | A second click on Extract is a no-op, so the button is the guard against re-entry. |
| `OcrView.StartProcessNotGuarded` | src/components/page/ocrText.tsx:133-135 | For any busy session with a file, calling the hook's start again resets progress to 0, changing the session whenever progress had moved. The guarded button ignores the click. |
| `OcrView.OnFileInputChange` | src/components/page/ocrText.tsx:70-77 | The file input calls the select handler only when a first file is present, and with that file. |
| `OcrView.InputMatchesDrop` | src/components/page/ocrText.tsx:70-77 | Choosing files through the input has the same effect as dropping them. |
| `OcrView.Layout` | src/components/page/ocrText.tsx:54-210 | The drop area shows exactly when no file is selected, and the file details otherwise. Extract is enabled only when it is shown and the session is idle. The progress bar shows exactly when a file is selected and a run is in progress. The preview image shows exactly when a file is selected, the toggle is on and a non-empty preview is loaded. The result panel shows exactly when there is a result. The stats line shows exactly when the text is non-empty. |
| `OcrView.StatsLineMeansCopyActs` | src/components/page/ocrText.tsx:205-210 | The stats line is visible exactly when Copy and Download would act. |
| `OcrView.SelectShowsExtract` | src/components/page/ocrText.tsx:54-139 | After an accepted file, the page shows the file details and the Extract button and hides any earlier result. |
| `OcrView.ExtractShowsProgress` | src/components/page/ocrText.tsx:133-149 | An enabled click brings up the progress bar and disables Extract. Finishing the run hides the bar, re-enables the button and brings up the result panel. |
| `OcrView.ClearShowsDropzone` | src/components/page/ocrText.tsx:110-116 | After the clear button, the drop area is back and the result panel and progress bar are gone. |
| `OcrView.LayoutAsWritten` | src/components/page/ocrText.tsx:54 | Reading `state.selectedFile`, which the hook never exports, the page always shows the drop area and never the file details, preview, Extract button or progress bar. |
| `OcrView.SelectedFileNeverRead` | src/components/page/ocrText.tsx:54 | After an accepted file, the page as written still offers only the drop area. The corrected page shows the Extract button. |
| `OcrTypes.Initial` | src/hooks/use-ocr.ts:9-19 | At mount there is no file, no preview and no result, and the session is idle at progress 0 with the preview toggle on. |
| `OcrView.Export` | src/hooks/use-ocr.ts:150-158 | The exported `state` object carries the preview, busy flag, progress, result and toggle unchanged, and no file. |
| `OcrSession.Step` | src/components/page/ocrText.tsx:54-205 | Each page event goes to its handler. Only Extract, timer, finish and clear events move progress, and only Extract and finish move the busy flag. The file changes only to an accepted file or, by clearing, to none. A result appears only when a run finishes, and finishing leaves the session idle at 0. |
| `OcrSession.InitialInv` | src/hooks/use-ocr.ts:13-19 | The session at mount satisfies the invariant. |
| `OcrSession.StepPreservesInv` | src/hooks/use-ocr.ts:21-141 | Every event the page can deliver keeps the invariant: the form holds only accepted files, progress stays in [0, 105) and is 0 when idle, and a result's confidence lies in [85, 95). |
| `OcrSession.RunPreservesInv` | src/hooks/use-ocr.ts:21-141 | Any sequence of enabled events from a session satisfying the invariant ends in one that satisfies it. |
| `OcrSession.ReachableProgressBounded` | src/hooks/use-ocr.ts:66-84 | In every session reachable from mount, progress is in [0, 105) and is 0 whenever the page is idle. |
| `OcrSession.ResultSurvivesRestart` | src/hooks/use-ocr.ts:63-67 | For any idle session with a file and a result, Extract makes it busy and keeps that result. |
| `OcrSession.ClearDuringRun` | src/hooks/use-ocr.ts:135-141 | For any busy session, clearing leaves it busy and the run can still finish. Its end stores a result although no file is selected. |

## Left out

- Tesseract recognition, the Gemini rewrite, the HTTP route, the Redux/RTK transport and store, layouts, navbar, theme toggle and the zod form schema: library calls, network and UI wiring with no state logic of the session.
- `handleDragOver`: it only prevents the browser's default and changes no state.
- `FileReader` mechanics: the data URL content is a parameter of `UseOcr.PreviewLoaded`, and the read-error toast is not modelled.
- Toasts: the warnings, success and error toasts are not modelled. The rejection reason is the result of `UseOcr.ValidateFile`.
- Clipboard and DOM download mechanics: the object URL, the link element and its click are not modelled. A clipboard write that fails only shows a toast and leaves the session unchanged.
- Scheduling: the 200 ms interval, the 3 s wait and `Date.now()` are events and parameters. At most one run is in flight, because the page disables Extract while busy. Runs started twice through the hook directly, with two timers alive, are not modelled.
- Floating point: progress and confidence are exact reals. `Math.round`, `toFixed` and the MB formatting of the view are not modelled. The strict upper bound of confidence in [85, 95) holds for exact reals only. In doubles, `85 + Math.random() * 10` rounds to exactly 95 when the draw is 1 − 2⁻⁵². The progress bound below 105 is not affected.
- The `catch` branch of `processOCR`: nothing before the result is stored can throw in the mock. Only `toast.success`, which runs after the result is stored and the timer is stopped, could throw, and the `finally` block then reaches the same state as success.
- JSX markup, styling and images.
- The re-validation the form runs on `setValue` (`shouldValidate`): it only records form errors from the zod schema.
- The hook's exported setters other than `setShowPreview` and `setOcrResult`: the page does not call them.
- The exact line count of the mock text (five lines) is not proved as a concrete fact. The general rule is stated by `UseOcr.TextStats`.
- UseOcr.TextStats: counts elements of a Dafny `string`, which are Unicode scalar values, whereas JavaScript's `length` counts UTF-16 code units. The two differ for characters outside the Basic Multilingual Plane.
- UseOcr.NextProgress: states bounds (at least the previous value, below it plus 15) rather than the exact increment `15 * r`. The exact value is its definition.

## Findings

| source | as written | input that shows it | evidently intended | confidence | as-written member | corrected member |
|---|---|---|---|---|---|---|
| src/components/page/ocrText.tsx:54 | The page decides between the drop area and the file details on `state.selectedFile`. The hook's `state` object (src/hooks/use-ocr.ts:152-158) has no such key, so the value is always `undefined`. | Select any accepted file, e.g. a 1 KB `image/png`: the drop area stays, and the file details, preview and Extract button never render. | Read the selected file from the form field `file` that the hook watches and returns. | not executed; high | `OcrView.LayoutAsWritten` (shown by `OcrView.SelectedFileNeverRead`) | `OcrView.Layout` (proved by `OcrView.SelectShowsExtract`) |
