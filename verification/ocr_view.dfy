/** The OCR page: the transitions its buttons and text area add on top of the
    hook (preview toggle, text edit, guarded Extract, file input) and which
    panels it renders for a given session. */
module OcrView {

  import opened Options
  import opened OcrTypes
  import opened TextOps
  import opened UseOcr

  /** The eye button: flips whether the preview image is shown. */
  function TogglePreview(s: Session): (r: Session)
    ensures r.showPreview == !s.showPreview
    ensures r.(showPreview := s.showPreview) == s
  {
    s.(showPreview := !s.showPreview)
  }

  /** Two presses of the eye button restore the session. */
  lemma TogglePreviewTwice(s: Session)
    ensures TogglePreview(TogglePreview(s)) == s
  {
  }

  /** Typing in the result text area: the result's text becomes the text
      area's value, its confidence and processing time are kept; without a
      result nothing happens. */
  function EditText(s: Session, value: string): (r: Session)
    ensures s.ocrResult.None? ==> r == s
    ensures s.ocrResult.Some? ==> r.ocrResult.Some? && r.ocrResult.value.text == value
    ensures s.ocrResult.Some? ==> r.ocrResult.value.confidence == s.ocrResult.value.confidence
    ensures s.ocrResult.Some? ==> r.ocrResult.value.processingTime == s.ocrResult.value.processingTime
    ensures r.(ocrResult := s.ocrResult) == s
  {
    match s.ocrResult
    case None => s
    case Some(res) => s.(ocrResult := Some(res.(text := value)))
  }

  /** Only the last edit matters. */
  lemma EditTextLastWins(s: Session, a: string, b: string)
    ensures EditText(EditText(s, a), b) == EditText(s, b)
  {
  }

  /** Writing back the text that is already there changes nothing. */
  lemma EditTextSameValue(s: Session)
    requires s.ocrResult.Some?
    ensures EditText(s, s.ocrResult.value.text) == s
  {
  }

  /** After an edit the statistics describe the edited text. */
  lemma EditTextStats(s: Session, value: string)
    requires s.ocrResult.Some?
    ensures value == "" ==> TextStats(EditText(s, value).ocrResult).None?
    ensures value != "" ==> TextStats(EditText(s, value).ocrResult) == Some(Stats(|value|, Count(value, '\n') + 1))
  {
  }

  /** The Extract button is disabled while a run is going on. */
  predicate ExtractDisabled(s: Session)
  {
    s.isProcessing
  }

  /** A click on the Extract button: ignored while disabled, otherwise it
      starts `processOCR`. */
  function ClickExtract(s: Session): (r: Session)
    ensures s.isProcessing ==> r == s
    ensures !s.isProcessing ==> r == StartProcess(s)
  {
    if ExtractDisabled(s) then s else StartProcess(s)
  }

  /** A second click on Extract does nothing: the disabled button is the guard
      against starting a run twice. */
  lemma ClickExtractTwice(s: Session)
    ensures ClickExtract(ClickExtract(s)) == ClickExtract(s)
  {
  }

  /** The hook alone does not guard against re-entry: starting again during a
      run with a file throws the progress back to 0, while the guarded button
      ignores the click. */
  lemma StartProcessNotGuarded(s: Session)
    requires s.file.Some? && s.isProcessing
    ensures StartProcess(s).isProcessing && StartProcess(s).progress == 0.0
    ensures s.progress != 0.0 ==> StartProcess(s) != s
    ensures ClickExtract(s) == s
  {
  }

  /** The hidden file input's change handler: the first chosen file, if the
      browser reports any, goes to the selection handler. */
  function OnFileInputChange(s: Session, files: Option<seq<File>>): (r: Session)
    ensures files.None? ==> r == s
    ensures files.Some? && |files.value| == 0 ==> r == s
    ensures files.Some? && |files.value| > 0 ==> r == HandleFileSelect(s, files.value[0])
  {
    if files.Some? && |files.value| > 0 then HandleFileSelect(s, files.value[0]) else s
  }

  /** Choosing files through the input and dropping them behave alike. */
  lemma InputMatchesDrop(s: Session, files: seq<File>)
    ensures OnFileInputChange(s, Some(files)) == HandleDrop(s, files)
  {
  }

  /** Which parts of the page are rendered. */
  datatype Panels = Panels(
    dropzone: bool,       // drop area with the hidden file input
    fileDetails: bool,    // file name, size, eye and clear buttons
    previewImage: bool,   // the image preview
    extractButton: bool,  // the Extract button
    extractEnabled: bool, // ... and whether it can be clicked
    progressBar: bool,    // the progress bar with its percentage
    resultPanel: bool,    // copy and download buttons and the text area
    statsLine: bool       // character and line counts
  )

  /** The rendering rules, given what the page reads as the selected file and
      the rest of the state. */
  function PanelsFor(selected: Option<File>, imagePreview: Option<string>, isProcessing: bool,
                     ocrResult: Option<OcrResult>, showPreview: bool): Panels
  {
    var hasFile := selected.Some?;
    Panels(
      dropzone := !hasFile,
      fileDetails := hasFile,
      previewImage := hasFile && showPreview && imagePreview.Some? && imagePreview.value != "",
      extractButton := hasFile,
      extractEnabled := hasFile && !isProcessing,
      progressBar := hasFile && isProcessing,
      resultPanel := ocrResult.Some?,
      statsLine := ocrResult.Some? && TextStats(ocrResult).Some?
    )
  }

  /** The page rendered from the session, reading the selected file from the
      form field the hook watches. The drop area and the file details are
      exclusive; the progress bar shows only during a run; the result panel
      shows exactly when there is a result, and the statistics only when its
      text is non-empty. */
  function Layout(s: Session): (p: Panels)
    ensures p.dropzone <==> s.file.None?
    ensures p.fileDetails <==> !p.dropzone
    ensures p.extractButton <==> s.file.Some?
    ensures p.extractEnabled <==> p.extractButton && !ExtractDisabled(s)
    ensures p.progressBar <==> s.file.Some? && s.isProcessing
    ensures p.resultPanel <==> s.ocrResult.Some?
    ensures p.statsLine <==> HasText(s)
    ensures p.statsLine ==> p.resultPanel
    ensures p.previewImage <==> s.file.Some? && s.showPreview && s.imagePreview.Some? && s.imagePreview.value != ""
  {
    PanelsFor(s.file, s.imagePreview, s.isProcessing, s.ocrResult, s.showPreview)
  }

  /** The stats line is shown exactly when Copy and Download do something. */
  lemma StatsLineMeansCopyActs(s: Session, now: nat)
    ensures Layout(s).statsLine <==> CopyToClipboard(s).Some?
    ensures Layout(s).statsLine <==> DownloadText(s, now).Some?
  {
  }

  /** Selecting an accepted file replaces the drop area by the file details
      with an Extract button, and hides any earlier result. */
  lemma SelectShowsExtract(s: Session, f: File)
    requires Accepted(f)
    ensures Layout(HandleFileSelect(s, f)).extractButton
    ensures !Layout(HandleFileSelect(s, f)).dropzone
    ensures !Layout(HandleFileSelect(s, f)).resultPanel
  {
  }

  /** An enabled Extract click brings up the progress bar and disables the
      button; finishing the run hides the bar again, re-enables the button and
      brings up the result panel. */
  lemma ExtractShowsProgress(s: Session, random: real, elapsed: int)
    requires s.file.Some? && !s.isProcessing
    requires 0.0 <= random < 1.0
    ensures Layout(ClickExtract(s)).progressBar
    ensures !Layout(ClickExtract(s)).extractEnabled
    ensures !Layout(Finish(ClickExtract(s), random, elapsed)).progressBar
    ensures Layout(Finish(ClickExtract(s), random, elapsed)).extractEnabled
    ensures Layout(Finish(ClickExtract(s), random, elapsed)).resultPanel
  {
  }

  /** Clearing brings back the drop area and removes the result panel. */
  lemma ClearShowsDropzone(s: Session)
    ensures Layout(ClearAll(s)).dropzone
    ensures !Layout(ClearAll(s)).resultPanel && !Layout(ClearAll(s)).progressBar
  {
  }

  // ---------------------------------------------------------------------------
  // The page as written reads `state.selectedFile`, but the hook's `state`
  // object has no such key.

  /** The `state` object the hook hands to the page: the five React state
      values, without the file. */
  datatype ExportedState = ExportedState(
    imagePreview: Option<string>,
    isProcessing: bool,
    progress: real,
    ocrResult: Option<OcrResult>,
    showPreview: bool
  )

  function Export(s: Session): (e: ExportedState)
    ensures e.imagePreview == s.imagePreview && e.isProcessing == s.isProcessing
    ensures e.progress == s.progress && e.ocrResult == s.ocrResult
    ensures e.showPreview == s.showPreview
  {
    ExportedState(s.imagePreview, s.isProcessing, s.progress, s.ocrResult, s.showPreview)
  }

  /** The page as written: `state.selectedFile` is always `undefined`. */
  function LayoutAsWritten(e: ExportedState): (p: Panels)
    ensures p.dropzone && !p.fileDetails
    ensures !p.extractButton && !p.progressBar && !p.previewImage
  {
    PanelsFor(None, e.imagePreview, e.isProcessing, e.ocrResult, e.showPreview)
  }

  /** As written, the page keeps showing the drop area after an accepted file
      and never offers the Extract button; reading the form's file instead
      shows both as intended. */
  lemma SelectedFileNeverRead(s: Session, f: File)
    requires Accepted(f)
    ensures !LayoutAsWritten(Export(HandleFileSelect(s, f))).extractButton
    ensures LayoutAsWritten(Export(HandleFileSelect(s, f))).dropzone
    ensures Layout(HandleFileSelect(s, f)).extractButton
    ensures !Layout(HandleFileSelect(s, f)).dropzone
  {
  }
}
