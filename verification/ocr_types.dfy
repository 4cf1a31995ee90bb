/** The records the OCR page works with: the browser `File` the user picks,
    the `OCRResult` shown after extraction, and the session state that the
    hook keeps in React state and in its form. */
module OcrTypes {

  import opened Options

  /** The parts of a browser `File` the controller looks at: its name (shown in
      the view), its declared MIME type and its size in bytes. */
  datatype File = File(name: string, mimeType: string, size: nat)

  /** An extraction result: the (editable) text, a confidence percentage and
      the elapsed processing time in milliseconds. */
  datatype OcrResult = OcrResult(text: string, confidence: real, processingTime: int)

  /** The OCR session. `file` is the form field the hook watches; the other
      fields are the hook's five pieces of React state. `progress` is kept as
      an exact real. */
  datatype Session = Session(
    file: Option<File>,
    imagePreview: Option<string>,
    isProcessing: bool,
    progress: real,
    ocrResult: Option<OcrResult>,
    showPreview: bool
  )

  /** Character and line counts shown under the result text. */
  datatype Stats = Stats(characters: nat, lines: nat)

  /** The session as the page mounts: no file in the form, no preview, idle,
      progress 0, no result, preview panel open. */
  function Initial(): (s: Session)
    ensures s.file.None? && s.imagePreview.None? && s.ocrResult.None?
    ensures !s.isProcessing && s.progress == 0.0 && s.showPreview
  {
    Session(None, None, false, 0.0, None, true)
  }
}
