/** The `useOCR` hook: file validation and selection, drag-and-drop, the
    simulated extraction run (start, progress ticks, finish), clearing, the
    text statistics and the copy/download guards. Every handler is a pure
    function from the session before the event to the session after it;
    `Math.random()` and `Date.now()` are parameters. */
module UseOcr {

  import opened Options
  import opened OcrTypes
  import opened TextOps

  /** Largest accepted file, in bytes: 10 MiB. */
  const MaxFileSize: nat := 10 * 1024 * 1024

  /** Prefix every accepted MIME type starts with. */
  const ImagePrefix: string := "image/"

  /** Why a file is turned away (each is a warning toast in the page). */
  datatype Rejection = InvalidType | TooLarge

  /** The files the page accepts: images of at most 10 MiB. */
  predicate Accepted(f: File)
  {
    ImagePrefix <= f.mimeType && f.size <= MaxFileSize
  }

  /** The checks of `handleFileSelect`, in their order: the type first, then the
      size. `None` means the file passes. */
  function ValidateFile(f: File): (r: Option<Rejection>)
    ensures r.None? <==> Accepted(f)
    ensures r == Some(InvalidType) <==> !(ImagePrefix <= f.mimeType)
    ensures r == Some(TooLarge) <==> ImagePrefix <= f.mimeType && f.size > MaxFileSize
  {
    if !(ImagePrefix <= f.mimeType) then Some(InvalidType)
    else if f.size > MaxFileSize then Some(TooLarge)
    else None
  }

  /** `handleFileSelect`: an accepted file becomes the form's file and the old
      result is discarded; a rejected file leaves the session as it was. The
      preview is filled in later by `PreviewLoaded`. */
  function HandleFileSelect(s: Session, f: File): (r: Session)
    ensures !Accepted(f) ==> r == s
    ensures Accepted(f) ==> r.file == Some(f) && r.ocrResult == None
    ensures r.imagePreview == s.imagePreview && r.isProcessing == s.isProcessing
    ensures r.progress == s.progress && r.showPreview == s.showPreview
  {
    match ValidateFile(f)
    case Some(_) => s
    case None => s.(file := Some(f), ocrResult := None)
  }

  /** The `FileReader` load callback: the data URL of the selected file
      becomes the preview. The URL's content is not modelled. */
  function PreviewLoaded(s: Session, dataUrl: string): (r: Session)
    ensures r.imagePreview == Some(dataUrl)
    ensures r.(imagePreview := s.imagePreview) == s
  {
    s.(imagePreview := Some(dataUrl))
  }

  /** `handleDrop`: only the first dropped file is passed to the selection
      handler; a drop without files changes nothing. */
  function HandleDrop(s: Session, files: seq<File>): (r: Session)
    ensures |files| == 0 ==> r == s
    ensures |files| > 0 ==> r == HandleFileSelect(s, files[0])
  {
    if |files| > 0 then HandleFileSelect(s, files[0]) else s
  }

  // ---------------------------------------------------------------------------
  // The extraction run: StartProcess, then any number of ProgressTick, then
  // Finish.

  /** The opening of `processOCR`: without a file nothing happens; otherwise
      the session is marked busy and the progress restarts at 0. The previous
      result, if any, stays in place, and no check is made that a run is
      already going on. */
  function StartProcess(s: Session): (r: Session)
    ensures s.file.None? ==> r == s
    ensures s.file.Some? ==> r.isProcessing && r.progress == 0.0
    ensures r.file == s.file && r.ocrResult == s.ocrResult
    ensures r.imagePreview == s.imagePreview && r.showPreview == s.showPreview
  {
    if s.file.None? then s
    else s.(isProcessing := true, progress := 0.0)
  }

  /** One firing of the progress timer, `r` standing for `Math.random()`: from
      90 or more the progress is set to exactly 90, below 90 it grows by less
      than 15. */
  function NextProgress(prev: real, r: real): (next: real)
    requires 0.0 <= r < 1.0
    ensures prev >= 90.0 ==> next == 90.0
    ensures prev < 90.0 ==> prev <= next < prev + 15.0
  {
    if prev >= 90.0 then 90.0 else prev + r * 15.0
  }

  /** The timer's functional state update applied to the session. */
  function ProgressTick(s: Session, r: real): (t: Session)
    requires 0.0 <= r < 1.0
    ensures t.(progress := s.progress) == s
    ensures 0.0 <= s.progress < 105.0 ==> 0.0 <= t.progress < 105.0
  {
    s.(progress := NextProgress(s.progress, r))
  }

  /** Successive timer firings with the random draws `rs`. Starting anywhere in
      [0, 105) the progress stays there. */
  function Ticks(p: real, rs: seq<real>): (q: real)
    requires forall i :: 0 <= i < |rs| ==> 0.0 <= rs[i] < 1.0
    ensures 0.0 <= p < 105.0 ==> 0.0 <= q < 105.0
    decreases |rs|
  {
    if |rs| == 0 then p else Ticks(NextProgress(p, rs[0]), rs[1..])
  }

  /** Once the progress has reached 90, further firings keep it at exactly 90,
      so the timer cancelling itself at that point changes nothing visible. */
  lemma {:induction false} TicksStayAt90(p: real, rs: seq<real>)
    requires p >= 90.0
    requires forall i :: 0 <= i < |rs| ==> 0.0 <= rs[i] < 1.0
    ensures |rs| > 0 ==> Ticks(p, rs) == 90.0
    ensures |rs| == 0 ==> Ticks(p, rs) == p
    decreases |rs|
  {
    if |rs| > 0 {
      TicksStayAt90(NextProgress(p, rs[0]), rs[1..]);
    }
  }

  /** The progress is not monotone and can pass 100: one firing from 89 takes
      it to 102.5 and the next brings it back to 90. */
  lemma ProgressOvershoots()
    ensures NextProgress(89.0, 0.9) == 102.5
    ensures NextProgress(102.5, 0.0) == 90.0
  {
  }

  /** The fixed text the mock extraction produces: a blank first line, three
      indented sentences and an indented empty last line. */
  const MockText: string :=
    " " + "\n" + MockLine1 + "\n" + MockLine2 + "\n" + MockLine3 + "\n" + MockLine4

  const MockLine1: string := "        This mock shows how the extracted text would appear here."
  const MockLine2: string := "        Multiple lines and paragraphs are preserved."
  const MockLine3: string := "        Special characters and numbers: 123, @#$%"
  const MockLine4: string := "        "

  /** The success path of `processOCR` after the wait: progress jumps to 100
      and the mock result is stored with confidence `85 + 10 r`. */
  function Complete(s: Session, random: real, elapsed: int): (r: Session)
    requires 0.0 <= random < 1.0
    ensures r.progress == 100.0
    ensures r.ocrResult.Some? && r.ocrResult.value.text == MockText
    ensures 85.0 <= r.ocrResult.value.confidence < 95.0
    ensures r.ocrResult.value.processingTime == elapsed
    ensures r.(progress := s.progress, ocrResult := s.ocrResult) == s
  {
    s.(progress := 100.0,
       ocrResult := Some(OcrResult(MockText, 85.0 + random * 10.0, elapsed)))
  }

  /** The `finally` block of `processOCR`: not busy, progress back to 0. */
  function Settle(s: Session): (r: Session)
    ensures !r.isProcessing && r.progress == 0.0
    ensures r.(isProcessing := s.isProcessing, progress := s.progress) == s
  {
    s.(isProcessing := false, progress := 0.0)
  }

  /** The end of `processOCR`, `random` standing for the draw of the
      confidence and `elapsed` for the measured time. The timer is stopped
      first; the session then ends idle with progress 0 and holds the mock
      result, whose confidence lies in [85, 95). The file, preview and preview
      toggle are untouched. Nothing before the result is stored can throw, so
      the `catch` branch never reaches a different state. */
  function Finish(s: Session, random: real, elapsed: int): (r: Session)
    requires 0.0 <= random < 1.0
    ensures !r.isProcessing && r.progress == 0.0
    ensures r.ocrResult.Some? && r.ocrResult.value.text == MockText
    ensures 85.0 <= r.ocrResult.value.confidence < 95.0
    ensures r.ocrResult.value.processingTime == elapsed
    ensures r.file == s.file && r.imagePreview == s.imagePreview
    ensures r.showPreview == s.showPreview
  {
    Settle(Complete(s, random, elapsed))
  }

  /** `processOCR` from start to finish with the timer firing once per draw in
      `rs`. Without a file nothing happens at all. With one, whatever the
      timer did, the run ends idle at progress 0 with the mock result, its
      confidence in [85, 95) and the elapsed time, and with file, preview and
      toggle as they were. */
  function ProcessOcr(s: Session, rs: seq<real>, random: real, elapsed: int): (r: Session)
    requires forall i :: 0 <= i < |rs| ==> 0.0 <= rs[i] < 1.0
    requires 0.0 <= random < 1.0
    ensures s.file.None? ==> r == s
    ensures s.file.Some? ==> !r.isProcessing && r.progress == 0.0
    ensures s.file.Some? ==> r.ocrResult.Some? && r.ocrResult.value.text == MockText
    ensures s.file.Some? ==> 85.0 <= r.ocrResult.value.confidence < 95.0
    ensures s.file.Some? ==> r.ocrResult.value.processingTime == elapsed
    ensures r.file == s.file && r.imagePreview == s.imagePreview && r.showPreview == s.showPreview
  {
    if s.file.None? then s
    else
      var started := StartProcess(s);
      Finish(started.(progress := Ticks(started.progress, rs)), random, elapsed)
  }

  /** `clearAll`: the form is reset, preview and result dropped, progress set
      to 0 and the preview panel reopened; the busy flag is not touched. */
  function ClearAll(s: Session): (r: Session)
    ensures r.file.None? && r.imagePreview.None? && r.ocrResult.None?
    ensures r.progress == 0.0 && r.showPreview
    ensures r.isProcessing == s.isProcessing
  {
    s.(file := None, imagePreview := None, ocrResult := None, progress := 0.0, showPreview := true)
  }

  /** Clearing twice is clearing once. */
  lemma ClearAllIdempotent(s: Session)
    ensures ClearAll(ClearAll(s)) == ClearAll(s)
  {
  }

  /** Clearing an idle session brings it back to the state it had on mount;
      clearing a busy one differs from that only in the busy flag. */
  lemma ClearAllRestoresInitial(s: Session)
    ensures ClearAll(s) == Initial().(isProcessing := s.isProcessing)
    ensures !s.isProcessing ==> ClearAll(s) == Initial()
  {
  }

  /** `textStats`: nothing when there is no result or its text is empty;
      otherwise the length of the text and the number of pieces
      `split("\n")` gives. */
  function TextStats(res: Option<OcrResult>): (st: Option<Stats>)
    ensures st.None? <==> res.None? || res.value.text == ""
    ensures st.Some? ==> st.value.characters == |res.value.text|
    ensures st.Some? ==> st.value.lines == Count(res.value.text, '\n') + 1
  {
    if res.None? || res.value.text == "" then None
    else
      SplitLength(res.value.text, '\n');
      Some(Stats(|res.value.text|, |Split(res.value.text, '\n')|))
  }

  /** The guard `!ocrResult?.text` shared by copy and download. */
  predicate HasText(s: Session)
  {
    s.ocrResult.Some? && s.ocrResult.value.text != ""
  }

  /** `copyToClipboard`: the string written to the clipboard, if any. */
  function CopyToClipboard(s: Session): (w: Option<string>)
    ensures w.Some? <==> HasText(s)
    ensures w.Some? ==> w.value == s.ocrResult.value.text
  {
    if !HasText(s) then None else Some(s.ocrResult.value.text)
  }

  /** The file `downloadText` saves: name, MIME type and content. */
  datatype Download = Download(fileName: string, mimeType: string, content: string)

  const DownloadPrefix: string := "ocr-result-"
  const DownloadSuffix: string := ".txt"

  /** `name` is `ocr-result-<digits>.txt`, the digits have no leading zero
      and read back as `now`. */
  predicate StampedName(name: string, now: nat)
  {
    && |name| >= |DownloadPrefix| + |DownloadSuffix| + 1
    && name[..|DownloadPrefix|] == DownloadPrefix
    && name[|name| - |DownloadSuffix|..] == DownloadSuffix
    && IsDecimal(name[|DownloadPrefix|..|name| - |DownloadSuffix|])
    && (|name| - |DownloadSuffix| - |DownloadPrefix| > 1 ==> name[|DownloadPrefix|] != '0')
    && ParseDecimal(name[|DownloadPrefix|..|name| - |DownloadSuffix|]) == now
  }

  /** `downloadText` with `now` standing for `Date.now()`: nothing without
      text; otherwise a plain-text file carrying exactly the result text, named
      after the timestamp. */
  function DownloadText(s: Session, now: nat): (d: Option<Download>)
    ensures d.Some? <==> HasText(s)
    ensures d.Some? ==> d.value.content == s.ocrResult.value.text
    ensures d.Some? ==> d.value.mimeType == "text/plain"
    ensures d.Some? ==> StampedName(d.value.fileName, now)
  {
    if !HasText(s) then None
    else
      var digits := Decimal(now);
      var name := DownloadPrefix + digits + DownloadSuffix;
      assert name[|DownloadPrefix|..|name| - |DownloadSuffix|] == digits;
      DecimalRoundTrip(now);
      Some(Download(name, "text/plain", s.ocrResult.value.text))
  }

  /** Copy and download act on the same condition and hand out the same
      text. */
  lemma CopyAndDownloadAgree(s: Session, now: nat)
    ensures CopyToClipboard(s).Some? <==> DownloadText(s, now).Some?
    ensures CopyToClipboard(s).Some? ==> CopyToClipboard(s).value == DownloadText(s, now).value.content
  {
  }
}
