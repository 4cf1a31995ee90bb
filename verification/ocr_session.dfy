/** The page and its hook taken together as one event-driven state machine.
    Each user action or callback is an event; the page's Extract guard is in
    force and the progress timer only fires, and the run only finishes, while
    a run is going on: the timer is started by the run and is stopped, on
    the only path the run can take, before the session goes idle. */
module OcrSession {

  import opened Options
  import opened OcrTypes
  import opened UseOcr
  import opened OcrView

  datatype Event =
    | SelectFile(file: File)
    | DropFiles(files: seq<File>)
    | InputChange(chosen: Option<seq<File>>)
    | PreviewReady(dataUrl: string)
    | Extract
    | TimerTick(random: real)
    | RunFinished(random: real, elapsed: int)
    | Clear
    | TogglePreviewPressed
    | EditResult(text: string)

  /** Whether an event can occur in a session: timer firings and the end of a
      run happen only during a run, and random draws lie in [0, 1). */
  predicate Enabled(s: Session, e: Event)
  {
    match e
    case TimerTick(random) => s.isProcessing && 0.0 <= random < 1.0
    case RunFinished(random, _) => s.isProcessing && 0.0 <= random < 1.0
    case _ => true
  }

  /** One event applied to the session. Only a run's own events and clearing
      move the progress, and only a run's own events move the busy flag; the
      form's file changes only by selecting an accepted file or by clearing;
      the result is replaced only by finishing a run and removed only by
      selecting or clearing. */
  function Step(s: Session, e: Event): (r: Session)
    requires Enabled(s, e)
    ensures !(e.Extract? || e.TimerTick? || e.RunFinished? || e.Clear?) ==> r.progress == s.progress
    ensures !(e.Extract? || e.RunFinished?) ==> r.isProcessing == s.isProcessing
    ensures r.file != s.file ==> (r.file.None? && e.Clear?) || (r.file.Some? && Accepted(r.file.value))
    ensures e.RunFinished? ==> !r.isProcessing && r.progress == 0.0 && r.ocrResult.Some?
    ensures e.TimerTick? ==> r.(progress := s.progress) == s
    ensures r.ocrResult.Some? && s.ocrResult.None? ==> e.RunFinished?
  {
    match e
    case SelectFile(f) => HandleFileSelect(s, f)
    case DropFiles(fs) => HandleDrop(s, fs)
    case InputChange(chosen) => OnFileInputChange(s, chosen)
    case PreviewReady(url) => PreviewLoaded(s, url)
    case Extract => ClickExtract(s)
    case TimerTick(random) => ProgressTick(s, random)
    case RunFinished(random, elapsed) => Finish(s, random, elapsed)
    case Clear => ClearAll(s)
    case TogglePreviewPressed => TogglePreview(s)
    case EditResult(text) => EditText(s, text)
  }

  /** What holds of every session the page can reach: the form only ever holds
      an accepted file, an idle session shows progress 0, the progress stays
      in [0, 105), and a stored result's confidence lies in [85, 95). */
  predicate Inv(s: Session)
  {
    && (s.file.Some? ==> Accepted(s.file.value))
    && 0.0 <= s.progress < 105.0
    && (!s.isProcessing ==> s.progress == 0.0)
    && (s.ocrResult.Some? ==> 85.0 <= s.ocrResult.value.confidence < 95.0)
  }

  lemma InitialInv()
    ensures Inv(Initial())
  {
  }

  /** Every enabled event keeps the invariant. */
  lemma StepPreservesInv(s: Session, e: Event)
    requires Inv(s)
    requires Enabled(s, e)
    ensures Inv(Step(s, e))
  {
  }

  /** The session after a sequence of events, or `None` if some event was not
      enabled when it came. */
  function Run(s: Session, es: seq<Event>): Option<Session>
    decreases |es|
  {
    if |es| == 0 then Some(s)
    else if !Enabled(s, es[0]) then None
    else Run(Step(s, es[0]), es[1..])
  }

  /** Every reachable session satisfies the invariant. */
  lemma {:induction false} RunPreservesInv(s: Session, es: seq<Event>)
    requires Inv(s)
    requires Run(s, es).Some?
    ensures Inv(Run(s, es).value)
    decreases |es|
  {
    if |es| > 0 {
      StepPreservesInv(s, es[0]);
      RunPreservesInv(Step(s, es[0]), es[1..]);
    }
  }

  /** From the mounted page, the progress bar never reads 105 or more and an
      idle page never shows a non-zero progress. */
  lemma ReachableProgressBounded(es: seq<Event>)
    requires Run(Initial(), es).Some?
    ensures 0.0 <= Run(Initial(), es).value.progress < 105.0
    ensures !Run(Initial(), es).value.isProcessing ==> Run(Initial(), es).value.progress == 0.0
  {
    InitialInv();
    RunPreservesInv(Initial(), es);
  }

  /** A run does not hide the previous result: a second extraction runs with
      the first result still on the page, so "processing" and "result shown"
      are not exclusive. */
  lemma ResultSurvivesRestart(s: Session)
    requires s.file.Some? && !s.isProcessing && s.ocrResult.Some?
    ensures Step(s, Extract).isProcessing
    ensures Step(s, Extract).ocrResult == s.ocrResult
  {
  }

  /** Clearing during a run leaves the run going; when it finishes its result
      appears although no file is selected. */
  lemma ClearDuringRun(s: Session, random: real, elapsed: int)
    requires s.isProcessing
    requires 0.0 <= random < 1.0
    ensures Step(s, Clear).isProcessing
    ensures Enabled(Step(s, Clear), RunFinished(random, elapsed))
    ensures Step(Step(s, Clear), RunFinished(random, elapsed)).file.None?
    ensures Step(Step(s, Clear), RunFinished(random, elapsed)).ocrResult.Some?
  {
  }
}
