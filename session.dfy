/** The page state of src/components/DigitClassifier.tsx: the current
    `prediction`, the `isProcessing` flag and the bounded, newest-first
    `history`, changed by the completion of `handleCanvasChange`, by
    `clearCanvas` and by `resetAll`. The 300 ms delay and the `await` are
    collapsed into one synchronous step. */
module Session {
  import opened Wrappers
  import opened Prediction
  import opened Preprocess
  import Distribution
  import opened Gemini
  import opened Classifier
  import opened Canvas

  const HistoryLimit: nat := 10
  /** A result is kept in history only above this confidence. */
  const AcceptThreshold: real := 0.1

  datatype SessionState = SessionState(
    prediction: Option<PredictionResult>, isProcessing: bool, history: seq<PredictionResult>)

  /** `[result, ...prev].slice(0, 10)` when the result is confident enough. */
  function Recorded(history: seq<PredictionResult>, result: PredictionResult): seq<PredictionResult>
  {
    if result.confidence > AcceptThreshold then
      var h := [result] + history;
      h[..Min(HistoryLimit, |h|)]
    else history
  }

  /** `setIsProcessing(true)` at the start of `handleCanvasChange`. */
  function Begun(s: SessionState): SessionState
  {
    s.(isProcessing := true)
  }

  /** The completion step: show the result, stop processing, record it. */
  function Completed(s: SessionState, result: PredictionResult): SessionState
  {
    SessionState(Some(result), false, Recorded(s.history, result))
  }

  /** `clearCanvas`: drop the current prediction. */
  function Cleared(s: SessionState): SessionState
  {
    s.(prediction := None)
  }

  /** `resetAll`: clear, then empty the history. */
  function ResetDone(s: SessionState): SessionState
  {
    SessionState(None, s.isProcessing, [])
  }

  /** History holds at most 10 results, each with confidence above 0.1. */
  ghost predicate HistoryOk(history: seq<PredictionResult>)
  {
    |history| <= HistoryLimit && forall k :: 0 <= k < |history| ==> history[k].confidence > AcceptThreshold
  }

  /** Recording keeps the bound. An accepted result goes first, followed by
      the old entries in their order, the oldest dropped once there are ten;
      a result of confidence 0.1 or less leaves the history as it was. */
  lemma RecordedShape(history: seq<PredictionResult>, result: PredictionResult)
    requires HistoryOk(history)
    ensures HistoryOk(Recorded(history, result))
    ensures result.confidence > AcceptThreshold ==>
      Recorded(history, result) == [result] + history[..Min(HistoryLimit - 1, |history|)]
    ensures result.confidence <= AcceptThreshold ==> Recorded(history, result) == history
    ensures result.confidence > AcceptThreshold && |history| == HistoryLimit ==>
      |Recorded(history, result)| == HistoryLimit
      && Recorded(history, result)[1..] == history[..HistoryLimit - 1]
  {
    if result.confidence > AcceptThreshold {
      var h := [result] + history;
      assert h[..Min(HistoryLimit, |h|)] == [result] + history[..Min(HistoryLimit - 1, |history|)];
    }
  }

  /** Reset leaves nothing to show and nothing remembered, and doing it twice
      is doing it once. */
  lemma ResetIdempotent(s: SessionState)
    ensures ResetDone(s).prediction.None? && ResetDone(s).history == []
    ensures ResetDone(ResetDone(s)) == ResetDone(s)
  {
  }

  /** Clear drops the prediction and touches nothing else. */
  lemma ClearKeepsHistory(s: SessionState)
    ensures Cleared(s).prediction.None? && Cleared(s).history == s.history
    ensures Cleared(s).isProcessing == s.isProcessing
  {
  }

  /** What can happen to the page state. */
  datatype SessionEvent = Begin | Arrive(result: PredictionResult) | Clear | Reset

  function Apply(s: SessionState, e: SessionEvent): SessionState
  {
    match e
    case Begin => Begun(s)
    case Arrive(r) => Completed(s, r)
    case Clear => Cleared(s)
    case Reset => ResetDone(s)
  }

  function Run(s: SessionState, es: seq<SessionEvent>): SessionState
    decreases |es|
  {
    if es == [] then s else Run(Apply(s, es[0]), es[1..])
  }

  /** Whatever happens, the history never exceeds ten entries and never holds
      a result of confidence 0.1 or less. */
  lemma {:induction false} RunKeepsHistoryOk(s: SessionState, es: seq<SessionEvent>)
    requires HistoryOk(s.history)
    ensures HistoryOk(Run(s, es).history)
    decreases |es|
  {
    if es != [] {
      if es[0].Arrive? {
        RecordedShape(s.history, es[0].result);
      }
      RunKeepsHistoryOk(Apply(s, es[0]), es[1..]);
    }
  }

  /** The `DigitClassifier` component: three state cells and the canvas it
      clears (`canvasRef.current`, null while unmounted). */
  class DigitClassifier {
    var prediction: Option<PredictionResult>
    var isProcessing: bool
    var history: seq<PredictionResult>
    const canvas: DrawingCanvas?

    function State(): SessionState
      reads this
    {
      SessionState(prediction, isProcessing, history)
    }

    ghost predicate Valid()
      reads this, canvas
    {
      HistoryOk(history) && (canvas != null ==> canvas.Valid())
    }

    constructor (canvas: DrawingCanvas?)
      requires canvas != null ==> canvas.Valid()
      ensures Valid() && this.canvas == canvas
      ensures State() == SessionState(None, false, [])
    {
      this.canvas := canvas;
      prediction := None;
      isProcessing := false;
      history := [];
    }

    method BeginProcessing()
      requires Valid()
      modifies this
      ensures Valid() && State() == Begun(old(State()))
    {
      isProcessing := true;
    }

    method Complete(result: PredictionResult)
      requires Valid()
      modifies this
      ensures Valid() && State() == Completed(old(State()), result)
    {
      RecordedShape(history, result);
      prediction := Some(result);
      isProcessing := false;
      if result.confidence > AcceptThreshold {
        var h := [result] + history;
        history := h[..Min(HistoryLimit, |h|)];
      }
    }

    /** `handleCanvasChange`, with the classification run to completion. */
    method HandleCanvasChange(
      response: Result<HttpResponse, string>, jsonParse: string -> Result<ParsedFields, string>,
      contextOk: bool, data: array<Byte>, randoms: seq<real>, now: int)
      returns (result: PredictionResult)
      requires Valid() && data.Length % 4 == 0 && |randoms| == Distribution.Digits
      modifies this
      ensures Valid() && State() == Completed(Begun(old(State())), result)
      ensures var remote := ClassifyWithGemini(response, jsonParse);
        && (remote.Success? ==> result == RemoteResult(remote.value, randoms, now))
        && (remote.Failure? ==> result == FallbackResult(Preprocessed(contextOk, data[..]), randoms, now))
    {
      BeginProcessing();
      result := ClassifyDigit(response, jsonParse, contextOk, data, randoms, now);
      Complete(result);
    }

    method ClearCanvas()
      requires Valid()
      modifies this, canvas
      ensures Valid() && State() == Cleared(old(State()))
      ensures canvas != null ==> canvas.State() == Wiped(old(canvas.State()), canvas.hasContext)
    {
      if canvas != null {
        canvas.ClearRect();
      }
      prediction := None;
    }

    method ResetAll()
      requires Valid()
      modifies this, canvas
      ensures Valid() && State() == ResetDone(old(State()))
      ensures canvas != null ==> canvas.State() == Wiped(old(canvas.State()), canvas.hasContext)
    {
      ClearCanvas();
      history := [];
      prediction := None;
    }
  }
}
