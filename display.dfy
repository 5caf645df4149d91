/** The display logic of src/components/PredictionDisplay.tsx: the three
    threshold chains (text colour, label, bar gradient) and the conditions
    that decide which parts of the panel are shown. */
module Display {
  import opened Wrappers
  import opened Prediction
  import opened Heuristic
  import opened Distribution
  import opened Gemini
  import opened Classifier

  /** `getConfidenceColor`. */
  function ConfidenceColor(confidence: real): string
  {
    if confidence >= 0.8 then "text-green-400"
    else if confidence >= 0.6 then "text-yellow-400"
    else if confidence >= 0.4 then "text-orange-400"
    else "text-red-400"
  }

  /** `getConfidenceLabel`. */
  function ConfidenceLabel(confidence: real): string
  {
    if confidence >= 0.8 then "Very Confident"
    else if confidence >= 0.6 then "Confident"
    else if confidence >= 0.4 then "Moderate"
    else "Low Confidence"
  }

  /** The class of the confidence bar, chosen by a third, inline chain. */
  function BarGradient(confidence: real): string
  {
    if confidence >= 0.8 then "bg-gradient-to-r from-green-400 to-green-600"
    else if confidence >= 0.6 then "bg-gradient-to-r from-yellow-400 to-yellow-600"
    else if confidence >= 0.4 then "bg-gradient-to-r from-orange-400 to-orange-600"
    else "bg-gradient-to-r from-red-400 to-red-600"
  }

  /** The four confidence bands, as a reference the three chains are checked against. */
  datatype Band = VeryConfident | Confident | Moderate | Low

  function BandOf(confidence: real): (b: Band)
    ensures b == VeryConfident <==> 0.8 <= confidence
    ensures b == Confident <==> 0.6 <= confidence < 0.8
    ensures b == Moderate <==> 0.4 <= confidence < 0.6
    ensures b == Low <==> confidence < 0.4
  {
    if confidence < 0.4 then Low
    else if confidence < 0.6 then Moderate
    else if confidence < 0.8 then Confident
    else VeryConfident
  }

  function Colour(b: Band): string
  {
    match b
    case VeryConfident => "text-green-400"
    case Confident => "text-yellow-400"
    case Moderate => "text-orange-400"
    case Low => "text-red-400"
  }

  function Label(b: Band): string
  {
    match b
    case VeryConfident => "Very Confident"
    case Confident => "Confident"
    case Moderate => "Moderate"
    case Low => "Low Confidence"
  }

  function Gradient(b: Band): string
  {
    match b
    case VeryConfident => "bg-gradient-to-r from-green-400 to-green-600"
    case Confident => "bg-gradient-to-r from-yellow-400 to-yellow-600"
    case Moderate => "bg-gradient-to-r from-orange-400 to-orange-600"
    case Low => "bg-gradient-to-r from-red-400 to-red-600"
  }

  /** The three chains all pick the band of the confidence, and no two bands
      share a colour, label or gradient: colour, label and bar always agree. */
  lemma BandsAgree(c: real, d: real)
    ensures ConfidenceColor(c) == Colour(BandOf(c))
    ensures ConfidenceLabel(c) == Label(BandOf(c))
    ensures BarGradient(c) == Gradient(BandOf(c))
    ensures ConfidenceColor(c) == ConfidenceColor(d) <==> BandOf(c) == BandOf(d)
    ensures ConfidenceLabel(c) == ConfidenceLabel(d) <==> BandOf(c) == BandOf(d)
    ensures BarGradient(c) == BarGradient(d) <==> BandOf(c) == BandOf(d)
  {
    LabelsDistinct();
  }

  lemma LabelsDistinct()
    ensures forall a: Band, b: Band :: Colour(a) == Colour(b) ==> a == b
    ensures forall a: Band, b: Band :: Label(a) == Label(b) ==> a == b
    ensures forall a: Band, b: Band :: Gradient(a) == Gradient(b) ==> a == b
  {
  }

  /** The low-confidence warning. */
  predicate ShowsWarning(p: PredictionResult)
  {
    p.confidence < 0.4
  }

  /** The warning is shown exactly when the label reads "Low Confidence". */
  lemma WarningIffLowLabel(p: PredictionResult)
    ensures ShowsWarning(p) <==> ConfidenceLabel(p.confidence) == "Low Confidence"
  {
    LabelsDistinct();
    assert ConfidenceLabel(p.confidence) == Label(BandOf(p.confidence));
    assert Label(Low) == "Low Confidence";
  }

  /** The three mutually exclusive bodies of the panel. */
  predicate ShowsSpinner(isProcessing: bool, prediction: Option<PredictionResult>) { isProcessing }
  predicate ShowsPlaceholder(isProcessing: bool, prediction: Option<PredictionResult>)
  {
    !isProcessing && prediction.None?
  }
  predicate ShowsResult(isProcessing: bool, prediction: Option<PredictionResult>)
  {
    !isProcessing && prediction.Some?
  }

  function Shown(b: bool): nat { if b then 1 else 0 }

  /** Exactly one of spinner, placeholder and result panel is shown. */
  lemma ExactlyOnePanel(isProcessing: bool, prediction: Option<PredictionResult>)
    ensures Shown(ShowsSpinner(isProcessing, prediction)) + Shown(ShowsPlaceholder(isProcessing, prediction))
          + Shown(ShowsResult(isProcessing, prediction)) == 1
  {
  }

  /** An `allPredictions` row is highlighted when its digit is the predicted one. */
  predicate Highlighted(p: PredictionResult, e: Entry)
  {
    e.digit == p.digit
  }

  /** The reasoning panel needs a non-empty reasoning. */
  predicate ShowsReasoning(p: PredictionResult)
  {
    p.reasoning.Some? && p.reasoning.value != ""
  }

  /** For a result of `classifyDigit` whose digit is 0..9 (always so on the
      fallback path) exactly one row is highlighted; the reasoning panel never
      appears, since `classifyDigit` drops the reasoning. */
  lemma ClassifiedRowsHighlightOnce(p: PredictionResult)
    requires ExactlyOnce(p.allPredictions) && 0 <= p.digit < Distribution.Digits
    ensures exists k :: 0 <= k < |p.allPredictions| && Highlighted(p, p.allPredictions[k])
    ensures forall i, j ::
      (0 <= i < |p.allPredictions| && 0 <= j < |p.allPredictions|
       && Highlighted(p, p.allPredictions[i]) && Highlighted(p, p.allPredictions[j])) ==> i == j
  {
    var s := p.allPredictions;
    assert multiset(DigitsOf(s))[p.digit] == 1;
    var k :| 0 <= k < |DigitsOf(s)| && DigitsOf(s)[k] == p.digit;
    DigitsAt(s, k);
    forall i, j | 0 <= i < |s| && 0 <= j < |s| && Highlighted(p, s[i]) && Highlighted(p, s[j])
      ensures i == j
    {
      ExactlyOnceUnique(s, i, j);
    }
  }

  /** What the panel shows for the fallback's result: one highlighted row, no
      reasoning, and the warning exactly when no rule of the table fired. */
  lemma FallbackDisplay(pixels: seq<real>, randoms: seq<real>, now: int)
    requires IsOracle(randoms)
    ensures var p := FallbackResult(pixels, randoms, now);
      && Highlighted(p, p.allPredictions[0])
      && (forall k :: 1 <= k < |p.allPredictions| ==> !Highlighted(p, p.allPredictions[k]))
      && !ShowsReasoning(p)
      && (ShowsWarning(p) <==> FallbackGuess(pixels) == Guess(0, 0.3))
  {
    FallbackShape(pixels, randoms, now);
    DecideRange(TopSum(pixels), BottomSum(pixels), LeftSum(pixels), RightSum(pixels));
  }

  /** A remote result never shows reasoning; when its digit is 0..9 exactly
      one row is highlighted, and none when it is not. */
  lemma RemoteDisplay(reply: GeminiReply, randoms: seq<real>, now: int)
    requires IsOracle(randoms)
    ensures var p := RemoteResult(reply, randoms, now);
      && !ShowsReasoning(p)
      && (0 <= reply.digit < Distribution.Digits ==>
            exists k :: 0 <= k < |p.allPredictions| && Highlighted(p, p.allPredictions[k]))
      && (!(0 <= reply.digit < Distribution.Digits) ==>
            forall k :: 0 <= k < |p.allPredictions| ==> !Highlighted(p, p.allPredictions[k]))
  {
    var p := RemoteResult(reply, randoms, now);
    RemoteShape(reply, randoms, now);
    if 0 <= reply.digit < Distribution.Digits {
      ClassifiedRowsHighlightOnce(p);
    } else {
      RemoteMissingWinner(reply, randoms, now);
    }
  }
}
