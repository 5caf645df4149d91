# Handwritten digit page: a Dafny model of its logic

The page lets a user draw a digit on a 280 x 280 canvas. When a stroke ends,
the picture goes to the Gemini vision API. If that call fails for any
reason, a crude local heuristic classifies the picture instead. Either way
the page shows a digit, a confidence, a ten-row confidence list and a
history of recent results.

This project models the sequential logic around that flow:

- **Preprocess**: the grayscale/invert loop that turns the resized 28 x 28
  RGBA buffer into 784 intensities (`preprocessImage`). It is a method with
  a loop, proved against the function `IntensityVector`.
- **Heuristic**: the half-grid sums and the ordered decision table of
  `fallbackClassify`.
- **Distribution**: the ten-entry `allPredictions` list. The winner keeps its
  confidence and the other digits get scaled random draws; the draws of
  `Math.random` are an oracle parameter. The list is sorted by a stable
  insertion sort.
- **Gemini**: the guards of `classifyWithGemini`: status, candidate text,
  the greedy `/\{[\s\S]*\}/` extraction and the reasoning default.
  `JSON.parse` is a function parameter.
- **Classifier**: `fallbackClassify` and the try-remote-then-fallback policy
  of `classifyDigit`.
- **Canvas**: the `DrawingCanvas` component as a class. Its fields are
  `isDrawing` and `lastPoint`, plus a log of drawing commands and the
  snapshots passed to `onChange`. Its handlers are tied to pure transition
  functions, and lemmas replay whole gesture sequences over those functions.
- **Session**: the `DigitClassifier` page state (`prediction`,
  `isProcessing`, `history`) as a class. Its methods are tied to pure
  transition functions in the same way.
- **Display**: the confidence bands and the show/hide conditions of
  `PredictionDisplay`.

Numbers are Dafny `real`. The comparisons matter here, not IEEE rounding.
The clock, the random draws, the HTTP response and whether a 2D context
exists are all parameters.

Behaviours of the source that the model keeps rather than fixes:

- **Missing winner.** A remote digit outside 0..9 gets no entry in
  `allPredictions` (`Classifier.RemoteMissingWinner`), and no row is
  highlighted (`Display.RemoteDisplay`). The winner's entry is guaranteed
  only for digits 0..9.
- **Stray confidence.** A remote confidence above 1 pushes non-winner
  entries below 0 (`Classifier.RemoteStrayConfidence`).
- **Reasoning is dropped.** `classifyDigit` never copies the reply's
  `reasoning`, so the reasoning panel never appears
  (`Classifier.ClassifyDigit`, `Display.FallbackDisplay`,
  `Display.RemoteDisplay`).
- **Clear leaves ink everywhere.** Clear uses `clearRect`, which leaves the
  canvas transparent black rather than white. Alpha is ignored, so those
  pixels read as ink, exactly like black (`Canvas.ClearLeavesInk`,
  `Preprocess.WhiteAndTransparent`). The next stroke's snapshot still shows
  that transparent background (`Canvas.StrokeBackground`). A uniform picture, whether blank white
  or wiped, is guessed as 0 with confidence 0.4 (`Heuristic.UniformGuess`).

Three further facts about the code:

- A parsed object with missing fields is not an error. The missing fields
  turn into NaN in the numbers.
- The extraction runs from the first `{` to the last `}`. It does not
  balance braces.
- On the remote path each non-winner entry is below (1 - c) / 9 only when
  c < 1. At c = 1 every non-winner entry is exactly 0.

## Model

| member | source | states |
|---|---|---|
| Preprocess.Intensity | src/utils/classifier.ts:73-79 | the value is in [0, 1]; it is 0 exactly for white (255, 255, 255) and 1 exactly for black (0, 0, 0) |
| Preprocess.IntensityVector | src/utils/classifier.ts:69-83 | one value per RGBA quadruple: length is a quarter of the buffer's |
| Preprocess.Blank | src/utils/classifier.ts:51 | a missing 2D context yields 784 zeros |
| Preprocess.IntensityAt | src/utils/classifier.ts:72-80 | value k is the intensity of bytes 4k, 4k+1 and 4k+2; pixels stay in row-major buffer order |
| Preprocess.PreprocessedShape | src/utils/classifier.ts:51-83 | the 28 x 28 buffer gives 784 values, and so does a missing context; every value lies in [0, 1] |
| Preprocess.AlphaIgnored | src/utils/classifier.ts:73-79 | buffers that differ only in alpha give the same vector |
| Preprocess.UniformBuffer | src/utils/classifier.ts:72-81 | a buffer of one repeated pixel gives a constant vector of that pixel's intensity |
| Preprocess.WhiteAndTransparent | src/utils/classifier.ts:77-79 | all-white gives all 0; transparent (0,0,0,0) gives all 1, the same as opaque black |
| Preprocess.Preprocessed | src/utils/classifier.ts:45-84 | what `preprocessImage` returns: `Blank()` without a 2D context, otherwise the intensity vector of the buffer; its shape and range are stated by `PreprocessedShape` |
| Preprocess.PreprocessImage | src/utils/classifier.ts:45-84 | the stepped loop returns exactly `Preprocessed(contextOk, data)`: zeros without a context, otherwise the intensity vector |
| Heuristic.Sum | src/utils/classifier.ts:10-11 | the `reduce` that adds up a slice; with `SumBounds` it lies in [0, length] for intensities |
| Heuristic.TopSum | src/utils/classifier.ts:10 | the sum of the first 392 values (rows 0-13), or of all of them when there are fewer |
| Heuristic.BottomSum | src/utils/classifier.ts:11 | the sum from value 392 on (rows 14-27); with `TopSum` it partitions `Sum` (`HalvesPartition`) |
| Heuristic.LeftSum | src/utils/classifier.ts:12 | the sum over indices whose column `i % 28` is below 14 |
| Heuristic.RightSum | src/utils/classifier.ts:13 | the sum over indices whose column is 14 or more; with `LeftSum` it partitions `Sum` (`HalvesPartition`) |
| Heuristic.Decide | src/utils/classifier.ts:16-28 | the ordered rule chain; its outcomes and their conditions are stated by `DecideTable`, `DecideRange` and `DecideExamples` |
| Heuristic.FallbackGuess | src/utils/classifier.ts:10-28 | the four sums of a picture fed to `Decide`; for a uniform picture it gives (0, 0.4) (`UniformGuess`) |
| Heuristic.HalvesPartition | src/utils/classifier.ts:10-13 | top + bottom = total = left + right for every vector |
| Heuristic.SumBounds | src/utils/classifier.ts:10-13 | a sum of intensities in [0, 1] lies in [0, length] |
| Heuristic.DecideTable | src/utils/classifier.ts:16-28 | the four outcomes (7, 0.6), (1, 0.5), (0, 0.4), (0, 0.3), each with the condition that selects it (every earlier rule failed) |
| Heuristic.DecideRange | src/utils/classifier.ts:16-28 | the digit is 0, 1 or 7; the confidence is in [0.3, 0.6]; it is below 0.4 only for the no-rule case |
| Heuristic.DecideExamples | src/utils/classifier.ts:19-28 | the worked examples: top-heavy gives 7, left-heavy gives 1, balanced gives 0 at 0.4, otherwise 0 at 0.3 |
| Heuristic.UniformGuess | src/utils/classifier.ts:10-28 | a uniform 784-vector of any intensity in [0, 1] is guessed as (0, 0.4) |
| Distribution.Synthesize | src/utils/classifier.ts:31-33 | slot i holds digit i, with the winner's confidence in the winner's slot and draw i times the scale elsewhere (`SynthesizeDigits`, `RankEntries`) |
| Distribution.Insert | src/utils/classifier.ts:34 | one insertion step of the descending sort; it keeps a sorted list sorted and adds exactly one entry (`InsertSorted`, `InsertPermutes`) |
| Distribution.SortDesc | src/utils/classifier.ts:34 | `sort((a, b) => b.confidence - a.confidence)` as insertion sort; `SortDescCorrect` states it is sorted and a permutation |
| Distribution.Rank | src/utils/classifier.ts:31-34 | the sorted synthesized list shared by both paths; `RankShape` states its shape |
| Distribution.SortDescCorrect | src/utils/classifier.ts:34 | the sort is non-increasing by confidence and a permutation of its input (entries and digits) |
| Distribution.RankShape | src/utils/classifier.ts:31-34 | ten entries, sorted, every digit 0..9 exactly once; the winner's entry is present when the winner is 0..9; every other entry is its own draw times the scale |
| Distribution.NonWinnerBound | src/utils/classifier.ts:33 | with draws in [0, 1), non-winners lie in [0, scale], strictly below a positive scale |
| Distribution.WinnerFirst | src/utils/classifier.ts:31-34 | when the winner's confidence is positive and at least the scale, the winner is the first entry, a negative scale included |
| Distribution.MissingWinner | src/utils/classifier.ts:93-94 | a winner outside 0..9 has no entry at all |
| Gemini.ClassifyWithGemini | src/utils/geminiClassifier.ts:64-92 | the guard chain over the response; when it succeeds and when it fails, with which error, is stated by `SuccessConditions` and `ErrorsPropagate` |
| Gemini.ExtractObject | src/utils/geminiClassifier.ts:76-79 | a match exists iff some `{` precedes some `}`; the match starts with `{`, ends with `}` and is a slice of the text |
| Gemini.ExtractIsLeftmostLongest | src/utils/geminiClassifier.ts:76 | the extraction is the leftmost, then longest, match of the pattern, and nothing when no match exists |
| Gemini.Reasoning | src/utils/geminiClassifier.ts:86 | never empty; the parsed reasoning when present and non-empty, otherwise "No reasoning provided" |
| Gemini.SuccessConditions | src/utils/geminiClassifier.ts:64-87 | success iff request sent, status ok, text non-empty, a match exists and it parses; the reply carries the parsed digit and confidence |
| Gemini.ErrorsPropagate | src/utils/geminiClassifier.ts:64-92 | a failed request is passed on with its own message; a non-ok status is an error whatever the body; missing or empty text is an error |
| Classifier.FallbackResult | src/utils/classifier.ts:30-41 | the record `fallbackClassify` returns for an intensity vector; its shape is stated by `FallbackShape` |
| Classifier.RemoteResult | src/utils/classifier.ts:93-109 | the record `classifyDigit` returns on remote success; its shape is stated by `RemoteShape` |
| Classifier.FallbackShape | src/utils/classifier.ts:16-41 | fallback result: ten sorted entries, each digit once; the predicted digit is first with its confidence; all others are in [0, 0.2); no reasoning; timestamp is the clock |
| Classifier.RemoteShape | src/utils/classifier.ts:93-109 | remote result: the reply's digit and confidence; ten sorted entries, each digit once; for digit 0..9 the winner's entry carries c; for c in [0, 1] the others are in [0, (1-c)/9] (strict when c < 1); for every c ≥ 0.1, above 1 included, the winner comes first |
| Classifier.RemoteMissingWinner | src/utils/classifier.ts:93-101 | a remote digit outside 0..9 appears in no entry |
| Classifier.RemoteStrayConfidence | src/utils/classifier.ts:98-99 | a confidence above 1 gives a negative entry to every non-winner with a positive draw |
| Classifier.FallbackClassify | src/utils/classifier.ts:5-42 | preprocess then guess and rank: equals `FallbackResult` of the preprocessed vector |
| Classifier.ClassifyDigit | src/utils/classifier.ts:87-115 | on remote success: the remote digit and confidence; on any failure: exactly the fallback's result; never any reasoning |
| Canvas.EventPos | src/components/DrawingCanvas.tsx:37-57 | `getEventPos` for mouse and touch events; `EventPosRoundTrip` and `EventPosEdges` state what the mapping does |
| Canvas.Started | src/components/DrawingCanvas.tsx:59-64 | `startDrawing` on the state value; `DrawingCanvas.StartDrawing` is tied to it |
| Canvas.Drawn | src/components/DrawingCanvas.tsx:66-82 | `draw` on the state value, with its three guards; `MovesDraw` and `PolylineChains` state what a run of moves draws |
| Canvas.Stopped | src/components/DrawingCanvas.tsx:84-96 | `stopDrawing` on the state value; `OneSnapshotPerStroke` and `StrokeSnapshot` state the snapshots it emits |
| Canvas.Wiped | src/components/DigitClassifier.tsx:32-35 | the page's `clearRect` on the canvas state; `ClearLeavesInk` and `StrokeBackground` state the background it leaves |
| Canvas.EventPosRoundTrip | src/components/DrawingCanvas.tsx:41-56 | mapping a client point to canvas coordinates and back gives the point again |
| Canvas.EventPosEdges | src/components/DrawingCanvas.tsx:41-56 | the left/top edges map to 0; the right/bottom edges map to the logical width/height |
| Canvas.Background | src/components/DrawingCanvas.tsx:28-29 | the colour of uncovered pixels is either transparent black or white, and it is white exactly when some white fill has not been cleared since |
| Canvas.PolylineKeepsBackground | src/components/DrawingCanvas.tsx:74-79 | strokes paint segments but never change the background colour |
| Canvas.StrokeBackground | src/components/DigitClassifier.tsx:29-38 | a stroke's snapshot shows the background it started on; the first stroke after Clear is snapshotted on a transparent black background, intensity 1 |
| Canvas.ClearLeavesInk | src/components/DigitClassifier.tsx:34 | after `clearRect` the background is (0,0,0,0), intensity 1 (ink); the mounted canvas is white, intensity 0 |
| Canvas.ReplayConsistent | src/components/DrawingCanvas.tsx:59-88 | over any gesture sequence, `isDrawing` holds exactly when `lastPoint` is set |
| Canvas.OneSnapshotPerStroke | src/components/DrawingCanvas.tsx:84-96 | snapshots emitted plus an open stroke never exceed the presses; snapshots are never lost |
| Canvas.PolylineChains | src/components/DrawingCanvas.tsx:74-81 | a stroke's segments start at the press point, end at each move, and chain end to start |
| Canvas.MovesDraw | src/components/DrawingCanvas.tsx:66-82 | moves during a stroke append that stroke's polyline and leave `lastPoint` at the last move |
| Canvas.StrokeSnapshot | src/components/DrawingCanvas.tsx:59-96 | press, moves, release: draws the polyline and emits exactly one snapshot of the whole canvas, all earlier marks included |
| Canvas.DrawingCanvas.constructor | src/components/DrawingCanvas.tsx:16-35 | mounting: not drawing, no last point; with a context the canvas is 280 x 280 and white-filled |
| Canvas.DrawingCanvas.StartDrawing | src/components/DrawingCanvas.tsx:59-64 | `isDrawing` becomes true and `lastPoint` becomes the event position |
| Canvas.DrawingCanvas.Draw | src/components/DrawingCanvas.tsx:66-82 | no change when not drawing, with no last point or with no context; otherwise appends the segment last→current and moves `lastPoint` to current |
| Canvas.DrawingCanvas.StopDrawing | src/components/DrawingCanvas.tsx:84-96 | no effect when not drawing; otherwise clears both cells and, with a context, emits one snapshot |
| Canvas.DrawingCanvas.ClearRect | src/components/DigitClassifier.tsx:32-35 | with a context, appends a whole-canvas clear; nothing else changes |
| Session.Recorded | src/components/DigitClassifier.tsx:23-25 | the history update after a result; `RecordedShape` states its bound, order and eviction |
| Session.Begun | src/components/DigitClassifier.tsx:15 | `setIsProcessing(true)` on the page state |
| Session.Completed | src/components/DigitClassifier.tsx:20-25 | the prediction, the history update and the end of processing; `RunKeepsHistoryOk` states the history invariant it keeps |
| Session.Cleared | src/components/DigitClassifier.tsx:37 | `setPrediction(null)`; `ClearKeepsHistory` states what it keeps |
| Session.ResetDone | src/components/DigitClassifier.tsx:40-44 | clear plus `setHistory([])`; `ResetIdempotent` states its result |
| Session.RecordedShape | src/components/DigitClassifier.tsx:23-25 | at most 10 entries; confidence > 0.1 gives `[result] + old[..min(9, |old|)]`, otherwise history is unchanged; at ten entries the oldest is evicted |
| Session.ResetIdempotent | src/components/DigitClassifier.tsx:40-44 | reset leaves no prediction and an empty history; resetting twice equals resetting once |
| Session.ClearKeepsHistory | src/components/DigitClassifier.tsx:29-38 | clear drops the prediction and keeps history and the processing flag |
| Session.RunKeepsHistoryOk | src/components/DigitClassifier.tsx:14-44 | over any sequence of events, history stays at most 10 entries, each with confidence > 0.1 |
| Session.DigitClassifier.constructor | src/components/DigitClassifier.tsx:9-11 | no prediction, not processing, empty history |
| Session.DigitClassifier.BeginProcessing | src/components/DigitClassifier.tsx:15 | `isProcessing` becomes true; nothing else changes |
| Session.DigitClassifier.Complete | src/components/DigitClassifier.tsx:19-25 | `prediction` becomes the result, `isProcessing` false, whatever the confidence; history is `Recorded(old, result)` |
| Session.DigitClassifier.HandleCanvasChange | src/components/DigitClassifier.tsx:14-27 | begin, classify, complete; the result is the remote one on success and the fallback's otherwise |
| Session.DigitClassifier.ClearCanvas | src/components/DigitClassifier.tsx:29-38 | prediction becomes null and history is untouched; a mounted canvas is wiped with `clearRect` |
| Session.DigitClassifier.ResetAll | src/components/DigitClassifier.tsx:40-44 | the canvas is cleared, history emptied and prediction null |
| Display.ConfidenceColor | src/components/PredictionDisplay.tsx:11-16 | the colour class chain; `BandsAgree` states that it picks the band of the confidence |
| Display.ConfidenceLabel | src/components/PredictionDisplay.tsx:18-23 | the label chain; `BandsAgree` and `WarningIffLowLabel` state its bands |
| Display.BarGradient | src/components/PredictionDisplay.tsx:91-97 | the bar gradient chain; `BandsAgree` states that it picks the band of the confidence |
| Display.ShowsSpinner | src/components/PredictionDisplay.tsx:33 | the spinner shows while processing; `ExactlyOnePanel` states the panels exclude each other |
| Display.ShowsPlaceholder | src/components/PredictionDisplay.tsx:42 | the placeholder shows when idle with no prediction |
| Display.ShowsResult | src/components/PredictionDisplay.tsx:52 | the result panel shows when idle with a prediction |
| Display.ShowsReasoning | src/components/PredictionDisplay.tsx:72 | the reasoning panel shows when the result carries reasoning; `FallbackDisplay` and `RemoteDisplay` state that it never does |
| Display.Highlighted | src/components/PredictionDisplay.tsx:112 | a row is highlighted when its digit is the predicted digit; `ClassifiedRowsHighlightOnce` states it happens once |
| Display.ShowsWarning | src/components/PredictionDisplay.tsx:135 | the warning shows below 0.4 confidence; `WarningIffLowLabel` ties it to the label |
| Display.BandOf | src/components/PredictionDisplay.tsx:18-23 | the bands: ≥ 0.8, [0.6, 0.8), [0.4, 0.6), below 0.4 |
| Display.BandsAgree | src/components/PredictionDisplay.tsx:11-23 | colour, label and the bar gradient (lines 91-97) each pick the band of the confidence; two confidences share a colour, label or gradient iff they share a band |
| Display.WarningIffLowLabel | src/components/PredictionDisplay.tsx:135 | the warning shows iff the label is "Low Confidence" |
| Display.ExactlyOnePanel | src/components/PredictionDisplay.tsx:33-52 | exactly one of spinner, placeholder and result panel is shown |
| Display.ClassifiedRowsHighlightOnce | src/components/PredictionDisplay.tsx:112 | with every digit once and a predicted digit in 0..9, exactly one row is highlighted |
| Display.FallbackDisplay | src/components/PredictionDisplay.tsx:72-135 | fallback result: only the first row is highlighted, no reasoning panel, and the warning shows iff no rule of the table fired |
| Display.RemoteDisplay | src/components/PredictionDisplay.tsx:72 | remote result: no reasoning panel; some row is highlighted iff the digit is 0..9 |

## Left out

- Network and serialisation are not modelled: the image encoding (`toDataURL`), the prompt, the URL, the API key and `fetch` itself. The HTTP outcome is an input `Result<HttpResponse, string>`.
- `JSON.parse` is a function parameter. `parseInt` and `parseFloat` are outside the model: the parsed digit is an `int` and the confidence a `real`. A NaN cannot be represented; an out-of-range digit and a confidence above 1 can.
- JavaScript's wider notion of a falsy `reasoning` (0, false, null) is not modelled: reasoning is `Option<string>`.
- The resampling of the 280 x 280 canvas to 28 x 28 (`drawImage`) is not modelled, because the browser's filter is unspecified. Preprocessing starts from the resized buffer. Its length must be a multiple of 4, which every `ImageData` buffer is.
- Rasterisation is abstracted: line width, round caps, `stroke`, `fillRect` and `getImageData` become a log of marks. A snapshot is ink-free data, not pixels, so the link from a snapshot to the buffer the classifier reads is not modelled.
- Asynchrony is not modelled: the 300 ms `setTimeout`, `async`/`await`, and the race in which a stale response overwrites a newer one. `HandleCanvasChange` is one synchronous step.
- React's deferred state updates are not modelled: a handler's update is visible to the next handler at once.
- `Math.random` and `Date.now` are parameters (`randoms`, `now`). The draws are assumed to lie in [0, 1).
- Floating point is not modelled; numbers are `real`.
- `getEventPos` on an unmounted canvas (returning (0, 0)) is not modelled; the canvas object always exists in the model. A displayed box of zero width or height is excluded by a precondition, because the browser delivers no pointer events to such a box.
- `preventDefault` on pointer events is not modelled.
- Presentation is not modelled: JSX markup, icons, `toFixed` percentages, `toLocaleTimeString`, bar widths and console logging. Colours and gradients are kept as their class strings only because the band functions return them.
- src/App.tsx (layout only) is not part of this model, and neither is the unused `TrainingData` record.
- Distribution.SortDescCorrect: the sort is proved sorted and a permutation; that it keeps equal entries in slot order, as the stable built-in sort does, is not proved.
