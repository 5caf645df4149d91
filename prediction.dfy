/** The record shape shared by the classifier and the page
    (src/types/prediction.ts). */
module Prediction {
  import opened Wrappers

  /** One row of `allPredictions`: a digit and the confidence displayed for it. */
  datatype Entry = Entry(digit: int, confidence: real)

  /** A classification outcome. `timestamp` is the clock reading (milliseconds)
      taken when the result was built; `reasoning` is optional. */
  datatype PredictionResult = PredictionResult(
    digit: int,
    confidence: real,
    allPredictions: seq<Entry>,
    timestamp: int,
    reasoning: Option<string>)
}
