/** `fallbackClassify` and `classifyDigit` (src/utils/classifier.ts): the
    try-remote-then-fallback policy and the result each path builds. The
    remote outcome, the clock (`Date.now`) and the draws of `Math.random` are
    inputs. */
module Classifier {
  import opened Wrappers
  import opened Prediction
  import opened Preprocess
  import opened Heuristic
  import opened Distribution
  import opened Gemini

  /** Non-winners on the fallback path get `Math.random() * 0.2`. */
  const FallbackSpread: real := 0.2

  /** What `fallbackClassify` returns once the picture is an intensity vector. */
  function FallbackResult(pixels: seq<real>, randoms: seq<real>, now: int): PredictionResult
    requires |randoms| == Distribution.Digits
  {
    var g := FallbackGuess(pixels);
    PredictionResult(g.digit, g.confidence, Rank(g.digit, g.confidence, randoms, FallbackSpread), now, None)
  }

  /** What `classifyDigit` returns when the remote call succeeded: non-winners
      get `(Math.random() * (1 - c)) / 9`, which over the reals is the draw
      times `(1 - c) / 9`. The reply's reasoning is not copied. */
  function RemoteResult(reply: GeminiReply, randoms: seq<real>, now: int): PredictionResult
    requires |randoms| == Distribution.Digits
  {
    var c := reply.confidence;
    PredictionResult(reply.digit, c, Rank(reply.digit, c, randoms, (1.0 - c) / 9.0), now, None)
  }

  /** On the fallback path: ten entries, every digit once, sorted; the
      predicted digit is first and carries the confidence, every other entry
      lies in [0, 0.2); the confidence is 0.3 to 0.6 and the digit 0, 1 or 7. */
  lemma FallbackShape(pixels: seq<real>, randoms: seq<real>, now: int)
    requires IsOracle(randoms)
    ensures var r := FallbackResult(pixels, randoms, now);
      && |r.allPredictions| == Distribution.Digits
      && Sorted(r.allPredictions)
      && ExactlyOnce(r.allPredictions)
      && r.allPredictions[0] == Entry(r.digit, r.confidence)
      && (forall k :: 1 <= k < |r.allPredictions| ==>
            r.allPredictions[k].digit != r.digit
            && 0.0 <= r.allPredictions[k].confidence < FallbackSpread)
      && 0.3 <= r.confidence <= 0.6 && r.digit in {0, 1, 7}
      && r.reasoning.None? && r.timestamp == now
  {
    var g := FallbackGuess(pixels);
    DecideRange(TopSum(pixels), BottomSum(pixels), LeftSum(pixels), RightSum(pixels));
    RankShape(g.digit, g.confidence, randoms, FallbackSpread);
    NonWinnerBound(g.digit, g.confidence, randoms, FallbackSpread);
    WinnerFirst(g.digit, g.confidence, randoms, FallbackSpread);
    var s := Rank(g.digit, g.confidence, randoms, FallbackSpread);
    forall k | 1 <= k < |s| ensures s[k].digit != g.digit {
      if s[k].digit == g.digit {
        ExactlyOnceUnique(s, 0, k);
      }
    }
  }

  /** On the remote path: ten entries, every digit once, sorted. When the digit
      is 0..9 its entry carries the reported confidence; when moreover the
      confidence is in [0, 1], every other entry lies in [0, (1 - c) / 9]
      (strictly below the bound when c < 1); from c >= 0.1 on, including
      confidences above 1, the winner comes first. */
  lemma RemoteShape(reply: GeminiReply, randoms: seq<real>, now: int)
    requires IsOracle(randoms)
    ensures var r := RemoteResult(reply, randoms, now);
      var c := reply.confidence;
      && r.digit == reply.digit && r.confidence == c
      && |r.allPredictions| == Distribution.Digits
      && Sorted(r.allPredictions)
      && ExactlyOnce(r.allPredictions)
      && (0 <= r.digit < Distribution.Digits ==> Entry(r.digit, c) in r.allPredictions)
      && (0.0 <= c <= 1.0 ==>
            forall k :: 0 <= k < |r.allPredictions| && r.allPredictions[k].digit != r.digit ==>
              0.0 <= r.allPredictions[k].confidence <= (1.0 - c) / 9.0
              && (c < 1.0 ==> r.allPredictions[k].confidence < (1.0 - c) / 9.0))
      && (0 <= r.digit < Distribution.Digits && 0.1 <= c ==>
            r.allPredictions[0] == Entry(r.digit, c))
      && r.reasoning.None? && r.timestamp == now
  {
    var c := reply.confidence;
    var scale := (1.0 - c) / 9.0;
    RankShape(reply.digit, c, randoms, scale);
    if 0.0 <= c <= 1.0 {
      NonWinnerBound(reply.digit, c, randoms, scale);
    }
    if 0 <= reply.digit < Distribution.Digits && 0.1 <= c {
      WinnerFirst(reply.digit, c, randoms, scale);
    }
  }

  /** A remote digit outside 0..9 (what `parseInt` may yield) has no entry in
      `allPredictions`: the winner is missing from the list. */
  lemma RemoteMissingWinner(reply: GeminiReply, randoms: seq<real>, now: int)
    requires |randoms| == Distribution.Digits && !(0 <= reply.digit < Distribution.Digits)
    ensures var r := RemoteResult(reply, randoms, now);
      forall k :: 0 <= k < |r.allPredictions| ==> r.allPredictions[k].digit != r.digit
  {
    MissingWinner(reply.digit, reply.confidence, randoms, (1.0 - reply.confidence) / 9.0);
  }

  /** A remote confidence above 1 (what `parseFloat` may yield) pushes the
      entry of every non-winner with a positive draw below 0. */
  lemma RemoteStrayConfidence(reply: GeminiReply, randoms: seq<real>, now: int, d: int)
    requires IsOracle(randoms) && reply.confidence > 1.0
    requires 0 <= d < Distribution.Digits && d != reply.digit && randoms[d] > 0.0
    ensures var r := RemoteResult(reply, randoms, now);
      exists k :: 0 <= k < |r.allPredictions| && r.allPredictions[k].digit == d
                  && r.allPredictions[k].confidence < 0.0
  {
    var c := reply.confidence;
    var scale := (1.0 - c) / 9.0;
    var u := Synthesize(reply.digit, c, randoms, scale);
    SortDescMembers(u);
    assert u[d] == Entry(d, randoms[d] * scale);
    assert -scale > 0.0;
    MulNonNegative(randoms[d], -scale);
    assert randoms[d] * scale == -(randoms[d] * -scale);
    var s := SortDesc(u);
    assert s == RemoteResult(reply, randoms, now).allPredictions;
    var k :| 0 <= k < |s| && s[k] == u[d];
    assert s[k].digit == d && s[k].confidence < 0.0;
  }

  /** `fallbackClassify`: preprocess the picture, then guess and rank. */
  method FallbackClassify(contextOk: bool, data: array<Byte>, randoms: seq<real>, now: int)
    returns (r: PredictionResult)
    requires data.Length % 4 == 0 && |randoms| == Distribution.Digits
    ensures r == FallbackResult(Preprocessed(contextOk, data[..]), randoms, now)
  {
    var pixels := PreprocessImage(contextOk, data);
    r := FallbackResult(pixels, randoms, now);
  }

  /** `classifyDigit`: ask the remote service; use its reply when the call
      succeeded, otherwise (whatever the error) the fallback's result,
      unchanged. `data` is the resized 28 x 28 RGBA buffer the fallback reads. */
  method ClassifyDigit(
    response: Result<HttpResponse, string>, jsonParse: string -> Result<ParsedFields, string>,
    contextOk: bool, data: array<Byte>, randoms: seq<real>, now: int)
    returns (r: PredictionResult)
    requires data.Length % 4 == 0 && |randoms| == Distribution.Digits
    ensures var remote := ClassifyWithGemini(response, jsonParse);
      remote.Success? ==>
        && r.digit == remote.value.digit && r.confidence == remote.value.confidence
        && r.allPredictions == Rank(r.digit, r.confidence, randoms, (1.0 - r.confidence) / 9.0)
        && r.timestamp == now
    ensures ClassifyWithGemini(response, jsonParse).Failure? ==>
      r == FallbackResult(Preprocessed(contextOk, data[..]), randoms, now)
    ensures r.reasoning.None?
  {
    var remote := ClassifyWithGemini(response, jsonParse);
    match remote
    case Success(reply) =>
      r := RemoteResult(reply, randoms, now);
    case Failure(_) =>
      r := FallbackClassify(contextOk, data, randoms, now);
  }
}
