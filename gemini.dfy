/** The response checks of `classifyWithGemini` (src/utils/geminiClassifier.ts):
    the HTTP status guard, the candidate-text guard, the greedy
    `/\{[\s\S]*\}/` extraction and the construction of the reply. The request
    itself (image encoding, prompt, `fetch`) is an input: either the response
    or the error it raised. `JSON.parse` is a function parameter, and the
    numbers `parseInt`/`parseFloat` produce are given in its output. */
module Gemini {
  import opened Wrappers

  /** What `fetch` resolved to. `body` is the candidate text read from
      `response.json()` through `candidates[0].content.parts[0].text`: a
      failure when reading it threw, `None` when the text is undefined. */
  datatype HttpResponse = HttpResponse(ok: bool, status: int, body: Result<Option<string>, string>)

  /** The fields of the parsed JSON object, after `parseInt`/`parseFloat`. */
  datatype ParsedFields = ParsedFields(digit: int, confidence: real, reasoning: Option<string>)

  /** Every way the call throws. */
  datatype GeminiError =
    | RequestFailed(message: string)  // canvas context, encoding or `fetch` threw
    | ApiError(status: int)            // "Gemini API error: <status>"
    | BodyUnreadable(message: string) // `response.json()` or the candidate path threw
    | NoResponse                       // "No response from Gemini"
    | Unparsable                       // "Could not parse Gemini response"
    | InvalidJson(message: string)     // `JSON.parse` threw

  datatype GeminiReply = GeminiReply(digit: int, confidence: real, reasoning: string)

  const DefaultReasoning: string := "No reasoning provided"

  /** Index of the first occurrence of `c` in `s`. */
  function FirstIndexOf(s: string, c: char): (r: Option<nat>)
    ensures r.Some? ==> r.value < |s| && s[r.value] == c && forall k :: 0 <= k < r.value ==> s[k] != c
    ensures r.None? ==> forall k :: 0 <= k < |s| ==> s[k] != c
  {
    if |s| == 0 then None
    else if s[0] == c then Some(0)
    else match FirstIndexOf(s[1..], c)
      case None => None
      case Some(i) => Some(i + 1)
  }

  /** Index of the last occurrence of `c` in `s`. */
  function LastIndexOf(s: string, c: char): (r: Option<nat>)
    ensures r.Some? ==> r.value < |s| && s[r.value] == c && forall k :: r.value < k < |s| ==> s[k] != c
    ensures r.None? ==> forall k :: 0 <= k < |s| ==> s[k] != c
  {
    if |s| == 0 then None
    else if s[|s| - 1] == c then Some(|s| - 1)
    else LastIndexOf(s[..|s| - 1], c)
  }

  /** `text.match(/\{[\s\S]*\}/)`: from the first `{` to the last `}` after it. */
  function ExtractObject(text: string): (m: Option<string>)
    ensures m.Some? <==> exists i, j :: 0 <= i < j < |text| && text[i] == '{' && text[j] == '}'
    ensures m.Some? ==> |m.value| >= 2 && m.value[0] == '{' && m.value[|m.value| - 1] == '}'
    ensures m.Some? ==> exists i, j :: 0 <= i <= j <= |text| && m.value == text[i..j]
  {
    match (FirstIndexOf(text, '{'), LastIndexOf(text, '}'))
    case (Some(i), Some(j)) =>
      if i < j then Some(text[i..j + 1]) else None
    case _ => None
  }

  /** `text[i..j]` is matched by the pattern: it opens with `{` and closes with
      `}` (`[\s\S]*` accepts anything in between, line breaks included). */
  predicate Matches(text: string, i: int, j: int)
  {
    0 <= i && i + 2 <= j <= |text| && text[i] == '{' && text[j - 1] == '}'
  }

  /** The match a backtracking regex engine reports for a greedy pattern: the
      leftmost start, and for it the longest match. */
  ghost predicate LeftmostLongest(text: string, i: int, j: int)
  {
    && Matches(text, i, j)
    && (forall i', j' :: Matches(text, i', j') ==> i <= i')
    && (forall j' :: Matches(text, i, j') ==> j' <= j)
  }

  /** The extraction returns exactly the leftmost-longest match, and nothing
      when there is no match. */
  lemma ExtractIsLeftmostLongest(text: string)
    ensures ExtractObject(text).None? <==> forall i, j :: !Matches(text, i, j)
    ensures ExtractObject(text).Some? ==>
      exists i, j :: LeftmostLongest(text, i, j) && ExtractObject(text).value == text[i..j]
  {
    var f, l := FirstIndexOf(text, '{'), LastIndexOf(text, '}');
    if ExtractObject(text).Some? {
      var i, j := f.value, l.value + 1;
      assert Matches(text, i, j);
      assert ExtractObject(text).value == text[i..j];
      forall i', j' | Matches(text, i', j') ensures i <= i' {
        assert text[i'] == '{';
      }
      forall j' | Matches(text, i, j') ensures j' <= j {
        assert text[j' - 1] == '}';
      }
      assert LeftmostLongest(text, i, j);
    }
  }

  /** `result.reasoning || 'No reasoning provided'`. */
  function Reasoning(parsed: Option<string>): (r: string)
    ensures r != ""
    ensures parsed.Some? && parsed.value != "" ==> r == parsed.value
    ensures parsed.None? || parsed.value == "" ==> r == DefaultReasoning
  {
    match parsed
    case Some(s) => if s != "" then s else DefaultReasoning
    case None => DefaultReasoning
  }

  /** The guard sequence of `classifyWithGemini`, lines 64-87; every error is
      re-thrown to the caller (lines 89-92), here returned as a failure. */
  function ClassifyWithGemini(
    response: Result<HttpResponse, string>,
    jsonParse: string -> Result<ParsedFields, string>): (r: Result<GeminiReply, GeminiError>)
  {
    match response
    case Failure(msg) => Failure(RequestFailed(msg))
    case Success(resp) =>
      if !resp.ok then Failure(ApiError(resp.status))
      else match resp.body
        case Failure(msg) => Failure(BodyUnreadable(msg))
        case Success(text) =>
          if text.None? || text.value == "" then Failure(NoResponse)
          else match ExtractObject(text.value)
            case None => Failure(Unparsable)
            case Some(json) =>
              match jsonParse(json)
              case Failure(msg) => Failure(InvalidJson(msg))
              case Success(f) => Success(GeminiReply(f.digit, f.confidence, Reasoning(f.reasoning)))
  }

  /** The call succeeds exactly when the request went out, the status is ok,
      the candidate text is present and non-empty, it holds a `{...}` match
      and that match parses; the reply then carries the parsed digit and
      confidence and a non-empty reasoning. */
  lemma SuccessConditions(response: Result<HttpResponse, string>, jsonParse: string -> Result<ParsedFields, string>)
    ensures var r := ClassifyWithGemini(response, jsonParse);
      r.Success? <==>
        && response.Success? && response.value.ok
        && response.value.body.Success? && response.value.body.value.Some?
        && (exists i, j :: Matches(response.value.body.value.value, i, j))
        && jsonParse(ExtractObject(response.value.body.value.value).value).Success?
    ensures var r := ClassifyWithGemini(response, jsonParse);
      r.Success? ==>
        var f := jsonParse(ExtractObject(response.value.body.value.value).value).value;
        r.value.digit == f.digit && r.value.confidence == f.confidence && r.value.reasoning != ""
  {
    if response.Success? && response.value.body.Success? && response.value.body.value.Some? {
      var t := response.value.body.value.value;
      ExtractIsLeftmostLongest(t);
      if t == "" {
        assert !Matches(t, 0, 0);
      }
    }
  }

  /** A failed request and a non-ok status are errors whatever the body and
      the parser, and the original error is passed on unchanged. */
  lemma ErrorsPropagate(response: Result<HttpResponse, string>, jsonParse: string -> Result<ParsedFields, string>)
    ensures response.Failure? ==>
      ClassifyWithGemini(response, jsonParse) == Failure(RequestFailed(response.error))
    ensures response.Success? && !response.value.ok ==>
      ClassifyWithGemini(response, jsonParse) == Failure(ApiError(response.value.status))
    ensures response.Success? && response.value.ok && response.value.body.Success?
            && (response.value.body.value.None? || response.value.body.value.value == "") ==>
      ClassifyWithGemini(response, jsonParse) == Failure(NoResponse)
  {
  }
}
