/** `DeepSeekGrader` in deepseek_grader.py: cutting the JSON payload out of the grading
    model's free-text reply, decoding and normalizing it, and choosing between the
    normalized result, the 50% fallback and the zero-score error response. The model call
    itself is a given `Reply`; `json.loads` is the given partial function `loads`. */
module DeepSeekGrader {
  import opened Wrappers
  import opened Json
  import opened Text
  import opened Grading

  const START_TAG := "<response>"
  const END_TAG := "</response>"

  /** What the chat-completion call gave: the message content (which the SDK may leave as
      None), or an exception with its message. */
  datatype Reply = Completion(content: Option<string>) | CallFailed(message: string)

  /** An exception that escapes `_parse_grading_response` or the call itself. */
  datatype GradeError =
    | NoJsonStructure              // the ValueError raised when no span is found
    | NotNormalized(e: NormError)  // raised inside `_validate_result`
    | NoContent                    // `.find` on a None message content
    | Raised(message: string)      // the request itself raised

  /** `str(e)` for each escaping exception. */
  function ErrorText(e: GradeError): string {
    match e
    case NoJsonStructure => "No JSON structure found in response"
    case NotNormalized(n) => Message(n)
    case NoContent => "'NoneType' object has no attribute 'find'"
    case Raised(m) => m
  }

  /** The two tags cannot overlap: a close tag found after an open tag starts after its end. */
  lemma TagsApart(response: string, s: int, e: int)
    requires OccursAt(response, START_TAG, s) && OccursAt(response, END_TAG, e) && s < e
    ensures s + |START_TAG| <= e
  {
    assert response[e] == response[e..e + |END_TAG|][0] == '<';
    forall k | s < k < s + |START_TAG| ensures response[k] != '<' {
      assert response[k] == response[s..s + |START_TAG|][k - s];
    }
  }

  /** The text strictly between the first `<response>` and the first `</response>`, when
      the latter comes after the former. */
  function TaggedSpan(response: string): Option<string> {
    var s := Find(response, START_TAG);
    var e := Find(response, END_TAG);
    if s >= 0 && e > s then
      TagsApart(response, s, e);
      Some(response[s + |START_TAG|..e])
    else None
  }

  /** The text from the first `{` through the last `}`, when there is such a span. */
  function BracedSpan(response: string): (r: Option<string>)
    ensures r.Some? ==> 2 <= |r.value| && r.value[0] == '{' && r.value[|r.value| - 1] == '}'
  {
    var b := Find(response, "{");
    var e := RFind(response, '}') + 1;
    if b >= 0 && e > b then Some(response[b..e]) else None
  }

  /** The payload `_parse_grading_response` hands to `json.loads`: the tagged span with
      white space stripped, and failing that the braced span. */
  function Payload(response: string): Option<string> {
    match TaggedSpan(response)
    case Some(p) => Some(Strip(p))
    case None => BracedSpan(response)
  }

  /** `_parse_grading_response`: a payload that does not decode gives the fallback; a decoded
      payload is normalized, and an exception from normalization escapes, as does the
      ValueError when no payload is found. */
  function ParseGradingResponse(response: string, pointsAvailable: real, loads: string -> Option<Json>,
                                toFloat: string -> Option<real>): Result<GradingResult, GradeError>
  {
    match Payload(response)
    case None => Err(NoJsonStructure)
    case Some(p) =>
      match loads(p)
      case None => Ok(Fallback(response, pointsAvailable))
      case Some(v) =>
        match Validate(v, toFloat)
        case Err(e) => Err(NotNormalized(e))
        case Ok(g) => Ok(g)
  }

  /** `grade_submission`: every escaping exception becomes the error response. */
  function GradeSubmission(reply: Reply, pointsAvailable: real, loads: string -> Option<Json>,
                           toFloat: string -> Option<real>): GradingResult
  {
    var parsed :=
      match reply
      case CallFailed(m) => Err(Raised(m))
      case Completion(None) => Err(NoContent)
      case Completion(Some(c)) => ParseGradingResponse(c, pointsAvailable, loads, toFloat);
    match parsed
    case Ok(g) => g
    case Err(e) => ErrorResponse(ErrorText(e))
  }

  /** `pat` holds its first character nowhere else. */
  predicate FirstUnique(pat: string) {
    |pat| > 0 && forall k :: 1 <= k < |pat| ==> pat[k] != pat[0]
  }

  /** Both tags start with `<` and hold it nowhere else. */
  lemma TagsFirstUnique()
    ensures FirstUnique(START_TAG) && FirstUnique(END_TAG)
  {
  }

  /** A pattern that starts with a character it holds nowhere else cannot occur across the
      front of a text that starts with that character. */
  lemma NoEarlierOccurrence(a: string, b: string, pat: string)
    requires FirstUnique(pat) && |b| > 0 && b[0] == pat[0]
    requires Absent(a, pat)
    ensures forall i :: 0 <= i < |a| ==> !OccursAt(a + b, pat, i)
  {
    var r := a + b;
    forall i | 0 <= i < |a| ensures !OccursAt(r, pat, i) {
      if i + |pat| <= |a| {
        assert !OccursAt(a, pat, i);
        assert r[i..i + |pat|] == a[i..i + |pat|];
      } else if i + |pat| <= |r| {
        assert pat[|a| - i] != pat[0];
        assert r[i..i + |pat|][|a| - i] == r[|a|] == pat[0];
      }
    }
  }

  /** Under the conditions of `NoEarlierOccurrence`, `find` reports the front of `pat + c`. */
  lemma FindAtJoin(a: string, pat: string, c: string)
    requires FirstUnique(pat)
    requires Absent(a, pat)
    ensures Find(a + (pat + c), pat) == |a|
  {
    var r := a + (pat + c);
    assert r[|a|..|a| + |pat|] == pat;
    assert OccursAt(r, pat, |a|);
    NoEarlierOccurrence(a, pat + c, pat);
  }

  /** When the first `<response>` comes before the first `</response>`, the tagged span is
      the text between them. */
  lemma TaggedSpanAt(r: string, s: int, e: int)
    requires Find(r, START_TAG) == s && Find(r, END_TAG) == e && 0 <= s < e
    ensures s + |START_TAG| <= e
    ensures TaggedSpan(r) == Some(r[s + |START_TAG|..e])
  {
    TagsApart(r, s, e);
  }

  /** When `<response>` first occurs at the end of `pre` and the first `</response>` follows
      `mid`, the payload is `mid` with white space stripped, whatever comes after. */
  lemma TaggedPayload(pre: string, mid: string, post: string)
    requires Absent(pre, START_TAG)
    requires Absent(pre + START_TAG + mid, END_TAG)
    ensures Payload(pre + START_TAG + mid + END_TAG + post) == Some(Strip(mid))
  {
    var r := pre + START_TAG + mid + END_TAG + post;
    var a := pre + START_TAG + mid;
    TagFinds(pre, mid, post);
    TaggedSpanAt(r, |pre|, |a|);
    assert r[|pre| + |START_TAG|..|a|] == mid;
  }

  /** Where `find` reports the two tags in the text `TaggedPayload` reads. */
  lemma TagFinds(pre: string, mid: string, post: string)
    requires Absent(pre, START_TAG)
    requires Absent(pre + START_TAG + mid, END_TAG)
    ensures Find(pre + START_TAG + mid + END_TAG + post, START_TAG) == |pre|
    ensures Find(pre + START_TAG + mid + END_TAG + post, END_TAG) == |pre| + |START_TAG| + |mid|
  {
    var r := pre + START_TAG + mid + END_TAG + post;
    TagsFirstUnique();
    assert r == pre + (START_TAG + (mid + END_TAG + post));
    FindAtJoin(pre, START_TAG, mid + END_TAG + post);
    assert r == (pre + START_TAG + mid) + (END_TAG + post);
    FindAtJoin(pre + START_TAG + mid, END_TAG, post);
  }

  /** `find` of one character reports its first position. */
  lemma FindChar(r: string, c: char, i: nat)
    requires i < |r| && r[i] == c
    requires forall k :: 0 <= k < i ==> r[k] != c
    ensures Find(r, [c]) == i
  {
    assert r[i..i + 1] == [c];
    assert OccursAt(r, [c], i);
    forall k | 0 <= k < i ensures !OccursAt(r, [c], k) {
      assert r[k..k + 1][0] == r[k];
    }
  }

  /** The braced route finds a payload exactly when the reply holds a `{` with a `}` somewhere
      after it. */
  lemma BracedSpanFound(response: string)
    ensures BracedSpan(response).Some? <==>
              exists i, k :: 0 <= i < k < |response| && response[i] == '{' && response[k] == '}'
  {
    var b := Find(response, "{");
    if exists i, k :: 0 <= i < k < |response| && response[i] == '{' && response[k] == '}' {
      var i, k :| 0 <= i < k < |response| && response[i] == '{' && response[k] == '}';
      assert response[i..i + 1] == "{";
      assert OccursAt(response, "{", i);
      assert 0 <= b <= i;
      assert RFind(response, '}') >= k;
    }
    if b >= 0 {
      assert response[b..b + 1][0] == response[b];
    }
  }

  /** `rfind` of a character reports its last position. */
  lemma RFindChar(r: string, c: char, i: nat)
    requires i < |r| && r[i] == c
    requires forall k :: i < k < |r| ==> r[k] != c
    ensures RFind(r, c) == i
  {
  }

  /** The braced span runs from the first `{` through the last `}`. */
  lemma BracedSpanAt(r: string, b: int, e: int)
    requires Find(r, "{") == b && RFind(r, '}') == e && 0 <= b <= e
    ensures BracedSpan(r) == Some(r[b..e + 1])
  {
  }

  /** With no `{` before the one that opens the span and no `}` after the one that closes
      it, the braced span is exactly that text, braces included. */
  lemma BracedPayload(pre: string, mid: string, post: string)
    requires '{' !in pre && '}' !in post
    ensures BracedSpan(pre + ("{" + mid + "}") + post) == Some("{" + mid + "}")
  {
    var span := "{" + mid + "}";
    var r := pre + span + post;
    var close := |pre| + |span| - 1;
    forall k | 0 <= k < |pre| ensures r[k] != '{' {
      assert r[k] == pre[k];
    }
    assert r[|pre|] == span[0];
    FindChar(r, '{', |pre|);
    forall k | close < k < |r| ensures r[k] != '}' {
      assert r[k] == post[k - close - 1];
    }
    assert r[close] == span[|span| - 1];
    RFindChar(r, '}', close);
    BracedSpanAt(r, |pre|, close);
    assert r[|pre|..close + 1] == span;
  }

  /** Without a `<response>` tag the payload is the braced span. */
  lemma UntaggedPayload(response: string)
    requires Absent(response, START_TAG)
    ensures Payload(response) == BracedSpan(response)
  {
  }

  /** A `<response>` with no `</response>` anywhere after it, as in a reply cut off before
      its end, turns the tag route off: the payload is the braced span. */
  lemma UnclosedTag(pre: string, rest: string)
    requires Absent(pre, START_TAG) && Absent(pre + START_TAG + rest, END_TAG)
    ensures Payload(pre + START_TAG + rest) == BracedSpan(pre + START_TAG + rest)
  {
  }

  /** A `</response>` that comes before any `<response>` turns the tag route off: the payload
      is the braced span even when a well-formed tag pair follows. */
  lemma StrayCloseTag(pre: string, rest: string)
    requires Absent(pre, START_TAG) && Absent(pre, END_TAG)
    ensures Payload(pre + END_TAG + rest) == BracedSpan(pre + END_TAG + rest)
  {
    var r := pre + END_TAG + rest;
    assert r == pre + (END_TAG + rest);
    TagsFirstUnique();
    FindAtJoin(pre, END_TAG, rest);
    NoEarlierOccurrence(pre, END_TAG + rest, START_TAG);
    forall i | |pre| <= i <= |pre| + |START_TAG| ensures !OccursAt(r, START_TAG, i) {
      if i + |START_TAG| <= |r| {
        if i == |pre| {
          assert r[i..i + |START_TAG|][1] == r[i + 1] == END_TAG[1];
        } else {
          assert r[i..i + |START_TAG|][0] == r[i] == END_TAG[i - |pre|];
        }
      }
    }
    var s := Find(r, START_TAG);
    assert s == -1 || s > |pre| + |START_TAG| by {
      if s != -1 {
        assert OccursAt(r, START_TAG, s);
      }
    }
  }

  /** No payload: the ValueError escapes the parser and the caller returns the error
      response, not the fallback. */
  lemma NoPayloadGivesError(content: string, pointsAvailable: real, loads: string -> Option<Json>,
                            toFloat: string -> Option<real>)
    requires Payload(content) == None
    ensures GradeSubmission(Completion(Some(content)), pointsAvailable, loads, toFloat)
            == ErrorResponse("No JSON structure found in response")
    ensures GradeSubmission(Completion(Some(content)), pointsAvailable, loads, toFloat)
            != Fallback(content, pointsAvailable)
  {
    ErrorIsNotFallback("No JSON structure found in response", content, pointsAvailable);
  }

  /** A payload that does not decode gives the fallback: one entry worth half the points,
      with the raw reply as its feedback and as the overall feedback. */
  lemma UndecodableGivesFallback(content: string, pointsAvailable: real, loads: string -> Option<Json>,
                                 toFloat: string -> Option<real>)
    requires Payload(content).Some? && loads(Payload(content).value) == None
    ensures GradeSubmission(Completion(Some(content)), pointsAvailable, loads, toFloat)
            == Fallback(content, pointsAvailable)
  {
  }

  /** A payload that decodes but cannot be normalized (a top level that is not an object, a
      score that is not numeric, ...) gives the error response and never the fallback: the
      exception escapes the handler that only catches decode errors. */
  lemma UnnormalizableGivesError(content: string, pointsAvailable: real, loads: string -> Option<Json>,
                                 toFloat: string -> Option<real>)
    requires Payload(content).Some? && loads(Payload(content).value).Some?
    requires !Normalizable(loads(Payload(content).value).value, toFloat)
    ensures GradeSubmission(Completion(Some(content)), pointsAvailable, loads, toFloat)
            == ErrorResponse(Message(Validate(loads(Payload(content).value).value, toFloat).error))
    ensures GradeSubmission(Completion(Some(content)), pointsAvailable, loads, toFloat)
            != Fallback(content, pointsAvailable)
  {
    ErrorIsNotFallback(Message(Validate(loads(Payload(content).value).value, toFloat).error), content,
                       pointsAvailable);
  }

  /** A top level that is not an object fails on its first `.get`. */
  lemma NonObjectGivesError(content: string, pointsAvailable: real, loads: string -> Option<Json>,
                            toFloat: string -> Option<real>)
    requires Payload(content).Some? && loads(Payload(content).value).Some?
    requires !loads(Payload(content).value).value.JObj?
    ensures GradeSubmission(Completion(Some(content)), pointsAvailable, loads, toFloat)
            == ErrorResponse("'" + TypeName(loads(Payload(content).value).value) + "' object has no attribute 'get'")
  {
  }

  /** A payload that normalizes is returned as normalized. */
  lemma NormalizedPassesThrough(content: string, pointsAvailable: real, loads: string -> Option<Json>,
                                toFloat: string -> Option<real>)
    requires Payload(content).Some? && loads(Payload(content).value).Some?
    requires Normalizable(loads(Payload(content).value).value, toFloat)
    ensures GradeSubmission(Completion(Some(content)), pointsAvailable, loads, toFloat)
            == Validate(loads(Payload(content).value).value, toFloat).value
  {
  }

  /** A failed request gives the error response carrying the exception's message. */
  lemma CallFailureGivesError(message: string, pointsAvailable: real, loads: string -> Option<Json>,
                              toFloat: string -> Option<real>)
    ensures GradeSubmission(CallFailed(message), pointsAvailable, loads, toFloat) == ErrorResponse(message)
  {
  }

  /** A completion without message content fails on `.find` inside the parser, and that
      exception becomes the error response. */
  lemma NoContentGivesError(pointsAvailable: real, loads: string -> Option<Json>,
                            toFloat: string -> Option<real>)
    ensures GradeSubmission(Completion(None), pointsAvailable, loads, toFloat)
            == ErrorResponse("'NoneType' object has no attribute 'find'")
  {
  }

  /** Parsing is idempotent on well-formed input: a normalized result, encoded and wrapped in
      the tags, is read back as itself (given a decoder that reads the encoding back). */
  lemma ReparseNormalized(g: GradingResult, text: string, pointsAvailable: real, loads: string -> Option<Json>,
                          toFloat: string -> Option<real>)
    requires Absent(START_TAG + text, END_TAG)
    requires loads(Strip(text)) == Some(ToJson(g))
    ensures ParseGradingResponse(START_TAG + text + END_TAG, pointsAvailable, loads, toFloat) == Ok(g)
  {
    assert Absent([], START_TAG);
    assert [] + START_TAG + text == START_TAG + text;
    TaggedPayload([], text, []);
    assert [] + START_TAG + text + END_TAG + [] == START_TAG + text + END_TAG;
    RoundTrip(g, toFloat);
  }
}
