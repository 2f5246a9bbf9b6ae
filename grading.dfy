/** The fixed shape of a grading result and the normalization that forces a decoded reply
    into it. The same normalization is written twice in the repository, as
    `DeepSeekGrader._validate_result` and inside `grade_with_deepseek`; it is defined once
    here. */
module Grading {
  import opened Wrappers
  import opened Json

  /** One graded aspect. `question` and `feedback` are whatever the reply held under those
      keys (Python keeps them as decoded), `mistakes` is always a list and `score` a float. */
  datatype Criterion = Criterion(question: Json, mistakes: seq<Json>, score: real, feedback: Json)

  datatype GradingResult = GradingResult(results: seq<Criterion>, totalScore: real, overallFeedback: Json)

  /** An exception raised while normalizing, by the Python built-in that raises it. */
  datatype NormError =
    | NoGet(typeName: string)        // AttributeError: `.get` on something that is not a dict
    | NotIterable(typeName: string)  // TypeError: iterating over a value that is not iterable
    | FloatArg(typeName: string)     // TypeError: `float()` of None, a list or a dict
    | FloatText(text: string)        // ValueError: `float()` of a string that is not a number

  /** `str(e)` for each kind of exception. */
  function Message(e: NormError): string {
    match e
    case NoGet(t) => "'" + t + "' object has no attribute 'get'"
    case NotIterable(t) => "'" + t + "' object is not iterable"
    case FloatArg(t) => "float() argument must be a string or a real number, not '" + t + "'"
    case FloatText(s) => "could not convert string to float: '" + s + "'"
  }

  /** The values `float()` accepts; `toFloat` is the (given) parse of numeric text. */
  predicate Coercible(v: Json, toFloat: string -> Option<real>) {
    v.JInt? || v.JFloat? || v.JBool? || (v.JStr? && toFloat(v.s).Some?)
  }

  /** `float(v)`. */
  function ToFloat(v: Json, toFloat: string -> Option<real>): (r: Result<real, NormError>)
    ensures r.Ok? <==> Coercible(v, toFloat)
    ensures v.JFloat? ==> r == Ok(v.f)
    ensures v.JInt? ==> r == Ok(v.i as real)
    ensures v.JBool? ==> r == Ok(if v.b then 1.0 else 0.0)
    ensures v.JStr? && r.Ok? ==> toFloat(v.s) == Some(r.value)
    ensures r.Err? ==> r.error == (if v.JStr? then FloatText(v.s) else FloatArg(TypeName(v)))
  {
    match v
    case JInt(i) => Ok(i as real)
    case JFloat(f) => Ok(f)
    case JBool(b) => Ok(if b then 1.0 else 0.0)
    case JStr(s) => (match toFloat(s) case Some(x) => Ok(x) case None => Err(FloatText(s)))
    case _ => Err(FloatArg(TypeName(v)))
  }

  /** A results entry normalizes when it is a dict whose score, if present, is numeric. */
  predicate EntryNormalizable(r: Json, toFloat: string -> Option<real>) {
    r.JObj? && ("score" in r.fields ==> Coercible(r.fields["score"], toFloat))
  }

  /** Normalization of one results entry (one iteration of the list comprehension). */
  function ValidateEntry(r: Json, toFloat: string -> Option<real>): (c: Result<Criterion, NormError>)
    ensures c.Ok? <==> EntryNormalizable(r, toFloat)
  {
    match r
    case JObj(m) =>
      var mistakes := if "mistakes" in m && m["mistakes"].JArr? then m["mistakes"].items else [];
      (match ToFloat(Lookup(m, "score", JInt(0)), toFloat)
       case Err(e) => Err(e)
       case Ok(score) =>
         Ok(Criterion(Lookup(m, "question", JStr("Unnamed aspect")), mistakes, score,
                      Lookup(m, "feedback", JStr("No feedback provided")))))
    case _ => Err(NoGet(TypeName(r)))
  }

  /** The list comprehension over the entries, left to right; the first exception escapes. */
  function ValidateAll(items: seq<Json>, toFloat: string -> Option<real>): (r: Result<seq<Criterion>, NormError>)
    ensures r.Ok? <==> forall i :: 0 <= i < |items| ==> EntryNormalizable(items[i], toFloat)
    ensures r.Ok? ==> |r.value| == |items|
    ensures r.Ok? ==> forall i :: 0 <= i < |items| ==> ValidateEntry(items[i], toFloat) == Ok(r.value[i])
  {
    if items == [] then Ok([])
    else
      match ValidateEntry(items[0], toFloat)
      case Err(e) => Err(e)
      case Ok(c) =>
        match ValidateAll(items[1..], toFloat)
        case Err(e) => Err(e)
        case Ok(cs) =>
          assert forall i :: 1 <= i < |items| ==> items[1..][i - 1] == items[i];
          Ok([c] + cs)
  }

  /** Iterating over the value found under "results": a list yields its elements; an empty
      string or an empty dict yields nothing; a non-empty string or dict yields strings
      (characters, keys), on which `.get` fails; anything else is not iterable. */
  function ValidateResults(v: Json, toFloat: string -> Option<real>): (r: Result<seq<Criterion>, NormError>)
    ensures r.Ok? <==> || (v.JArr? && forall i :: 0 <= i < |v.items| ==> EntryNormalizable(v.items[i], toFloat))
                       || v == JStr("") || v == JObj(map[])
    ensures r.Ok? && v.JArr? ==> |r.value| == |v.items|
  {
    match v
    case JArr(items) => ValidateAll(items, toFloat)
    case JStr(s) => if s == [] then Ok([]) else Err(NoGet("str"))
    case JObj(m) => if m == map[] then Ok([]) else Err(NoGet("str"))
    case _ => Err(NotIterable(TypeName(v)))
  }

  /** The entries a reply lists under "results" (none when the key is absent). */
  function Entries(reply: Json): seq<Json> {
    if reply.JObj? && "results" in reply.fields && reply.fields["results"].JArr?
    then reply.fields["results"].items
    else []
  }

  /** The replies normalization accepts: a dict whose "results", if present, is a list of
      normalizable entries or an empty string or dict, and whose "totalScore", if present,
      is numeric. */
  predicate Normalizable(reply: Json, toFloat: string -> Option<real>) {
    && reply.JObj?
    && ("results" in reply.fields ==>
          var v := reply.fields["results"];
          || (v.JArr? && forall i :: 0 <= i < |v.items| ==> EntryNormalizable(v.items[i], toFloat))
          || v == JStr("") || v == JObj(map[]))
    && ("totalScore" in reply.fields ==> Coercible(reply.fields["totalScore"], toFloat))
  }

  /** `_validate_result`: normalization succeeds exactly on the normalizable replies, and then
      keeps the entries in number and order, each normalized on its own. */
  function Validate(reply: Json, toFloat: string -> Option<real>): (r: Result<GradingResult, NormError>)
    ensures r.Ok? <==> Normalizable(reply, toFloat)
    ensures r.Ok? ==> |r.value.results| == |Entries(reply)|
    ensures r.Ok? ==> forall i :: 0 <= i < |Entries(reply)| ==>
                        ValidateEntry(Entries(reply)[i], toFloat) == Ok(r.value.results[i])
  {
    match reply
    case JObj(m) =>
      (match ValidateResults(Lookup(m, "results", JArr([])), toFloat)
       case Err(e) => Err(e)
       case Ok(rs) =>
         match ToFloat(Lookup(m, "totalScore", JInt(0)), toFloat)
         case Err(e) => Err(e)
         case Ok(total) =>
           Ok(GradingResult(rs, total, Lookup(m, "overallFeedback", JStr("No overall feedback provided")))))
    case _ => Err(NoGet(TypeName(reply)))
  }

  /** The dictionary a grading result is, as `json` would encode it. */
  function CriterionToJson(c: Criterion): Json {
    JObj(map["question" := c.question, "mistakes" := JArr(c.mistakes), "score" := JFloat(c.score),
             "feedback" := c.feedback])
  }

  function CriteriaToJson(cs: seq<Criterion>): seq<Json> {
    if cs == [] then [] else [CriterionToJson(cs[0])] + CriteriaToJson(cs[1..])
  }

  function ToJson(g: GradingResult): Json {
    JObj(map["results" := JArr(CriteriaToJson(g.results)),
             "totalScore" := JFloat(g.totalScore), "overallFeedback" := g.overallFeedback])
  }

  lemma CriterionRoundTrip(c: Criterion, toFloat: string -> Option<real>)
    ensures ValidateEntry(CriterionToJson(c), toFloat) == Ok(c)
  {
  }

  lemma {:induction false} EntriesRoundTrip(cs: seq<Criterion>, toFloat: string -> Option<real>)
    ensures ValidateAll(CriteriaToJson(cs), toFloat) == Ok(cs)
  {
    if cs != [] {
      CriterionRoundTrip(cs[0], toFloat);
      EntriesRoundTrip(cs[1..], toFloat);
      assert [cs[0]] + cs[1..] == cs;
    }
  }

  /** Every normalized result, encoded back, normalizes to itself. */
  lemma {:induction false} RoundTrip(g: GradingResult, toFloat: string -> Option<real>)
    ensures Validate(ToJson(g), toFloat) == Ok(g)
  {
    var js := CriteriaToJson(g.results);
    var m := ToJson(g).fields;
    assert Lookup(m, "results", JArr([])) == JArr(js);
    EntriesRoundTrip(g.results, toFloat);
    assert ValidateResults(JArr(js), toFloat) == Ok(g.results);
    assert Lookup(m, "totalScore", JInt(0)) == JFloat(g.totalScore);
    assert Lookup(m, "overallFeedback", JStr("No overall feedback provided")) == g.overallFeedback;
  }

  /** `_validate_result` is idempotent: normalizing its own output changes nothing. */
  lemma Idempotent(reply: Json, toFloat: string -> Option<real>)
    requires Validate(reply, toFloat).Ok?
    ensures Validate(ToJson(Validate(reply, toFloat).value), toFloat) == Validate(reply, toFloat)
  {
    RoundTrip(Validate(reply, toFloat).value, toFloat);
  }

  /** Keys missing from an entry take their defaults. */
  lemma EntryDefaults(m: map<string, Json>, toFloat: string -> Option<real>)
    requires "question" !in m && "mistakes" !in m && "score" !in m && "feedback" !in m
    ensures ValidateEntry(JObj(m), toFloat)
            == Ok(Criterion(JStr("Unnamed aspect"), [], 0.0, JStr("No feedback provided")))
  {
  }

  /** A results entry without "question" is named "Unnamed aspect", whatever else it holds. */
  lemma MissingQuestion(m: map<string, Json>, toFloat: string -> Option<real>)
    requires "question" !in m && ValidateEntry(JObj(m), toFloat).Ok?
    ensures ValidateEntry(JObj(m), toFloat).value.question == JStr("Unnamed aspect")
  {
  }

  /** A results entry without "score" scores 0, whatever else it holds. */
  lemma MissingScore(m: map<string, Json>, toFloat: string -> Option<real>)
    requires "score" !in m
    ensures ValidateEntry(JObj(m), toFloat).Ok?
    ensures ValidateEntry(JObj(m), toFloat).value.score == 0.0
  {
  }

  /** A results entry without "mistakes" has no mistakes, whatever else it holds. */
  lemma MissingMistakes(m: map<string, Json>, toFloat: string -> Option<real>)
    requires "mistakes" !in m && ValidateEntry(JObj(m), toFloat).Ok?
    ensures ValidateEntry(JObj(m), toFloat).value.mistakes == []
  {
  }

  /** A results entry without "feedback" gets "No feedback provided", whatever else it holds. */
  lemma MissingFeedback(m: map<string, Json>, toFloat: string -> Option<real>)
    requires "feedback" !in m && ValidateEntry(JObj(m), toFloat).Ok?
    ensures ValidateEntry(JObj(m), toFloat).value.feedback == JStr("No feedback provided")
  {
  }

  /** A key present in a results entry is kept as given: the question, a list of mistakes
      and the feedback verbatim, and the score as `float()` of the value found. */
  lemma PresentEntryKeys(m: map<string, Json>, toFloat: string -> Option<real>)
    requires ValidateEntry(JObj(m), toFloat).Ok?
    ensures "question" in m ==> ValidateEntry(JObj(m), toFloat).value.question == m["question"]
    ensures "mistakes" in m && m["mistakes"].JArr? ==>
              ValidateEntry(JObj(m), toFloat).value.mistakes == m["mistakes"].items
    ensures "score" in m ==> ToFloat(m["score"], toFloat) == Ok(ValidateEntry(JObj(m), toFloat).value.score)
    ensures "feedback" in m ==> ValidateEntry(JObj(m), toFloat).value.feedback == m["feedback"]
  {
  }

  /** A "mistakes" value that is not a list becomes the empty list. */
  lemma NonListMistakes(m: map<string, Json>, toFloat: string -> Option<real>)
    requires "mistakes" in m && !m["mistakes"].JArr?
    requires ValidateEntry(JObj(m), toFloat).Ok?
    ensures ValidateEntry(JObj(m), toFloat).value.mistakes == []
  {
  }

  /** Keys missing from the reply take their defaults: no entries, total 0, default feedback. */
  lemma ReplyDefaults(m: map<string, Json>, toFloat: string -> Option<real>)
    requires "results" !in m && "totalScore" !in m && "overallFeedback" !in m
    ensures Validate(JObj(m), toFloat) == Ok(GradingResult([], 0.0, JStr("No overall feedback provided")))
  {
  }

  /** A reply without "results" normalizes to no entries, whatever else it holds. */
  lemma MissingResults(m: map<string, Json>, toFloat: string -> Option<real>)
    requires "results" !in m && Validate(JObj(m), toFloat).Ok?
    ensures Validate(JObj(m), toFloat).value.results == []
  {
  }

  /** A reply without "totalScore" totals 0, whatever else it holds. */
  lemma MissingTotal(m: map<string, Json>, toFloat: string -> Option<real>)
    requires "totalScore" !in m && Validate(JObj(m), toFloat).Ok?
    ensures Validate(JObj(m), toFloat).value.totalScore == 0.0
  {
  }

  /** A reply without "overallFeedback" gets "No overall feedback provided", whatever else
      it holds. */
  lemma MissingOverallFeedback(m: map<string, Json>, toFloat: string -> Option<real>)
    requires "overallFeedback" !in m && Validate(JObj(m), toFloat).Ok?
    ensures Validate(JObj(m), toFloat).value.overallFeedback == JStr("No overall feedback provided")
  {
  }

  /** A key present in the reply is kept as given: the total as `float()` of the value
      found, the overall feedback verbatim. */
  lemma PresentReplyKeys(m: map<string, Json>, toFloat: string -> Option<real>)
    requires Validate(JObj(m), toFloat).Ok?
    ensures "totalScore" in m ==>
              ToFloat(m["totalScore"], toFloat) == Ok(Validate(JObj(m), toFloat).value.totalScore)
    ensures "overallFeedback" in m ==>
              Validate(JObj(m), toFloat).value.overallFeedback == m["overallFeedback"]
  {
  }

  /** The result `_create_fallback_response` builds when the reply's JSON does not decode:
      one entry, half the points as its score and as the total, and the raw reply verbatim
      as both feedback texts. */
  function Fallback(response: string, pointsAvailable: real): (g: GradingResult)
    ensures |g.results| == 1
    ensures g.results[0].score == g.totalScore == pointsAvailable * 0.5
    ensures g.results[0].feedback == g.overallFeedback == JStr(response)
    ensures g.results[0].mistakes == [JStr("Could not parse grading response")]
  {
    var c := Criterion(JStr("Submission evaluation"), [JStr("Could not parse grading response")],
                       pointsAvailable * 0.5, JStr(response));
    GradingResult([c], pointsAvailable * 0.5, JStr(response))
  }

  /** The result `_create_error_response` builds: one entry, score and total 0, and the error
      message behind a fixed prefix in both feedback texts. */
  function ErrorResponse(message: string): (g: GradingResult)
    ensures |g.results| == 1
    ensures g.results[0].score == g.totalScore == 0.0
    ensures g.results[0].feedback == JStr("Error during grading: " + message)
    ensures g.overallFeedback == JStr("An error occurred during grading: " + message)
  {
    var c := Criterion(JStr("Error in grading"), [JStr("Could not process submission")], 0.0,
                       JStr("Error during grading: " + message));
    GradingResult([c], 0.0, JStr("An error occurred during grading: " + message))
  }

  /** An error response is never mistaken for a fallback: their single entries carry
      different questions. */
  lemma ErrorIsNotFallback(message: string, response: string, pointsAvailable: real)
    ensures ErrorResponse(message) != Fallback(response, pointsAvailable)
  {
    assert ErrorResponse(message).results[0].question != Fallback(response, pointsAvailable).results[0].question;
  }
}
