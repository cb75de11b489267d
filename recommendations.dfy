/**
 * The response check of `POST /recommendations`: the model's reply is
 * trimmed, the JSON-looking span is cut out, parsed, checked for the five
 * expected keys and returned unchanged; every failure along the way comes
 * back as one status-500 error whose detail starts with "LLM Error: ".
 *
 * The language model and `json.loads` are not modelled: they are the
 * parameters `generate` and `parse`. How the web framework renders an
 * `HTTPException` as text is the parameter `httpText`.
 */
module Recommendations {
  import opened Wrappers
  import opened Text
  import opened Json
  import opened Extraction
  import opened PromptBuilder

  /** What the model call hands back. */
  datatype Reply =
    | Answered(text: Option<string>)   // `response.text`, possibly `None`
    | Failed(message: string)          // `generate_content` or `response.text` raised; `str()` of it

  /** The exception that ends the `try` block. */
  datatype Fault =
    | Http(status: int, detail: string)   // an `HTTPException` raised by the check itself
    | ParseError(message: string)         // raised by `json.loads` (a `JSONDecodeError` on malformed text)
    | NoKeysAttribute(typeName: string)   // `parsed.keys()` on a value that is not a `dict`
    | Upstream(message: string)           // raised by the model call

  /** What the handler does with the request: return a document or raise. */
  datatype Outcome =
    | Returned(document: map<string, Value>)
    | Raised(status: int, detail: string)

  const NoJsonDetail: string := "Could not find JSON in AI response."
  const MissingKeysDetail: string := "Missing expected keys in AI response."
  const ErrorPrefix: string := "LLM Error: "

  const RequiredKeys: set<string> :=
    {"diet_types", "workouts", "breakfasts", "dinners", "additional_tips"}

  /** `(response.text or "")` before stripping. */
  function RawText(t: Option<string>): (r: string)
    ensures t.None? ==> r == ""
    ensures t.Some? ==> r == t.value
  {
    if t.Some? then t.value else ""
  }

  /** Somewhere in `s` a `{` is followed, later on, by a `}`. */
  ghost predicate HasBracePair(s: string) {
    exists i, j :: 0 <= i < j < |s| && s[i] == '{' && s[j] == '}'
  }

  /** The `try` block of the handler, from the model's reply to the parsed document. */
  function CheckReply(reply: Reply, parse: string -> Result<Value, string>): (r: Result<map<string, Value>, Fault>)
    ensures r.Ok? ==> RequiredKeys <= r.value.Keys
    ensures r.Err? && r.error.Http? ==>
      r.error.status == 500 && (r.error.detail == NoJsonDetail || r.error.detail == MissingKeysDetail)
  {
    match reply
    case Failed(message) => Err(Upstream(message))
    case Answered(t) => CheckSpan(ExtractSpan(Strip(RawText(t))), parse)
  }

  /** The `try` block from the regex match on: parse the span and look for the five keys. */
  function CheckSpan(span: Option<string>, parse: string -> Result<Value, string>): (r: Result<map<string, Value>, Fault>)
    ensures r.Ok? ==> RequiredKeys <= r.value.Keys
    ensures r.Err? && r.error.Http? ==>
      r.error.status == 500 && (r.error.detail == NoJsonDetail || r.error.detail == MissingKeysDetail)
  {
    match span
    case None => Err(Http(500, NoJsonDetail))
    case Some(json) =>
      match parse(json)
      case Err(message) => Err(ParseError(message))
      case Ok(Object(fields)) =>
        if RequiredKeys <= fields.Keys then Ok(fields) else Err(Http(500, MissingKeysDetail))
      case Ok(v) => Err(NoKeysAttribute(TypeName(v)))
  }

  /** The two error details of the check are told apart by their first letter. */
  lemma DetailsDiffer()
    ensures NoJsonDetail != MissingKeysDetail
  {
    assert NoJsonDetail[0] == 'C' && MissingKeysDetail[0] == 'M';
  }

  /** Stripping happens before the search but never changes the span. */
  lemma CheckReplySeesRawSpan(t: Option<string>, parse: string -> Result<Value, string>)
    ensures CheckReply(Answered(t), parse) == CheckSpan(ExtractSpan(RawText(t)), parse)
  {
    StripKeepsSpan(RawText(t));
  }

  /** `str(e)` for the exception that ended the `try` block. */
  function FaultText(f: Fault, httpText: (int, string) -> string): (r: string)
    ensures f.Http? ==> r == httpText(f.status, f.detail)
    ensures f.ParseError? || f.Upstream? ==> r == f.message
    ensures f.NoKeysAttribute? ==> r == "'" + f.typeName + "' object has no attribute 'keys'"
  {
    match f
    case Http(status, detail) => httpText(status, detail)
    case ParseError(message) => message
    case NoKeysAttribute(typeName) => "'" + typeName + "' object has no attribute 'keys'"
    case Upstream(message) => message
  }

  /** The whole handler: build the prompt, ask the model, check the reply, wrap any failure. */
  function GetRecommendations(
    p: Profile,
    generate: string -> Reply,
    parse: string -> Result<Value, string>,
    httpText: (int, string) -> string): (r: Outcome)
    ensures r.Raised? ==> r.status == 500 && ErrorPrefix <= r.detail
    ensures r.Returned? ==> RequiredKeys <= r.document.Keys
  {
    match CheckReply(generate(Prompt(p)), parse)
    case Ok(document) => Returned(document)
    case Err(f) => Raised(500, ErrorPrefix + FaultText(f, httpText))
  }

  /** A brace pair is exactly what the regex needs to match. */
  lemma BracePairIsMatch(s: string)
    ensures HasBracePair(s) <==> exists i: nat, j: nat :: Matches(s, i, j)
  {
    if HasBracePair(s) {
      var i, j :| 0 <= i < j < |s| && s[i] == '{' && s[j] == '}';
      assert Matches(s, i, j + 1);
    }
    if exists i: nat, j: nat :: Matches(s, i, j) {
      var i: nat, j: nat :| Matches(s, i, j);
      assert 0 <= i < j - 1 < |s| && s[i] == '{' && s[j - 1] == '}';
    }
  }

  /**
   * The reply yields the no-JSON error exactly when its text has no `{`
   * followed later by a `}`; the parser is not consulted then.
   */
  lemma NoJsonIffNoBracePair(t: Option<string>, parse: string -> Result<Value, string>)
    ensures CheckReply(Answered(t), parse) == Err(Http(500, NoJsonDetail)) <==> !HasBracePair(RawText(t))
  {
    CheckReplySeesRawSpan(t, parse);
    BracePairIsMatch(RawText(t));
    NoJsonIffNoSpan(ExtractSpan(RawText(t)), parse);
  }

  lemma NoJsonIffNoSpan(span: Option<string>, parse: string -> Result<Value, string>)
    ensures CheckSpan(span, parse) == Err(Http(500, NoJsonDetail)) <==> span.None?
  {
    DetailsDiffer();
  }

  /** A missing reply text is read as the empty string and gives the no-JSON error. */
  lemma MissingTextIsNoJson(parse: string -> Result<Value, string>)
    ensures CheckReply(Answered(None), parse) == Err(Http(500, NoJsonDetail))
  {
    NoJsonIffNoBracePair(None, parse);
  }

  /**
   * The missing-keys error comes exactly from a span that parses to an
   * object lacking one of the five keys.
   */
  lemma MissingKeysIff(t: Option<string>, parse: string -> Result<Value, string>)
    ensures CheckReply(Answered(t), parse) == Err(Http(500, MissingKeysDetail)) <==>
      var span := ExtractSpan(RawText(t));
      && span.Some?
      && parse(span.value).Ok?
      && parse(span.value).value.Object?
      && !(RequiredKeys <= parse(span.value).value.fields.Keys)
  {
    CheckReplySeesRawSpan(t, parse);
    MissingKeysIffForSpan(ExtractSpan(RawText(t)), parse);
  }

  lemma MissingKeysIffForSpan(span: Option<string>, parse: string -> Result<Value, string>)
    ensures CheckSpan(span, parse) == Err(Http(500, MissingKeysDetail)) <==>
      && span.Some?
      && parse(span.value).Ok?
      && parse(span.value).value.Object?
      && !(RequiredKeys <= parse(span.value).value.fields.Keys)
  {
    DetailsDiffer();
  }

  /**
   * A document is returned exactly when the span of the reply parses to an
   * object with all five keys, and it is that object unchanged: extra keys
   * stay, nothing is added or defaulted.
   */
  lemma ReturnedUnchanged(t: Option<string>, parse: string -> Result<Value, string>, doc: map<string, Value>)
    ensures CheckReply(Answered(t), parse) == Ok(doc) <==>
      var span := ExtractSpan(RawText(t));
      && span.Some?
      && parse(span.value) == Ok(Object(doc))
      && RequiredKeys <= doc.Keys
  {
    CheckReplySeesRawSpan(t, parse);
    ReturnedIffForSpan(ExtractSpan(RawText(t)), parse, doc);
  }

  lemma ReturnedIffForSpan(span: Option<string>, parse: string -> Result<Value, string>, doc: map<string, Value>)
    ensures CheckSpan(span, parse) == Ok(doc) <==>
      span.Some? && parse(span.value) == Ok(Object(doc)) && RequiredKeys <= doc.Keys
  {
  }

  /** An exception from the model call is re-raised as status 500 with its text after the prefix. */
  lemma ModelFailureIsWrapped(
    p: Profile,
    generate: string -> Reply,
    parse: string -> Result<Value, string>,
    httpText: (int, string) -> string,
    message: string)
    requires generate(Prompt(p)) == Failed(message)
    ensures GetRecommendations(p, generate, parse, httpText) == Raised(500, ErrorPrefix + message)
  {
  }

  /** An exception from `json.loads` on the span is re-raised as status 500 with its text after the prefix. */
  lemma ParseFailureIsWrapped(
    p: Profile,
    generate: string -> Reply,
    parse: string -> Result<Value, string>,
    httpText: (int, string) -> string,
    t: Option<string>,
    message: string)
    requires generate(Prompt(p)) == Answered(t)
    requires ExtractSpan(RawText(t)).Some? && parse(ExtractSpan(RawText(t)).value) == Err(message)
    ensures GetRecommendations(p, generate, parse, httpText) == Raised(500, ErrorPrefix + message)
  {
    CheckReplySeesRawSpan(t, parse);
    assert CheckSpan(ExtractSpan(RawText(t)), parse) == Err(ParseError(message));
    assert CheckReply(generate(Prompt(p)), parse) == Err(ParseError(message));
  }

  /** A reply without a `{` followed later by a `}` is answered with the wrapped no-JSON error. */
  lemma NoJsonIsWrapped(
    p: Profile,
    generate: string -> Reply,
    parse: string -> Result<Value, string>,
    httpText: (int, string) -> string,
    t: Option<string>)
    requires generate(Prompt(p)) == Answered(t)
    requires !HasBracePair(RawText(t))
    ensures GetRecommendations(p, generate, parse, httpText)
      == Raised(500, ErrorPrefix + httpText(500, NoJsonDetail))
  {
    NoJsonIffNoBracePair(t, parse);
    assert CheckReply(generate(Prompt(p)), parse) == Err(Http(500, NoJsonDetail));
  }

  /** A reply whose span parses to an object lacking a required key is answered with the wrapped missing-keys error. */
  lemma MissingKeysIsWrapped(
    p: Profile,
    generate: string -> Reply,
    parse: string -> Result<Value, string>,
    httpText: (int, string) -> string,
    t: Option<string>,
    fields: map<string, Value>)
    requires generate(Prompt(p)) == Answered(t)
    requires ExtractSpan(RawText(t)).Some? && parse(ExtractSpan(RawText(t)).value) == Ok(Object(fields))
    requires !(RequiredKeys <= fields.Keys)
    ensures GetRecommendations(p, generate, parse, httpText)
      == Raised(500, ErrorPrefix + httpText(500, MissingKeysDetail))
  {
    MissingKeysIff(t, parse);
    assert CheckReply(generate(Prompt(p)), parse) == Err(Http(500, MissingKeysDetail));
  }

  /** `json.loads` on text that starts with `{` yields a `dict` or raises. */
  ghost predicate ParsesBracesAsObjects(parse: string -> Result<Value, string>) {
    forall s :: 0 < |s| && s[0] == '{' && parse(s).Ok? ==> parse(s).value.Object?
  }

  /**
   * With a parser that behaves like `json.loads`, the `AttributeError` of
   * `parsed.keys()` cannot occur: the span always starts with `{`.
   */
  lemma NoKeysAttributeUnreachable(reply: Reply, parse: string -> Result<Value, string>)
    requires ParsesBracesAsObjects(parse)
    ensures !(CheckReply(reply, parse).Err? && CheckReply(reply, parse).error.NoKeysAttribute?)
  {
    if reply.Answered? {
      var span := ExtractSpan(Strip(RawText(reply.text)));
      NoKeysAttributeForSpan(span, parse);
    }
  }

  lemma NoKeysAttributeForSpan(span: Option<string>, parse: string -> Result<Value, string>)
    requires ParsesBracesAsObjects(parse)
    requires span.Some? ==> 0 < |span.value| && span.value[0] == '{'
    ensures !(CheckSpan(span, parse).Err? && CheckSpan(span, parse).error.NoKeysAttribute?)
  {
    if span.Some? {
      assert parse(span.value).Ok? ==> parse(span.value).value.Object?;
    }
  }

  /**
   * A reply that wraps a complete object in prose or markdown fences (no
   * `{` before it, no `}` after it) is answered with exactly that object.
   */
  lemma ObjectInProseIsReturned(
    p: Profile,
    generate: string -> Reply,
    parse: string -> Result<Value, string>,
    httpText: (int, string) -> string,
    pre: string, obj: string, post: string, doc: map<string, Value>)
    requires generate(Prompt(p)) == Answered(Some(pre + obj + post))
    requires '{' !in pre && '}' !in post
    requires 2 <= |obj| && obj[0] == '{' && obj[|obj| - 1] == '}'
    requires parse(obj) == Ok(Object(doc)) && RequiredKeys <= doc.Keys
    ensures GetRecommendations(p, generate, parse, httpText) == Returned(doc)
  {
    SpanOfWrappedObject(pre, obj, post);
    ReturnedUnchanged(Some(pre + obj + post), parse, doc);
  }

  lemma OccursInSchemaLine(key: string, sample: string)
    ensures OccursIn(Quoted(key), SchemaLine(key, sample))
  {
    OccursInItself(Quoted(key));
    OccursInRight(Quoted(key), "  ", Quoted(key));
    OccursInLeft(Quoted(key), "  " + Quoted(key), ": ");
    OccursInLeft(Quoted(key), "  " + Quoted(key) + ": ", sample);
    OccursInLeft(Quoted(key), "  " + Quoted(key) + ": " + sample, "\n");
  }

  /** The prompt's sample object names, in quotes, every key the check requires. */
  lemma PromptAsksForRequiredKeys(p: Profile)
    ensures forall key :: key in RequiredKeys ==> OccursIn(Quoted(key), Prompt(p))
  {
    forall key | key in RequiredKeys
      ensures OccursIn(Quoted(key), ResponseFormat)
    {
      KeyInResponseFormat(key);
    }
    forall key | key in RequiredKeys
      ensures OccursIn(Quoted(key), Prompt(p))
    {
      var head := Intro
        + PreferencesLabel + p.dietaryPreferences
        + GoalsLabel + p.fitnessGoals
        + LifestyleLabel + p.lifestyleFactors
        + RestrictionsLabel + p.dietaryRestrictions
        + ConditionsLabel + p.healthConditions
        + ConcernsLabel + p.specificConcernsOrQuestions;
      OccursInRight(Quoted(key), head, ResponseFormat);
    }
  }

  lemma KeyInResponseFormat(key: string)
    requires key in RequiredKeys
    ensures OccursIn(Quoted(key), ResponseFormat)
  {
    var h := "\n\nReturn a JSON response in exactly this format with no extra explanation or markdown:\n\n{\n";
    var l1 := SchemaLine("diet_types", "[\"Type 1\", \"Type 2\", \"Type 3\", \"Type 4\", \"Type 5\"],");
    var l2 := SchemaLine("workouts", "[\"Workout 1\", \"Workout 2\", \"Workout 3\", \"Workout 4\", \"Workout 5\"],");
    var l3 := SchemaLine("breakfasts", "[\"Breakfast 1\", \"Breakfast 2\", \"Breakfast 3\", \"Breakfast 4\", \"Breakfast 5\"],");
    var l4 := SchemaLine("dinners", "[\"Dinner 1\", \"Dinner 2\", \"Dinner 3\", \"Dinner 4\", \"Dinner 5\"],");
    var l5 := SchemaLine("additional_tips", "[\"Tip 1\", \"Tip 2\", \"Tip 3\"]");
    var q := Quoted(key);
    assert ResponseFormat == h + l1 + l2 + l3 + l4 + l5 + "}\n";
    if key == "diet_types" {
      OccursInSchemaLine(key, "[\"Type 1\", \"Type 2\", \"Type 3\", \"Type 4\", \"Type 5\"],");
      OccursInRight(q, h, l1);
    } else if key == "workouts" {
      OccursInSchemaLine(key, "[\"Workout 1\", \"Workout 2\", \"Workout 3\", \"Workout 4\", \"Workout 5\"],");
      OccursInRight(q, h + l1, l2);
    } else if key == "breakfasts" {
      OccursInSchemaLine(key, "[\"Breakfast 1\", \"Breakfast 2\", \"Breakfast 3\", \"Breakfast 4\", \"Breakfast 5\"],");
      OccursInRight(q, h + l1 + l2, l3);
    } else if key == "dinners" {
      OccursInSchemaLine(key, "[\"Dinner 1\", \"Dinner 2\", \"Dinner 3\", \"Dinner 4\", \"Dinner 5\"],");
      OccursInRight(q, h + l1 + l2 + l3, l4);
    } else {
      OccursInSchemaLine(key, "[\"Tip 1\", \"Tip 2\", \"Tip 3\"]");
      OccursInRight(q, h + l1 + l2 + l3 + l4, l5);
    }
    if OccursIn(q, h + l1) { OccursInLeft(q, h + l1, l2); }
    if OccursIn(q, h + l1 + l2) { OccursInLeft(q, h + l1 + l2, l3); }
    if OccursIn(q, h + l1 + l2 + l3) { OccursInLeft(q, h + l1 + l2 + l3, l4); }
    if OccursIn(q, h + l1 + l2 + l3 + l4) { OccursInLeft(q, h + l1 + l2 + l3 + l4, l5); }
    OccursInLeft(q, h + l1 + l2 + l3 + l4 + l5, "}\n");
  }
}
