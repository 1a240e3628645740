/** The `POST /api/search` handler: read the query with defaults, refuse without an
    API key, ask the upstream model once, and turn its reply into the cleaned array
    or an error object. */
module Handler {
  import opened Results
  import opened Json
  import opened Text
  import opened Sanitizer
  import opened Prompt

  /** Query parameters used when the request body lacks them. */
  const DefaultRole: string := "Elektriker EFZ"
  const DefaultCity: string := "Basel"
  const DefaultRadius: int := 20

  /** Fixed texts of the error objects. */
  const MissingKeyError: string := "OPENAI_API_KEY fehlt auf dem Server"
  const MissingKeyHint: string := "Bitte Environment Variable setzen."
  const UpstreamError: string := "Fehler bei OpenAI Anfrage"
  const InvalidReplyError: string := "Antwort war kein valides JSON-Array"

  /** `str(e)` of the `AttributeError` raised by `.strip()` when the reply has no content. */
  const NoContentMessage: string := "'NoneType' object has no attribute 'strip'"

  /** The three query parameters, as whatever JSON values the body held. */
  datatype Query = Query(role: Value, city: Value, radius: Value)

  /** How the single upstream call ended: it raised, or it returned a first choice
      whose message content may be missing. */
  datatype Upstream = Raised(message: string) | Replied(content: Option<string>)

  /** The request sent upstream. */
  datatype Call = Call(model: string, temperature: real, system: string, user: string)

  /** A response body: JSON, or the framework's page for an unhandled exception. */
  datatype Payload = JsonBody(value: Value) | UnhandledErrorPage

  /** What the endpoint answers, and the upstream request it made, if any. */
  datatype Response = Response(status: nat, payload: Payload, call: Option<Call>)

  /** `request.get_json(force=True, silent=True) or {}`: an unreadable body
      (`None`) and every falsy JSON value become the empty object. */
  function EffectiveBody(body: Option<Value>): (b: Value)
    ensures Truthy(b) || b == Obj(map[])
    ensures body.Some? && Truthy(body.value) ==> b == body.value
    ensures body.None? || !Truthy(body.value) ==> b == Obj(map[])
  {
    match body
    case None => Obj(map[])
    case Some(v) => if Truthy(v) then v else Obj(map[])
  }

  /** `body.get("role", ...)`, `body.get("city", ...)`, `body.get("radius", ...)`:
      a present key gives its value whatever it is, an absent one the default. A
      truthy body that is not an object has no `.get`, which is `None` here. */
  function ReadQuery(body: Option<Value>): (q: Option<Query>)
    ensures q.None? <==> body.Some? && Truthy(body.value) && !body.value.Obj?
    ensures body.None? || !Truthy(body.value) ==>
      q == Some(Query(Str(DefaultRole), Str(DefaultCity), Num(DefaultRadius)))
    ensures q.Some? && body.Some? && body.value.Obj? ==>
      var fields := body.value.fields;
      && ("role" in fields ==> q.value.role == fields["role"])
      && ("role" !in fields ==> q.value.role == Str(DefaultRole))
      && ("city" in fields ==> q.value.city == fields["city"])
      && ("city" !in fields ==> q.value.city == Str(DefaultCity))
      && ("radius" in fields ==> q.value.radius == fields["radius"])
      && ("radius" !in fields ==> q.value.radius == Num(DefaultRadius))
  {
    var b := EffectiveBody(body);
    if !b.Obj? then None
    else
      Some(Query(
        GetOr(b.fields, "role", Str(DefaultRole)),
        GetOr(b.fields, "city", Str(DefaultCity)),
        GetOr(b.fields, "radius", Num(DefaultRadius))))
  }

  /** The keyword arguments of `format(role=role, city=city, radius=radius)`, each
      as `format` displays it; `repr` is Python's rendering of a list or dict. */
  function PromptArgs(q: Query, repr: Value -> string): map<string, string> {
    map["role" := Display(q.role, repr), "city" := Display(q.city, repr), "radius" := Display(q.radius, repr)]
  }

  /** The user prompt for a query from template `t`, `None` when `format` raises.
      The template as written always raises; the corrected one gives the rendered
      prompt, with a string role and city verbatim and a numeric radius as its digits. */
  function UserPrompt(t: Template, q: Query, repr: Value -> string): (p: Option<string>)
    ensures p.Some? <==> FieldNames(t) <= {"role", "city", "radius"}
    ensures t == UserTemplateAsWritten ==> p.None?
    ensures t == UserTemplate ==>
      p == Some(Render(Display(q.role, repr), Display(q.city, repr), Display(q.radius, repr), RulesTail))
    ensures t == UserTemplate && q.role.Str? && q.city.Str? && q.radius.Num? ==>
      p == Some(Render(q.role.s, q.city.s, IntToDecimal(q.radius.n), RulesTail))
  {
    FormatAsWrittenRaises(PromptArgs(q, repr));
    FormatCorrected(Display(q.role, repr), Display(q.city, repr), Display(q.radius, repr));
    Format(t, PromptArgs(q, repr))
  }

  /** The cleaned postings as the JSON array the endpoint returns. */
  function AsArray(jobs: seq<Fields>): (v: Value)
    ensures v.Arr? && |v.items| == |jobs|
    ensures forall i :: 0 <= i < |jobs| ==> v.items[i] == Obj(jobs[i])
  {
    Arr(seq(|jobs|, i requires 0 <= i < |jobs| => Obj(jobs[i])))
  }

  /** The last step, given the stripped reply text `raw` and its decoding `parsed`:
      the whole cleaned array with status 200, or status 502 with an error object
      that carries `raw` and nothing of a partial result. */
  function AnswerReply(raw: string, parsed: Option<Value>): (r: (nat, Value))
    ensures r.0 == 200 || r.0 == 502
    ensures r.0 == 200 <==> Sanitize(parsed).Success?
    ensures r.0 == 200 ==>
      && r.1.Arr?
      && |r.1.items| == |parsed.value.items|
      && forall i :: 0 <= i < |r.1.items| ==> r.1.items[i] == Obj(CleanJob(parsed.value.items[i], i + 1).value)
    ensures r.0 == 502 ==>
      && r.1.Obj?
      && r.1.fields.Keys == {"error", "raw"}
      && r.1.fields["error"] == Str(InvalidReplyError)
      && r.1.fields["raw"] == Str(raw)
  {
    match Sanitize(parsed)
    case Success(jobs) => (200, AsArray(jobs))
    case Failure(_) => (502, Obj(map["error" := Str(InvalidReplyError), "raw" := Str(raw)]))
  }

  /** `api_search` with user template `t`. The environment's API key, the upstream
      outcome, `json.loads` (`parse`) and Python's `repr` of containers are inputs. */
  function Handle(t: Template, body: Option<Value>, apiKey: string, upstream: Upstream,
                  parse: string -> Option<Value>, repr: Value -> string): (resp: Response)
    // the upstream model is asked exactly when the body was usable, a key is set and
    // the template could be formatted, and then with the fixed model, temperature and
    // system prompt and the query's prompt
    ensures resp.call.Some? <==>
      ReadQuery(body).Some? && apiKey != "" && UserPrompt(t, ReadQuery(body).value, repr).Some?
    ensures resp.call.Some? ==>
      resp.call.value == Call(Model, Temperature, SystemPrompt, UserPrompt(t, ReadQuery(body).value, repr).value)
    // a truthy body that is not an object escapes as an unhandled exception
    ensures ReadQuery(body).None? ==> resp.status == 500 && resp.payload == UnhandledErrorPage
    // no key: 500 with error and hint
    ensures ReadQuery(body).Some? && apiKey == "" ==>
      && resp.status == 500
      && resp.payload == JsonBody(Obj(map["error" := Str(MissingKeyError), "hint" := Str(MissingKeyHint)]))
    // `format` raising before the `try` escapes as an unhandled exception too
    ensures ReadQuery(body).Some? && apiKey != "" && UserPrompt(t, ReadQuery(body).value, repr).None? ==>
      resp == Response(500, UnhandledErrorPage, None)
    // the upstream call raised, or `.strip()` met a missing content: 500 with details
    ensures resp.call.Some? && upstream.Raised? ==>
      && resp.status == 500
      && resp.payload == JsonBody(Obj(map["error" := Str(UpstreamError), "details" := Str(upstream.message)]))
    ensures resp.call.Some? && upstream == Replied(None) ==>
      && resp.status == 500
      && resp.payload == JsonBody(Obj(map["error" := Str(UpstreamError), "details" := Str(NoContentMessage)]))
    // a reply: its stripped text decides the rest
    ensures resp.call.Some? && upstream.Replied? && upstream.content.Some? ==>
      var raw := Strip(upstream.content.value);
      var answer := AnswerReply(raw, parse(raw));
      resp.status == answer.0 && resp.payload == JsonBody(answer.1)
    // every status is one the endpoint documents
    ensures resp.status in {200, 500, 502}
  {
    match ReadQuery(body)
    case None => Response(500, UnhandledErrorPage, None)
    case Some(q) =>
      if apiKey == "" then
        Response(500, JsonBody(Obj(map["error" := Str(MissingKeyError), "hint" := Str(MissingKeyHint)])), None)
      else
        match UserPrompt(t, q, repr)
        case None => Response(500, UnhandledErrorPage, None)
        case Some(prompt) =>
          var call := Call(Model, Temperature, SystemPrompt, prompt);
          match upstream
          case Raised(message) =>
            Response(500, JsonBody(Obj(map["error" := Str(UpstreamError), "details" := Str(message)])), Some(call))
          case Replied(None) =>
            Response(500, JsonBody(Obj(map["error" := Str(UpstreamError), "details" := Str(NoContentMessage)])), Some(call))
          case Replied(Some(content)) =>
            var raw := Strip(content);
            var answer := AnswerReply(raw, parse(raw));
            Response(answer.0, JsonBody(answer.1), Some(call))
  }

  /** `api_search` as written: `USER_TEMPLATE.format(...)` raises whenever it is
      reached, whatever the query, so no request ever reaches the upstream model and
      every answer has status 500: the key error when the body is usable and no key
      is set, the framework's error page otherwise. */
  function ApiSearchAsWritten(body: Option<Value>, apiKey: string, upstream: Upstream,
                              parse: string -> Option<Value>, repr: Value -> string): (resp: Response)
    ensures resp.call.None?
    ensures resp.status == 500
    ensures ReadQuery(body).None? ==> resp.payload == UnhandledErrorPage
    ensures ReadQuery(body).Some? && apiKey != "" ==> resp.payload == UnhandledErrorPage
    ensures ReadQuery(body).Some? && apiKey == "" ==>
      resp.payload == JsonBody(Obj(map["error" := Str(MissingKeyError), "hint" := Str(MissingKeyHint)]))
  {
    Handle(UserTemplateAsWritten, body, apiKey, upstream, parse, repr)
  }

  /** `api_search` with the template's literal braces escaped: the upstream model is
      asked exactly when the body is usable and a key is set, with the query's
      rendered prompt. */
  function ApiSearch(body: Option<Value>, apiKey: string, upstream: Upstream,
                     parse: string -> Option<Value>, repr: Value -> string): (resp: Response)
    ensures resp.call.Some? <==> ReadQuery(body).Some? && apiKey != ""
    ensures resp.call.Some? ==>
      var q := ReadQuery(body).value;
      resp.call.value == Call(Model, Temperature, SystemPrompt,
        Render(Display(q.role, repr), Display(q.city, repr), Display(q.radius, repr), RulesTail))
    ensures resp.status in {200, 500, 502}
  {
    Handle(UserTemplate, body, apiKey, upstream, parse, repr)
  }

  /** The template bug decides the endpoint: for an empty body and a set key the
      code as written answers the error page without asking upstream, where the
      corrected code asks upstream with the default prompt. */
  lemma TemplateBraces(upstream: Upstream, parse: string -> Option<Value>, repr: Value -> string)
    ensures ApiSearchAsWritten(Some(Obj(map[])), "k", upstream, parse, repr) == Response(500, UnhandledErrorPage, None)
    ensures ApiSearch(Some(Obj(map[])), "k", upstream, parse, repr).call.Some?
  {
  }

  /** A 200 answer only comes from a configured key, one upstream call and a reply
      whose stripped text decodes to an array; it holds one cleaned posting per
      element of that array, each with a description of at most 300 characters. */
  lemma SuccessIsCleanedReply(body: Option<Value>, apiKey: string, upstream: Upstream,
                                                 parse: string -> Option<Value>, repr: Value -> string)
    requires ApiSearch(body, apiKey, upstream, parse, repr).status == 200
    ensures apiKey != "" && ApiSearch(body, apiKey, upstream, parse, repr).call.Some?
    ensures upstream.Replied? && upstream.content.Some?
    ensures var parsed := parse(Strip(upstream.content.value));
      var payload := ApiSearch(body, apiKey, upstream, parse, repr).payload;
      && parsed.Some? && parsed.value.Arr?
      && payload.JsonBody? && payload.value.Arr?
      && |payload.value.items| == |parsed.value.items|
      && forall i :: 0 <= i < |payload.value.items| ==>
           && payload.value.items[i].Obj?
           && "description" in payload.value.items[i].fields
           && payload.value.items[i].fields["description"].Str?
           && |payload.value.items[i].fields["description"].s| <= MaxDescription
  {
    var raw := Strip(upstream.content.value);
    var jobs := Sanitize(parse(raw)).value;
    var payload := ApiSearch(body, apiKey, upstream, parse, repr).payload;
    forall i | 0 <= i < |payload.value.items|
      ensures payload.value.items[i] == Obj(jobs[i])
    {
    }
  }

  /** No error answer carries postings: whenever the status is not 200 the body is
      an error object or the framework's error page, never an array. */
  lemma ErrorsCarryNoPostings(body: Option<Value>, apiKey: string, upstream: Upstream,
                                                 parse: string -> Option<Value>, repr: Value -> string)
    requires ApiSearch(body, apiKey, upstream, parse, repr).status != 200
    ensures var payload := ApiSearch(body, apiKey, upstream, parse, repr).payload;
      payload.UnhandledErrorPage? || (payload.value.Obj? && "error" in payload.value.fields)
  {
  }

  /** With an unreadable or empty body the prompt asks for the defaults: role
      `Elektriker EFZ`, city `Basel` and radius `20`, each at its place in the template. */
  lemma DefaultPrompt(body: Option<Value>, apiKey: string, upstream: Upstream,
                                         parse: string -> Option<Value>, repr: Value -> string)
    requires body.None? || !Truthy(body.value)
    requires apiKey != ""
    ensures var call := ApiSearch(body, apiKey, upstream, parse, repr).call;
      && call.Some?
      && call.value.user == Render(DefaultRole, DefaultCity, "20", RulesTail)
  {
    DefaultUserPrompt(repr);
  }

  /** The user prompt of the default query. */
  lemma DefaultUserPrompt(repr: Value -> string)
    ensures UserPrompt(UserTemplate, Query(Str(DefaultRole), Str(DefaultCity), Num(DefaultRadius)), repr)
         == Some(Render(DefaultRole, DefaultCity, "20", RulesTail))
  {
    assert IntToDecimal(DefaultRadius) == "20" by {
      assert NatToDecimal(20) == "20";
    }
  }

  /** The posting of the example below: no id and a 305-letter description. */
  const LongPosting: Value :=
    Obj(map["title" := Str("Elektriker"), "company" := Str("X"), "description" := Str(seq(305, _ => 'a'))])

  /** The example posting cleaned at position 1: id `web_1`, description of exactly
      300 characters, title unchanged. */
  lemma LongPostingCleaned()
    ensures CleanJob(LongPosting, 1).Success?
    ensures var cleaned := CleanJob(LongPosting, 1).value;
      && cleaned["id"] == Str("web_1")
      && |cleaned["description"].s| == 300
      && cleaned["title"] == Str("Elektriker")
  {
  }

  /** Example, generalised: defaults, a reply holding one posting without an id whose
      stripped description is longer than 300 characters; the answer is 200 with one
      posting, id `web_1`, description exactly 300 characters long. */
  lemma LongDescriptionExample(body: Option<Value>, apiKey: string, content: string, job: Value,
                                                  parse: string -> Option<Value>, repr: Value -> string)
    requires body == Some(Obj(map[])) && apiKey != ""
    requires parse(Strip(content)) == Some(Arr([job]))
    requires job.Obj? && "id" !in job.fields && "description" in job.fields
    requires job.fields["description"].Str? && |Strip(job.fields["description"].s)| > MaxDescription
    ensures var resp := ApiSearch(body, apiKey, Replied(Some(content)), parse, repr);
      && resp.status == 200
      && resp.payload.JsonBody? && resp.payload.value.Arr? && |resp.payload.value.items| == 1
      && resp.payload.value.items[0].Obj?
      && "id" in resp.payload.value.items[0].fields
      && resp.payload.value.items[0].fields["id"] == Str("web_1")
      && "description" in resp.payload.value.items[0].fields
      && resp.payload.value.items[0].fields["description"].Str?
      && |resp.payload.value.items[0].fields["description"].s| == 300
  {
    var raw := Strip(content);
    LongDescriptionAnswer(raw, job);
    ReplyDecides(body, apiKey, content, parse, repr);
  }

  /** The last step of the example above: the one-posting array is answered with
      the posting under id `web_1` and its description cut to 300 characters. */
  lemma LongDescriptionAnswer(raw: string, job: Value)
    requires job.Obj? && "id" !in job.fields && "description" in job.fields
    requires job.fields["description"].Str? && |Strip(job.fields["description"].s)| > MaxDescription
    ensures var answer := AnswerReply(raw, Some(Arr([job])));
      && answer.0 == 200
      && answer.1.Arr? && |answer.1.items| == 1
      && answer.1.items[0].Obj?
      && "id" in answer.1.items[0].fields
      && answer.1.items[0].fields["id"] == Str("web_1")
      && "description" in answer.1.items[0].fields
      && answer.1.items[0].fields["description"].Str?
      && |answer.1.items[0].fields["description"].s| == 300
  {
  }

  /** Example: defaults and the reply `not json`, which does not decode; the answer
      is 502 carrying the reply text as `raw`. */
  lemma NotJsonExample(body: Option<Value>, apiKey: string, content: string,
                                          parse: string -> Option<Value>, repr: Value -> string)
    requires body == Some(Obj(map[])) && apiKey != ""
    requires content == "not json" && parse(content) == None
    ensures var resp := ApiSearch(body, apiKey, Replied(Some(content)), parse, repr);
      && resp.status == 502
      && resp.payload == JsonBody(Obj(map["error" := Str(InvalidReplyError), "raw" := Str("not json")]))
  {
    assert !IsWhitespace(content[0]) && !IsWhitespace(content[|content| - 1]);
    StripTrimmed(content);
    ReplyDecides(body, apiKey, content, parse, repr);
  }

  /** Once a key is set and the body is usable, a reply's stripped text alone decides
      the answer. */
  lemma ReplyDecides(body: Option<Value>, apiKey: string, content: string,
                                        parse: string -> Option<Value>, repr: Value -> string)
    requires ReadQuery(body).Some? && apiKey != ""
    ensures var resp := ApiSearch(body, apiKey, Replied(Some(content)), parse, repr);
      var answer := AnswerReply(Strip(content), parse(Strip(content)));
      resp.status == answer.0 && resp.payload == JsonBody(answer.1)
  {
  }
}
