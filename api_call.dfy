/**
  The API client `makeApiCall` (src/utils/api-call.ts). The network round
  trip is an input: either `fetch`/`resp.json()` threw, or a response with
  its `ok` flag and parsed body arrived. What remains is the request it
  builds and the order in which it validates the answer, turning every
  failure into one synthesized envelope instead of an exception.
 */
module ApiCall {
  import opened JsRuntime

  /** The request `makeApiCall` hands to `fetch`; the body before `JSON.stringify`. */
  datatype Request = Request(url: string, httpMethod: string, headers: seq<(string, string)>, body: Json)

  const JsonHeaders: seq<(string, string)> := [("Content-Type", "application/json"), ("Accept", "application/json")]

  /** What was thrown inside the `try` block. */
  datatype Thrown = ErrorObject(message: string) | NonErrorValue

  /** The network round trip: an exception from `fetch` or `resp.json()`, or a parsed response. */
  datatype Exchange = Threw(thrown: Thrown) | Received(ok: bool, data: Json)

  /** How the `try` block ends. */
  datatype Attempt = Returned(data: Json) | Raised(thrown: Thrown)

  const UnknownError := "Unknown error!"
  const InvalidFormat := "Invalid API response format!"
  const UnknownThrown := "Unknown error occured!"
  /** The TypeError a JavaScript engine (V8 wording) raises for `null.message`. */
  const NullMessageRead := "Cannot read properties of null (reading 'message')"

  /** The request for `path`, the HTTP verb and an optional body, against the configured base URL. */
  function BuildRequest(baseUrl: string, path: string, verb: string, body: Option<Json>): (req: Request)
    ensures req.url == baseUrl + path
    ensures |req.httpMethod| == |verb|
    ensures forall k :: 0 <= k < |verb| ==> req.httpMethod[k] == UpperChar(verb[k])
    ensures req.headers == JsonHeaders
    ensures body.Some? && Truthy(body.value) ==> req.body == body.value
    ensures body.None? ==> req.body == JObject(map[])
  {
    Request(baseUrl + path, ToUpperAscii(verb), JsonHeaders,
            if body.Some? && Truthy(body.value) then body.value else JObject(map[]))
  }

  /**
    The independent statement of an acceptable answer: a JSON object that
    has a `status` field holding a truthy value.
   */
  predicate Accepted(data: Json) {
    data.JObject? && "status" in data.fields && Truthy(data.fields["status"])
  }

  /** The shape guard: a falsy body, a body whose `typeof` is not "object", or one without a `status` property. */
  predicate MalformedBody(data: Json) {
    !Truthy(data) || TypeOf(data) != "object" || !HasProperty(data, "status")
  }

  /**
    The `try` block after the awaited I/O, guard by guard: a non-ok status
    first, then the shape of the body, then a falsy `status`.
   */
  function TryBlock(exchange: Exchange): (a: Attempt)
    ensures a.Returned? <==> exchange.Received? && exchange.ok && Accepted(exchange.data)
    ensures a.Returned? ==> a.data == exchange.data
  {
    match exchange
    case Threw(t) => Raised(t)
    case Received(ok, data) =>
      if !ok then
        if data.JNull? then Raised(ErrorObject(NullMessageRead))
        else
          var m := Get(data, "message");
          Raised(ErrorObject(if OptTruthy(m) then ToJsString(m.value) else UnknownError))
      else if MalformedBody(data) then Raised(ErrorObject(InvalidFormat))
      else if !OptTruthy(Get(data, "status")) then Raised(ErrorObject(ErrorMessage(Get(data, "message"))))
      else Returned(data)
  }

  /** The envelope the `catch` block returns. */
  function FailureEnvelope(message: string, timestamp: string): Json {
    JObject(map[
      "context" := JString("unknown"),
      "status" := JBool(false),
      "message" := JString(message),
      "code" := JNumber(500),
      "timestamp" := JString(timestamp),
      "data" := JObject(map[])
    ])
  }

  /** Every failure looks alike apart from its message: status false, code 500, unknown context, empty data. */
  predicate IsFailureEnvelope(r: Json, timestamp: string) {
    && r.JObject?
    && r.fields.Keys == {"context", "status", "message", "code", "timestamp", "data"}
    && r.fields["status"] == JBool(false)
    && r.fields["code"] == JNumber(500)
    && r.fields["context"] == JString("unknown")
    && r.fields["timestamp"] == JString(timestamp)
    && r.fields["data"] == JObject(map[])
    && r.fields["message"].JString?
  }

  /** The caller's only check on what the client returns: the same test as `Accepted`, a truthy `status`. */
  predicate Succeeded(r: Json) {
    Accepted(r)
  }

  /** The message text a failure envelope carries. */
  function FailureText(r: Json): string
    requires r.JObject? && "message" in r.fields && r.fields["message"].JString?
  {
    r.fields["message"].s
  }

  /**
    `makeApiCall` with the network round trip given: it never throws, always
    returns an object with a `status` field, passes an accepted body through
    unchanged and synthesizes the failure envelope otherwise.
   */
  function MakeApiCall(exchange: Exchange, timestamp: string): (r: Json)
    ensures r.JObject? && "status" in r.fields
    ensures Succeeded(r) <==> exchange.Received? && exchange.ok && Accepted(exchange.data)
    ensures Succeeded(r) ==> r == exchange.data
    ensures !Succeeded(r) ==> IsFailureEnvelope(r, timestamp)
  {
    match TryBlock(exchange)
    case Returned(data) => data
    case Raised(t) =>
      FailureEnvelope(if t.ErrorObject? then t.message else UnknownThrown, timestamp)
  }

  /** A non-ok status fails even when the body is otherwise acceptable: the status check comes first. */
  lemma NonOkFails(data: Json, timestamp: string)
    ensures var r := MakeApiCall(Received(false, data), timestamp);
      && IsFailureEnvelope(r, timestamp)
      && FailureText(r) == (if data.JNull? then NullMessageRead
                            else if data.JObject? && "message" in data.fields && Truthy(data.fields["message"])
                            then ToJsString(data.fields["message"])
                            else UnknownError)
  {
  }

  /** An ok response whose body is not an object with a `status` field fails with the format message. */
  lemma MalformedFails(data: Json, timestamp: string)
    requires !(data.JObject? && "status" in data.fields)
    ensures MakeApiCall(Received(true, data), timestamp) == FailureEnvelope(InvalidFormat, timestamp)
  {
  }

  /** An ok, well-formed body with a falsy `status` fails with the body's own message (empty when absent). */
  lemma FalsyStatusFails(data: Json, timestamp: string)
    requires data.JObject? && "status" in data.fields && !Truthy(data.fields["status"])
    ensures var r := MakeApiCall(Received(true, data), timestamp);
      && IsFailureEnvelope(r, timestamp)
      && FailureText(r) == (if "message" in data.fields then ToJsString(data.fields["message"]) else "")
  {
  }

  /** A thrown Error keeps its message; anything else thrown gets the generic text. */
  lemma ThrownFails(t: Thrown, timestamp: string)
    ensures var r := MakeApiCall(Threw(t), timestamp);
      && IsFailureEnvelope(r, timestamp)
      && FailureText(r) == (if t.ErrorObject? then t.message else UnknownThrown)
  {
  }
}
