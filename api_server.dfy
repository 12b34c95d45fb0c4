/**
 * The internal admin API: the bearer-token middleware, the routes, and the
 * `POST /api/trigger` handler with its validation order and its mapping of
 * failures to HTTP statuses. A request is decided by pure functions; the
 * channel creation the handler delegates to is an oracle.
 */
module ApiServer {
  import opened Wrappers
  import opened Text
  import opened Json

  const HealthPath: string := "/api/health"
  const TriggerPath: string := "/api/trigger"
  const BearerPrefix: string := "Bearer "

  /** An incoming request: HTTP method, path and the `Authorization` header if sent. */
  datatype Request = Request(verb: string, path: string, authorization: Option<string>, body: Body)

  /** The request body as `request.json()` decodes it. */
  datatype Body = Unparsable | Parsed(value: Json)

  /** What the server sends back. */
  datatype Payload =
    | JsonPayload(value: Json)  // `web.json_response`
    | TextPayload(text: string) // an `HTTPException` raised with `text=`
    | DefaultPayload            // the framework's own error page

  /** The end of a request: a response, or an exception the handler did not catch (served as 500). */
  datatype Outcome =
    | Respond(status: int, payload: Payload)
    | Crash(reason: string)

  /** The decision of `auth_middleware`. */
  datatype AuthDecision = Admit | Reject(status: int, text: string)

  /** `auth_header.removeprefix("Bearer ").strip()` for a header carrying the prefix. */
  function Token(header: string): string
    requires StartsWith(header, BearerPrefix)
  {
    Strip(header[|BearerPrefix|..])
  }

  /** `auth_middleware`: the health path is public; everything else needs the right bearer token. */
  function Authorize(path: string, authorization: Option<string>, secretKey: string): (d: AuthDecision)
    ensures path == HealthPath ==> d == Admit
    ensures d.Reject? ==> d.status == 401 || d.status == 403
  {
    if path == HealthPath then Admit
    else
      var header := if authorization.Some? then authorization.value else "";
      if !StartsWith(header, BearerPrefix) then Reject(401, "Missing Bearer token")
      else if Token(header) != secretKey then Reject(403, "Invalid API key")
      else Admit
  }

  /**
   * Off the health path: 401 exactly when the header is absent or lacks the
   * `Bearer ` prefix, whatever the secret (the empty one included); otherwise
   * 403 exactly when the stripped token differs from the secret.
   */
  lemma AuthorizeCases(path: string, authorization: Option<string>, secretKey: string)
    requires path != HealthPath
    ensures var d := Authorize(path, authorization, secretKey);
      && ((d == Reject(401, "Missing Bearer token"))
            <==> (authorization.None? || !StartsWith(authorization.value, BearerPrefix)))
      && ((d == Reject(403, "Invalid API key"))
            <==> (authorization.Some? && StartsWith(authorization.value, BearerPrefix)
                  && Token(authorization.value) != secretKey))
      && ((d == Admit)
            <==> (authorization.Some? && StartsWith(authorization.value, BearerPrefix)
                  && Token(authorization.value) == secretKey))
  {
    assert !StartsWith("", BearerPrefix);
  }

  /** With an empty secret a request without a header is still refused. */
  lemma EmptySecretStillNeedsBearer(path: string)
    requires path != HealthPath
    ensures Authorize(path, None, "") == Reject(401, "Missing Bearer token")
  {
    assert !StartsWith("", BearerPrefix);
  }

  /** A token is admitted exactly when, stripped, it equals the secret. */
  lemma BearerTokenAdmitted(path: string, token: string, secretKey: string)
    requires path != HealthPath
    ensures Authorize(path, Some(BearerPrefix + token), secretKey) == Admit <==> Strip(token) == secretKey
  {
    var header := BearerPrefix + token;
    assert StartsWith(header, BearerPrefix);
    assert header[|BearerPrefix|..] == token;
  }

  /**
   * A secret with whitespace at either end admits no request off the health
   * path, since every token is compared after stripping.
   */
  lemma PaddedSecretLocksOut(path: string, authorization: Option<string>, secretKey: string)
    requires path != HealthPath
    requires Strip(secretKey) != secretKey
    ensures Authorize(path, authorization, secretKey).Reject?
  {
    var header := if authorization.Some? then authorization.value else "";
    if StartsWith(header, BearerPrefix) {
      StripIdempotent(header[|BearerPrefix|..]);
    }
  }

  /** The header `Bearer <secret>` gets in exactly when the secret is already stripped. */
  lemma CanonicalHeader(path: string, secretKey: string)
    requires path != HealthPath
    ensures Authorize(path, Some(BearerPrefix + secretKey), secretKey) == Admit <==> Strip(secretKey) == secretKey
  {
    BearerTokenAdmitted(path, secretKey, secretKey);
  }

  // ------------------------------------------------------------------ //
  //  POST /api/trigger
  // ------------------------------------------------------------------ //

  /** What the handler asks `create_session_channel` for. */
  datatype CreateRequest = CreateRequest(channelName: string, prompt: string, category: Json)

  /** How `create_session_channel` ended. */
  datatype ChannelOutcome =
    | Created(result: Json)
    | RuntimeFailure(message: string)  // a `RuntimeError`
    | OtherFailure(message: string)    // any other `Exception`

  const NotReady: string := "Discord bot is not ready yet"
  const InvalidJson: string := "Invalid JSON body"
  const ChannelNameRequired: string := "'channel_name' (string) is required"
  const PromptRequired: string := "'prompt' (string) is required"

  /** `not v or not isinstance(v, str)` negated: a non-empty string. */
  predicate NonEmptyString(v: Json) {
    v.JString? && v.s != ""
  }

  /**
   * The part of `_handle_trigger` before the channel is created: either the
   * request to make, or the outcome that ends the handler first.
   */
  function Validate(ready: bool, body: Body): (r: Result<CreateRequest, Outcome>)
    ensures r.Success? <==>
      ready && body.Parsed? && body.value.JObject?
      && NonEmptyString(Get(body.value.fields, "channel_name"))
      && NonEmptyString(Get(body.value.fields, "prompt"))
    ensures r.Success? ==>
      var fields := body.value.fields;
      r.value == CreateRequest(Get(fields, "channel_name").s, Get(fields, "prompt").s, Get(fields, "category"))
    ensures !ready ==> r == Failure(Respond(503, TextPayload(NotReady)))
    ensures ready && body.Unparsable? ==> r == Failure(Respond(400, TextPayload(InvalidJson)))
    ensures ready && body.Parsed? && !body.value.JObject? ==> r.Failure? && r.error.Crash?
    ensures ready && body.Parsed? && body.value.JObject? ==>
      var fields := body.value.fields;
      && (!NonEmptyString(Get(fields, "channel_name")) ==>
            r == Failure(Respond(400, TextPayload(ChannelNameRequired))))
      && (NonEmptyString(Get(fields, "channel_name")) && !NonEmptyString(Get(fields, "prompt")) ==>
            r == Failure(Respond(400, TextPayload(PromptRequired))))
  {
    if !ready then Failure(Respond(503, TextPayload(NotReady)))
    else if body.Unparsable? then Failure(Respond(400, TextPayload(InvalidJson)))
    else if !body.value.JObject? then Failure(Crash("the body is not a JSON object"))
    else
      var fields := body.value.fields;
      var channelName := Get(fields, "channel_name");
      var prompt := Get(fields, "prompt");
      if !NonEmptyString(channelName) then Failure(Respond(400, TextPayload(ChannelNameRequired)))
      else if !NonEmptyString(prompt) then Failure(Respond(400, TextPayload(PromptRequired)))
      else Success(CreateRequest(channelName.s, prompt.s, Get(fields, "category")))
  }

  /**
   * The success log line reads `result.get("session_id", "")[:8]`: a result
   * that is not an object, or whose `session_id` cannot be sliced, raises there.
   */
  predicate LoggableResult(result: Json) {
    result.JObject?
    && ("session_id" in result.fields ==>
          result.fields["session_id"].JString? || result.fields["session_id"].JArray?)
  }

  /** `_handle_trigger`; `create` answers the one call to `create_session_channel`. */
  function HandleTrigger(ready: bool, body: Body, create: CreateRequest -> ChannelOutcome): Outcome {
    var v := Validate(ready, body);
    if v.Failure? then v.error
    else
      match create(v.value)
      case Created(result) =>
        if LoggableResult(result) then Respond(200, JsonPayload(result))
        else Crash("the result cannot be logged")
      case RuntimeFailure(message) => Respond(503, TextPayload(message))
      case OtherFailure(message) => Respond(500, TextPayload("Internal error: " + message))
  }

  /** A request that fails validation never reaches channel creation. */
  lemma ValidationBeforeCreation(ready: bool, body: Body, c1: CreateRequest -> ChannelOutcome,
                                 c2: CreateRequest -> ChannelOutcome)
    requires Validate(ready, body).Failure?
    ensures HandleTrigger(ready, body, c1) == HandleTrigger(ready, body, c2)
  {
  }

  /** Readiness is checked before the body is looked at. */
  lemma NotReadyFirst(body: Body, create: CreateRequest -> ChannelOutcome)
    ensures HandleTrigger(false, body, create) == Respond(503, TextPayload(NotReady))
  {
  }

  /** `channel_name` is checked before `prompt`: a bad name is reported whatever the prompt. */
  lemma ChannelNameBeforePrompt(fields: map<string, Json>, create: CreateRequest -> ChannelOutcome)
    requires !NonEmptyString(Get(fields, "channel_name"))
    ensures HandleTrigger(true, Parsed(JObject(fields)), create) == Respond(400, TextPayload(ChannelNameRequired))
  {
  }

  /**
   * The statuses the handler answers with, and what they mean: 503 for a bot
   * that is not ready or a `RuntimeError`, 400 for a bad body, 500 for any
   * other failure of channel creation, and 200 with the creation result
   * unchanged.
   */
  lemma TriggerStatuses(ready: bool, body: Body, create: CreateRequest -> ChannelOutcome)
    ensures var o := HandleTrigger(ready, body, create);
      && (o.Respond? ==> o.status in {200, 400, 500, 503})
      && (o.Respond? && o.status == 200 ==>
            Validate(ready, body).Success?
            && create(Validate(ready, body).value) == Created(o.payload.value))
      && (o.Respond? && o.status == 400 ==> ready && Validate(ready, body).Failure?)
      && (o.Respond? && o.status == 503 ==>
            !ready || (Validate(ready, body).Success? && create(Validate(ready, body).value).RuntimeFailure?))
      && (o.Respond? && o.status == 500 ==>
            Validate(ready, body).Success? && create(Validate(ready, body).value).OtherFailure?)
  {
  }

  /** A valid request whose channel is created answers 200 with the result as returned. */
  lemma TriggerSucceeds(ready: bool, body: Body, create: CreateRequest -> ChannelOutcome, result: Json)
    requires Validate(ready, body).Success?
    requires create(Validate(ready, body).value) == Created(result)
    requires LoggableResult(result)
    ensures HandleTrigger(ready, body, create) == Respond(200, JsonPayload(result))
  {
  }

  /** The usual result, `{channel_id, channel_name, session_id}` with a string id, is answered 200. */
  lemma UsualResultSucceeds(ready: bool, body: Body, create: CreateRequest -> ChannelOutcome,
                            channelId: int, channelName: string, sessionId: string)
    requires Validate(ready, body).Success?
    requires create(Validate(ready, body).value) == Created(JObject(map[
      "channel_id" := JNumber(channelId), "channel_name" := JString(channelName),
      "session_id" := JString(sessionId)]))
    ensures HandleTrigger(ready, body, create).Respond?
    ensures HandleTrigger(ready, body, create).status == 200
  {
    var result := create(Validate(ready, body).value).result;
    assert LoggableResult(result);
    TriggerSucceeds(ready, body, create, result);
  }

  /**
   * A `RuntimeError` from channel creation is answered 503 with its message,
   * any other exception 500 with `Internal error: ` before it.
   */
  lemma CreationFailures(ready: bool, body: Body, create: CreateRequest -> ChannelOutcome)
    requires Validate(ready, body).Success?
    ensures var c := create(Validate(ready, body).value);
      && (c.RuntimeFailure? ==> HandleTrigger(ready, body, create) == Respond(503, TextPayload(c.message)))
      && (c.OtherFailure? ==>
            HandleTrigger(ready, body, create) == Respond(500, TextPayload("Internal error: " + c.message)))
  {
  }

  /** A body that is not JSON is answered 400 once the bot is ready. */
  lemma UnparsableIs400(create: CreateRequest -> ChannelOutcome)
    ensures HandleTrigger(true, Unparsable, create) == Respond(400, TextPayload(InvalidJson))
  {
  }

  /** JSON that is not an object fails at `body.get`, before any check of its fields. */
  lemma NonObjectCrashes(value: Json, create: CreateRequest -> ChannelOutcome)
    requires !value.JObject?
    ensures HandleTrigger(true, Parsed(value), create).Crash?
  {
  }

  /** A good `channel_name` with a bad `prompt` is answered with the prompt's 400. */
  lemma BadPromptIs400(fields: map<string, Json>, create: CreateRequest -> ChannelOutcome)
    requires NonEmptyString(Get(fields, "channel_name")) && !NonEmptyString(Get(fields, "prompt"))
    ensures HandleTrigger(true, Parsed(JObject(fields)), create) == Respond(400, TextPayload(PromptRequired))
  {
  }

  // ------------------------------------------------------------------ //
  //  Routing
  // ------------------------------------------------------------------ //

  /** `{"ok": true}` */
  const HealthReply: Json := JObject(map["ok" := JBool(true)])

  /** The routes: `GET` (and so `HEAD`) `/api/health`, `POST /api/trigger`. */
  function Route(request: Request, ready: bool, create: CreateRequest -> ChannelOutcome): Outcome {
    if request.path == HealthPath then
      if request.verb == "GET" || request.verb == "HEAD" then Respond(200, JsonPayload(HealthReply))
      else Respond(405, DefaultPayload)
    else if request.path == TriggerPath then
      if request.verb == "POST" then HandleTrigger(ready, request.body, create)
      else Respond(405, DefaultPayload)
    else Respond(404, DefaultPayload)
  }

  /** The application: the middleware runs first, then the matched route. */
  function Serve(request: Request, secretKey: string, ready: bool, create: CreateRequest -> ChannelOutcome): Outcome {
    match Authorize(request.path, request.authorization, secretKey)
    case Reject(status, text) => Respond(status, TextPayload(text))
    case Admit => Route(request, ready, create)
  }

  /** The health check answers without credentials. */
  lemma HealthAlwaysAnswers(authorization: Option<string>, secretKey: string, ready: bool,
                            body: Body, create: CreateRequest -> ChannelOutcome)
    ensures Serve(Request("GET", HealthPath, authorization, body), secretKey, ready, create)
      == Respond(200, JsonPayload(HealthReply))
  {
  }

  /** A request the middleware rejects is answered 401 or 403 and is never routed. */
  lemma RejectedNeverRouted(request: Request, secretKey: string, ready: bool,
                            c1: CreateRequest -> ChannelOutcome, c2: CreateRequest -> ChannelOutcome)
    requires Authorize(request.path, request.authorization, secretKey).Reject?
    ensures Serve(request, secretKey, ready, c1) == Serve(request, secretKey, ready, c2)
    ensures var o := Serve(request, secretKey, ready, c1);
      o.Respond? && (o.status == 401 || o.status == 403)
  {
  }

  /** An authenticated trigger is handled exactly as the handler alone would. */
  lemma AuthenticatedTrigger(token: string, secretKey: string, ready: bool, body: Body,
                             create: CreateRequest -> ChannelOutcome)
    requires Strip(token) == secretKey
    ensures Serve(Request("POST", TriggerPath, Some(BearerPrefix + token), body), secretKey, ready, create)
      == HandleTrigger(ready, body, create)
  {
    var request := Request("POST", TriggerPath, Some(BearerPrefix + token), body);
    assert TriggerPath != HealthPath by {
      assert |TriggerPath| != |HealthPath|;
    }
    assert Serve(request, secretKey, ready, create) == Route(request, ready, create) by {
      BearerTokenAdmitted(TriggerPath, token, secretKey);
      AdmittedIsRouted(request, secretKey, ready, create);
    }
    assert Route(request, ready, create) == HandleTrigger(ready, body, create) by {
      TriggerRoute(request, ready, create);
    }
  }

  /** An unknown path is answered 404, a known path with the wrong method 405. */
  lemma UnroutedRequests(request: Request, ready: bool, create: CreateRequest -> ChannelOutcome)
    ensures request.path != HealthPath && request.path != TriggerPath ==>
      Route(request, ready, create) == Respond(404, DefaultPayload)
    ensures request.path == HealthPath && request.verb != "GET" && request.verb != "HEAD" ==>
      Route(request, ready, create) == Respond(405, DefaultPayload)
    ensures request.path == TriggerPath && request.path != HealthPath && request.verb != "POST" ==>
      Route(request, ready, create) == Respond(405, DefaultPayload)
  {
  }

  lemma AdmittedIsRouted(request: Request, secretKey: string, ready: bool, create: CreateRequest -> ChannelOutcome)
    requires Authorize(request.path, request.authorization, secretKey) == Admit
    ensures Serve(request, secretKey, ready, create) == Route(request, ready, create)
  {
  }

  lemma TriggerRoute(request: Request, ready: bool, create: CreateRequest -> ChannelOutcome)
    requires request.path == TriggerPath && request.path != HealthPath && request.verb == "POST"
    ensures Route(request, ready, create) == HandleTrigger(ready, request.body, create)
  {
  }
}
