/**
 * The `OpenCodeClient` wrapper around the `opencode serve` REST API: the
 * request bodies and query parameters it builds, its base URL and
 * credentials, the text it extracts from a reply, and the state machine of
 * the server process handle and the HTTP session it owns.
 */
module OpenCodeClient {
  import opened Wrappers
  import opened Text
  import opened Json

  // ------------------------------------------------------------------ //
  //  Response text extraction
  // ------------------------------------------------------------------ //

  /** One element of a reply's `parts`: its `type` and `text` fields, each possibly absent. */
  datatype Part = Part(kind: Option<string>, text: Option<string>)

  /** A message reply `{ info, parts }`; `parts` may be absent. */
  datatype Response = Response(parts: Option<seq<Part>>)

  /** What `extract_text` answers when the reply carries no visible text. */
  const Placeholder: string := "(no text in response)"

  lemma PlaceholderTrimmed()
    ensures Placeholder != [] && !IsSpace(Placeholder[0]) && !IsSpace(Placeholder[|Placeholder| - 1])
  {
    assert Placeholder[0] == '(' && Placeholder[|Placeholder| - 1] == ')';
  }

  /** `response.get("parts", [])` */
  function PartsOf(response: Response): seq<Part> {
    if response.parts.Some? then response.parts.value else []
  }

  /** `part.get("type") == "text"` */
  predicate IsTextPart(p: Part) {
    p.kind == Some("text")
  }

  /** `part.get("text", "")` */
  function TextOf(p: Part): string {
    if p.text.Some? then p.text.value else ""
  }

  /** The texts collected by the extraction loop, in order. */
  function TextsOf(parts: seq<Part>): seq<string> {
    if parts == [] then []
    else
      var last := parts[|parts| - 1];
      TextsOf(parts[..|parts| - 1]) + (if IsTextPart(last) then [TextOf(last)] else [])
  }

  /** `extract_text(response)` as a value; it is never empty. */
  function ExtractTextSpec(response: Response): (r: string)
    ensures r != []
  {
    var joined := Strip(Join("\n", TextsOf(PartsOf(response))));
    if joined != "" then joined else Placeholder
  }

  /** The extracted text never starts or ends with whitespace. */
  lemma ExtractTextTrimmed(response: Response)
    ensures var r := ExtractTextSpec(response);
      !IsSpace(r[0]) && !IsSpace(r[|r| - 1])
  {
    var joined := Strip(Join("\n", TextsOf(PartsOf(response))));
    if joined == "" {
      PlaceholderTrimmed();
    }
  }

  /** The `for part in parts` loop of `extract_text`. */
  method ExtractText(response: Response) returns (r: string)
    ensures r == ExtractTextSpec(response)
  {
    var parts := PartsOf(response);
    var texts: seq<string> := [];
    var i := 0;
    while i < |parts|
      invariant 0 <= i <= |parts|
      invariant texts == TextsOf(parts[..i])
    {
      assert parts[..i + 1][..i] == parts[..i];
      if parts[i].kind == Some("text") {
        texts := texts + [TextOf(parts[i])];
      }
      i := i + 1;
    }
    assert parts[..i] == parts;
    r := Strip(Join("\n", texts));
    if r == "" {
      r := Placeholder;
    }
  }

  /** The texts of two runs of parts are the texts of each, in order. */
  lemma {:induction false} TextsOfAppend(a: seq<Part>, b: seq<Part>)
    ensures TextsOf(a + b) == TextsOf(a) + TextsOf(b)
    decreases |b|
  {
    if b == [] {
      assert a + b == a;
    } else {
      var last := b[|b| - 1];
      var tail := if IsTextPart(last) then [TextOf(last)] else [];
      assert (a + b)[..|a + b| - 1] == a + b[..|b| - 1];
      TextsOfAppend(a, b[..|b| - 1]);
      calc {
        TextsOf(a + b);
        TextsOf(a + b[..|b| - 1]) + tail;
        (TextsOf(a) + TextsOf(b[..|b| - 1])) + tail;
        TextsOf(a) + (TextsOf(b[..|b| - 1]) + tail);
        TextsOf(a) + TextsOf(b);
      }
    }
  }

  /** A single part contributes its text (or `""`) exactly when its type is `"text"`. */
  lemma TextsOfSingle(p: Part)
    ensures TextsOf([p]) == if IsTextPart(p) then [TextOf(p)] else []
  {
    assert [p][..0] == [];
  }

  /** No text is collected exactly when no part has type `"text"`. */
  lemma {:induction false} TextsOfEmpty(parts: seq<Part>)
    ensures TextsOf(parts) == [] <==> forall i | 0 <= i < |parts| :: !IsTextPart(parts[i])
  {
    if parts != [] {
      var init := parts[..|parts| - 1];
      TextsOfEmpty(init);
      if TextsOf(parts) == [] {
        forall i | 0 <= i < |parts| ensures !IsTextPart(parts[i]) {
          if i < |parts| - 1 {
            assert parts[i] == init[i];
          }
        }
      } else {
        assert TextsOf(init) != [] || IsTextPart(parts[|parts| - 1]);
      }
    }
  }

  /** Every character of `s` is whitespace. */
  predicate AllSpace(s: string) {
    forall i | 0 <= i < |s| :: IsSpace(s[i])
  }

  lemma AllSpaceConcat(a: string, b: string)
    ensures AllSpace(a + b) <==> AllSpace(a) && AllSpace(b)
  {
    if AllSpace(a) && AllSpace(b) {
      forall i | 0 <= i < |a + b| ensures IsSpace((a + b)[i]) {
        if i >= |a| {
          assert (a + b)[i] == b[i - |a|];
        }
      }
    }
    if AllSpace(a + b) {
      forall i | 0 <= i < |a| ensures IsSpace(a[i]) {
        assert a[i] == (a + b)[i];
      }
      forall i | 0 <= i < |b| ensures IsSpace(b[i]) {
        assert b[i] == (a + b)[|a| + i];
      }
    }
  }

  /** Joining with newlines yields only whitespace exactly when every piece is whitespace. */
  lemma {:induction false} JoinAllSpace(parts: seq<string>)
    ensures AllSpace(Join("\n", parts)) <==> forall k | 0 <= k < |parts| :: AllSpace(parts[k])
    decreases |parts|
  {
    if |parts| >= 2 {
      var rest := Join("\n", parts[1..]);
      JoinAllSpace(parts[1..]);
      AllSpaceConcat(parts[0] + "\n", rest);
      AllSpaceConcat(parts[0], "\n");
      assert AllSpace("\n");
      var tail := parts[1..];
      if AllSpace(parts[0]) && forall k | 0 <= k < |tail| :: AllSpace(tail[k]) {
        forall k | 0 <= k < |parts| ensures AllSpace(parts[k]) {
          if k > 0 {
            assert parts[k] == tail[k - 1];
          }
        }
      }
      if forall k | 0 <= k < |parts| :: AllSpace(parts[k]) {
        forall k | 0 <= k < |tail| ensures AllSpace(tail[k]) {
          assert tail[k] == parts[k + 1];
        }
      }
    }
  }

  /**
   * The placeholder is returned exactly when the collected texts hold no
   * visible character (in particular when there are no text parts), or when
   * the trimmed text happens to be the placeholder itself.
   */
  lemma ExtractTextPlaceholder(response: Response)
    ensures var texts := TextsOf(PartsOf(response));
      ExtractTextSpec(response) == Placeholder
      <==> (forall k | 0 <= k < |texts| :: AllSpace(texts[k]))
           || Strip(Join("\n", texts)) == Placeholder
  {
    JoinAllSpace(TextsOf(PartsOf(response)));
  }

  /** A reply without text parts reads as the placeholder. */
  lemma NoTextParts(response: Response)
    requires forall i | 0 <= i < |PartsOf(response)| :: !IsTextPart(PartsOf(response)[i])
    ensures ExtractTextSpec(response) == Placeholder
  {
    TextsOfEmpty(PartsOf(response));
  }

  /** A reply whose only text part holds `t` reads as `t` trimmed, wherever that part stands. */
  lemma SingleTextPart(before: seq<Part>, t: string, after: seq<Part>)
    requires forall i | 0 <= i < |before| :: !IsTextPart(before[i])
    requires forall i | 0 <= i < |after| :: !IsTextPart(after[i])
    requires Strip(t) != ""
    ensures ExtractTextSpec(Response(Some(before + [Part(Some("text"), Some(t))] + after))) == Strip(t)
  {
    var p := Part(Some("text"), Some(t));
    TextsOfAppend(before, [p]);
    TextsOfAppend(before + [p], after);
    TextsOfSingle(p);
    TextsOfEmpty(before);
    TextsOfEmpty(after);
    assert TextsOf(before + [p] + after) == [t];
  }

  // ------------------------------------------------------------------ //
  //  Request shaping
  // ------------------------------------------------------------------ //

  /** Python truthiness of an optional string argument (`if title:`). */
  predicate Given(s: Option<string>) {
    s.Some? && s.value != ""
  }

  /** An optional string argument with the falsy values folded into `None`. */
  function Normalize(s: Option<string>): (r: Option<string>)
    ensures r.Some? <==> Given(s)
    ensures r.Some? ==> r == s
  {
    if Given(s) then s else None
  }

  /** The body `create_session` posts to `/session`. */
  function CreateSessionBody(title: Option<string>): (body: map<string, Json>)
    ensures body.Keys <= {"title"}
    ensures "title" in body <==> Given(title)
    ensures "title" in body ==> body["title"] == JString(title.value)
  {
    if Given(title) then map["title" := JString(title.value)] else map[]
  }

  /** The single part that `send_message` and `send_message_async` post. */
  function TextPart(content: string): Json {
    JObject(map["type" := JString("text"), "text" := JString(content)])
  }

  /** The body `send_message` and `send_message_async` post. */
  function MessageBody(content: string, model: Option<string>, agent: Option<string>): (body: map<string, Json>)
    ensures body.Keys <= {"parts", "model", "agent"}
    ensures "parts" in body && body["parts"] == JArray([TextPart(content)])
    ensures "model" in body <==> Given(model)
    ensures "model" in body ==> body["model"] == JString(model.value)
    ensures "agent" in body <==> Given(agent)
    ensures "agent" in body ==> body["agent"] == JString(agent.value)
  {
    var body := map["parts" := JArray([TextPart(content)])];
    var body := if Given(model) then body["model" := JString(model.value)] else body;
    if Given(agent) then body["agent" := JString(agent.value)] else body
  }

  /** What a server reads out of a request body: an optional string field. */
  function ReadOptional(body: map<string, Json>, key: string): Option<string> {
    if key in body && body[key].JString? then Some(body[key].s) else None
  }

  /** What a server reads out of a message body: the text of its single text part. */
  function ReadContent(body: map<string, Json>): Option<string> {
    if "parts" in body && body["parts"].JArray? && |body["parts"].items| == 1 then
      var p := body["parts"].items[0];
      if p.JObject? && Get(p.fields, "type") == JString("text") && Get(p.fields, "text").JString?
      then Some(Get(p.fields, "text").s)
      else None
    else None
  }

  /** The message body carries the content and exactly the given optional fields. */
  lemma MessageBodyRoundTrip(content: string, model: Option<string>, agent: Option<string>)
    ensures var body := MessageBody(content, model, agent);
      && ReadContent(body) == Some(content)
      && ReadOptional(body, "model") == Normalize(model)
      && ReadOptional(body, "agent") == Normalize(agent)
  {
  }

  /** The session title sent is the given one, or none at all. */
  lemma CreateSessionBodyRoundTrip(title: Option<string>)
    ensures ReadOptional(CreateSessionBody(title), "title") == Normalize(title)
  {
  }

  /** The query parameters of `list_messages`: `limit` whenever one is given, 0 included. */
  function ListMessagesParams(limit: Option<int>): (params: map<string, int>)
    ensures params.Keys <= {"limit"}
    ensures "limit" in params <==> limit.Some?
    ensures "limit" in params ==> params["limit"] == limit.value
  {
    if limit.Some? then map["limit" := limit.value] else map[]
  }

  /** What a server reads out of the query: the `limit` parameter, if any. */
  function ReadLimit(params: map<string, int>): Option<int> {
    if "limit" in params then Some(params["limit"]) else None
  }

  /** The limit given is the limit the server reads, `None` included. */
  lemma ListMessagesParamsRoundTrip(limit: Option<int>)
    ensures ReadLimit(ListMessagesParams(limit)) == limit
  {
  }

  // ------------------------------------------------------------------ //
  //  URL and credentials
  // ------------------------------------------------------------------ //

  /** `aiohttp.BasicAuth(login, password)` */
  datatype BasicAuth = BasicAuth(login: string, password: string)

  /** `_auth`: credentials exactly when both username and password are non-empty. */
  function Auth(username: Option<string>, password: Option<string>): (r: Option<BasicAuth>)
    ensures r.Some? <==> Given(username) && Given(password)
    ensures r.Some? ==> r.value == BasicAuth(username.value, password.value)
  {
    if Given(username) && Given(password) then Some(BasicAuth(username.value, password.value)) else None
  }

  const Scheme: string := "http://"

  /** `base_url`: `http://{hostname}:{port}` */
  function BaseUrl(hostname: string, port: int): (url: string)
    ensures StartsWith(url, Scheme)
  {
    Scheme + hostname + ":" + IntToDecimal(port)
  }

  /** Reads a base URL back: the host runs up to the last `:`, the port follows it. */
  function ParseBaseUrl(url: string): Option<(string, int)> {
    if !StartsWith(url, Scheme) then None
    else
      var colon := RFind(url, ':', |url|);
      if colon < |Scheme| then None
      else
        var port := ParseInt(url[colon + 1..]);
        if port.None? then None else Some((url[|Scheme|..colon], port.value))
  }

  /** The host and port are recoverable from the base URL, even for a host holding `:`. */
  lemma BaseUrlRoundTrip(hostname: string, port: int)
    ensures ParseBaseUrl(BaseUrl(hostname, port)) == Some((hostname, port))
  {
    var url := BaseUrl(hostname, port);
    var digits := IntToDecimal(port);
    var k := |Scheme| + |hostname|;
    assert url[k] == ':';
    assert url[k + 1..] == digits;
    assert url[|Scheme|..k] == hostname;
    forall j | k < j < |url| ensures url[j] != ':' {
      assert url[j] == digits[j - k - 1];
    }
    var colon := RFind(url, ':', |url|);
    assert colon == k;
    IntToDecimalRoundTrip(port);
  }

  // ------------------------------------------------------------------ //
  //  Process and session lifecycle
  // ------------------------------------------------------------------ //

  /** `aiohttp.ClientTimeout(total=120)` */
  const RequestTimeoutSeconds: int := 120

  /** The number of health polls `start_server` asks for (the default `retries`). */
  const DefaultRetries: int := 30

  /** An `aiohttp.ClientSession` as far as the client depends on it. */
  datatype HttpSession = HttpSession(baseUrl: string, auth: Option<BasicAuth>, timeout: int, closed: bool)

  /** The answer to one `GET /global/health` attempt. */
  datatype HealthPoll =
    | Answered(data: map<string, Json>)  // a decoded JSON object
    | ConnectionFailed                   // `ClientError`, `ConnectionError` or `OSError`: swallowed
    | Crashed(error: string)             // any other exception: propagates

  /** The end of the poll loop of `_wait_healthy`. */
  datatype WaitResult =
    | Healthy(attempt: int)
    | GaveUp
    | Interrupted(attempt: int, error: string)

  /** How a coroutine of the client finished: normally, or with an exception. */
  datatype Completion = Returned | Raised(error: string)

  /** How the server process reacted to `SIGTERM`. */
  datatype Termination =
    | ExitedInTime         // exited within the 10 s grace period
    | TimedOut             // `asyncio.TimeoutError`: killed, then awaited
    | SignalFailed(error: string)  // `send_signal` or the wait raised something else

  /** An attempt that neither reported health nor raised: the loop sleeps and retries. */
  predicate Retry(p: HealthPoll) {
    p.ConnectionFailed? || (p.Answered? && !Truthy(Get(p.data, "healthy")))
  }

  /** `data.get("healthy")` is truthy. */
  predicate ReportsHealthy(p: HealthPoll) {
    p.Answered? && Truthy(Get(p.data, "healthy"))
  }

  /** Attempts `attempt..retries` of `_wait_healthy`, given the answer of every attempt. */
  function WaitFrom(attempt: int, retries: int, answer: int -> HealthPoll): WaitResult
    decreases retries - attempt + 1
  {
    if attempt > retries then GaveUp
    else
      var p := answer(attempt);
      if ReportsHealthy(p) then Healthy(attempt)
      else if p.Crashed? then Interrupted(attempt, p.error)
      else WaitFrom(attempt + 1, retries, answer)
  }

  /** `_wait_healthy(retries)`: attempts are numbered from 1. */
  function WaitSpec(retries: int, answer: int -> HealthPoll): WaitResult {
    WaitFrom(1, retries, answer)
  }

  /** The `RuntimeError` message `_wait_healthy` raises when it gives up. */
  function GaveUpMessage(retries: int): string {
    "OpenCode server did not become healthy after " + IntToDecimal(retries) + " attempts"
  }

  /** How `_wait_healthy` completes for a given poll result. */
  function WaitCompletion(r: WaitResult, retries: int): (c: Completion)
    ensures c.Returned? <==> r.Healthy?
  {
    match r
    case Healthy(_) => Returned
    case GaveUp => Raised(GaveUpMessage(retries))
    case Interrupted(_, e) => Raised(e)
  }

  lemma {:induction false} WaitFromHealthy(attempt: int, retries: int, answer: int -> HealthPoll, k: int)
    ensures WaitFrom(attempt, retries, answer) == Healthy(k)
      <==> attempt <= k <= retries && ReportsHealthy(answer(k))
           && forall j | attempt <= j < k :: Retry(answer(j))
    decreases retries - attempt + 1
  {
    if attempt <= retries {
      var p := answer(attempt);
      if !ReportsHealthy(p) && !p.Crashed? {
        WaitFromHealthy(attempt + 1, retries, answer, k);
        assert Retry(p);
        if attempt <= k <= retries && ReportsHealthy(answer(k))
           && forall j | attempt <= j < k :: Retry(answer(j)) {
          assert k != attempt;
        }
      } else if ReportsHealthy(p) {
        if k != attempt && attempt <= k {
          assert !Retry(answer(attempt));
        }
      } else {
        assert !Retry(p) && !ReportsHealthy(p);
      }
    }
  }

  lemma {:induction false} WaitFromGaveUp(attempt: int, retries: int, answer: int -> HealthPoll)
    ensures WaitFrom(attempt, retries, answer) == GaveUp
      <==> forall j | attempt <= j <= retries :: Retry(answer(j))
    decreases retries - attempt + 1
  {
    if attempt <= retries {
      var p := answer(attempt);
      if !ReportsHealthy(p) && !p.Crashed? {
        WaitFromGaveUp(attempt + 1, retries, answer);
        assert Retry(p);
      } else {
        assert !Retry(answer(attempt));
      }
    }
  }

  lemma {:induction false} WaitFromInterrupted(attempt: int, retries: int, answer: int -> HealthPoll, k: int, e: string)
    ensures WaitFrom(attempt, retries, answer) == Interrupted(k, e)
      <==> attempt <= k <= retries && answer(k) == Crashed(e)
           && forall j | attempt <= j < k :: Retry(answer(j))
    decreases retries - attempt + 1
  {
    if attempt <= retries {
      var p := answer(attempt);
      if !ReportsHealthy(p) && !p.Crashed? {
        WaitFromInterrupted(attempt + 1, retries, answer, k, e);
        assert Retry(p);
        if attempt <= k <= retries && answer(k) == Crashed(e)
           && forall j | attempt <= j < k :: Retry(answer(j)) {
          assert k != attempt;
        }
      } else {
        if k != attempt && attempt <= k {
          assert !Retry(answer(attempt));
        }
      }
    }
  }

  /**
   * `_wait_healthy` returns at the first attempt that reports health, and
   * only when every earlier attempt failed quietly.
   */
  lemma WaitHealthyFirst(retries: int, answer: int -> HealthPoll, k: int)
    ensures WaitSpec(retries, answer) == Healthy(k)
      <==> 1 <= k <= retries && ReportsHealthy(answer(k)) && forall j | 1 <= j < k :: Retry(answer(j))
  {
    WaitFromHealthy(1, retries, answer, k);
  }

  /** `_wait_healthy` gives up exactly when all `retries` attempts failed quietly. */
  lemma WaitHealthyGivesUp(retries: int, answer: int -> HealthPoll)
    ensures WaitSpec(retries, answer) == GaveUp <==> forall j | 1 <= j <= retries :: Retry(answer(j))
  {
    WaitFromGaveUp(1, retries, answer);
  }

  /** Any other exception stops the polling at the attempt that raised it. */
  lemma WaitHealthyInterrupted(retries: int, answer: int -> HealthPoll, k: int, e: string)
    ensures WaitSpec(retries, answer) == Interrupted(k, e)
      <==> 1 <= k <= retries && answer(k) == Crashed(e) && forall j | 1 <= j < k :: Retry(answer(j))
  {
    WaitFromInterrupted(1, retries, answer, k, e);
  }

  /** The number of health requests `_wait_healthy` sends. */
  function AttemptsMade(r: WaitResult, retries: int): int {
    match r
    case Healthy(k) => k
    case GaveUp => if retries < 0 then 0 else retries
    case Interrupted(k, _) => k
  }

  /** At most `retries` attempts are made, and at least one when `retries >= 1`. */
  lemma {:induction false} WaitFromAttempts(attempt: int, retries: int, answer: int -> HealthPoll)
    requires 1 <= attempt
    ensures var r := WaitFrom(attempt, retries, answer);
      (r.Healthy? || r.Interrupted?) ==> attempt <= r.attempt <= retries
    decreases retries - attempt + 1
  {
    if attempt <= retries {
      WaitFromAttempts(attempt + 1, retries, answer);
    }
  }

  lemma WaitHealthyBounded(retries: int, answer: int -> HealthPoll)
    ensures var r := WaitSpec(retries, answer);
      0 <= AttemptsMade(r, retries) <= (if retries < 0 then 0 else retries)
      && (retries >= 1 ==> AttemptsMade(r, retries) >= 1)
  {
    WaitFromAttempts(1, retries, answer);
  }

  /** An `OpenCodeClient`: its configuration and the two handles it owns. */
  class Client {
    const hostname: string
    const port: int
    const workingDirectory: string
    const username: Option<string>
    const password: Option<string>

    /** `_process`: the pid of the running `opencode serve`, if any. */
    var process: Option<int>
    /** `_http`: the lazily created HTTP session. */
    var http: Option<HttpSession>

    /** Any HTTP session the client holds talks to its own server with its own credentials. */
    predicate Valid()
      reads this
    {
      http.Some? ==> http.value.baseUrl == BaseUrl(hostname, port)
                     && http.value.auth == Auth(username, password)
                     && http.value.timeout == RequestTimeoutSeconds
    }

    /** The session the `http` property opens. */
    function NewSession(): (s: HttpSession)
      ensures !s.closed
    {
      HttpSession(BaseUrl(hostname, port), Auth(username, password), RequestTimeoutSeconds, false)
    }

    /** `_http` after one access to the `http` property. */
    function AfterAccess(h: Option<HttpSession>): (r: Option<HttpSession>)
      ensures r.Some? && !r.value.closed
      ensures h.Some? && !h.value.closed ==> r == h
    {
      if h.None? || h.value.closed then Some(NewSession()) else h
    }

    constructor(hostname: string, port: int, workingDirectory: string,
                username: Option<string>, password: Option<string>)
      ensures this.hostname == hostname && this.port == port
      ensures this.workingDirectory == workingDirectory
      ensures this.username == username && this.password == password
      ensures process.None? && http.None?
      ensures Valid()
    {
      this.hostname := hostname;
      this.port := port;
      this.workingDirectory := workingDirectory;
      this.username := username;
      this.password := password;
      process := None;
      http := None;
    }

    /** The `http` property: reuses an open session, otherwise opens a new one. */
    method Http() returns (s: HttpSession)
      requires Valid()
      modifies this
      ensures Valid()
      ensures http == AfterAccess(old(http)) && s == http.value
      ensures process == old(process)
    {
      if http.None? || http.value.closed {
        http := Some(NewSession());
      }
      s := http.value;
    }

    /**
     * `_wait_healthy(retries)`; `answer(k)` is the outcome of attempt `k`.
     * Every attempt goes through the `http` property first.
     */
    method WaitHealthy(retries: int, answer: int -> HealthPoll) returns (r: WaitResult)
      requires Valid()
      modifies this
      ensures Valid()
      ensures r == WaitSpec(retries, answer)
      ensures process == old(process)
      ensures http == if retries >= 1 then AfterAccess(old(http)) else old(http)
    {
      var attempt := 1;
      while attempt <= retries
        invariant 1 <= attempt
        invariant attempt <= if retries < 1 then 1 else retries + 1
        invariant Valid() && process == old(process)
        invariant WaitFrom(attempt, retries, answer) == WaitSpec(retries, answer)
        invariant http == if attempt > 1 then AfterAccess(old(http)) else old(http)
        decreases retries - attempt + 1
      {
        var _ := Http();
        var p := answer(attempt);
        if p.Answered? && Truthy(Get(p.data, "healthy")) {
          return Healthy(attempt);
        }
        if p.Crashed? {
          return Interrupted(attempt, p.error);
        }
        attempt := attempt + 1;
      }
      r := GaveUp;
    }

    /**
     * `start_server`: `spawn` is the outcome of creating the subprocess (its
     * pid, or the exception raised), `answer` that of each health attempt.
     * A second start only warns; a failed poll leaves the process running.
     */
    method StartServer(spawn: Result<int, string>, answer: int -> HealthPoll) returns (c: Completion)
      requires Valid()
      modifies this
      ensures Valid()
      ensures old(process).Some? ==> c == Returned && process == old(process) && http == old(http)
      ensures old(process).None? && spawn.Failure? ==>
        c == Raised(spawn.error) && process.None? && http == old(http)
      ensures old(process).None? && spawn.Success? ==>
        && process == Some(spawn.value)
        && http == AfterAccess(old(http))
        && c == WaitCompletion(WaitSpec(DefaultRetries, answer), DefaultRetries)
    {
      if process.Some? {
        return Returned;
      }
      if spawn.Failure? {
        return Raised(spawn.error);
      }
      process := Some(spawn.value);
      var r := WaitHealthy(DefaultRetries, answer);
      c := WaitCompletion(r, DefaultRetries);
    }

    /**
     * `stop_server`: the process handle is cleared whatever happens; an open
     * HTTP session is closed and dropped unless the termination raised.
     * `forced` tells whether the process had to be killed.
     */
    method StopServer(termination: Termination) returns (c: Completion, forced: bool)
      requires Valid()
      modifies this
      ensures Valid()
      ensures old(process).None? ==>
        c == Returned && !forced && process.None? && http == old(http)
      ensures old(process).Some? ==> process.None? && (forced <==> termination.TimedOut?)
      ensures old(process).Some? && termination.SignalFailed? ==>
        c == Raised(termination.error) && http == old(http)
      ensures old(process).Some? && !termination.SignalFailed? ==>
        && c == Returned
        && http == (if old(http).Some? && !old(http).value.closed then None else old(http))
        && (http.None? || http.value.closed)
    {
      if process.None? {
        return Returned, false;
      }
      forced := termination.TimedOut?;
      process := None;
      if termination.SignalFailed? {
        return Raised(termination.error), forced;
      }
      if http.Some? && !http.value.closed {
        http := None;
      }
      c := Returned;
    }
  }

  /** A full start-stop cycle leaves no process and no open session behind. */
  method StartStopCycle(hostname: string, port: int) returns (client: Client)
    ensures client.process.None?
    ensures client.http.None?
  {
    client := new Client(hostname, port, ".", None, None);
    var healthyAtOnce := (k: int) => Answered(map["healthy" := JBool(true)]);
    assert WaitSpec(DefaultRetries, healthyAtOnce) == Healthy(1);
    var started := client.StartServer(Success(4242), healthyAtOnce);
    assert started == Returned;
    assert client.process == Some(4242);
    var stopped, forced := client.StopServer(ExitedInTime);
    assert stopped == Returned && !forced;
  }
}
