/** `LogApiSender`: request construction and the normalisation of what the
    HTTP call did into the result dict. The call itself is an input. */
module ApiSender {
  import opened Optional
  import opened PyText
  import opened JsonValue

  /** Request headers, in insertion order. */
  type Headers = seq<(string, string)>

  datatype Sender = Sender(apiUrl: Option<string>, apiKey: Option<string>, headers: Option<Headers>)

  /** `LogApiSender()`: the URL comes from the `API_URL` environment variable
      (its constructor arguments are ignored); no key, no headers. */
  function NewSender(envApiUrl: Option<string>): (s: Sender)
    ensures s.apiUrl == envApiUrl && s.apiKey.None? && s.headers.None?
  {
    Sender(envApiUrl, None, None)
  }

  const BearerPrefix := "Bearer "

  /** `set_api_key(key)`. */
  function SetApiKey(s: Sender, key: string): (r: Sender)
    ensures r.apiUrl == s.apiUrl && r.apiKey == Some(key)
    ensures r.headers.Some? && |r.headers.value| == 2
    ensures Keys(HeaderJson(r.headers.value)) == ["Content-Type", "Authorization"]
    ensures r.headers.value[0].1 == "application/json"
    ensures var auth := r.headers.value[1].1;
      |auth| == |BearerPrefix| + |key| && auth[..|BearerPrefix|] == BearerPrefix && auth[|BearerPrefix|..] == key
  {
    Sender(s.apiUrl, Some(key), Some([("Content-Type", "application/json"), ("Authorization", BearerPrefix + key)]))
  }

  function HeaderJson(h: Headers): (f: seq<(string, Json)>)
    ensures |f| == |h|
    ensures forall i :: 0 <= i < |h| ==> f[i] == (h[i].0, JStr(h[i].1))
  {
    if |h| == 0 then [] else [(h[0].0, JStr(h[0].1))] + HeaderJson(h[1..])
  }

  datatype Verb = Post | Put

  /** What is handed to `requests.post` / `requests.put`: the URL is the
      text `str()` makes of it (so a missing API URL becomes "None"). */
  datatype Request = Request(verb: Verb, url: string, headers: Option<Headers>, body: Json)

  datatype Resource = Events | State | End

  function Suffix(k: Resource): string {
    match k
    case Events => "/events"
    case State => "/state"
    case End => "/end"
  }

  /** `f"{self.api_url}/games/{game_id}/<resource>"`. */
  function Endpoint(s: Sender, gameId: string, k: Resource): string {
    OptText(s.apiUrl) + "/games/" + gameId + Suffix(k)
  }

  /** Different games or different resources never share an endpoint. */
  lemma EndpointInjective(s: Sender, g1: string, k1: Resource, g2: string, k2: Resource)
    requires Endpoint(s, g1, k1) == Endpoint(s, g2, k2)
    ensures g1 == g2 && k1 == k2
  {
    var e := Endpoint(s, g1, k1);
    assert e[|e| - 1] == Suffix(k1)[|Suffix(k1)| - 1] == Suffix(k2)[|Suffix(k2)| - 1];
    assert k1 == k2;
    var base := OptText(s.apiUrl) + "/games/";
    assert e == base + g1 + Suffix(k1) && e == base + g2 + Suffix(k2);
    assert |g1| == |g2|;
    assert g1 == e[|base|..|base| + |g1|] == g2;
  }

  /** `send_game_event`: POST `{"type": event_type, "data": event_data}` to `/events`. */
  function EventRequest(s: Sender, gameId: string, eventType: string, eventData: Json): (r: Request)
    ensures r.verb == Post && r.headers == s.headers
    ensures r.url == OptText(s.apiUrl) + "/games/" + gameId + "/events"
    ensures r.body.JObj? && Keys(r.body.fields) == ["type", "data"]
    ensures Get(r.body, "type") == Some(JStr(eventType)) && Get(r.body, "data") == Some(eventData)
  {
    var fields := [("type", JStr(eventType)), ("data", eventData)];
    FindAt(fields, 0);
    FindAt(fields, 1);
    Request(Post, Endpoint(s, gameId, Events), s.headers, JObj(fields))
  }

  /** `send_game_state_update`: PUT the state as it is to `/state`. */
  function StateRequest(s: Sender, gameId: string, gameState: Json): (r: Request)
    ensures r.verb == Put && r.headers == s.headers && r.body == gameState
    ensures r.url == OptText(s.apiUrl) + "/games/" + gameId + "/state"
  {
    Request(Put, Endpoint(s, gameId, State), s.headers, gameState)
  }

  /** `send_game_end`: POST the result as it is to `/end`. */
  function EndRequest(s: Sender, gameId: string, gameResult: Json): (r: Request)
    ensures r.verb == Post && r.headers == s.headers && r.body == gameResult
    ensures r.url == OptText(s.apiUrl) + "/games/" + gameId + "/end"
  {
    Request(Post, Endpoint(s, gameId, End), s.headers, gameResult)
  }

  /** `send_log_data`: the POST its worker thread makes to the API URL itself. */
  function LogDataRequest(s: Sender, logData: Json): (r: Request)
    ensures r.verb == Post && r.url == OptText(s.apiUrl) && r.headers == s.headers && r.body == logData
  {
    Request(Post, OptText(s.apiUrl), s.headers, logData)
  }

  /** The decoding `response.json()` would do of a non-empty body. */
  datatype Decoded = DecodedJson(value: Json) | Undecodable(message: string)

  /** What the HTTP call did. */
  datatype HttpOutcome =
    // the server answered; `reason` and `finalUrl` feed the HTTPError text
    | Responded(status: int, reason: string, finalUrl: string, text: string, body: Decoded)
    // `requests` raised a RequestException; its `response`, if any, had this status
    | RequestFailed(message: string, responseStatus: Option<int>)
    // anything else was raised
    | OtherFailure(message: string)

  /** `raise_for_status` raises for client and server errors. */
  predicate IsHttpError(status: int) { 400 <= status < 600 }

  /** `str(HTTPError)` as `raise_for_status` words it. */
  function HttpErrorText(status: nat, reason: string, url: string): string {
    NatText(status) + (if status < 500 then " Client Error: " else " Server Error: ") + reason + " for url: " + url
  }

  function SuccessResult(status: int, response: Json): Json {
    JObj([("success", JBool(true)), ("status_code", JInt(status)), ("response", response)])
  }

  function RequestErrorResult(message: string, status: Option<int>): Json {
    JObj([("success", JBool(false)), ("error", JStr(message)), ("status_code", OptInt(status))])
  }

  lemma SuccessFields(status: int, response: Json)
    ensures Get(SuccessResult(status, response), "success") == Some(JBool(true))
    ensures Get(SuccessResult(status, response), "status_code") == Some(JInt(status))
    ensures Get(SuccessResult(status, response), "response") == Some(response)
  {
    var f := SuccessResult(status, response).fields;
    FindAt(f, 0);
    FindAt(f, 1);
    FindAt(f, 2);
  }

  lemma RequestErrorFields(message: string, status: Option<int>)
    ensures Get(RequestErrorResult(message, status), "success") == Some(JBool(false))
    ensures Get(RequestErrorResult(message, status), "error") == Some(JStr(message))
    ensures Get(RequestErrorResult(message, status), "status_code") == Some(OptInt(status))
  {
    var f := RequestErrorResult(message, status).fields;
    FindAt(f, 0);
    FindAt(f, 1);
    FindAt(f, 2);
  }

  /** The result when the call returned: HTTP errors and an undecodable body
      (requests' `JSONDecodeError` is a `RequestException` raised without a
      response) become request errors. */
  function RespondedResult(status: int, reason: string, finalUrl: string, text: string, body: Decoded): Json {
    if IsHttpError(status) then RequestErrorResult(HttpErrorText(status, reason, finalUrl), Some(status))
    else if text == "" then SuccessResult(status, JNull)
    else match body
      case DecodedJson(v) => SuccessResult(status, v)
      case Undecodable(m) => RequestErrorResult(m, None)
  }

  /** What a synchronous send produced: a result dict, or an exception that
      escapes to the caller. */
  datatype SyncResult = Returned(result: Json) | Propagated(message: string)

  /** Result shaping of `send_game_event`, `send_game_state_update` and
      `send_game_end`, which catch only `RequestException`. */
  function SyncResultOf(o: HttpOutcome): (r: SyncResult)
    ensures r.Propagated? <==> o.OtherFailure?
  {
    match o
    case Responded(st, reason, url, text, body) => Returned(RespondedResult(st, reason, url, text, body))
    case RequestFailed(m, st) => Returned(RequestErrorResult(m, st))
    case OtherFailure(m) => Propagated(m)
  }

  /** Result shaping of `_send_log_data_thread`, which also turns every other
      exception into `{success: False, error}`. */
  function WorkerResult(o: HttpOutcome): (r: Json)
    ensures r.JObj? && |r.fields| >= 2 && r.fields[0].0 == "success"
  {
    match o
    case Responded(st, reason, url, text, body) => RespondedResult(st, reason, url, text, body)
    case RequestFailed(m, st) => RequestErrorResult(m, st)
    case OtherFailure(m) => JObj([("success", JBool(false)), ("error", JStr(m))])
  }

  /** The result dict reports success exactly when the server answered with a
      status `raise_for_status` accepts and a body that is empty or decodes;
      the status code is the response's own whenever there was one. */
  lemma WorkerResultMeaning(o: HttpOutcome)
    ensures Get(WorkerResult(o), "success") == Some(JBool(
      o.Responded? && !IsHttpError(o.status) && (o.text == "" || o.body.DecodedJson?)))
    ensures o.Responded? && (IsHttpError(o.status) || o.text == "" || o.body.DecodedJson?) ==>
      Get(WorkerResult(o), "status_code") == Some(JInt(o.status))
    ensures o.Responded? && IsHttpError(o.status) ==>
      Get(WorkerResult(o), "error") == Some(JStr(HttpErrorText(o.status, o.reason, o.finalUrl)))
    ensures o.Responded? && !IsHttpError(o.status) && o.text != "" && o.body.Undecodable? ==>
      Get(WorkerResult(o), "status_code") == Some(JNull)
      && Get(WorkerResult(o), "error") == Some(JStr(o.body.message))
    ensures o.RequestFailed? ==>
      Get(WorkerResult(o), "status_code") == Some(OptInt(o.responseStatus))
      && Get(WorkerResult(o), "error") == Some(JStr(o.message))
    ensures o.Responded? && !IsHttpError(o.status) && o.text == "" ==>
      Get(WorkerResult(o), "response") == Some(JNull)
    ensures o.Responded? && !IsHttpError(o.status) && o.text != "" && o.body.DecodedJson? ==>
      Get(WorkerResult(o), "response") == Some(o.body.value)
  {
    match o
    case Responded(st, reason, url, text, body) =>
      if IsHttpError(st) {
        RequestErrorFields(HttpErrorText(st, reason, url), Some(st));
      } else if text == "" {
        SuccessFields(st, JNull);
      } else if body.DecodedJson? {
        SuccessFields(st, body.value);
      } else {
        RequestErrorFields(body.message, None);
      }
    case RequestFailed(m, st) =>
      RequestErrorFields(m, st);
    case OtherFailure(m) =>
      FindAt(WorkerResult(o).fields, 0);
  }

  /** The keys of the result dict in each case: `response` only on success,
      `status_code` on every request error, and neither for other exceptions. */
  lemma WorkerResultKeys(o: HttpOutcome)
    ensures var ks := Keys(WorkerResult(o).fields);
      && (Get(WorkerResult(o), "success") == Some(JBool(true)) ==> ks == ["success", "status_code", "response"])
      && (o.OtherFailure? ==> ks == ["success", "error"])
      && (!o.OtherFailure? && Get(WorkerResult(o), "success") == Some(JBool(false)) ==>
            ks == ["success", "error", "status_code"])
  {
  }

  /** The synchronous variants return what the worker would, except that
      exceptions other than `RequestException` escape instead of being shaped. */
  lemma SyncAgreesWithWorker(o: HttpOutcome)
    ensures !o.OtherFailure? ==> SyncResultOf(o) == Returned(WorkerResult(o))
    ensures o.OtherFailure? ==> SyncResultOf(o) == Propagated(o.message)
  {
  }

  /** `send_game_event` as a whole: the request it makes and what it returns. */
  function SendGameEvent(s: Sender, gameId: string, eventType: string, eventData: Json, o: HttpOutcome)
    : (Request, SyncResult)
  {
    (EventRequest(s, gameId, eventType, eventData), SyncResultOf(o))
  }

  function SendGameStateUpdate(s: Sender, gameId: string, gameState: Json, o: HttpOutcome): (Request, SyncResult) {
    (StateRequest(s, gameId, gameState), SyncResultOf(o))
  }

  function SendGameEnd(s: Sender, gameId: string, gameResult: Json, o: HttpOutcome): (Request, SyncResult) {
    (EndRequest(s, gameId, gameResult), SyncResultOf(o))
  }

  /** `send_log_data`: starts the worker and returns nothing; the worker's
      result dict is dropped, so the caller sees only the request made. */
  function SendLogData(s: Sender, logData: Json): Request {
    LogDataRequest(s, logData)
  }
}
