/**
 * The `api` object: a base URL set with a trailing slash dropped, and
 * `request`, which merges headers, adds a JSON body only when one is given,
 * hands the request to the host's `fetch` and classifies what comes back.
 * `fetch` is a parameter; what `response.json()` resolves to is part of the
 * response record (`None` when it rejects).
 */
module ApiClient {
  import opened JsValue

  const ContentType := "Content-Type"
  const Accept := "Accept"
  const ApplicationJson := "application/json"

  /** `url.endsWith('/') ? url.slice(0, -1) : url` */
  function StripTrailingSlash(url: string): (r: string)
    ensures |url| > 0 && url[|url| - 1] == '/' ==> r + "/" == url
    ensures !(|url| > 0 && url[|url| - 1] == '/') ==> r == url
  {
    if |url| > 0 && url[|url| - 1] == '/' then url[..|url| - 1] else url
  }

  /** Only one slash goes: a base URL ending in two keeps one. */
  lemma StripRemovesOneSlash()
    ensures StripTrailingSlash("https://example.org//") == "https://example.org/"
  {
  }

  /** `{ 'Content-Type': ..., 'Accept': ..., ...customHeaders }`: the caller's headers win. */
  function MergeHeaders(custom: map<string, string>): (h: map<string, string>)
    ensures h.Keys == custom.Keys + {ContentType, Accept}
    ensures forall k :: k in custom ==> h[k] == custom[k]
    ensures ContentType !in custom ==> h[ContentType] == ApplicationJson
    ensures Accept !in custom ==> h[Accept] == ApplicationJson
  {
    map[ContentType := ApplicationJson, Accept := ApplicationJson] + custom
  }

  /** `method = 'GET'`: the method used when the caller leaves it out. */
  const DefaultMethod := "GET"

  /** `customHeaders = {}`: no extra headers when the caller leaves them out. */
  const DefaultHeaders: map<string, string> := map[]

  /** The `config` handed to `fetch`; `body` is the value whose `JSON.stringify` text is sent. */
  datatype Config = Config(httpMethod: string, headers: map<string, string>, body: Option<Value>)

  datatype HttpRequest = HttpRequest(url: string, config: Config)

  /** What `request` hands to `fetch`. */
  function Prepare(baseUrl: string, endpoint: string, httpMethod: string, body: Value, custom: map<string, string>): (req: HttpRequest)
    ensures req.url == baseUrl + endpoint
    ensures req.config.httpMethod == httpMethod
    ensures req.config.headers == MergeHeaders(custom)
    ensures req.config.body.Some? <==> Truthy(body)
    ensures req.config.body.Some? ==> req.config.body.value == body
  {
    HttpRequest(baseUrl + endpoint, Config(httpMethod, MergeHeaders(custom), if Truthy(body) then Some(body) else None))
  }

  /** A response: its status, its `ok` flag, and what `response.json()` resolves to. */
  datatype Response = Response(status: int, ok: bool, json: Option<Value>)

  datatype FetchResult = Responded(response: Response) | NetworkFailure(reason: Value)

  datatype Failure =
      /** `new Error(message)` for a response that is not ok */
    | HttpError(message: string)
      /** the TypeError of reading `.message` of a null error body */
    | NullErrorBody
      /** an ok response whose body is not JSON */
    | SyntaxError
      /** `fetch` itself rejected; rethrown unchanged */
    | Transport(reason: Value)

  datatype Outcome = Success(value: Value) | Failed(failure: Failure)

  /** `` `HTTP Error: ${response.status}` ``: never empty, so a thrown error always carries text. */
  function GenericMessage(status: int): (m: string)
    ensures |m| > 12 && m[..12] == "HTTP Error: "
    ensures IsDigits(m[12..]) <==> status >= 0
    ensures m[12] == '-' <==> status < 0
    ensures status >= 0 ==> DigitsValue(m[12..]) == status
    ensures status < 0 ==> IsDigits(m[13..]) && DigitsValue(m[13..]) == -status
    ensures status >= 0 && |m| > 13 ==> m[12] != '0'
    ensures status < 0 ==> |m| > 13 && m[13] != '0'
  {
    var m := "HTTP Error: " + IntToString(status);
    assert m[12..] == IntToString(status);
    m
  }

  /** `await response.json().catch(() => ({}))` */
  function ErrorBody(r: Response): (b: Value)
    ensures r.json.Some? ==> b == r.json.value
    ensures r.json.None? ==> b == Obj(map[])
  {
    if r.json.Some? then r.json.value else Obj(map[])
  }

  /** How `request` turns a response into its result or its thrown error. */
  function Classify(r: Response): (o: Outcome)
    ensures !r.ok ==> o.Failed?
    ensures !r.ok && GetProp(ErrorBody(r), "message").TypeError? ==> o == Failed(NullErrorBody)
    ensures !r.ok && GetProp(ErrorBody(r), "message").Got? ==>
      var m := GetProp(ErrorBody(r), "message").v;
      o == Failed(HttpError(if Truthy(m) then ToJsString(m) else GenericMessage(r.status)))
    ensures r.ok && r.status == 204 ==> o == Success(Obj(map[]))
    ensures r.ok && r.status != 204 && r.json.Some? ==> o == Success(r.json.value)
    ensures r.ok && r.status != 204 && r.json.None? ==> o == Failed(SyntaxError)
  {
    if !r.ok then
      match GetProp(ErrorBody(r), "message")
      case TypeError => Failed(NullErrorBody)
      case Got(m) => Failed(HttpError(if Truthy(m) then ToJsString(m) else GenericMessage(r.status)))
    else if r.status == 204 then Success(Obj(map[]))
    else if r.json.Some? then Success(r.json.value)
    else Failed(SyntaxError)
  }

  /** An error response whose body is not JSON fails with the generic message. */
  lemma UnparseableErrorBody(status: int)
    ensures Classify(Response(status, false, None)) == Failed(HttpError(GenericMessage(status)))
  {
  }

  /** A 400 with `{"message": "bad input"}` fails with that message. */
  lemma ServerMessageSurfaces()
    ensures Classify(Response(400, false, Some(Obj(map["message" := Str("bad input")])))) ==
      Failed(HttpError("bad input"))
  {
  }

  /** A 404 whose JSON body carries no message fails with "HTTP Error: 404". */
  lemma GenericNotFound()
    ensures Classify(Response(404, false, Some(Obj(map[])))) == Failed(HttpError("HTTP Error: 404"))
  {
    assert DigitChar(4) == '4' && DigitChar(0) == '0';
    assert NatToString(4) == "4";
    assert NatToString(40) == "40";
    assert NatToString(404) == "404";
    assert GenericMessage(404) == "HTTP Error: 404";
  }

  /** `new Error(m)` keeps `String(m)`: a numeric message 42 becomes the text "42". */
  lemma NumericMessage()
    ensures Classify(Response(500, false, Some(Obj(map["message" := Num(42)])))) == Failed(HttpError("42"))
  {
    assert DigitChar(4) == '4' && DigitChar(2) == '2';
    assert NatToString(42) == "42";
  }

  /** A 204 gives `{}` whatever its body would parse to. */
  lemma NoContentIgnoresBody(json: Option<Value>)
    ensures Classify(Response(204, true, json)) == Success(Obj(map[]))
  {
  }

  /**
   * The config `fetch` receives from each wrapper (the arguments `Get`,
   * `Post`, `Put` and `Delete` hand to `Request`): `get` and `delete` never
   * send a body, `post` and `put` send any truthy body; all four use the
   * caller's headers over the defaults.
   */
  lemma WrapperBodies(baseUrl: string, endpoint: string, headers: Option<map<string, string>>, body: Value)
    ensures Prepare(baseUrl, endpoint, "GET", Null, OrDefault(headers, DefaultHeaders)).config ==
      Config("GET", MergeHeaders(OrDefault(headers, DefaultHeaders)), None)
    ensures Prepare(baseUrl, endpoint, "DELETE", Null, OrDefault(headers, DefaultHeaders)).config ==
      Config("DELETE", MergeHeaders(OrDefault(headers, DefaultHeaders)), None)
    ensures Truthy(body) ==>
      Prepare(baseUrl, endpoint, "POST", body, OrDefault(headers, DefaultHeaders)).config ==
      Config("POST", MergeHeaders(OrDefault(headers, DefaultHeaders)), Some(body))
    ensures Truthy(body) ==>
      Prepare(baseUrl, endpoint, "PUT", body, OrDefault(headers, DefaultHeaders)).config ==
      Config("PUT", MergeHeaders(OrDefault(headers, DefaultHeaders)), Some(body))
  {
  }

  /** A call with only an endpoint sends a GET with the default headers and no body. */
  lemma OmittedArgumentsSendGet(baseUrl: string, endpoint: string)
    ensures Prepare(baseUrl, endpoint, OrDefault(None, DefaultMethod), Undefined, OrDefault(None, DefaultHeaders)) ==
      HttpRequest(baseUrl + endpoint, Config("GET", map[ContentType := ApplicationJson, Accept := ApplicationJson], None))
  {
    assert map[ContentType := ApplicationJson, Accept := ApplicationJson] + map[] ==
      map[ContentType := ApplicationJson, Accept := ApplicationJson];
  }

  class Client {
    var baseUrl: string

    constructor ()
      ensures baseUrl == ""
    {
      baseUrl := "";
    }

    method SetBaseUrl(url: string)
      modifies this
      ensures baseUrl == StripTrailingSlash(url)
    {
      baseUrl := StripTrailingSlash(url);
    }

    /**
     * `request(endpoint, method, body, customHeaders)` with `fetch` supplied by
     * the host; `None` stands for an argument left out. A body left out is
     * undefined, which is falsy like its default null, so it sends no body.
     */
    function Request(endpoint: string, httpMethod: Option<string>, body: Value, custom: Option<map<string, string>>,
                     fetch: HttpRequest -> FetchResult): (o: Outcome)
      reads this
      ensures var sent := fetch(Prepare(baseUrl, endpoint, OrDefault(httpMethod, DefaultMethod), body, OrDefault(custom, DefaultHeaders)));
        && (sent.NetworkFailure? ==> o == Failed(Transport(sent.reason)))
        && (sent.Responded? ==> o == Classify(sent.response))
    {
      match fetch(Prepare(baseUrl, endpoint, OrDefault(httpMethod, DefaultMethod), body, OrDefault(custom, DefaultHeaders)))
      case NetworkFailure(reason) => Failed(Transport(reason))
      case Responded(response) => Classify(response)
    }

    /** `get(endpoint, headers)`: a GET with a null body. */
    function Get(endpoint: string, headers: Option<map<string, string>>, fetch: HttpRequest -> FetchResult): (o: Outcome)
      reads this
      ensures o == Request(endpoint, Some("GET"), Null, headers, fetch)
    {
      Request(endpoint, Some("GET"), Null, headers, fetch)
    }

    /** `post(endpoint, body, headers)` */
    function Post(endpoint: string, body: Value, headers: Option<map<string, string>>, fetch: HttpRequest -> FetchResult): (o: Outcome)
      reads this
      ensures o == Request(endpoint, Some("POST"), body, headers, fetch)
    {
      Request(endpoint, Some("POST"), body, headers, fetch)
    }

    /** `put(endpoint, body, headers)` */
    function Put(endpoint: string, body: Value, headers: Option<map<string, string>>, fetch: HttpRequest -> FetchResult): (o: Outcome)
      reads this
      ensures o == Request(endpoint, Some("PUT"), body, headers, fetch)
    {
      Request(endpoint, Some("PUT"), body, headers, fetch)
    }

    /** `delete(endpoint, headers)`: a DELETE with a null body. */
    function Delete(endpoint: string, headers: Option<map<string, string>>, fetch: HttpRequest -> FetchResult): (o: Outcome)
      reads this
      ensures o == Request(endpoint, Some("DELETE"), Null, headers, fetch)
    {
      Request(endpoint, Some("DELETE"), Null, headers, fetch)
    }
  }

  /** After `setBaseUrl("https://api.example.org/")`, `get("/users")` fetches "https://api.example.org/users". */
  method Scenario(fetch: HttpRequest -> FetchResult) {
    var c := new Client();
    c.SetBaseUrl("https://api.example.org/");
    assert c.baseUrl == "https://api.example.org";
    var req := Prepare(c.baseUrl, "/users", "GET", Null, map[]);
    assert req.url == "https://api.example.org/users";
    assert req.config.headers[ContentType] == ApplicationJson;
  }
}
