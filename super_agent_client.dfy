/**
 * The current superagent client: it builds each request from the fields
 * the factory's constructor set (URL, authentication, query, headers,
 * body, response type) and turns the response into an envelope. The
 * transport that sends a request is a parameter.
 */
module AgentClient {
  import opened Wrappers
  import opened JsValues
  import opened Requests
  import opened ClientFactory
  import opened Authentication
  import opened RequestBody

  function CredentialsOf(s: Settings): Credentials
  {
    Credentials(s.username, s.password, s.apiKey, s.accessToken)
  }

  /** `bag && Object.keys(bag).length`: a truthy bag with at least one own key. */
  predicate HasKeys(b: Bag)
  {
    BagTruthy(b) && |BagEntries(b)| > 0
  }

  /** The URL `createRequest` asks for: no API base path, so the configured base path. */
  function UrlFor(s: Settings, path: string): Result<string>
  {
    Substitute(Factory, s.pathParams, BaseOf(s.basePath, Some("")) + Rooted(path))
  }

  /** The steps after authentication: query, headers, body, response type. */
  function Dressed(s: Settings, host: Host, body: Value, rv: RequestValue): RequestValue
  {
    var withQuery := if HasKeys(s.queryParams) then WithQuery(rv, Normalized(Factory, host, BagEntries(s.queryParams))) else rv;
    var withHeaders :=
      if HasKeys(s.headerParams) then WithHeaders(withQuery, Normalized(Factory, host, BagEntries(s.headerParams)))
      else withQuery;
    var withBody := BodyFor(Factory, host, s.contentType, s.formParams, body, withHeaders);
    if Given(s.responseType) then WithResponseType(withBody, s.responseType.value) else withBody
  }

  /** The request `createRequest` returns, or the error it rethrows. */
  function Assembled(s: Settings, host: Host, httpMethod: string, path: string, body: Value): Result<RequestValue>
  {
    var url := UrlFor(s, path);
    if url.Err? then Err(url.error)
    else if s.authTypes.None? then Err(TypeError("forEach"))
    else
      var authed := ApplyAuth(CredentialsOf(s), Fresh(httpMethod, url.value), s.authTypes.value);
      if authed.failure.Some? then Err(authed.failure.value) else Ok(Dressed(s, host, body, authed.request))
  }

  /** A verb: the assembled request, sent, then `deserialize` on the response with the client's response type. */
  function Exchange(
    built: Result<RequestValue>,
    transport: RequestValue -> Result<RawResponse>,
    returnType: Option<string>,
    host: Host,
    jsonParse: string -> Option<Value>): Result<Envelope>
  {
    if built.Err? then Err(built.error)
    else
      var response := transport(built.value);
      if response.Err? then Err(response.error) else Deserialize(Some(response.value), returnType, host, jsonParse)
  }

  class SuperAgentClient {
    const username: string
    const password: string
    const apiKey: string
    const accessToken: string
    const authTypes: Option<seq<string>>
    const basePath: Option<string>
    const pathParams: Bag
    const queryParams: Bag
    const headerParams: Bag
    const formParams: Bag
    const timeout: int
    const contentType: string
    const responseType: Option<string>
    /** The environment `isFileParam` and `deserialize` probe. */
    const host: Host

    function Fields(): Settings
    {
      Settings(username, password, apiKey, accessToken, authTypes, basePath,
        pathParams, queryParams, headerParams, formParams, timeout, contentType, responseType)
    }

    /** The factory's constructor; the loggers are left out. */
    constructor(config: ClientConfig, host: Host)
      ensures Fields() == Defaults(config) && this.host == host
    {
      username := Or(config.username, "");
      password := Or(config.password, "");
      apiKey := Or(config.apiKey, "");
      accessToken := Or(config.accessToken, "");
      authTypes := config.authTypes;
      basePath := config.basePath;
      pathParams := config.pathParams;
      queryParams := config.pathParams;
      headerParams := config.headerParams;
      formParams := config.formParams;
      timeout := if config.timeout.Some? && config.timeout.value != 0 then config.timeout.value else DefaultTimeout;
      contentType := Or(config.contentType, Json);
      responseType := Some(Or(config.responseType, Json));
      this.host := host;
    }

    /** `applyAuthToRequest`: the named schemes applied to `request` itself, which is returned. */
    method ApplyAuthToRequest(request: HttpRequest, authNames: Option<seq<string>>) returns (r: Result<HttpRequest>)
      modifies request
      ensures authNames.None? ==> r == Err(TypeError("forEach")) && request.View() == old(request.View())
      ensures authNames.Some? ==>
        var o := ApplyAuth(CredentialsOf(Fields()), old(request.View()), authNames.value);
        && request.View() == o.request
        && (o.failure.None? ==> r == Ok(request))
        && (o.failure.Some? ==> r == Err(o.failure.value))
    {
      if authNames.None? {
        return Err(TypeError("forEach"));
      }
      var failure := AuthenticateAll(CredentialsOf(Fields()), request, authNames.value);
      if failure.Some? {
        return Err(failure.value);
      }
      r := Ok(request);
    }

    /** `createRequest`: a new request object, or the error that was thrown. */
    method CreateRequest(httpMethod: string, path: string, body: Value) returns (r: Result<HttpRequest>)
      ensures r.Err? ==> Assembled(Fields(), host, httpMethod, path, body) == Err(r.error)
      ensures r.Ok? ==>
        && fresh(r.value)
        && Assembled(Fields(), host, httpMethod, path, body) == Ok(r.value.View())
    {
      var url := BuildUrl(Factory, basePath, path, pathParams, Some(""));
      if url.Err? {
        return Err(url.error);
      }
      var request := new HttpRequest(httpMethod, url.value);
      var authed := ApplyAuthToRequest(request, authTypes);
      if authed.Err? {
        return Err(authed.error);
      }
      Dress(authed.value, body);
      r := Ok(authed.value);
    }

    /** The steps of `createRequest` after authentication, on the new request. */
    method Dress(request: HttpRequest, body: Value)
      modifies request
      ensures request.View() == Dressed(Fields(), host, body, old(request.View()))
    {
      if HasKeys(queryParams) {
        var q := NormalizeParams(Factory, host, queryParams);
        request.Query(q);
      }
      if HasKeys(headerParams) {
        var h := NormalizeParams(Factory, host, headerParams);
        request.Set(h);
      }
      AttachBody(Factory, host, request, contentType, formParams, body);
      if Given(responseType) {
        request.SetResponseType(responseType.value);
      }
    }

    method PostRequest(path: string, body: Value, transport: RequestValue -> Result<RawResponse>, jsonParse: string -> Option<Value>)
      returns (r: Result<Envelope>)
      ensures r == Exchange(Assembled(Fields(), host, "post", path, body), transport, responseType, host, jsonParse)
    {
      r := Send("post", path, body, transport, jsonParse);
    }

    method GetRequest(path: string, transport: RequestValue -> Result<RawResponse>, jsonParse: string -> Option<Value>)
      returns (r: Result<Envelope>)
      ensures r == Exchange(Assembled(Fields(), host, "get", path, Undefined), transport, responseType, host, jsonParse)
    {
      r := Send("get", path, Undefined, transport, jsonParse);
    }

    method PutRequest(path: string, body: Value, transport: RequestValue -> Result<RawResponse>, jsonParse: string -> Option<Value>)
      returns (r: Result<Envelope>)
      ensures r == Exchange(Assembled(Fields(), host, "put", path, body), transport, responseType, host, jsonParse)
    {
      r := Send("put", path, body, transport, jsonParse);
    }

    method DeleteRequest(path: string, transport: RequestValue -> Result<RawResponse>, jsonParse: string -> Option<Value>)
      returns (r: Result<Envelope>)
      ensures r == Exchange(Assembled(Fields(), host, "delete", path, Undefined), transport, responseType, host, jsonParse)
    {
      r := Send("delete", path, Undefined, transport, jsonParse);
    }

    /** What every verb shares: create, send, then deserialise. */
    method Send(httpMethod: string, path: string, body: Value, transport: RequestValue -> Result<RawResponse>,
                jsonParse: string -> Option<Value>)
      returns (r: Result<Envelope>)
      ensures r == Exchange(Assembled(Fields(), host, httpMethod, path, body), transport, responseType, host, jsonParse)
    {
      var request := CreateRequest(httpMethod, path, body);
      if request.Err? {
        return Err(request.error);
      }
      var response := transport(request.value.View());
      if response.Err? {
        return Err(response.error);
      }
      r := Deserialize(Some(response.value), responseType, host, jsonParse);
    }
  }

  // ---------------------------------------------------------------------
  // What `createRequest` builds

  /**
   * `createRequest` throws exactly when the path has a placeholder and the
   * path parameters are undefined, when there are no authentication names,
   * or when one of them is unknown; the first of these that applies is the
   * error.
   */
  lemma AssembledErrors(s: Settings, host: Host, httpMethod: string, path: string, body: Value)
    ensures var r := Assembled(s, host, httpMethod, path, body);
      var text := BaseOf(s.basePath, Some("")) + Rooted(path);
      && (r.Err? <==>
          (s.pathParams.Absent? && HasToken(text)) || s.authTypes.None? ||
          (exists i :: 0 <= i < |s.authTypes.value| && !Known(s.authTypes.value[i])))
      && (s.pathParams.Absent? && HasToken(text) ==> r == Err(TypeError("hasOwnProperty")))
      && (!(s.pathParams.Absent? && HasToken(text)) && s.authTypes.None? ==> r == Err(TypeError("forEach")))
      && (r.Err? && r.error.UnknownAuthType? ==>
          exists k :: 0 <= k < |s.authTypes.value| && r.error.name == s.authTypes.value[k] && !Known(s.authTypes.value[k]) &&
            forall j :: 0 <= j < k ==> Known(s.authTypes.value[j]))
  {
    var text := BaseOf(s.basePath, Some("")) + Rooted(path);
    SubstituteErrors(Factory, s.pathParams, text);
    var url := UrlFor(s, path);
    if url.Ok? && s.authTypes.Some? {
      ApplyAuthFailure(CredentialsOf(s), Fresh(httpMethod, url.value), s.authTypes.value);
    }
  }

  /** The request has the verb and the URL it was asked for, and the response type exactly when one is set. */
  lemma AssembledTarget(s: Settings, host: Host, httpMethod: string, path: string, body: Value)
    requires Assembled(s, host, httpMethod, path, body).Ok?
    ensures var rv := Assembled(s, host, httpMethod, path, body).value;
      && rv.httpMethod == httpMethod
      && UrlFor(s, path) == Ok(rv.url)
      && (!HasToken(BaseOf(s.basePath, Some("")) + Rooted(path)) ==> rv.url == TextOf(s.basePath) + Rooted(path))
      && rv.responseType == (if Given(s.responseType) then s.responseType else None)
  {
    var text := BaseOf(s.basePath, Some("")) + Rooted(path);
    SubstituteTokenFree(Factory, s.pathParams, text);
    var url := UrlFor(s, path).value;
    ApplyAuthFrame(CredentialsOf(s), Fresh(httpMethod, url), s.authTypes.value);
    var authed := ApplyAuth(CredentialsOf(s), Fresh(httpMethod, url), s.authTypes.value).request;
    BodyChoice(Factory, host, s.contentType, s.formParams, body, DressedHeaders(s, host, authed));
  }

  /** The request after authentication, query and headers. */
  function DressedHeaders(s: Settings, host: Host, rv: RequestValue): RequestValue
  {
    var withQuery := if HasKeys(s.queryParams) then WithQuery(rv, Normalized(Factory, host, BagEntries(s.queryParams))) else rv;
    if HasKeys(s.headerParams) then WithHeaders(withQuery, Normalized(Factory, host, BagEntries(s.headerParams)))
    else withQuery
  }

  lemma DressedSplit(s: Settings, host: Host, body: Value, rv: RequestValue)
    ensures var b := BodyFor(Factory, host, s.contentType, s.formParams, body, DressedHeaders(s, host, rv));
      Dressed(s, host, body, rv) == if Given(s.responseType) then WithResponseType(b, s.responseType.value) else b
  {
  }

  /** The request `ApplyAuth` leaves on the fresh request; what the header and query lemmas compare against. */
  function Authenticated(s: Settings, httpMethod: string, url: string): RequestValue
    requires s.authTypes.Some?
  {
    ApplyAuth(CredentialsOf(s), Fresh(httpMethod, url), s.authTypes.value).request
  }

  /**
   * A header is the header parameter of that name when the header
   * parameters have keys and hold it, and what authentication set otherwise;
   * a header that no scheme sets is absent then. The query behaves the same
   * way with the query parameters.
   */
  lemma AssembledHeadersAndQuery(s: Settings, host: Host, httpMethod: string, path: string, body: Value, k: string)
    requires Assembled(s, host, httpMethod, path, body).Ok?
    ensures var rv := Assembled(s, host, httpMethod, path, body).value;
      var authed := Authenticated(s, httpMethod, rv.url);
      var headers := Normalized(Factory, host, BagEntries(s.headerParams));
      var query := Normalized(Factory, host, BagEntries(s.queryParams));
      && Lookup(rv.header, k) ==
        (if HasKeys(s.headerParams) && Lookup(headers, k).Some? then Lookup(headers, k) else Lookup(authed.header, k))
      && Lookup(rv.qs, k) ==
        (if HasKeys(s.queryParams) && Lookup(query, k).Some? then Lookup(query, k) else Lookup(authed.qs, k))
      && (k != "Authorization" && k != ApiKeyName ==> Lookup(authed.header, k).None?)
      && (k != ApiKeyName ==> Lookup(authed.qs, k).None?)
  {
    var url := UrlFor(s, path).value;
    var authed := Authenticated(s, httpMethod, url);
    var headers := Normalized(Factory, host, BagEntries(s.headerParams));
    var query := Normalized(Factory, host, BagEntries(s.queryParams));
    ApplyAuthFrame(CredentialsOf(s), Fresh(httpMethod, url), s.authTypes.value);
    NormalizedDistinct(Factory, host, BagEntries(s.headerParams));
    NormalizedDistinct(Factory, host, BagEntries(s.queryParams));
    AssignAllDistinct(authed.qs, query, k);
    var withQuery := if HasKeys(s.queryParams) then WithQuery(authed, query) else authed;
    AssignAllDistinct(withQuery.header, headers, k);
    var dressed := DressedHeaders(s, host, authed);
    BodyChoice(Factory, host, s.contentType, s.formParams, body, dressed);
    DressedSplit(s, host, body, authed);
  }

  /**
   * The body depends on nothing but the content type, the form parameters
   * and the body: it is what the body branch puts on a fresh request.
   */
  lemma AssembledBody(s: Settings, host: Host, httpMethod: string, path: string, body: Value)
    requires Assembled(s, host, httpMethod, path, body).Ok?
    ensures var rv := Assembled(s, host, httpMethod, path, body).value;
      var alone := BodyFor(Factory, host, s.contentType, s.formParams, body, Fresh(httpMethod, rv.url));
      rv.data == alone.data && rv.parts == alone.parts
  {
    var url := UrlFor(s, path).value;
    var authed := Authenticated(s, httpMethod, url);
    ApplyAuthFrame(CredentialsOf(s), Fresh(httpMethod, url), s.authTypes.value);
    var dressed := DressedHeaders(s, host, authed);
    BodyChoice(Factory, host, s.contentType, s.formParams, body, dressed);
    BodyChoice(Factory, host, s.contentType, s.formParams, body, Fresh(httpMethod, url));
    DressedSplit(s, host, body, authed);
  }

  /**
   * With the `basic` scheme alone, the request carries the Basic credentials
   * exactly when a username or a password is set, unless a header parameter
   * of the same name replaces them.
   */
  lemma AssembledBasicAuth(s: Settings, host: Host, httpMethod: string, path: string, body: Value)
    requires s.authTypes == Some(["basic"])
    requires Assembled(s, host, httpMethod, path, body).Ok?
    requires Lookup(BagEntries(s.headerParams), "Authorization").None?
    ensures var rv := Assembled(s, host, httpMethod, path, body).value;
      Lookup(rv.header, "Authorization") ==
        if s.username != "" || s.password != "" then Some(Str(BasicCredentials(s.username, s.password))) else None
  {
    var url := UrlFor(s, path).value;
    AssembledHeadersAndQuery(s, host, httpMethod, path, body, "Authorization");
    var headers := Normalized(Factory, host, BagEntries(s.headerParams));
    NormalizedDistinct(Factory, host, BagEntries(s.headerParams));
    LookupAbsentKey(Factory, host, BagEntries(s.headerParams), "Authorization");
    SchemeEffects(CredentialsOf(s), Fresh(httpMethod, url), "basic");
    assert ["basic"][1..] == [];
  }

  /** A key the input does not have is not in the normalised object either. */
  lemma {:induction false} LookupAbsentKey(variant: Variant, host: Host, p: Props, k: string)
    requires Lookup(p, k).None?
    ensures Lookup(Normalized(variant, host, p), k).None?
    decreases |p|
  {
    if p != [] {
      var init := p[..|p| - 1];
      assert Lookup(init, k).None? by {
        forall i | 0 <= i < |init| ensures init[i].0 != k {
          assert init[i] == p[i];
        }
      }
      LookupAbsentKey(variant, host, init, k);
    }
  }
}
