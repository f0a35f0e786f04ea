/**
 * The older superagent client. It keeps a request object in a field and
 * builds a new one for each call, but applies authentication to the object
 * already in the field, so the request it returns carries no credentials.
 * Its constructor differs from the factory's: the API key is taken from the
 * password, the header parameters are always empty, and missing fields get
 * other defaults. Its verbs return the response as it is.
 */
module AgentClientImpl {
  import opened Wrappers
  import opened JsValues
  import opened UriEncoding
  import opened Requests
  import opened ClientFactory
  import opened Authentication
  import opened RequestBody
  import AgentClient

  const DefaultBasePath := "https://rusticisoftware.com/api/v2/"

  /** `bag || {}` */
  function BagOr(b: Bag): (r: Bag)
    ensures BagTruthy(r)
    ensures BagTruthy(b) ==> r == b
    ensures !BagTruthy(b) ==> r == Object([])
  {
    if BagTruthy(b) then b else Object([])
  }

  /**
   * The constructor's defaults: the API key is the password, query and path
   * parameters both come from `config.pathParams`, there are no header
   * parameters, and the response type is kept as given, without a default.
   */
  function LegacyDefaults(config: ClientConfig): (s: Settings)
    ensures s.username == Or(config.username, "") && s.password == Or(config.password, "")
    ensures s.apiKey == s.password && s.accessToken == Or(config.accessToken, "")
    ensures config.authTypes.Some? ==> s.authTypes == config.authTypes
    ensures config.authTypes.None? ==> s.authTypes == Some([])
    ensures Given(config.basePath) ==> s.basePath == config.basePath
    ensures !Given(config.basePath) ==> s.basePath == Some(DefaultBasePath)
    ensures s.queryParams == s.pathParams
    ensures BagTruthy(config.pathParams) ==> s.pathParams == config.pathParams
    ensures !BagTruthy(config.pathParams) ==> s.pathParams == Object([])
    ensures s.headerParams == Object([])
    ensures BagTruthy(config.formParams) ==> s.formParams == config.formParams
    ensures !BagTruthy(config.formParams) ==> s.formParams == Object([])
    ensures config.timeout.Some? && config.timeout.value != 0 ==> s.timeout == config.timeout.value
    ensures !(config.timeout.Some? && config.timeout.value != 0) ==> s.timeout == DefaultTimeout
    ensures Given(config.contentType) ==> s.contentType == config.contentType.value
    ensures !Given(config.contentType) ==> s.contentType == Json
    ensures s.responseType == config.responseType
  {
    Settings(
      Or(config.username, ""),
      Or(config.password, ""),
      Or(config.password, ""),
      Or(config.accessToken, ""),
      Some(if config.authTypes.Some? then config.authTypes.value else []),
      Some(Or(config.basePath, DefaultBasePath)),
      BagOr(config.pathParams),
      BagOr(config.pathParams),
      Object([]),
      BagOr(config.formParams),
      if config.timeout.Some? && config.timeout.value != 0 then config.timeout.value else DefaultTimeout,
      Or(config.contentType, Json),
      config.responseType)
  }

  /** The URL this client's `buildUrl` gives: its own placeholder rule, no API base path. */
  function LegacyUrl(s: Settings, path: string): Result<string>
  {
    Substitute(Legacy, s.pathParams, BaseOf(s.basePath, Some("")) + Rooted(path))
  }

  /** Query, headers, body and response type, each attached whenever its field is truthy. */
  function LegacyDressed(s: Settings, host: Host, body: Value, rv: RequestValue): RequestValue
  {
    var withQuery := if BagTruthy(s.queryParams) then WithQuery(rv, Normalized(Legacy, host, BagEntries(s.queryParams))) else rv;
    var withHeaders :=
      if BagTruthy(s.headerParams) then WithHeaders(withQuery, Normalized(Legacy, host, BagEntries(s.headerParams)))
      else withQuery;
    var withBody := BodyFor(Legacy, host, s.contentType, s.formParams, body, withHeaders);
    if Given(s.responseType) then WithResponseType(withBody, s.responseType.value) else withBody
  }

  /** The request object in the field afterwards, and the new request or the error. */
  datatype Outcome = Outcome(stale: RequestValue, built: Result<RequestValue>)

  /** `createRequest`: authentication goes to `stale`, the request in the field, not to the new one. */
  function Created(s: Settings, host: Host, httpMethod: string, path: string, body: Value, stale: RequestValue): Outcome
  {
    var url := LegacyUrl(s, path);
    if url.Err? then Outcome(stale, Err(url.error))
    else if s.authTypes.None? then Outcome(stale, Err(TypeError("forEach")))
    else
      var authed := ApplyAuth(AgentClient.CredentialsOf(s), stale, s.authTypes.value);
      Outcome(authed.request,
        if authed.failure.Some? then Err(authed.failure.value)
        else Ok(LegacyDressed(s, host, body, Fresh(httpMethod, url.value))))
  }

  class SuperAgentClientImpl {
    const username: string
    const password: string
    const apiKey: string
    const accessToken: string
    const authTypes: seq<string>
    const basePath: string
    const pathParams: Bag
    const queryParams: Bag
    const headerParams: Bag
    const formParams: Bag
    const timeout: int
    const contentType: string
    const responseType: Option<string>
    /** The environment `isFileParam` probes. */
    const host: Host
    /** The request of the last call, or the empty one the constructor made. */
    var request: HttpRequest

    function Fields(): Settings
    {
      Settings(username, password, apiKey, accessToken, Some(authTypes), Some(basePath),
        pathParams, queryParams, headerParams, formParams, timeout, contentType, responseType)
    }

    constructor(config: ClientConfig, host: Host)
      ensures Fields() == LegacyDefaults(config) && this.host == host
      ensures fresh(request) && request.View() == Fresh("", "")
    {
      request := new HttpRequest("", "");
      username := Or(config.username, "");
      password := Or(config.password, "");
      apiKey := Or(config.password, "");
      accessToken := Or(config.accessToken, "");
      authTypes := if config.authTypes.Some? then config.authTypes.value else [];
      basePath := Or(config.basePath, DefaultBasePath);
      pathParams := BagOr(config.pathParams);
      queryParams := BagOr(config.pathParams);
      headerParams := Object([]);
      timeout := if config.timeout.Some? && config.timeout.value != 0 then config.timeout.value else DefaultTimeout;
      contentType := Or(config.contentType, Json);
      formParams := BagOr(config.formParams);
      responseType := config.responseType;
      this.host := host;
    }

    /** `applyAuthToRequest`: the schemes applied to the request in the field. */
    method ApplyAuthToRequest(authNames: seq<string>) returns (failure: Option<Error>)
      modifies request
      ensures AuthOutcome(request.View(), failure) == ApplyAuth(AgentClient.CredentialsOf(Fields()), old(request.View()), authNames)
    {
      failure := AuthenticateAll(AgentClient.CredentialsOf(Fields()), request, authNames);
    }

    /** `createRequest`: a new request object, with the old one authenticated on the way. */
    method CreateRequest(httpMethod: string, path: string, body: Value) returns (r: Result<HttpRequest>)
      modifies request
      ensures var o := Created(Fields(), host, httpMethod, path, body, old(request.View()));
        && request.View() == o.stale
        && (r.Err? ==> o.built == Err(r.error))
        && (r.Ok? ==> fresh(r.value) && o.built == Ok(r.value.View()))
    {
      var url := BuildUrl(Legacy, Some(basePath), path, pathParams, Some(""));
      if url.Err? {
        return Err(url.error);
      }
      var next := new HttpRequest(httpMethod, url.value);
      var failure := ApplyAuthToRequest(authTypes);
      if failure.Some? {
        return Err(failure.value);
      }
      Dress(next, body);
      r := Ok(next);
    }

    method Dress(next: HttpRequest, body: Value)
      modifies next
      ensures next.View() == LegacyDressed(Fields(), host, body, old(next.View()))
    {
      if BagTruthy(queryParams) {
        var q := NormalizeParams(Legacy, host, queryParams);
        next.Query(q);
      }
      if BagTruthy(headerParams) {
        var h := NormalizeParams(Legacy, host, headerParams);
        next.Set(h);
      }
      AttachBody(Legacy, host, next, contentType, formParams, body);
      if Given(responseType) {
        next.SetResponseType(responseType.value);
      }
    }

    /** A verb: the new request goes into the field when it was built, and is sent as it is. */
    method Call(httpMethod: string, path: string, body: Value, transport: RequestValue -> Result<RawResponse>)
      returns (r: Result<RawResponse>)
      modifies this, request
      ensures var o := Created(Fields(), host, httpMethod, path, body, old(request.View()));
        && old(request).View() == o.stale
        && (o.built.Err? ==> r == Err(o.built.error) && request == old(request))
        && (o.built.Ok? ==> fresh(request) && request.View() == o.built.value && r == transport(o.built.value))
    {
      var next := CreateRequest(httpMethod, path, body);
      if next.Err? {
        return Err(next.error);
      }
      request := next.value;
      r := transport(request.View());
    }

    method PostRequest(path: string, body: Value, transport: RequestValue -> Result<RawResponse>)
      returns (r: Result<RawResponse>)
      modifies this, request
      ensures var o := Created(Fields(), host, "post", path, body, old(request.View()));
        && old(request).View() == o.stale
        && (o.built.Err? ==> r == Err(o.built.error) && request == old(request))
        && (o.built.Ok? ==> fresh(request) && request.View() == o.built.value && r == transport(o.built.value))
    {
      r := Call("post", path, body, transport);
    }

    method GetRequest(path: string, transport: RequestValue -> Result<RawResponse>)
      returns (r: Result<RawResponse>)
      modifies this, request
      ensures var o := Created(Fields(), host, "get", path, Undefined, old(request.View()));
        && old(request).View() == o.stale
        && (o.built.Err? ==> r == Err(o.built.error) && request == old(request))
        && (o.built.Ok? ==> fresh(request) && request.View() == o.built.value && r == transport(o.built.value))
    {
      r := Call("get", path, Undefined, transport);
    }

    /** `putRequest` builds a GET request, with the body. */
    method PutRequest(path: string, body: Value, transport: RequestValue -> Result<RawResponse>)
      returns (r: Result<RawResponse>)
      modifies this, request
      ensures var o := Created(Fields(), host, "get", path, body, old(request.View()));
        && old(request).View() == o.stale
        && (o.built.Err? ==> r == Err(o.built.error) && request == old(request))
        && (o.built.Ok? ==> fresh(request) && request.View() == o.built.value && r == transport(o.built.value))
    {
      r := Call("get", path, body, transport);
    }

    /** `deleteRequest` builds a GET request too. */
    method DeleteRequest(path: string, transport: RequestValue -> Result<RawResponse>)
      returns (r: Result<RawResponse>)
      modifies this, request
      ensures var o := Created(Fields(), host, "get", path, Undefined, old(request.View()));
        && old(request).View() == o.stale
        && (o.built.Err? ==> r == Err(o.built.error) && request == old(request))
        && (o.built.Ok? ==> fresh(request) && request.View() == o.built.value && r == transport(o.built.value))
    {
      r := Call("get", path, Undefined, transport);
    }
  }

  // ---------------------------------------------------------------------
  // What the older client builds

  /**
   * With the constructor's settings the URL never fails (the path
   * parameters are at least `{}`), and a request fails only for an unknown
   * authentication name, the first one.
   */
  lemma CreatedErrors(config: ClientConfig, host: Host, httpMethod: string, path: string, body: Value, stale: RequestValue)
    ensures var s := LegacyDefaults(config);
      var o := Created(s, host, httpMethod, path, body, stale);
      && LegacyUrl(s, path).Ok?
      && (o.built.Err? <==> exists i :: 0 <= i < |s.authTypes.value| && !Known(s.authTypes.value[i]))
      && (o.built.Err? ==> o.built.error.UnknownAuthType?)
  {
    var s := LegacyDefaults(config);
    SubstituteErrors(Legacy, s.pathParams, BaseOf(s.basePath, Some("")) + Rooted(path));
    ApplyAuthFailure(AgentClient.CredentialsOf(s), stale, s.authTypes.value);
  }

  /** Without scheme names in the configuration, no call fails: the names default to `[]`. */
  lemma CreatedWithoutSchemes(config: ClientConfig, host: Host, httpMethod: string, path: string, body: Value,
                              stale: RequestValue)
    requires config.authTypes.None?
    ensures var o := Created(LegacyDefaults(config), host, httpMethod, path, body, stale);
      o.built.Ok? && o.stale == stale
  {
    var s := LegacyDefaults(config);
    SubstituteErrors(Legacy, s.pathParams, BaseOf(s.basePath, Some("")) + Rooted(path));
  }

  /**
   * The request built carries no header at all, whatever the credentials
   * and schemes: authentication went to the old request, which is left as
   * the schemes make it. Its query is the normalised path parameters.
   */
  lemma CreatedWithoutCredentials(config: ClientConfig, host: Host, httpMethod: string, path: string, body: Value,
                                  stale: RequestValue, k: string)
    requires Created(LegacyDefaults(config), host, httpMethod, path, body, stale).built.Ok?
    ensures var s := LegacyDefaults(config);
      var o := Created(s, host, httpMethod, path, body, stale);
      && o.built.value.header == []
      && Lookup(o.built.value.qs, k) == Lookup(Normalized(Legacy, host, BagEntries(s.pathParams)), k)
      && o.stale == ApplyAuth(AgentClient.CredentialsOf(s), stale, s.authTypes.value).request
  {
    var s := LegacyDefaults(config);
    var url := LegacyUrl(s, path).value;
    var q := Normalized(Legacy, host, BagEntries(s.queryParams));
    NormalizedDistinct(Legacy, host, BagEntries(s.queryParams));
    AssignAllDistinct([], q, k);
    var withQuery := WithQuery(Fresh(httpMethod, url), q);
    assert Normalized(Legacy, host, BagEntries(s.headerParams)) == [];
    var withHeaders := WithHeaders(withQuery, []);
    assert withHeaders == withQuery;
    BodyChoice(Legacy, host, s.contentType, s.formParams, body, withHeaders);
  }

  /** The default base path ends in a slash, so a rooted path follows it after a second slash. */
  lemma DefaultBaseDoubleSlash(config: ClientConfig)
    requires !Given(config.basePath)
    ensures var s := LegacyDefaults(config);
      LegacyUrl(s, "/courses") == Ok("https://rusticisoftware.com/api/v2//courses")
  {
    var s := LegacyDefaults(config);
    var text := BaseOf(s.basePath, Some("")) + Rooted("/courses");
    assert text == "https://rusticisoftware.com/api/v2//courses";
    NoBraceNoToken(text);
    SubstituteTokenFree(Legacy, s.pathParams, text);
  }

  /**
   * The request built has the verb and the URL it was asked for, and the
   * response type exactly when one is set.
   */
  lemma CreatedTarget(s: Settings, host: Host, httpMethod: string, path: string, body: Value, stale: RequestValue)
    requires Created(s, host, httpMethod, path, body, stale).built.Ok?
    ensures var rv := Created(s, host, httpMethod, path, body, stale).built.value;
      && rv.httpMethod == httpMethod
      && LegacyUrl(s, path) == Ok(rv.url)
      && rv.responseType == (if Given(s.responseType) then s.responseType else None)
  {
    var url := LegacyUrl(s, path).value;
    var rv := Fresh(httpMethod, url);
    var withQuery := if BagTruthy(s.queryParams) then WithQuery(rv, Normalized(Legacy, host, BagEntries(s.queryParams))) else rv;
    var withHeaders :=
      if BagTruthy(s.headerParams) then WithHeaders(withQuery, Normalized(Legacy, host, BagEntries(s.headerParams)))
      else withQuery;
    BodyChoice(Legacy, host, s.contentType, s.formParams, body, withHeaders);
  }
}
