/**
 * The part of a superagent request object that the clients build: method,
 * URL, header and query objects, the data given to `send`, the parts of a
 * multipart form and the response type. Each call updates the request in
 * place; `RequestValue` is its state as a value, and each `With…` function
 * below is the new state one call leaves.
 */
module Requests {
  import opened Wrappers
  import opened JsValues
  import Utf8
  import Base64

  /** One part of a multipart form: a file given to `attach` or a value given to `field`. */
  datatype Part = FilePart(name: string, value: Value) | TextField(name: string, value: Value)

  /**
   * What `send` was given: nothing yet, a value, or the url-encoded text of a
   * form (kept as the form that `querystring.stringify` encodes).
   */
  datatype Payload = NoData | Raw(value: Value) | UrlEncoded(form: Props)

  datatype RequestValue = RequestValue(
    httpMethod: string,
    url: string,
    header: Props,
    qs: Props,
    data: Payload,
    parts: seq<Part>,
    responseType: Option<string>)

  /** `superagent(httpMethod, url)`: a request with nothing set. */
  function Fresh(httpMethod: string, url: string): RequestValue
  {
    RequestValue(httpMethod, url, [], [], NoData, [], None)
  }

  /** `set(fields)`: every field assigned into the header object, in order. */
  function WithHeaders(rv: RequestValue, fields: Props): RequestValue
  {
    rv.(header := AssignAll(rv.header, fields))
  }

  /** `query(fields)`: every field assigned into the query object, in order. */
  function WithQuery(rv: RequestValue, fields: Props): RequestValue
  {
    rv.(qs := AssignAll(rv.qs, fields))
  }

  /** The `Authorization` value HTTP Basic sends (section 2 of RFC 7617): `user:pass`, UTF-8, Base64. */
  function BasicCredentials(username: string, password: string): string
  {
    "Basic " + Base64.Encode(Utf8.Encode(username + ":" + password))
  }

  /** `auth(username, password)`: the Basic `Authorization` header. */
  function WithBasicAuth(rv: RequestValue, username: string, password: string): RequestValue
  {
    rv.(header := Assign(rv.header, "Authorization", Str(BasicCredentials(username, password))))
  }

  /** `send(value)` on a request that holds no data yet. */
  function WithData(rv: RequestValue, v: Value): RequestValue
  {
    rv.(data := Raw(v))
  }

  /** `send(querystring.stringify(form))`. */
  function WithForm(rv: RequestValue, form: Props): RequestValue
  {
    rv.(data := UrlEncoded(form))
  }

  function WithPart(rv: RequestValue, part: Part): RequestValue
  {
    rv.(parts := rv.parts + [part])
  }

  function WithResponseType(rv: RequestValue, t: string): RequestValue
  {
    rv.(responseType := Some(t))
  }

  /**
   * The Basic credentials are `Basic`, one space, then a token without spaces
   * that decodes (Base64, then UTF-8) to `username:password`.
   */
  lemma BasicCredentialsDecode(username: string, password: string)
    ensures var h := BasicCredentials(username, password);
      |h| >= 6 && h[..6] == "Basic " &&
      (forall i :: 6 <= i < |h| ==> h[i] != ' ') &&
      Base64.Decode(h[6..]).Some? && Utf8.Decode(Base64.Decode(h[6..]).value) == Some(username + ":" + password)
  {
    var bytes := Utf8.Encode(username + ":" + password);
    var token := Base64.Encode(bytes);
    var h := BasicCredentials(username, password);
    assert h[6..] == token;
    Base64.Alphabet(bytes);
    forall i | 6 <= i < |h| ensures h[i] != ' ' {
      assert h[i] == token[i - 6];
    }
    Base64.RoundTrip(bytes);
    Utf8.RoundTrip(username + ":" + password);
  }

  /** A superagent request, updated in place. */
  class HttpRequest {
    var httpMethod: string
    var url: string
    var header: Props
    var qs: Props
    var data: Payload
    var parts: seq<Part>
    var responseType: Option<string>

    function View(): RequestValue
      reads this
    {
      RequestValue(httpMethod, url, header, qs, data, parts, responseType)
    }

    constructor(httpMethod: string, url: string)
      ensures View() == Fresh(httpMethod, url)
    {
      this.httpMethod := httpMethod;
      this.url := url;
      header := [];
      qs := [];
      data := NoData;
      parts := [];
      responseType := None;
    }

    method Set(fields: Props)
      modifies this
      ensures View() == WithHeaders(old(View()), fields)
    {
      header := AssignAll(header, fields);
    }

    method Query(fields: Props)
      modifies this
      ensures View() == WithQuery(old(View()), fields)
    {
      qs := AssignAll(qs, fields);
    }

    method Auth(username: string, password: string)
      modifies this
      ensures View() == WithBasicAuth(old(View()), username, password)
    {
      header := Assign(header, "Authorization", Str(BasicCredentials(username, password)));
    }

    method Send(v: Value)
      modifies this
      ensures View() == WithData(old(View()), v)
    {
      data := Raw(v);
    }

    method SendForm(form: Props)
      modifies this
      ensures View() == WithForm(old(View()), form)
    {
      data := UrlEncoded(form);
    }

    method Attach(name: string, file: Value)
      modifies this
      ensures View() == WithPart(old(View()), FilePart(name, file))
    {
      parts := parts + [FilePart(name, file)];
    }

    method Field(name: string, value: Value)
      modifies this
      ensures View() == WithPart(old(View()), TextField(name, value))
    {
      parts := parts + [TextField(name, value)];
    }

    method SetResponseType(t: string)
      modifies this
      ensures View() == WithResponseType(old(View()), t)
    {
      responseType := Some(t);
    }
  }
}
