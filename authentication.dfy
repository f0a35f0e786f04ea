/**
 * The authentication schemes both clients apply to a request, by name and
 * in order: `basic` (the Basic `Authorization` header), `bearer` (a Bearer
 * token, section 2.1 of RFC 6750), `apiKey` (an `x-api-key` header) and
 * `apiKeyQuery` (an `x-api-key` query parameter). Any other name throws,
 * after the schemes before it have been applied.
 */
module Authentication {
  import opened Wrappers
  import opened JsValues
  import opened Requests

  /** The credentials a client holds; an empty string is a missing one. */
  datatype Credentials = Credentials(username: string, password: string, apiKey: string, accessToken: string)

  const ApiKeyName := "x-api-key"

  predicate Known(name: string)
  {
    name == "basic" || name == "bearer" || name == "apiKey" || name == "apiKeyQuery"
  }

  /** One case of the `switch`: the request it leaves, or the error it throws. */
  function AuthStep(c: Credentials, rv: RequestValue, name: string): (r: Result<RequestValue>)
    ensures r.Ok? <==> Known(name)
    ensures r.Err? ==> r.error == UnknownAuthType(name)
    ensures r.Err? ==> Message(r.error) == "Unknown authentication type: " + name
  {
    if name == "basic" then
      Ok(if c.username != "" || c.password != "" then WithBasicAuth(rv, c.username, c.password) else rv)
    else if name == "bearer" then
      Ok(if c.accessToken != "" then WithHeaders(rv, [("Authorization", Str("Bearer " + c.accessToken))]) else rv)
    else if name == "apiKey" then
      Ok(if c.apiKey != "" then WithHeaders(rv, [(ApiKeyName, Str(c.apiKey))]) else rv)
    else if name == "apiKeyQuery" then
      Ok(if c.apiKey != "" then WithQuery(rv, [(ApiKeyName, Str(c.apiKey))]) else rv)
    else Err(UnknownAuthType(name))
  }

  /** The request after the `forEach`, and the error that ended it early, if one did. */
  datatype AuthOutcome = AuthOutcome(request: RequestValue, failure: Option<Error>)

  function ApplyAuth(c: Credentials, rv: RequestValue, names: seq<string>): AuthOutcome
    decreases |names|
  {
    if names == [] then AuthOutcome(rv, None)
    else
      var step := AuthStep(c, rv, names[0]);
      if step.Err? then AuthOutcome(rv, Some(step.error)) else ApplyAuth(c, step.value, names[1..])
  }

  /**
   * What each known scheme does: it sets only its own header or query
   * parameter, only when its credential is there, and touches nothing else.
   */
  lemma SchemeEffects(c: Credentials, rv: RequestValue, name: string)
    requires Known(name)
    ensures var out := AuthStep(c, rv, name).value;
      && Lookup(out.header, "Authorization") ==
        (if name == "basic" && (c.username != "" || c.password != "") then
          Some(Str(BasicCredentials(c.username, c.password)))
        else if name == "bearer" && c.accessToken != "" then Some(Str("Bearer " + c.accessToken))
        else Lookup(rv.header, "Authorization"))
      && Lookup(out.header, ApiKeyName) ==
        (if name == "apiKey" && c.apiKey != "" then Some(Str(c.apiKey)) else Lookup(rv.header, ApiKeyName))
      && Lookup(out.qs, ApiKeyName) ==
        (if name == "apiKeyQuery" && c.apiKey != "" then Some(Str(c.apiKey)) else Lookup(rv.qs, ApiKeyName))
      && (forall k :: k != "Authorization" && k != ApiKeyName ==> Lookup(out.header, k) == Lookup(rv.header, k))
      && (forall k :: k != ApiKeyName ==> Lookup(out.qs, k) == Lookup(rv.qs, k))
      && out.(header := rv.header, qs := rv.qs) == rv
  {
    assert "Authorization" != ApiKeyName by {
      assert "Authorization"[0] != ApiKeyName[0];
    }
    if name == "bearer" && c.accessToken != "" {
      AssignOne(rv.header, "Authorization", Str("Bearer " + c.accessToken));
    } else if name == "apiKey" && c.apiKey != "" {
      AssignOne(rv.header, ApiKeyName, Str(c.apiKey));
    } else if name == "apiKeyQuery" && c.apiKey != "" {
      AssignOne(rv.qs, ApiKeyName, Str(c.apiKey));
    }
  }

  lemma AssignOne(p: Props, key: string, v: Value)
    ensures AssignAll(p, [(key, v)]) == Assign(p, key, v)
  {
    assert [(key, v)][1..] == [];
  }

  /** Applying `a + b` is applying `a`, then, unless `a` failed, `b` to what `a` left. */
  lemma {:induction false} ApplyAuthConcat(c: Credentials, rv: RequestValue, a: seq<string>, b: seq<string>)
    ensures ApplyAuth(c, rv, a + b) ==
      var o := ApplyAuth(c, rv, a);
      if o.failure.Some? then o else ApplyAuth(c, o.request, b)
    decreases |a|
  {
    if a == [] {
      assert a + b == b;
    } else {
      assert (a + b)[0] == a[0] && (a + b)[1..] == a[1..] + b;
      var step := AuthStep(c, rv, a[0]);
      if step.Ok? {
        ApplyAuthConcat(c, step.value, a[1..], b);
      }
    }
  }

  /** The `forEach` fails exactly when some name is unknown. */
  lemma {:induction false} ApplyAuthFails(c: Credentials, rv: RequestValue, names: seq<string>)
    ensures ApplyAuth(c, rv, names).failure.Some? <==> exists i :: 0 <= i < |names| && !Known(names[i])
    decreases |names|
  {
    if names != [] {
      var step := AuthStep(c, rv, names[0]);
      if step.Ok? {
        var tail := names[1..];
        ApplyAuthFails(c, step.value, tail);
        if exists i :: 0 <= i < |names| && !Known(names[i]) {
          var i :| 0 <= i < |names| && !Known(names[i]);
          assert i > 0 && tail[i - 1] == names[i];
        }
        if exists i :: 0 <= i < |tail| && !Known(tail[i]) {
          var i :| 0 <= i < |tail| && !Known(tail[i]);
          assert names[i + 1] == tail[i];
        }
      }
    }
  }

  /**
   * When `names[k]` is the first unknown name, the `forEach` reports it and
   * leaves the request as the names before it made it.
   */
  lemma {:induction false} ApplyAuthFirstFailure(c: Credentials, rv: RequestValue, names: seq<string>, k: nat)
    requires k < |names| && !Known(names[k]) && forall j :: 0 <= j < k ==> Known(names[j])
    ensures ApplyAuth(c, rv, names).failure == Some(UnknownAuthType(names[k]))
    ensures ApplyAuth(c, rv, names).request == ApplyAuth(c, rv, names[..k]).request
    decreases k
  {
    if k == 0 {
      assert names[..0] == [];
    } else {
      assert Known(names[0]);
      var step := AuthStep(c, rv, names[0]).value;
      var tail := names[1..];
      assert tail[k - 1] == names[k];
      forall j | 0 <= j < k - 1 ensures Known(tail[j]) {
        assert tail[j] == names[j + 1];
      }
      ApplyAuthFirstFailure(c, step, tail, k - 1);
      assert names[..k][0] == names[0] && names[..k][1..] == tail[..k - 1];
    }
  }

  /** The position of the first unknown name, when there is one. */
  lemma {:induction false} FirstUnknown(names: seq<string>) returns (k: nat)
    requires exists i :: 0 <= i < |names| && !Known(names[i])
    ensures k < |names| && !Known(names[k]) && forall j :: 0 <= j < k ==> Known(names[j])
  {
    if !Known(names[0]) {
      k := 0;
    } else {
      var i :| 0 <= i < |names| && !Known(names[i]);
      assert i > 0 && names[1..][i - 1] == names[i];
      var k' := FirstUnknown(names[1..]);
      k := k' + 1;
      assert names[k] == names[1..][k'];
      forall j | 0 <= j < k ensures Known(names[j]) {
        if j > 0 {
          assert names[j] == names[1..][j - 1];
        }
      }
    }
  }

  /**
   * The `forEach` fails exactly when some name is unknown; it then reports
   * the first unknown name and leaves the request as the names before it
   * made it.
   */
  lemma ApplyAuthFailure(c: Credentials, rv: RequestValue, names: seq<string>)
    ensures ApplyAuth(c, rv, names).failure.Some? <==> exists i :: 0 <= i < |names| && !Known(names[i])
    ensures ApplyAuth(c, rv, names).failure.Some? ==>
      exists k :: 0 <= k < |names| && !Known(names[k]) && (forall j :: 0 <= j < k ==> Known(names[j])) &&
        ApplyAuth(c, rv, names).failure == Some(UnknownAuthType(names[k])) &&
        ApplyAuth(c, rv, names).request == ApplyAuth(c, rv, names[..k]).request
  {
    ApplyAuthFails(c, rv, names);
    if ApplyAuth(c, rv, names).failure.Some? {
      var k := FirstUnknown(names);
      ApplyAuthFirstFailure(c, rv, names, k);
    }
  }

  /**
   * Whatever the names, the request keeps its method, URL, data, parts and
   * response type; only `Authorization` and `x-api-key` headers and the
   * `x-api-key` query parameter can change.
   */
  lemma {:induction false} ApplyAuthFrame(c: Credentials, rv: RequestValue, names: seq<string>)
    ensures var out := ApplyAuth(c, rv, names).request;
      && out.(header := rv.header, qs := rv.qs) == rv
      && (forall k :: k != "Authorization" && k != ApiKeyName ==> Lookup(out.header, k) == Lookup(rv.header, k))
      && (forall k :: k != ApiKeyName ==> Lookup(out.qs, k) == Lookup(rv.qs, k))
    decreases |names|
  {
    if names != [] {
      var step := AuthStep(c, rv, names[0]);
      if step.Ok? {
        SchemeEffects(c, rv, names[0]);
        ApplyAuthFrame(c, step.value, names[1..]);
      }
    }
  }

  /** The `switch` of one name, on a request object. */
  method Authenticate(c: Credentials, request: HttpRequest, name: string) returns (failure: Option<Error>)
    modifies request
    ensures AuthStep(c, old(request.View()), name).Ok? ==>
      failure.None? && request.View() == AuthStep(c, old(request.View()), name).value
    ensures AuthStep(c, old(request.View()), name).Err? ==>
      failure == Some(AuthStep(c, old(request.View()), name).error) && request.View() == old(request.View())
  {
    failure := None;
    if name == "basic" {
      if c.username != "" || c.password != "" {
        request.Auth(c.username, c.password);
      }
    } else if name == "bearer" {
      if c.accessToken != "" {
        request.Set([("Authorization", Str("Bearer " + c.accessToken))]);
      }
    } else if name == "apiKey" {
      if c.apiKey != "" {
        request.Set([(ApiKeyName, Str(c.apiKey))]);
      }
    } else if name == "apiKeyQuery" {
      if c.apiKey != "" {
        request.Query([(ApiKeyName, Str(c.apiKey))]);
      }
    } else {
      failure := Some(UnknownAuthType(name));
    }
  }

  /** The `forEach` over the names: each scheme in turn, stopping at the first error. */
  method AuthenticateAll(c: Credentials, request: HttpRequest, names: seq<string>) returns (failure: Option<Error>)
    modifies request
    ensures AuthOutcome(request.View(), failure) == ApplyAuth(c, old(request.View()), names)
  {
    var i := 0;
    while i < |names|
      invariant 0 <= i <= |names|
      invariant ApplyAuth(c, old(request.View()), names[..i]) == AuthOutcome(request.View(), None)
    {
      ApplyAuthConcat(c, old(request.View()), names[..i], [names[i]]);
      ApplyAuthConcat(c, old(request.View()), names[..i + 1], names[i + 1..]);
      assert names[..i] + [names[i]] == names[..i + 1];
      assert names[..i + 1] + names[i + 1..] == names;
      var f := Authenticate(c, request, names[i]);
      if f.Some? {
        return f;
      }
      i := i + 1;
    }
    assert names[..i] == names;
    failure := None;
  }
}
