/**
 * The helpers of the abstract client factory that every client shares:
 * configuration defaults, parameter conversion and normalisation, file
 * detection, URL building and response deserialisation. The older client
 * keeps its own copies of some of them; `Variant` tells the two apart where
 * they differ.
 */
module ClientFactory {
  import opened Wrappers
  import opened JsValues
  import opened UriEncoding
  import Utf8

  /** Which copy of a helper: the client factory's, or the older client's. */
  datatype Variant = Factory | Legacy

  /**
   * The host facilities `isFileParam` probes: a `require` function, whether
   * `require('fs')` succeeds, and the globals `Buffer`, `Blob` and `File`.
   */
  datatype Host = Host(hasRequire: bool, fsLoads: bool, hasBuffer: bool, hasBlob: bool, hasFile: bool)

  /** The configuration object handed to a client; `None` stands for a missing field. */
  datatype ClientConfig = ClientConfig(
    username: Option<string>,
    password: Option<string>,
    apiKey: Option<string>,
    accessToken: Option<string>,
    authTypes: Option<seq<string>>,
    basePath: Option<string>,
    pathParams: Bag,
    queryParams: Bag,
    headerParams: Bag,
    formParams: Bag,
    timeout: Option<int>,
    contentType: Option<string>,
    responseType: Option<string>)

  /** The fields a client keeps once it is constructed. */
  datatype Settings = Settings(
    username: string,
    password: string,
    apiKey: string,
    accessToken: string,
    authTypes: Option<seq<string>>,
    basePath: Option<string>,
    pathParams: Bag,
    queryParams: Bag,
    headerParams: Bag,
    formParams: Bag,
    timeout: int,
    contentType: string,
    responseType: Option<string>)

  const DefaultTimeout := 60000
  const Json := "application/json"
  const UrlEncodedForm := "application/x-www-form-urlencoded"
  const Multipart := "multipart/form-data"

  /** A string field that is present and not empty (a truthy string). */
  predicate Given(o: Option<string>)
  {
    o.Some? && o.value != ""
  }

  /** `field || fallback` on a string field. */
  function Or(o: Option<string>, fallback: string): string
  {
    if Given(o) then o.value else fallback
  }

  /**
   * The constructor of the client factory: empty credentials for missing
   * ones, a 60000 ms timeout and JSON content and response types by default.
   * The query parameters are taken from `config.pathParams`.
   */
  function Defaults(config: ClientConfig): (s: Settings)
    ensures Given(config.username) ==> s.username == config.username.value
    ensures Given(config.password) ==> s.password == config.password.value
    ensures Given(config.apiKey) ==> s.apiKey == config.apiKey.value
    ensures Given(config.accessToken) ==> s.accessToken == config.accessToken.value
    ensures !Given(config.username) ==> s.username == ""
    ensures !Given(config.password) ==> s.password == ""
    ensures !Given(config.apiKey) ==> s.apiKey == ""
    ensures !Given(config.accessToken) ==> s.accessToken == ""
    ensures config.timeout.Some? && config.timeout.value != 0 ==> s.timeout == config.timeout.value
    ensures !(config.timeout.Some? && config.timeout.value != 0) ==> s.timeout == DefaultTimeout
    ensures Given(config.contentType) ==> s.contentType == config.contentType.value
    ensures !Given(config.contentType) ==> s.contentType == Json
    ensures Given(config.responseType) ==> s.responseType == config.responseType
    ensures !Given(config.responseType) ==> s.responseType == Some(Json)
    ensures s.authTypes == config.authTypes && s.basePath == config.basePath
    ensures s.pathParams == config.pathParams && s.queryParams == config.pathParams
    ensures s.headerParams == config.headerParams && s.formParams == config.formParams
  {
    Settings(
      Or(config.username, ""),
      Or(config.password, ""),
      Or(config.apiKey, ""),
      Or(config.accessToken, ""),
      config.authTypes,
      config.basePath,
      config.pathParams,
      config.pathParams,
      config.headerParams,
      config.formParams,
      if config.timeout.Some? && config.timeout.value != 0 then config.timeout.value else DefaultTimeout,
      Or(config.contentType, Json),
      Some(Or(config.responseType, Json)))
  }

  // ---------------------------------------------------------------------
  // Parameters

  /** `paramToString`: text for a falsy value is empty, a Date gives its JSON text. */
  function ParamToString(v: Value): (s: string)
    ensures !Truthy(v) ==> s == ""
    ensures v.Date? ==> s == v.iso
  {
    if !Truthy(v) then "" else if v.Date? then v.iso else ToJsString(v)
  }

  /** A string parameter is passed through unchanged (the empty one too). */
  lemma ParamToStringText(t: string)
    ensures ParamToString(Str(t)) == t
  {
  }

  /** A number parameter becomes a numeral that reads back as the number (0 gives ""). */
  lemma ParamToStringNumber(n: int)
    ensures ParseInt(ParamToString(Num(n))) == n
    ensures n != 0 ==> ParamToString(Num(n)) == IntToDecimal(n)
  {
  }

  lemma ParamToStringExample()
    ensures ParamToString(Num(145)) == "145"
  {
    assert NatToDecimal(14) == "14";
    assert NatToDecimal(145) == NatToDecimal(14) + "5";
  }

  /** `isFileParam`: whether a value is file-like content on the given host. */
  function IsFileParam(variant: Variant, host: Host, v: Value): (r: bool)
    ensures r ==> v.File?
  {
    match variant
    case Factory =>
      if host.hasRequire && !host.fsLoads then false
      else if host.hasRequire && v == File(ReadStream) then true
      else host.hasBuffer && v.File? && v.kind.Buffer?
    case Legacy =>
      (host.hasRequire && host.fsLoads && v == File(ReadStream))
      || (host.hasBuffer && v.File? && v.kind.Buffer?)
      || (host.hasBlob && (v == File(Blob) || v == File(WebFile)))
      || (host.hasFile && v == File(WebFile))
  }

  /** On a host where `fs` loads and `Buffer` exists, the files are exactly the streams and buffers. */
  lemma FactoryFiles(host: Host, v: Value)
    requires host.hasRequire && host.fsLoads && host.hasBuffer
    ensures IsFileParam(Factory, host, v) <==> v == File(ReadStream) || (v.File? && v.kind.Buffer?)
  {
  }

  /** When `require('fs')` throws, nothing is a file, not even a Buffer. */
  lemma FactoryFsFailure(host: Host, v: Value)
    requires host.hasRequire && !host.fsLoads
    ensures !IsFileParam(Factory, host, v)
  {
  }

  /** On a host with every facility, the older copy takes every file-like value for a file. */
  lemma LegacyFiles(host: Host, v: Value)
    requires host.hasRequire && host.fsLoads && host.hasBuffer && host.hasBlob
    ensures IsFileParam(Legacy, host, v) <==> v.File?
  {
  }

  /** In the older copy a failed `fs` load is swallowed: Buffers, Blobs and Files are still found. */
  lemma LegacyFsFailure(host: Host, v: Value)
    requires host.hasRequire && !host.fsLoads
    ensures IsFileParam(Legacy, host, v) <==>
      (host.hasBuffer && v.File? && v.kind.Buffer?) || (host.hasBlob && (v == File(Blob) || v == File(WebFile))) ||
      (host.hasFile && v == File(WebFile))
  {
  }

  /** The older copy recognises every file the factory's recognises. */
  lemma LegacyRecognisesMore(host: Host, v: Value)
    ensures IsFileParam(Factory, host, v) ==> IsFileParam(Legacy, host, v)
  {
  }

  /** What `normalizeParams` stores for one value that is neither null nor undefined. */
  function NormalizeValue(variant: Variant, host: Host, v: Value): Value
  {
    if IsFileParam(variant, host, v) || v.Arr? then v else Str(ParamToString(v))
  }

  /** Normalising a normalised value changes nothing, and a value stays non-nil. */
  lemma NormalizeValueFixed(variant: Variant, host: Host, v: Value)
    ensures NormalizeValue(variant, host, NormalizeValue(variant, host, v)) == NormalizeValue(variant, host, v)
    ensures !IsNil(v) ==> !IsNil(NormalizeValue(variant, host, v))
  {
  }

  /**
   * The object `normalizeParams` fills: the entries visited in for-in order,
   * each non-nil one assigned under its key.
   */
  function Normalized(variant: Variant, host: Host, p: Props): Props
    decreases |p|
  {
    if p == [] then []
    else
      var acc := Normalized(variant, host, p[..|p| - 1]);
      var entry := p[|p| - 1];
      if IsNil(entry.1) then acc else Assign(acc, entry.0, NormalizeValue(variant, host, entry.1))
  }

  /** `normalizeParams`: the for-in loop over the own properties of `params`. */
  method NormalizeParams(variant: Variant, host: Host, params: Bag) returns (newParams: Props)
    ensures newParams == Normalized(variant, host, BagEntries(params))
  {
    var entries := BagEntries(params);
    newParams := [];
    var i := 0;
    while i < |entries|
      invariant 0 <= i <= |entries|
      invariant newParams == Normalized(variant, host, entries[..i])
    {
      var key, value := entries[i].0, entries[i].1;
      NormalizedStep(variant, host, entries, i);
      if !IsNil(value) {
        if IsFileParam(variant, host, value) || value.Arr? {
          newParams := Assign(newParams, key, value);
        } else {
          newParams := Assign(newParams, key, Str(ParamToString(value)));
        }
      }
      i := i + 1;
    }
    assert entries[..i] == entries;
  }

  /** One more entry of the for-in loop. */
  lemma NormalizedStep(variant: Variant, host: Host, entries: Props, i: nat)
    requires i < |entries|
    ensures Normalized(variant, host, entries[..i + 1]) ==
      if IsNil(entries[i].1) then Normalized(variant, host, entries[..i])
      else Assign(Normalized(variant, host, entries[..i]), entries[i].0, NormalizeValue(variant, host, entries[i].1))
  {
    assert entries[..i + 1][..i] == entries[..i];
  }

  /** A reference definition of the normalised object: the non-nil entries, converted, in order. */
  function Kept(variant: Variant, host: Host, p: Props): Props
  {
    if p == [] then []
    else
      (if IsNil(p[0].1) then [] else [(p[0].0, NormalizeValue(variant, host, p[0].1))]) + Kept(variant, host, p[1..])
  }

  lemma {:induction false} KeptAppend(variant: Variant, host: Host, p: Props, e: (string, Value))
    ensures Kept(variant, host, p + [e]) == Kept(variant, host, p) + Kept(variant, host, [e])
  {
    if p != [] {
      assert (p + [e])[1..] == p[1..] + [e];
      KeptAppend(variant, host, p[1..], e);
    }
  }

  lemma {:induction false} KeptKeys(variant: Variant, host: Host, p: Props, k: string)
    requires forall i :: 0 <= i < |p| ==> p[i].0 != k
    ensures Lookup(Kept(variant, host, p), k).None?
  {
    if p != [] {
      KeptKeys(variant, host, p[1..], k);
    }
  }

  lemma DistinctInit(p: Props)
    requires p != [] && DistinctKeys(p)
    ensures DistinctKeys(p[..|p| - 1])
    ensures forall i :: 0 <= i < |p| - 1 ==> p[i].0 != p[|p| - 1].0
  {
  }

  /** With distinct input keys, `normalizeParams` keeps the surviving entries in their order. */
  lemma {:induction false} NormalizedInOrder(variant: Variant, host: Host, p: Props)
    requires DistinctKeys(p)
    ensures Normalized(variant, host, p) == Kept(variant, host, p)
    decreases |p|
  {
    if p != [] {
      var init, e := p[..|p| - 1], p[|p| - 1];
      DistinctInit(p);
      NormalizedInOrder(variant, host, init);
      var acc := Normalized(variant, host, init);
      var last := Kept(variant, host, [e]);
      KeptAppend(variant, host, init, e);
      assert init + [e] == p;
      if IsNil(e.1) {
        assert last == [];
        assert acc + last == acc;
      } else {
        KeptKeys(variant, host, init, e.0);
        assert last == [(e.0, NormalizeValue(variant, host, e.1))];
        assert Lookup(acc, e.0).None?;
      }
    }
  }

  /** `Lookup` on an object with one more property at the end. */
  lemma {:induction false} LookupAppend(p: Props, e: (string, Value), k: string)
    ensures Lookup(p + [e], k) ==
      if Lookup(p, k).Some? then Lookup(p, k) else if e.0 == k then Some(e.1) else None
  {
    if p != [] {
      assert (p + [e])[1..] == p[1..] + [e];
      LookupAppend(p[1..], e, k);
    }
  }

  /**
   * The keys of the normalised object are the input's keys whose values are
   * neither null nor undefined; files and arrays are carried over as they
   * are, every other value becomes its `paramToString` text.
   */
  lemma {:induction false} NormalizedLookup(variant: Variant, host: Host, p: Props, k: string)
    requires DistinctKeys(p)
    ensures Lookup(Normalized(variant, host, p), k).Some? <==> Lookup(p, k).Some? && !IsNil(Lookup(p, k).value)
    ensures Lookup(p, k).Some? && (IsFileParam(variant, host, Lookup(p, k).value) || Lookup(p, k).value.Arr?) ==>
      Lookup(Normalized(variant, host, p), k) == Lookup(p, k)
    ensures (Lookup(Normalized(variant, host, p), k).Some? &&
             !(IsFileParam(variant, host, Lookup(p, k).value) || Lookup(p, k).value.Arr?)) ==>
      Lookup(Normalized(variant, host, p), k) == Some(Str(ParamToString(Lookup(p, k).value)))
    decreases |p|
  {
    if p != [] {
      var init, e := p[..|p| - 1], p[|p| - 1];
      DistinctInit(p);
      NormalizedLookup(variant, host, init, k);
      assert init + [e] == p;
      LookupAppend(init, e, k);
      NormalizedLookupStep(variant, host, p, k);
      if e.0 == k {
        assert Lookup(init, k).None?;
      }
    }
  }

  /** One step of the for-in loop: the last entry either is skipped or sets its own key. */
  lemma NormalizedLookupStep(variant: Variant, host: Host, p: Props, k: string)
    requires p != []
    ensures var e := p[|p| - 1];
      Lookup(Normalized(variant, host, p), k) ==
        if !IsNil(e.1) && e.0 == k then Some(NormalizeValue(variant, host, e.1))
        else Lookup(Normalized(variant, host, p[..|p| - 1]), k)
  {
  }

  /** The normalised object never holds a key twice. */
  lemma {:induction false} NormalizedDistinct(variant: Variant, host: Host, p: Props)
    ensures DistinctKeys(Normalized(variant, host, p))
    decreases |p|
  {
    if p != [] {
      var e := p[|p| - 1];
      NormalizedDistinct(variant, host, p[..|p| - 1]);
      if !IsNil(e.1) {
        AssignShape(Normalized(variant, host, p[..|p| - 1]), e.0, NormalizeValue(variant, host, e.1));
      }
    }
  }

  /** Every value of the normalised object is non-nil and already normalised. */
  lemma {:induction false} NormalizedValues(variant: Variant, host: Host, p: Props)
    ensures forall i :: 0 <= i < |Normalized(variant, host, p)| ==>
      var v := Normalized(variant, host, p)[i].1; !IsNil(v) && NormalizeValue(variant, host, v) == v
    decreases |p|
  {
    if p != [] {
      var init, e := p[..|p| - 1], p[|p| - 1];
      NormalizedValues(variant, host, init);
      if !IsNil(e.1) {
        NormalizeValueFixed(variant, host, e.1);
        AssignShape(Normalized(variant, host, init), e.0, NormalizeValue(variant, host, e.1));
      }
    }
  }

  lemma {:induction false} KeptFixed(variant: Variant, host: Host, p: Props)
    requires forall i :: 0 <= i < |p| ==> !IsNil(p[i].1) && NormalizeValue(variant, host, p[i].1) == p[i].1
    ensures Kept(variant, host, p) == p
  {
    if p != [] {
      KeptFixed(variant, host, p[1..]);
      assert [p[0]] + p[1..] == p;
    }
  }

  /** Normalising twice is normalising once. */
  lemma NormalizeIdempotent(variant: Variant, host: Host, p: Props)
    ensures Normalized(variant, host, Normalized(variant, host, p)) == Normalized(variant, host, p)
  {
    var q := Normalized(variant, host, p);
    NormalizedDistinct(variant, host, p);
    NormalizedValues(variant, host, p);
    NormalizedInOrder(variant, host, q);
    KeptFixed(variant, host, q);
  }

  // ---------------------------------------------------------------------
  // URLs

  /** `[\w-]`: the characters a placeholder name is made of. */
  predicate IsKeyChar(c: char)
  {
    ('A' <= c <= 'Z') || ('a' <= c <= 'z') || ('0' <= c <= '9') || c == '_' || c == '-'
  }

  /** The length of the run of name characters `s` starts with. */
  function KeyRun(s: string): (n: nat)
    ensures n <= |s|
    ensures forall i :: 0 <= i < n ==> IsKeyChar(s[i])
    ensures n < |s| ==> !IsKeyChar(s[n])
  {
    if s != [] && IsKeyChar(s[0]) then 1 + KeyRun(s[1..]) else 0
  }

  /**
   * Where `/\{([\w-]+)\}/` matches at the start of `s`, the length of the
   * name it captures; 0 where it does not match.
   */
  function TokenAt(s: string): (n: nat)
    ensures n > 0 ==> n + 2 <= |s| && s[0] == '{' && s[n + 1] == '}'
    ensures n > 0 ==> forall i :: 1 <= i <= n ==> IsKeyChar(s[i])
  {
    if s != [] && s[0] == '{' then
      var n := KeyRun(s[1..]);
      if 0 < n && n + 1 < |s| && s[n + 1] == '}' then n else 0
    else 0
  }

  /** Every `{name}` with a non-empty name of `[\w-]` characters is matched, whatever follows. */
  lemma TokenAtName(key: string, rest: string)
    requires key != [] && forall i :: 0 <= i < |key| ==> IsKeyChar(key[i])
    ensures TokenAt("{" + key + "}" + rest) == |key|
  {
    var s := "{" + key + "}" + rest;
    assert s[1..][..|key|] == key;
    KeyRunExact(s[1..], |key|);
  }

  lemma {:induction false} KeyRunExact(s: string, n: nat)
    requires n < |s| && !IsKeyChar(s[n]) && forall i :: 0 <= i < n ==> IsKeyChar(s[i])
    ensures KeyRun(s) == n
  {
    if n > 0 {
      KeyRunExact(s[1..], n - 1);
    }
  }

  predicate HasToken(s: string)
  {
    exists i :: 0 <= i < |s| && TokenAt(s[i..]) > 0
  }

  /** `String(pathParams)`. */
  function BagText(b: Bag): string
  {
    match b
    case Absent => "undefined"
    case Bare(t) => t
    case Object(_) => "[object Object]"
  }

  /**
   * The replace callback of `buildUrl`: the text one `{key}` token becomes.
   * `hasOwnProperty` on a missing `pathParams` throws; a key it does not hold
   * is replaced by the whole of `pathParams` in the factory's copy and by the
   * token itself in the older copy.
   */
  function Replacement(variant: Variant, pathParams: Bag, key: string): Result<string>
  {
    if pathParams.Absent? then Err(TypeError("hasOwnProperty"))
    else match Lookup(BagEntries(pathParams), key)
      case Some(v) => Ok(EncodeURIComponent(ParamToString(v)))
      case None =>
        if variant == Factory then Ok(EncodeURIComponent(BagText(pathParams)))
        else Ok(EncodeURIComponent("{" + key + "}"))
  }

  /** `p` prepended to a successful result. */
  function Prefixed(p: string, r: Result<string>): Result<string>
  {
    match r
    case Ok(t) => Ok(p + t)
    case Err(e) => Err(e)
  }

  /** The first failure of `head` and `tail`, or their texts joined. */
  function Then(head: Result<string>, tail: Result<string>): Result<string>
  {
    match head
    case Err(e) => Err(e)
    case Ok(t) => Prefixed(t, tail)
  }

  /** `s.replace(/\{([\w-]+)\}/g, callback)`: tokens replaced left to right, other text kept. */
  function Substitute(variant: Variant, pathParams: Bag, s: string): Result<string>
    decreases |s|
  {
    if s == [] then Ok([])
    else
      var n := TokenAt(s);
      if n > 0 then Then(Replacement(variant, pathParams, s[1..n + 1]), Substitute(variant, pathParams, s[n + 2..]))
      else Prefixed([s[0]], Substitute(variant, pathParams, s[1..]))
  }

  /** The path with a `/` in front unless it starts with one. */
  function Rooted(path: string): (r: string)
    ensures |r| > 0 && r[0] == '/'
    ensures r == path || r == "/" + path
    ensures r == path <==> |path| > 0 && path[0] == '/'
  {
    if |path| > 0 && path[0] == '/' then path else "/" + path
  }

  /** The base `buildUrl` uses: the operation's base path when it is given, else the client's. */
  function BaseOf(basePath: Option<string>, apiBasePath: Option<string>): (b: string)
    ensures Given(apiBasePath) ==> b == apiBasePath.value
    ensures !Given(apiBasePath) ==> b == TextOf(basePath)
  {
    if apiBasePath.Some? && apiBasePath.value != "" then apiBasePath.value else TextOf(basePath)
  }

  /** `buildUrl`: base and rooted path, then every placeholder replaced. */
  method BuildUrl(variant: Variant, basePath: Option<string>, path: string, pathParams: Bag, apiBasePath: Option<string>)
    returns (r: Result<string>)
    ensures r == Substitute(variant, pathParams, BaseOf(basePath, apiBasePath) + Rooted(path))
    ensures !HasToken(BaseOf(basePath, apiBasePath) + Rooted(path)) ==> r == Ok(BaseOf(basePath, apiBasePath) + Rooted(path))
    ensures r.Err? <==> pathParams.Absent? && HasToken(BaseOf(basePath, apiBasePath) + Rooted(path))
  {
    var p := path;
    if !(|p| > 0 && p[0] == '/') {
      p := "/" + p;
    }
    var url := TextOf(basePath) + p;
    if apiBasePath.Some? && apiBasePath.value != "" {
      url := apiBasePath.value + p;
    }
    SubstituteTokenFree(variant, pathParams, url);
    SubstituteErrors(variant, pathParams, url);
    r := Substitute(variant, pathParams, url);
  }

  lemma HasTokenTail(s: string)
    requires s != [] && TokenAt(s) == 0
    ensures HasToken(s) <==> HasToken(s[1..])
  {
    if HasToken(s) {
      var i :| 0 <= i < |s| && TokenAt(s[i..]) > 0;
      assert i > 0;
      assert s[1..][i - 1..] == s[i..];
    }
    if HasToken(s[1..]) {
      var j :| 0 <= j < |s[1..]| && TokenAt(s[1..][j..]) > 0;
      assert s[1..][j..] == s[j + 1..];
    }
  }

  /** Text without placeholders is left as it is. */
  lemma {:induction false} SubstituteTokenFree(variant: Variant, pathParams: Bag, s: string)
    ensures !HasToken(s) ==> Substitute(variant, pathParams, s) == Ok(s)
    decreases |s|
  {
    if s != [] && !HasToken(s) {
      assert s[0..] == s;
      HasTokenTail(s);
      SubstituteTokenFree(variant, pathParams, s[1..]);
      assert [s[0]] + s[1..] == s;
    }
  }

  /** The substitution fails exactly when there is a placeholder and no `pathParams` object. */
  lemma SubstituteErrors(variant: Variant, pathParams: Bag, s: string)
    ensures Substitute(variant, pathParams, s).Err? <==> pathParams.Absent? && HasToken(s)
    ensures Substitute(variant, pathParams, s).Err? ==> Substitute(variant, pathParams, s).error == TypeError("hasOwnProperty")
  {
    if pathParams.Absent? {
      SubstituteAbsent(variant, pathParams, s);
    } else {
      SubstitutePresent(variant, pathParams, s);
    }
  }

  /** With a `pathParams` object every placeholder has a replacement. */
  lemma {:induction false} SubstitutePresent(variant: Variant, pathParams: Bag, s: string)
    requires !pathParams.Absent?
    ensures Substitute(variant, pathParams, s).Ok?
    decreases |s|
  {
    if s != [] {
      var n := TokenAt(s);
      if n > 0 {
        SubstitutePresent(variant, pathParams, s[n + 2..]);
        assert Replacement(variant, pathParams, s[1..n + 1]).Ok?;
      } else {
        SubstitutePresent(variant, pathParams, s[1..]);
      }
    }
  }

  /** Without one, the first placeholder throws from `hasOwnProperty`. */
  lemma {:induction false} SubstituteAbsent(variant: Variant, pathParams: Bag, s: string)
    requires pathParams.Absent?
    ensures Substitute(variant, pathParams, s).Err? <==> HasToken(s)
    ensures Substitute(variant, pathParams, s).Err? ==> Substitute(variant, pathParams, s).error == TypeError("hasOwnProperty")
    decreases |s|
  {
    if s != [] {
      var n := TokenAt(s);
      assert s[0..] == s;
      if n > 0 {
        assert HasToken(s);
      } else {
        HasTokenTail(s);
        SubstituteAbsent(variant, pathParams, s[1..]);
      }
    }
  }

  /** One character that does not open a placeholder is copied. */
  lemma PlainStep(variant: Variant, pathParams: Bag, s: string)
    requires s != [] && s[0] != '{'
    ensures Substitute(variant, pathParams, s) == Prefixed([s[0]], Substitute(variant, pathParams, s[1..]))
  {
  }

  lemma PrefixedTwice(x: string, y: string, r: Result<string>)
    ensures Prefixed(x, Prefixed(y, r)) == Prefixed(x + y, r)
  {
    if r.Ok? {
      assert x + (y + r.value) == (x + y) + r.value;
    }
  }

  /** Text before the first `{` is kept in front of whatever the rest becomes. */
  lemma {:induction false} SubstitutePlainPrefix(variant: Variant, pathParams: Bag, a: string, b: string)
    requires forall i :: 0 <= i < |a| ==> a[i] != '{'
    ensures Substitute(variant, pathParams, a + b) == Prefixed(a, Substitute(variant, pathParams, b))
    decreases |a|
  {
    if a == [] {
      assert a + b == b;
      if Substitute(variant, pathParams, b).Ok? {
        assert a + Substitute(variant, pathParams, b).value == Substitute(variant, pathParams, b).value;
      }
    } else {
      var s := a + b;
      assert s[0] == a[0] && s[1..] == a[1..] + b;
      PlainStep(variant, pathParams, s);
      SubstitutePlainPrefix(variant, pathParams, a[1..], b);
      PrefixedTwice([a[0]], a[1..], Substitute(variant, pathParams, b));
      assert [a[0]] + a[1..] == a;
    }
  }

  /** A placeholder at the front is replaced by what the callback returns for its name. */
  lemma SubstituteToken(variant: Variant, pathParams: Bag, key: string, rest: string)
    requires key != [] && forall i :: 0 <= i < |key| ==> IsKeyChar(key[i])
    ensures Substitute(variant, pathParams, "{" + key + "}" + rest) ==
      Then(Replacement(variant, pathParams, key), Substitute(variant, pathParams, rest))
  {
    var s := "{" + key + "}" + rest;
    TokenAtName(key, rest);
    assert s[1..|key| + 1] == key;
    assert s[|key| + 2..] == rest;
  }

  /** A name `pathParams` holds is replaced by its percent-encoded text. */
  lemma OwnKey(variant: Variant, entries: Props, key: string)
    requires Lookup(entries, key).Some?
    ensures Replacement(variant, Object(entries), key) == Ok(EncodeURIComponent(ParamToString(Lookup(entries, key).value)))
  {
  }

  /** In the factory's copy a name `pathParams` does not hold becomes the encoded `String(pathParams)`. */
  lemma FactoryMissingKey(pathParams: Bag, key: string)
    requires !pathParams.Absent? && Lookup(BagEntries(pathParams), key).None?
    ensures Replacement(Factory, pathParams, key) == Ok(EncodeURIComponent(BagText(pathParams)))
  {
  }

  /** The escapes of the braces around a placeholder name. */
  lemma BraceEscapes()
    ensures EncodeURIComponent("{") == "%7B" && EncodeURIComponent("}") == "%7D"
  {
    assert Utf8.CharBytes('{') == [0x7B] && Utf8.CharBytes('}') == [0x7D];
    assert PercentBytes([0x7B]) == PercentByte(0x7B) == "%7B";
    assert PercentBytes([0x7D]) == PercentByte(0x7D) == "%7D";
  }

  /** In the older copy a name `pathParams` does not hold stays, as `%7B` name `%7D`. */
  lemma LegacyMissingKey(pathParams: Bag, key: string)
    requires forall i :: 0 <= i < |key| ==> IsKeyChar(key[i])
    requires !pathParams.Absent? && Lookup(BagEntries(pathParams), key).None?
    ensures Replacement(Legacy, pathParams, key) == Ok("%7B" + key + "%7D")
  {
    EncodeAppend("{" + key, "}");
    EncodeAppend("{", key);
    UnreservedUnchanged(key);
    BraceEscapes();
  }

  lemma NoBraceNoToken(s: string)
    requires forall i :: 0 <= i < |s| ==> s[i] != '{'
    ensures !HasToken(s)
  {
    forall i | 0 <= i < |s| ensures TokenAt(s[i..]) == 0 {
      assert s[i..][0] == s[i];
    }
  }

  /** A path without placeholders is appended to the base as it is. */
  lemma BuildUrlExamplePlain()
    ensures Substitute(Factory, Object([]), BaseOf(Some("https://fake.url.com"), Some("")) + Rooted("/get/tenants")) ==
      Ok("https://fake.url.com/get/tenants")
  {
    var s := "https://fake.url.com/get/tenants";
    assert BaseOf(Some("https://fake.url.com"), Some("")) + Rooted("/get/tenants") == s;
    NoBraceNoToken(s);
    SubstituteTokenFree(Factory, Object([]), s);
  }

  /** A URL that ends in its only placeholder: the text before it, then the callback's text. */
  lemma TrailingToken(variant: Variant, pathParams: Bag, a: string, key: string, value: string)
    requires forall i :: 0 <= i < |a| ==> a[i] != '{'
    requires key != [] && forall i :: 0 <= i < |key| ==> IsKeyChar(key[i])
    requires Replacement(variant, pathParams, key) == Ok(value)
    ensures Substitute(variant, pathParams, a + ("{" + key + "}")) == Ok(a + value)
  {
    var t := "{" + key + "}";
    assert Substitute(variant, pathParams, t) == Ok(value) by {
      assert t + "" == t;
      SubstituteToken(variant, pathParams, key, "");
      assert value + "" == value;
    }
    SubstitutePlainPrefix(variant, pathParams, a, t);
  }

  // ---------------------------------------------------------------------
  // Responses

  /** The parts of a superagent response `deserialize` reads. */
  datatype RawResponse = RawResponse(status: int, body: Value, text: Option<string>)

  /** `{}` or `{status, data}`. */
  datatype Envelope = Empty | Env(status: int, data: Value)

  /**
   * The bodies `deserialize` takes for missing: `null`, and an object with no
   * `length` and no own keys (an empty plain object, a Date, a Blob, a File).
   */
  predicate NoBody(v: Value)
  {
    match v
    case Null => true
    case Obj(props) => props == []
    case Date(_, _) => true
    case File(kind) => kind.Blob? || kind.WebFile?
    case _ => false
  }

  /** `response.text` as a value. */
  function TextValue(text: Option<string>): Value
  {
    if text.Some? then Str(text.value) else Undefined
  }

  /**
   * `deserialize`. `None` stands for a null response or return type;
   * `jsonParse` is `JSON.parse`, `None` where it throws.
   */
  function Deserialize(response: Option<RawResponse>, returnType: Option<string>, host: Host, jsonParse: string -> Option<Value>)
    : (r: Result<Envelope>)
    ensures r == Ok(Empty) <==> response.None? || returnType.None? || response.value.status == 204
    ensures r.Ok? && r.value.Env? ==> response.Some? && r.value.status == response.value.status
    ensures r.Err? ==> returnType == Some(Json) && (r.error == ReferenceError("Buffer") || r.error == SyntaxError)
    ensures r.Err? && r.error == ReferenceError("Buffer") ==> !host.hasBuffer
  {
    if response.None? || returnType.None? || response.value.status == 204 then Ok(Empty)
    else
      var resp := response.value;
      var data := if NoBody(resp.body) then TextValue(resp.text) else resp.body;
      if returnType.value == Json && !host.hasBuffer then Err(ReferenceError("Buffer"))
      else if returnType.value == Json && data.File? && data.kind.Buffer? then
        match jsonParse(data.kind.content)
        case None => Err(SyntaxError)
        case Some(parsed) => Ok(Env(resp.status, parsed))
      else Ok(Env(resp.status, data))
  }

  /** A missing body falls back to the response text. */
  lemma DeserializeFallback(resp: RawResponse, returnType: string, host: Host, jsonParse: string -> Option<Value>)
    requires resp.status != 204 && NoBody(resp.body)
    requires returnType == Json ==> host.hasBuffer
    ensures Deserialize(Some(resp), Some(returnType), host, jsonParse) == Ok(Env(resp.status, TextValue(resp.text)))
  {
  }

  /** A body that is there, and is not a Buffer to parse, is the data as it is. */
  lemma DeserializeKeepsBody(resp: RawResponse, returnType: string, host: Host, jsonParse: string -> Option<Value>)
    requires resp.status != 204 && !NoBody(resp.body)
    requires returnType == Json ==> host.hasBuffer && !(resp.body.File? && resp.body.kind.Buffer?)
    ensures Deserialize(Some(resp), Some(returnType), host, jsonParse) == Ok(Env(resp.status, resp.body))
  {
  }

  /** A Buffer body of a JSON response is parsed from its text. */
  lemma DeserializeParsesBuffer(resp: RawResponse, host: Host, jsonParse: string -> Option<Value>)
    requires resp.status != 204 && host.hasBuffer && resp.body.File? && resp.body.kind.Buffer?
    ensures Deserialize(Some(resp), Some(Json), host, jsonParse) ==
      match jsonParse(resp.body.kind.content)
      case None => Err(SyntaxError)
      case Some(parsed) => Ok(Env(resp.status, parsed))
  {
  }

  /** An empty object body with text "success" reads as the text. */
  lemma DeserializeExample(host: Host, jsonParse: string -> Option<Value>)
    requires host.hasBuffer
    ensures Deserialize(Some(RawResponse(200, Obj([]), Some("success"))), Some(Json), host, jsonParse) == Ok(Env(200, Str("success")))
  {
  }
}
