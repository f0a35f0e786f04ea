# Request construction in the Rustici REST SDK client

This project models how the SDK's superagent clients turn a configuration
and a call (`post`, `get`, `put`, `delete` with a path and a body) into an
outgoing HTTP request. It covers the shared helpers of the abstract client
factory, the current `SuperAgentClient`, which is built on the factory, and
the older `SuperAgentClientImpl`, which keeps its own copies of the
helpers.

The helpers:

- the configuration defaults of the factory's constructor;
- `buildUrl`: the base and the path are joined, then `{name}` placeholders
  are replaced by their percent-encoded values (ECMAScript
  `encodeURIComponent`, section 18.2.6.5 of ECMA-262, over UTF-8 as
  RFC 3629 defines it);
- `paramToString`;
- `normalizeParams`;
- `isFileParam`;
- `deserialize`: the `{status, data}` envelope, with its 204 rule and its
  fallback for an empty body.

A superagent request object is a class, `Requests.HttpRequest`, with one
field for each thing the clients set on it. Its state as a value is
`RequestValue`, and each call (`set`, `query`, `auth`, `send`, `attach`,
`field`, `responseType`) is proved to leave the state its `With…` function
gives. HTTP Basic credentials follow section 2 of RFC 7617. They use the
Base64 alphabet and padding of section 4 of RFC 4648, and the model proves
they decode back to `username:password`. Bearer tokens follow section 2.1
of RFC 6750.

The current client's `createRequest` is a method on the class. It is proved
equal to the specification function `AgentClient.Assembled`. Lemmas then
describe what that function gives:

- which errors are thrown, and in which order;
- the URL;
- every header and query key;
- the body chosen by content type;
- the Basic credentials.

The scheme loop `applyAuthToRequest` is a method with a loop invariant over
`Authentication.ApplyAuth`. Lemmas show that it stops at the first unknown
scheme name and that it touches only its own keys.

The older client keeps its last request in a mutable field. Its
`createRequest` authenticates that stale field object and never the request
it builds. The model writes this down as it is in the code, and lemmas
show what follows:

- the request built never carries a credential;
- the old object receives the credentials;
- the API key comes from the password;
- `putRequest` and `deleteRequest` send `get`;
- a placeholder with no value stays in the URL as `%7Bname%7D`.

Modules, in dependency order:

- `Wrappers`: Option, the thrown errors, Result.
- `JsValues`: JavaScript values, for-in ordered plain objects, property
  assignment, `Object.assign`, and integer `toString`.
- `Utf8`, `UriEncoding`, `Base64`: the encodings.
- `ClientFactory`: the shared helpers. `Variant` tells the factory's copy
  of a helper from the older client's.
- `Requests`: the superagent request.
- `Authentication`: the schemes.
- `RequestBody`: the body branch.
- `AgentClient`: the current client.
- `AgentClientImpl`: the older client.

Nothing here touches a network or a host. Several things are parameters:

- the transport that sends a request, as a function from request to
  response;
- `JSON.parse`;
- the host facilities `isFileParam` probes (`require`, the `fs` module,
  `Buffer`, `Blob`, `File`).

## Model

| member | source | states |
|---|---|---|
| JsValues.Lookup | src/clients/clientFactory.ts:103 | a key is found exactly when some own property has that name |
| JsValues.Assign | src/clients/clientFactory.ts:147-149 | after `obj[key] = v` the key reads `v` and every other key reads as before; an existing key keeps its place, a new one is appended |
| JsValues.AssignShape | src/clients/clientFactory.ts:147-149 | assignment adds no entry but the assigned one and keeps keys distinct |
| JsValues.AssignAllLookup | src/clients/superAgentClient.ts:53-57 | after copying fields in, a key reads the last value the fields give it, or its old value when they give none |
| JsValues.AssignAllDistinct | src/clients/superAgentClient.ts:53-57 | with distinct field keys, a key reads the field's value when there is one, else its old value |
| JsValues.NatToDecimal | src/clients/clientFactory.ts:128 | a natural number's numeral is non-empty, all digits, and has no leading zero |
| JsValues.NatDecimalRoundTrip | src/clients/clientFactory.ts:128 | reading a natural number's numeral back gives the number |
| JsValues.IntToDecimal | src/clients/clientFactory.ts:128 | an integer's `toString` text parses back to the integer, sign included |
| Utf8.CharRoundTrip | src/clients/clientFactory.ts:109 | one character's UTF-8 bytes decode back to it, and the lead byte gives their count |
| Utf8.RoundTrip | src/clients/clientFactory.ts:109 | decoding the UTF-8 encoding of a string gives the string back |
| Utf8.AsciiEncoding | src/clients/superAgentClient.ts:99 | an ASCII string encodes to one byte per character, its code |
| UriEncoding.RoundTrip | src/clients/clientFactory.ts:109 | `decodeURIComponent` undoes `encodeURIComponent` on every string |
| UriEncoding.EncodedAlphabet | src/clients/clientFactory.ts:109 | the encoding holds only unreserved characters, `%` and upper-case hex digits |
| UriEncoding.EncodedLength | src/clients/clientFactory.ts:109 | the encoding is never shorter, and it has the same length exactly when every character is unreserved |
| UriEncoding.Identity | src/clients/clientFactory.ts:109 | the encoding leaves a string unchanged if and only if all its characters are unreserved |
| UriEncoding.UnreservedUnchanged | src/clients/clientFactory.ts:109 | a string of unreserved characters encodes to itself |
| UriEncoding.EncodeAppend | src/clients/clientFactory.ts:109 | encoding a concatenation is concatenating the encodings |
| Base64.RoundTripOne | src/clients/superAgentClient.ts:99 | one byte, padded with `==`, decodes back to itself |
| Base64.RoundTripTwo | src/clients/superAgentClient.ts:99 | two bytes, padded with `=`, decode back to themselves |
| Base64.RoundTrip | src/clients/superAgentClient.ts:99 | Base64 decoding undoes Base64 encoding on every byte string |
| Base64.Alphabet | src/clients/superAgentClient.ts:99 | an encoding holds only alphabet characters and `=` |
| ClientFactory.Defaults | src/clients/clientFactory.ts:25-39 | missing or empty credentials become `""`; a missing or zero timeout becomes 60000; content and response types default to `application/json`; the query parameters are `config.pathParams`; the other fields are kept as given |
| ClientFactory.ParamToString | src/clients/clientFactory.ts:120-129 | a falsy value gives `""` and a Date gives its JSON text |
| ClientFactory.ParamToStringText | src/clients/clientFactory.ts:120-129 | a string parameter is passed through unchanged |
| ClientFactory.ParamToStringNumber | src/clients/clientFactory.ts:120-129 | a number gives text that reads back as the number, and a non-zero number gives its decimal numeral |
| ClientFactory.ParamToStringExample | src/clients/clientFactory.ts:128 | 145 gives `"145"` |
| ClientFactory.IsFileParam | src/clients/clientFactory.ts:162-184 | only file-like values are ever files, in either copy |
| ClientFactory.FactoryFiles | src/clients/clientFactory.ts:162-184 | where `fs` loads and `Buffer` exists, the files are exactly ReadStreams and Buffers |
| ClientFactory.FactoryFsFailure | src/clients/clientFactory.ts:164-171 | when `require('fs')` throws, nothing is a file, not even a Buffer |
| ClientFactory.LegacyFiles | src/clients/superAgentClientImpl.ts:242-270 | on a host with every facility, the older copy takes every file-like value (ReadStream, Buffer, Blob, File) for a file |
| ClientFactory.LegacyFsFailure | src/clients/superAgentClientImpl.ts:244-252 | in the older copy a failed `fs` load is swallowed and the Buffer, Blob and File checks still run |
| ClientFactory.LegacyRecognisesMore | src/clients/superAgentClientImpl.ts:242-270 | the older copy recognises every file the factory's copy recognises |
| ClientFactory.NormalizeValueFixed | src/clients/clientFactory.ts:145-150 | normalising a normalised value changes nothing, and a non-nil value stays non-nil |
| ClientFactory.NormalizeParams | src/clients/clientFactory.ts:141-155 | the for-in loop builds exactly the object `Normalized` describes |
| ClientFactory.NormalizedStep | src/clients/clientFactory.ts:143-151 | one more input entry is skipped when nil and assigned, normalised, otherwise |
| ClientFactory.NormalizedInOrder | src/clients/clientFactory.ts:141-155 | with distinct input keys, the output is the non-nil entries, normalised, in input order |
| ClientFactory.NormalizedLookup | src/clients/clientFactory.ts:141-155 | a key is in the output exactly when its input value is neither null nor undefined; files and arrays are kept as they are and every other value becomes its `paramToString` text |
| ClientFactory.NormalizedDistinct | src/clients/clientFactory.ts:141-155 | the output never holds a key twice |
| ClientFactory.NormalizedValues | src/clients/clientFactory.ts:141-155 | every output value is non-nil and already normalised |
| ClientFactory.NormalizeIdempotent | src/clients/clientFactory.ts:141-155 | normalising twice is normalising once |
| ClientFactory.KeyRun | src/clients/clientFactory.ts:101 | the run of `[\w-]` characters a string starts with is maximal |
| ClientFactory.TokenAt | src/clients/clientFactory.ts:101 | a match is `{`, one or more `[\w-]` characters, then `}` |
| ClientFactory.TokenAtName | src/clients/clientFactory.ts:101 | every `{name}` with a non-empty `[\w-]` name is matched, whatever follows it |
| ClientFactory.Rooted | src/clients/clientFactory.ts:89-91 | the path starts with `/`, and a `/` is added exactly when it did not start with one |
| ClientFactory.BaseOf | src/clients/clientFactory.ts:93-99 | the base is the API base path when it is given and non-empty, else the configured base path |
| ClientFactory.BuildUrl | src/clients/clientFactory.ts:88-113 | the URL is the base, the rooted path, then placeholder substitution; without placeholders it is exactly base plus path; it fails exactly when there is a placeholder and no path parameters |
| ClientFactory.SubstituteTokenFree | src/clients/clientFactory.ts:101-110 | text without placeholders is left as it is |
| ClientFactory.SubstituteErrors | src/clients/clientFactory.ts:101-110 | substitution fails, reading `hasOwnProperty` of undefined, exactly when there is a placeholder and no path parameters |
| ClientFactory.SubstitutePresent | src/clients/clientFactory.ts:101-110 | with a path-parameter object, every placeholder has a replacement and substitution succeeds |
| ClientFactory.SubstituteAbsent | src/clients/clientFactory.ts:101-110 | with no path-parameter object, substitution fails exactly when the text holds a placeholder, and the error is the `hasOwnProperty` TypeError |
| ClientFactory.SubstitutePlainPrefix | src/clients/clientFactory.ts:101-110 | text before the first `{` is copied in front of the rest's substitution |
| ClientFactory.SubstituteToken | src/clients/clientFactory.ts:101-110 | a leading placeholder is replaced by the callback's text for its name, then substitution goes on after it |
| ClientFactory.OwnKey | src/clients/clientFactory.ts:103-104 | a name the path parameters hold is replaced by its encoded `paramToString` text |
| ClientFactory.FactoryMissingKey | src/clients/clientFactory.ts:105-107 | in the factory's copy a missing name is replaced by the encoded `String(pathParams)` |
| ClientFactory.BraceEscapes | src/clients/superAgentClientImpl.ts:151 | `{` encodes as `%7B` and `}` as `%7D` |
| ClientFactory.LegacyMissingKey | src/clients/superAgentClientImpl.ts:143-152 | in the older copy a missing name stays in the URL as `%7B` name `%7D` |
| ClientFactory.NoBraceNoToken | src/clients/clientFactory.ts:101 | text without `{` has no placeholder |
| ClientFactory.BuildUrlExamplePlain | src/clients/clientFactory.ts:88-113 | base `https://fake.url.com` and path `/get/tenants` give `https://fake.url.com/get/tenants` |
| ClientFactory.TrailingToken | src/clients/clientFactory.ts:101-110 | a URL ending in its only placeholder becomes the text before it followed by the callback's text |
| ClientFactory.Deserialize | src/clients/clientFactory.ts:195-216 | the empty envelope comes exactly for a null response, a null return type or status 204; otherwise the status is the response's; the only failures are a JSON return type without `Buffer` and a Buffer body that is not JSON |
| ClientFactory.DeserializeFallback | src/clients/clientFactory.ts:202-206 | a null or key-less body is replaced by the response text |
| ClientFactory.DeserializeKeepsBody | src/clients/clientFactory.ts:202-215 | a body that is there, and is not a Buffer to parse, is the data as it is |
| ClientFactory.DeserializeParsesBuffer | src/clients/clientFactory.ts:208-210 | a Buffer body of a JSON response is parsed from its text |
| ClientFactory.DeserializeExample | src/clients/clientFactory.ts:202-215 | status 200, an empty object body and text `success` give `{status: 200, data: "success"}` |
| Requests.BasicCredentialsDecode | src/clients/superAgentClient.ts:97-100 | the Basic value is `Basic `, one space, then a token without spaces that decodes, Base64 then UTF-8, to `username:password` |
| Requests.HttpRequest.constructor | src/clients/superAgentClient.ts:49 | a new request has the verb and URL and nothing else set |
| Requests.HttpRequest.Set | src/clients/superAgentClient.ts:57 | `set` assigns every field into the header object, in order, and changes nothing else |
| Requests.HttpRequest.Query | src/clients/superAgentClient.ts:53 | `query` assigns every field into the query object, in order, and changes nothing else |
| Requests.HttpRequest.Auth | src/clients/superAgentClient.ts:99 | `auth` assigns the Basic credentials to `Authorization` and changes nothing else |
| Requests.HttpRequest.Send | src/clients/superAgentClient.ts:75 | `send` stores the value as the data |
| Requests.HttpRequest.SendForm | src/clients/superAgentClient.ts:61 | sending the url-encoded form stores the form as the data |
| Requests.HttpRequest.Attach | src/clients/superAgentClient.ts:68 | `attach` appends a file part |
| Requests.HttpRequest.Field | src/clients/superAgentClient.ts:70 | `field` appends a text field |
| Requests.HttpRequest.SetResponseType | src/clients/superAgentClient.ts:79 | `responseType` records the type |
| Authentication.AuthStep | src/clients/superAgentClient.ts:96-123 | one scheme succeeds exactly when its name is `basic`, `bearer`, `apiKey` or `apiKeyQuery`, and fails otherwise with that name and the message `Unknown authentication type: ` followed by it |
| Authentication.SchemeEffects | src/clients/superAgentClient.ts:97-120 | `basic` sets the Basic `Authorization` only when a username or password is set; `bearer` sets `Bearer ` + token only when the token is set; `apiKey` and `apiKeyQuery` set `x-api-key` in the header or the query only when the key is set; no other key and no other field changes |
| Authentication.AssignOne | src/clients/superAgentClient.ts:105 | setting a one-field object is assigning that field |
| Authentication.ApplyAuthConcat | src/clients/superAgentClient.ts:95-124 | the schemes of `a + b` are those of `a`, then, unless `a` failed, those of `b` on what `a` left |
| Authentication.ApplyAuthFails | src/clients/superAgentClient.ts:95-124 | the loop fails exactly when some name is unknown |
| Authentication.ApplyAuthFirstFailure | src/clients/superAgentClient.ts:95-124 | at the first unknown name the loop throws for that name and leaves the request as the names before it made it |
| Authentication.FirstUnknown | src/clients/superAgentClient.ts:95-124 | when some name is unknown there is a first one |
| Authentication.ApplyAuthFailure | src/clients/superAgentClient.ts:95-124 | the loop fails exactly when some name is unknown, and then it reports the first unknown name, after the names before it have been applied |
| Authentication.ApplyAuthFrame | src/clients/superAgentClient.ts:95-124 | whatever the names, only the `Authorization` and `x-api-key` headers and the `x-api-key` query key can change; verb, URL, data, parts and response type stay as they were |
| Authentication.Authenticate | src/clients/superAgentClient.ts:96-123 | one case of the switch leaves the request `AuthStep` gives, or throws and leaves it unchanged |
| Authentication.AuthenticateAll | src/clients/superAgentClient.ts:94-127 | the `forEach` leaves exactly the request and the error `ApplyAuth` gives |
| RequestBody.PartsOf | src/clients/superAgentClient.ts:62-73 | a multipart form gives one part per normalised field |
| RequestBody.PartsOfFields | src/clients/superAgentClient.ts:64-72 | the part at each position carries that field's key and value, and is a file part exactly when `isFileParam` holds for the value |
| RequestBody.AttachBody | src/clients/superAgentClient.ts:60-76 | the body branch leaves the request `BodyFor` gives |
| RequestBody.AttachParts | src/clients/superAgentClient.ts:64-73 | the for-in loop appends the form's parts after the ones already there and changes nothing else |
| RequestBody.LookupAt | src/clients/superAgentClient.ts:64-66 | in an object with distinct keys, each entry is what its key looks up |
| RequestBody.MultipartParts | src/clients/superAgentClient.ts:62-73 | a multipart body keeps earlier parts and adds a part named `k` exactly when the form has a non-nil field `k`; that part is a file part exactly when the field's value is a file; nothing but the parts changes |
| RequestBody.PartsNamed | src/clients/superAgentClient.ts:64-72 | a part is named `k` exactly when the form has a field `k` |
| RequestBody.PartsKind | src/clients/superAgentClient.ts:64-72 | the part for field `k` is a file part exactly when the value of `k` is a file |
| RequestBody.BodyChoice | src/clients/superAgentClient.ts:60-76 | a form content type ignores the body and any other content type ignores the form; the raw body is sent exactly when it is neither null nor undefined; header, query, verb, URL and response type are never touched |
| AgentClient.SuperAgentClient.constructor | src/clients/superAgentClient.ts:16-22 | the client holds the factory's defaults for the configuration |
| AgentClient.SuperAgentClient.ApplyAuthToRequest | src/clients/superAgentClient.ts:94-127 | the schemes go onto the given request itself, which is returned; the first unknown name is thrown, and missing names throw reading `forEach` |
| AgentClient.SuperAgentClient.CreateRequest | src/clients/superAgentClient.ts:44-87 | a new request equal to `Assembled`, or exactly the error `Assembled` gives |
| AgentClient.SuperAgentClient.Dress | src/clients/superAgentClient.ts:52-80 | query, headers, body and response type are put on the request as `Dressed` says |
| AgentClient.SuperAgentClient.Send | src/clients/superAgentClient.ts:24-42 | build, send, then `deserialize` with the client's response type; an error at any step is passed on |
| AgentClient.SuperAgentClient.PostRequest | src/clients/superAgentClient.ts:24-27 | a `post` request carrying the body, deserialised |
| AgentClient.SuperAgentClient.GetRequest | src/clients/superAgentClient.ts:29-32 | a `get` request with an undefined body, deserialised |
| AgentClient.SuperAgentClient.PutRequest | src/clients/superAgentClient.ts:34-37 | a `put` request carrying the body, deserialised |
| AgentClient.SuperAgentClient.DeleteRequest | src/clients/superAgentClient.ts:39-42 | a `delete` request with an undefined body, deserialised |
| AgentClient.AssembledErrors | src/clients/superAgentClient.ts:44-87 | `createRequest` throws exactly for a placeholder without path parameters, for missing scheme names, or for an unknown scheme name; these are checked in that order, and an unknown name is the first one |
| AgentClient.AssembledTarget | src/clients/superAgentClient.ts:46-49 | the request has the verb asked for and the URL `buildUrl(path, pathParams, '')` gives, which is base plus path when there is no placeholder; the response type is set exactly when it is truthy |
| AgentClient.DressedSplit | src/clients/superAgentClient.ts:52-80 | the steps after authentication are query and headers, then the body, then the response type |
| AgentClient.AssembledHeadersAndQuery | src/clients/superAgentClient.ts:50-58 | a header is the header parameter of that name when the header parameters have keys and hold it, and otherwise what authentication set; the same holds for the query; a key no scheme sets is absent then |
| AgentClient.AssembledBody | src/clients/superAgentClient.ts:60-76 | data and parts are what the body branch puts on a fresh request |
| AgentClient.AssembledBasicAuth | src/clients/superAgentClient.ts:97-102 | with `basic` alone, `Authorization` holds the Basic credentials exactly when a username or password is set, and is absent otherwise |
| AgentClient.LookupAbsentKey | src/clients/clientFactory.ts:141-155 | a key the input lacks is not in the normalised object |
| AgentClientImpl.BagOr | src/clients/superAgentClientImpl.ts:34-35 | the `or {}` default keeps a truthy bag as it is and gives `{}` for any other |
| AgentClientImpl.LegacyDefaults | src/clients/superAgentClientImpl.ts:26-40 | the API key is the password; query parameters are path parameters, which default to `{}`; form parameters default to `{}`; header parameters are always `{}`; the default base path is `https://rusticisoftware.com/api/v2/`; scheme names default to `[]`; a missing or zero timeout becomes 60000; the content type defaults to `application/json`; the response type has no default |
| AgentClientImpl.SuperAgentClientImpl.constructor | src/clients/superAgentClientImpl.ts:26-48 | the client holds those defaults and an empty request in its field |
| AgentClientImpl.SuperAgentClientImpl.ApplyAuthToRequest | src/clients/superAgentClientImpl.ts:178-209 | the schemes go onto the request in the field, as `ApplyAuth` says |
| AgentClientImpl.SuperAgentClientImpl.CreateRequest | src/clients/superAgentClientImpl.ts:78-121 | the field's old request receives the authentication, and the new request or the error is what `Created` gives |
| AgentClientImpl.SuperAgentClientImpl.Dress | src/clients/superAgentClientImpl.ts:86-114 | query and headers are attached whenever truthy, then the body, then the response type |
| AgentClientImpl.SuperAgentClientImpl.Call | src/clients/superAgentClientImpl.ts:50-68 | when the request is built it goes into the field and its response is returned as it is; on an error the field keeps its old object |
| AgentClientImpl.SuperAgentClientImpl.PostRequest | src/clients/superAgentClientImpl.ts:50-53 | a `post` request carrying the body |
| AgentClientImpl.SuperAgentClientImpl.GetRequest | src/clients/superAgentClientImpl.ts:55-58 | a `get` request with an undefined body |
| AgentClientImpl.SuperAgentClientImpl.PutRequest | src/clients/superAgentClientImpl.ts:60-63 | a `get` request carrying the body |
| AgentClientImpl.SuperAgentClientImpl.DeleteRequest | src/clients/superAgentClientImpl.ts:65-68 | a `get` request with an undefined body |
| AgentClientImpl.CreatedErrors | src/clients/superAgentClientImpl.ts:78-121 | with the constructor's settings the URL never fails, and a call fails exactly when some scheme name is unknown |
| AgentClientImpl.CreatedWithoutSchemes | src/clients/superAgentClientImpl.ts:32 | a configuration without scheme names never makes a call fail, and the old request is left as it was |
| AgentClientImpl.CreatedWithoutCredentials | src/clients/superAgentClientImpl.ts:83-92 | the built request has no header at all, whatever the credentials; its query is the normalised path parameters; the old request is left as the schemes make it |
| AgentClientImpl.DefaultBaseDoubleSlash | src/clients/superAgentClientImpl.ts:131-136 | with the default base path, `/courses` gives `https://rusticisoftware.com/api/v2//courses` |
| AgentClientImpl.CreatedTarget | src/clients/superAgentClientImpl.ts:83-114 | the built request has the verb asked for and the older `buildUrl`'s URL; the response type is set exactly when it is truthy |

## Left out

- Logging: the `debug` loggers and the `logger` calls in both `createRequest`s do nothing observable and are not modelled.
- Promises and dispatch: the verbs' `then` chains are one synchronous step. The transport is a function parameter, and a rejected transport is passed through as an error.
- Requests.HttpRequest.SendForm: `querystring.stringify` is not modelled. The url-encoded body is kept as the normalised form it encodes.
- Requests.HttpRequest.Set: superagent stores header names case-insensitively, and it sets `Content-Type` itself for some bodies. Neither is modelled: headers are a plain object assigned key by key.
- Requests.HttpRequest.Send: superagent merges the objects of repeated `send` calls. Each request here gets at most one `send`, so the data is simply replaced.
- Requests.HttpRequest.Field: superagent expands an array value into one field per element. The model keeps one text part that holds the array.
- Requests.HttpRequest.Attach: the layout of the form-data stream is not modelled, only the list of parts.
- JsValues.IntToDecimal: numbers are integers. Floating point, NaN and exponent notation are not modelled.
- ClientFactory.ParamToString: a value's own `toString` override is not modelled. Date texts are opaque strings (`toJSON` and `toString`) that the host supplies.
- ClientFactory.Replacement: a bare-string `pathParams` has no own properties here. Index keys such as `{0}` or `{length}` would resolve in JavaScript, and this model does not cover that.
- ClientFactory.NormalizeParams: a bare string has no entries here. In JavaScript a for-in over a string such as `"ab"` visits its index keys, giving `{0: "a", 1: "b"}`.
- AgentClient.Dressed: a bare-string `queryParams` or `headerParams` counts as having no keys, so nothing is attached. In JavaScript `Object.keys("ab").length` is 2, and the normalised index keys would be attached.
- AgentClientImpl.LegacyDressed: a bare-string `queryParams` attaches an empty query here. JavaScript would attach its normalised index keys.
- JsValues.Assign: a new key always goes last. JavaScript lists integer-like keys (`"0"`, `"1"`, …) first, in ascending order, before all other keys. With such keys, the model's property order differs from the engine's; for example, `{"x-api-key": …}` followed by `Object.assign` of `{"0": …}`.
- ClientFactory.IsFileParam: `instanceof` checks are tags on the value (`File(kind)`), and what the host provides is a `Host` parameter.
- ClientFactory.Deserialize: `JSON.parse` is a parameter that returns `None` where it would throw.
- UriEncoding.EncodeURIComponent: a string here is a sequence of Unicode scalar values. A lone surrogate, for which `encodeURIComponent` throws `URIError`, cannot occur.
- Configuration fields: null and undefined configuration fields are both a missing field (`None` or `Absent`).
- The `timeout` field is stored by both constructors but never applied to a request.
- Compiled output under `dist/`, the client selection in `src/index.ts`, and the model classes under `src/models` are not part of this model.
