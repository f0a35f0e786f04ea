/**
 * How a client puts the body on a request, by its content type: a
 * url-encoded form is sent as one string; a multipart form becomes one part
 * per normalised field, a file part where `isFileParam` holds and a text
 * field otherwise; any other content type sends the body itself when it is
 * neither null nor undefined.
 */
module RequestBody {
  import opened Wrappers
  import opened JsValues
  import opened Requests
  import opened ClientFactory

  /** The part one normalised form field becomes. */
  function PartFor(variant: Variant, host: Host, entry: (string, Value)): Part
  {
    if IsFileParam(variant, host, entry.1) then FilePart(entry.0, entry.1) else TextField(entry.0, entry.1)
  }

  /** The parts of a normalised form, in for-in order: one per field, under its key. */
  function PartsOf(variant: Variant, host: Host, form: Props): (ps: seq<Part>)
    ensures |ps| == |form|
    decreases |form|
  {
    if form == [] then []
    else PartsOf(variant, host, form[..|form| - 1]) + [PartFor(variant, host, form[|form| - 1])]
  }

  /** Each field becomes the part at its own position, carrying its key and value. */
  lemma {:induction false} PartsOfFields(variant: Variant, host: Host, form: Props)
    ensures forall i :: 0 <= i < |form| ==>
      var part := PartsOf(variant, host, form)[i];
      part.name == form[i].0 && part.value == form[i].1 && (part.FilePart? <==> IsFileParam(variant, host, form[i].1))
    decreases |form|
  {
    if form != [] {
      var init := form[..|form| - 1];
      PartsOfFields(variant, host, init);
      forall i | 0 <= i < |form| - 1 ensures PartsOf(variant, host, form)[i] == PartsOf(variant, host, init)[i] && form[i] == init[i] {
      }
    }
  }

  /** The request the body branch of `createRequest` leaves. */
  function BodyFor(variant: Variant, host: Host, contentType: string, formParams: Bag, body: Value, rv: RequestValue)
    : RequestValue
  {
    if contentType == UrlEncodedForm then WithForm(rv, Normalized(variant, host, BagEntries(formParams)))
    else if contentType == Multipart then
      rv.(parts := rv.parts + PartsOf(variant, host, Normalized(variant, host, BagEntries(formParams))))
    else if !IsNil(body) then WithData(rv, body)
    else rv
  }

  /** The body branch of `createRequest`, on a request object. */
  method AttachBody(variant: Variant, host: Host, request: HttpRequest, contentType: string, formParams: Bag, body: Value)
    modifies request
    ensures request.View() == BodyFor(variant, host, contentType, formParams, body, old(request.View()))
  {
    if contentType == UrlEncodedForm {
      var form := NormalizeParams(variant, host, formParams);
      request.SendForm(form);
    } else if contentType == Multipart {
      var form := NormalizeParams(variant, host, formParams);
      AttachParts(variant, host, request, form);
    } else if !IsNil(body) {
      request.Send(body);
    }
  }

  /** The for-in loop of the multipart branch: `attach` for a file, `field` for anything else. */
  method AttachParts(variant: Variant, host: Host, request: HttpRequest, form: Props)
    modifies request
    ensures request.View() == old(request.View()).(parts := old(request.parts) + PartsOf(variant, host, form))
  {
    var i := 0;
    while i < |form|
      invariant 0 <= i <= |form|
      invariant request.View() == old(request.View()).(parts := old(request.parts) + PartsOf(variant, host, form[..i]))
    {
      assert form[..i + 1][..i] == form[..i];
      var key, value := form[i].0, form[i].1;
      if IsFileParam(variant, host, value) {
        request.Attach(key, value);
      } else {
        request.Field(key, value);
      }
      i := i + 1;
    }
    assert form[..i] == form;
  }

  /** In an object with distinct keys, each entry is what its key looks up. */
  lemma {:induction false} LookupAt(p: Props, i: nat)
    requires DistinctKeys(p) && i < |p|
    ensures Lookup(p, p[i].0) == Some(p[i].1)
  {
    if i > 0 {
      assert DistinctKeys(p[1..]) by {
        forall a, b | 0 <= a < b < |p[1..]| ensures p[1..][a].0 != p[1..][b].0 {
          assert p[1..][a] == p[a + 1] && p[1..][b] == p[b + 1];
        }
      }
      LookupAt(p[1..], i - 1);
    }
  }

  /**
   * The multipart branch adds, after the parts already there, a part named
   * `k` exactly when the form has a field `k` that is neither null nor
   * undefined, and that part is a file part exactly when the field's value
   * is a file. Nothing but the parts changes.
   */
  lemma MultipartParts(variant: Variant, host: Host, formParams: Bag, body: Value, rv: RequestValue, k: string)
    requires DistinctKeys(BagEntries(formParams))
    ensures var out := BodyFor(variant, host, Multipart, formParams, body, rv);
      var entries := BagEntries(formParams);
      && |out.parts| >= |rv.parts| && out.parts[..|rv.parts|] == rv.parts
      && out.(parts := rv.parts) == rv
      && var added := out.parts[|rv.parts|..];
      && ((exists i :: 0 <= i < |added| && added[i].name == k) <==>
          Lookup(entries, k).Some? && !IsNil(Lookup(entries, k).value))
      && (forall i :: 0 <= i < |added| && added[i].name == k ==>
            (added[i].FilePart? <==> IsFileParam(variant, host, Lookup(entries, k).value)))
  {
    var entries := BagEntries(formParams);
    var q := Normalized(variant, host, entries);
    var out := BodyFor(variant, host, Multipart, formParams, body, rv);
    var added := out.parts[|rv.parts|..];
    assert added == PartsOf(variant, host, q);
    NormalizedDistinct(variant, host, entries);
    NormalizedLookup(variant, host, entries, k);
    PartsNamed(variant, host, q, k);
    PartsKind(variant, host, q, k);
    assert (exists i :: 0 <= i < |added| && added[i].name == k) <==> Lookup(q, k).Some?;
    assert Lookup(q, k).Some? <==> Lookup(entries, k).Some? && !IsNil(Lookup(entries, k).value);
    assert Lookup(q, k).Some? ==>
      (IsFileParam(variant, host, Lookup(q, k).value) <==> IsFileParam(variant, host, Lookup(entries, k).value));
  }

  /** A part is named `k` exactly when the form has a field `k`. */
  lemma {:induction false} PartsNamed(variant: Variant, host: Host, q: Props, k: string)
    ensures Lookup(q, k).Some? ==> exists i :: 0 <= i < |q| && PartsOf(variant, host, q)[i].name == k
    ensures (exists i :: 0 <= i < |q| && PartsOf(variant, host, q)[i].name == k) ==> Lookup(q, k).Some?
  {
    var ps := PartsOf(variant, host, q);
    PartsOfFields(variant, host, q);
    if exists i :: 0 <= i < |q| && ps[i].name == k {
      var i :| 0 <= i < |q| && ps[i].name == k;
      assert q[i].0 == k;
    }
    if exists i :: 0 <= i < |q| && q[i].0 == k {
      var i :| 0 <= i < |q| && q[i].0 == k;
      assert ps[i].name == k;
    }
  }

  /** In the parts of a form with distinct keys, the part named `k` is a file part exactly when the value of `k` is a file. */
  lemma {:induction false} PartsKind(variant: Variant, host: Host, q: Props, k: string)
    requires DistinctKeys(q)
    ensures Lookup(q, k).Some? ==> forall i :: 0 <= i < |q| && PartsOf(variant, host, q)[i].name == k ==>
      (PartsOf(variant, host, q)[i].FilePart? <==> IsFileParam(variant, host, Lookup(q, k).value))
  {
    var ps := PartsOf(variant, host, q);
    PartsOfFields(variant, host, q);
    forall i | 0 <= i < |q| && ps[i].name == k
      ensures ps[i].FilePart? <==> IsFileParam(variant, host, Lookup(q, k).value)
    {
      assert q[i].0 == k;
      LookupAt(q, i);
      assert ps[i].FilePart? <==> IsFileParam(variant, host, q[i].1);
    }
  }

  /**
   * Only the chosen branch acts: a form content type ignores the body, any
   * other content type ignores the form and sends the body unless it is null
   * or undefined. The header, query, method, URL and response type are never
   * touched.
   */
  lemma BodyChoice(variant: Variant, host: Host, contentType: string, formParams: Bag, body: Value, rv: RequestValue)
    ensures var out := BodyFor(variant, host, contentType, formParams, body, rv);
      && out.(data := rv.data, parts := rv.parts) == rv
      && (contentType == UrlEncodedForm || contentType == Multipart ==>
          forall other :: BodyFor(variant, host, contentType, formParams, other, rv) == out)
      && (contentType == UrlEncodedForm ==> out.parts == rv.parts && out.data.UrlEncoded?)
      && (contentType == Multipart ==> out.data == rv.data)
      && (contentType != UrlEncodedForm && contentType != Multipart ==>
          && (forall other :: BodyFor(variant, host, contentType, other, body, rv) == out)
          && out.parts == rv.parts
          && (IsNil(body) ==> out == rv)
          && (!IsNil(body) ==> out.data == Raw(body)))
  {
  }
}
