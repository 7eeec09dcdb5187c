/** `URLParameterEncoder`: writes parameters into a pending request's query and headers. */
module UrlParameterEncoder {
  import opened Wrappers
  import opened NetworkErrors
  import opened PercentCoding
  import opened Requests

  /**
   * The query item one parameter becomes: named by its key; a nil value gives a key-only
   * item, any other value its stringified text percent-encoded for a query.
   */
  function ItemFor(key: string, value: Option<Scalar>): (item: QueryItem)
    ensures item.name == key
    ensures item.value.None? <==> value.None?
    ensures value.Some? ==> PercentDecode(item.value.value) == Some(Stringify(value.value))
    ensures value.Some? ==> forall i :: 0 <= i < |item.value.value| ==>
              QueryAllowed(item.value.value[i]) || item.value.value[i] == '%'
  {
    match value
    case None => QueryItem(key, None)
    case Some(v) =>
      PercentCoding.DecodeEncoded(Stringify(v));
      QueryItem(key, Some(PercentEncode(Stringify(v))))
  }

  /** `items` holds exactly one item per parameter, named by its key; their order is free. */
  predicate EncodesExactly(items: seq<QueryItem>, parameters: Parameters) {
    && |items| == |parameters|
    && (forall i :: 0 <= i < |items| ==>
          items[i].name in parameters && items[i] == ItemFor(items[i].name, parameters[items[i].name]))
    && (forall i, j :: 0 <= i < j < |items| ==> items[i].name != items[j].name)
    && (forall key :: key in parameters ==> exists i :: 0 <= i < |items| && items[i].name == key)
  }

  /** The headers after encoding: the form content type is added only when no Content-Type is set. */
  function DefaultedHeaders(headers: map<string, string>): map<string, string> {
    WithDefault(headers, ContentTypeField, FormUrlEncoded)
  }

  /** The headers with `value` under `name` if no field of that name was set. */
  function WithDefault(headers: map<string, string>, name: string, value: string): map<string, string> {
    if HasField(headers, name) then headers else SetField(headers, name, value)
  }

  /**
   * The loop of `encode`: the query is reset to no items, then one item is appended per
   * key, visiting the keys in an unspecified order, as a Swift dictionary is iterated.
   */
  method QueryItemsFor(params: Parameters) returns (items: seq<QueryItem>)
    ensures EncodesExactly(items, params)
  {
    items := [];
    var remaining := params.Keys;
    while remaining != {}
      invariant remaining <= params.Keys
      invariant |items| + |remaining| == |params|
      invariant forall i :: 0 <= i < |items| ==>
                  items[i].name in params && items[i].name !in remaining
                  && items[i] == ItemFor(items[i].name, params[items[i].name])
      invariant forall i, j :: 0 <= i < j < |items| ==> items[i].name != items[j].name
      invariant forall key :: key in params && key !in remaining ==>
                  exists i :: 0 <= i < |items| && items[i].name == key
      decreases remaining
    {
      var key :| key in remaining;
      ghost var before := items;
      items := items + [ItemFor(key, params[key])];
      assert forall i :: 0 <= i < |before| ==> items[i] == before[i];
      assert items[|before|].name == key;
      remaining := remaining - {key};
    }
  }

  /**
   * What `encode(urlRequest:with:)` does to a request, as a relation between the request
   * before and after. A request without URL fails with `missingURL` and is left as it was;
   * nil parameters change nothing. Otherwise a non-empty parameter map replaces the query
   * by exactly one item per key, an empty one leaves the URL alone, and either way the
   * Content-Type header is defaulted and the other fields are kept.
   */
  predicate Encoded(before: RequestValue, after: RequestValue, parameters: Option<Parameters>, outcome: Outcome<NetworkError>) {
    && after.cachePolicy == before.cachePolicy
    && after.timeoutInterval == before.timeoutInterval
    && (before.url.None? ==> outcome == Fail(MissingUrl) && after == before)
    && (before.url.Some? && parameters.None? ==> outcome == Pass && after == before)
    && (before.url.Some? && parameters.Some? ==>
          && outcome == Pass
          && after.headers == DefaultedHeaders(before.headers)
          && (|parameters.value| == 0 ==> after.url == before.url)
          && (|parameters.value| > 0 ==>
                && after.url.Some?
                && after.url.value.address == before.url.value.address
                && EncodesExactly(after.url.value.queryItems, parameters.value)))
  }

  /** The query step of `encode`: a non-empty map replaces the query; the rest of the request is kept. */
  method RebuildQuery(request: UrlRequest, params: Parameters)
    requires request.url.Some?
    modifies request
    ensures request.headers == old(request.headers)
    ensures request.cachePolicy == old(request.cachePolicy) && request.timeoutInterval == old(request.timeoutInterval)
    ensures |params| == 0 ==> request.url == old(request.url)
    ensures |params| > 0 ==>
              && request.url.Some?
              && request.url.value.address == old(request.url.value.address)
              && EncodesExactly(request.url.value.queryItems, params)
  {
    if |params| > 0 {
      var components := request.url.value;
      var items := QueryItemsFor(params);
      request.url := Some(Url(components.address, items));
    }
  }

  /** The header step of `encode`: `value` is set for `name` unless a field of that name is already set. */
  method DefaultField(request: UrlRequest, name: string, value: string)
    modifies request
    ensures request.headers == WithDefault(old(request.headers), name, value)
    ensures request.url == old(request.url)
    ensures request.cachePolicy == old(request.cachePolicy) && request.timeoutInterval == old(request.timeoutInterval)
  {
    if !HasField(request.headers, name) {
      request.SetValue(value, name);
    }
  }

  /** `encode(urlRequest:with:)`, editing the request in place. */
  method Encode(request: UrlRequest, parameters: Option<Parameters>) returns (outcome: Outcome<NetworkError>)
    modifies request
    ensures Encoded(old(request.Value()), request.Value(), parameters, outcome)
  {
    if request.url.None? {
      return Fail(MissingUrl);
    }
    if parameters.None? {
      return Pass;
    }
    RebuildQuery(request, parameters.value);
    DefaultField(request, ContentTypeField, FormUrlEncoded);
    return Pass;
  }

  /** Any two encodings of the same parameters hold the same items, so re-encoding does not accumulate. */
  lemma EncodingsAgree(a: seq<QueryItem>, b: seq<QueryItem>, parameters: Parameters)
    requires EncodesExactly(a, parameters) && EncodesExactly(b, parameters)
    ensures |a| == |b|
    ensures forall x :: x in a <==> x in b
  {
    forall x | x in a ensures x in b {
      var i :| 0 <= i < |a| && a[i] == x;
      var j :| 0 <= j < |b| && b[j].name == x.name;
      assert b[j] == x;
    }
    forall x | x in b ensures x in a {
      var j :| 0 <= j < |b| && b[j] == x;
      var i :| 0 <= i < |a| && a[i].name == x.name;
      assert a[i] == x;
    }
  }

  /** Defaulting the Content-Type keeps every existing field and adds at most that one. */
  lemma DefaultedHeadersKeepOthers(headers: map<string, string>)
    ensures HasField(DefaultedHeaders(headers), ContentTypeField)
    ensures HasField(headers, ContentTypeField) ==> DefaultedHeaders(headers) == headers
    ensures !HasField(headers, ContentTypeField) ==>
              DefaultedHeaders(headers) == headers[ContentTypeField := FormUrlEncoded]
  {
    assert SameFieldName(ContentTypeField, ContentTypeField);
    if !HasField(headers, ContentTypeField) {
      Requests.SetAbsentField(headers, ContentTypeField, FormUrlEncoded);
    }
  }

  /** With `["id": 2]` the encoding is the single item `id=2` (the URL `.../2/mock?id=2`). */
  lemma EncodesIdTwo(items: seq<QueryItem>)
    requires EncodesExactly(items, map["id" := Some(Integer(2))])
    ensures items == [QueryItem("id", Some("2"))]
    ensures AbsoluteString(Url("https://www.test.it/2/mock", items)) == "https://www.test.it/2/mock?id=2"
  {
    var p := map["id" := Some(Integer(2))];
    assert |items| == 1;
    assert items[0].name in p;
    assert Stringify(Integer(2)) == "2";
    assert PercentEncode("2") == "2";
  }

  /** With `["json": nil]` the encoding is the key-only item `json`. */
  lemma EncodesKeyOnly(items: seq<QueryItem>)
    requires EncodesExactly(items, map["json" := Option<Scalar>.None])
    ensures items == [QueryItem("json", None)]
    ensures AbsoluteString(Url("https://www.test.it/2/mock", items)) == "https://www.test.it/2/mock?json"
  {
    var p: Parameters := map["json" := None];
    assert |items| == 1;
    assert items[0].name in p;
  }
}
