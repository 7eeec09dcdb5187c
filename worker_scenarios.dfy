/**
 * The worker driven by stand-in collaborators, as its tests drive it: `MockService.mock(id:)`
 * against `https://www.test.it/`, a session that answers every call the same way, and an
 * encoder that is either the standard one or one that throws.
 */
module WorkerScenarios {
  import opened Wrappers
  import opened Utf8
  import opened Http
  import opened NetworkErrors
  import opened Requests
  import opened PercentCoding
  import opened ServiceDescriptors
  import opened UrlParameterEncoder
  import opened NetworkLayerWorker

  const MockBase: string := "https://www.test.it/"

  /** `MockService.mock(id:)`: path `"<id>/mock"`, GET, parameters `["id": id]`. */
  function MockService(id: nat): ServiceDescriptor {
    var path := NatToDecimal(id) + "/mock";
    ServiceDescriptor(Url(AppendingPathComponent(MockBase, path), []), path, Get,
                      Some(map["id" := Some(Integer(id))]))
  }

  /** The mock's endpoint is `https://www.test.it/<id>/mock`, with a single '/' before the id. */
  lemma MockEndpoint(id: nat)
    ensures MockService(id).endpoint == Url("https://www.test.it/" + NatToDecimal(id) + "/mock", [])
  {
    var d := NatToDecimal(id);
    assert (d + "/mock")[0] == d[0];
  }

  /** `["id": n]` is encoded as the one item `id=<n>`: decimal digits need no escaping. */
  lemma EncodesId(id: nat, items: seq<QueryItem>)
    requires EncodesExactly(items, map["id" := Some(Integer(id))])
    ensures items == [QueryItem("id", Some(NatToDecimal(id)))]
  {
    var p := map["id" := Some(Integer(id))];
    assert |items| == 1;
    assert items[0].name in p;
    var d := NatToDecimal(id);
    assert forall i :: 0 <= i < |d| ==> QueryAllowed(d[i]);
  }

  /** A session that answers every request, and every URL, with `answer`. */
  method StubbedSession(answer: Result<Exchange, Thrown>) returns (s: NetworkSession)
    ensures fresh(s) && s.requestLog == [] && s.urlLog == []
    ensures forall r :: s.forRequest(r) == answer
    ensures forall u :: s.fromUrl(u) == answer
  {
    s := new NetworkSession(_ => answer, _ => answer);
  }

  /**
   * `request(MockService.mock(id:))` with the standard encoder against a session answering
   * `answer`: the session is asked exactly once, with `https://www.test.it/<id>/mock?id=<id>`,
   * the form Content-Type and the worker's cache policy and timeout; the result is the body
   * of a 2xx answer with data, `noData` for an empty 2xx body, `responseIssue` for any other
   * status, and the session's own error otherwise.
   */
  method RequestMock(id: nat, answer: Result<Exchange, Thrown>)
    returns (r: Result<seq<byte>, NetworkError>, sent: seq<RequestValue>)
    ensures |sent| == 1
    ensures sent[0].url == Some(Url("https://www.test.it/" + NatToDecimal(id) + "/mock",
                                    [QueryItem("id", Some(NatToDecimal(id)))]))
    ensures sent[0].headers == map[ContentTypeField := FormUrlEncoded]
    ensures sent[0].cachePolicy == ReloadIgnoringLocalAndRemoteCacheData && sent[0].timeoutInterval == 10.0
    ensures answer.Success? && answer.value.response.HttpResponse? ==>
              var code := answer.value.response.statusCode;
              r == if 200 <= code <= 299 then (if |answer.value.data| > 0 then Result.Success(answer.value.data) else Failure(NoData))
                   else Failure(ResponseIssue(ResponseStatus(code)))
    ensures answer.Success? && answer.value.response.NonHttpResponse? ==> r == Failure(NoData)
    ensures answer.Failure? && answer.error.Raised? ==> r == Failure(answer.error.error)
    ensures answer.Failure? && answer.error.Foreign? ==> r == Failure(UnknownError(Some(answer.error.cause)))
  {
    var session := StubbedSession(answer);
    var encoder := new Encoder(None);
    var worker := new Worker(session, encoder);
    r := worker.Request(MockService(id));
    sent := session.requestLog;
    MockEndpoint(id);
    EncodesId(id, sent[0].url.value.queryItems);
    DefaultedHeadersKeepOthers(map[]);
    assert !HasField(map[], ContentTypeField);
    HandleResponseRules(if answer.Success? then answer.value.data else [],
                        if answer.Success? then answer.value.response else NonHttpResponse);
  }

  /** `request` with an encoder that throws: that error is thrown and the session is never asked. */
  method RequestWithFailingEncoder(id: nat, error: NetworkError, answer: Result<Exchange, Thrown>)
    returns (r: Result<seq<byte>, NetworkError>, sent: seq<RequestValue>, encodeCalls: nat)
    ensures r == Failure(error)
    ensures sent == [] && encodeCalls == 1
  {
    var session := StubbedSession(answer);
    var encoder := new Encoder(Some(error));
    var worker := new Worker(session, encoder);
    r := worker.Request(MockService(id));
    sent := session.requestLog;
    encodeCalls := encoder.encodeCount;
  }

  /** `fetchData(from:)`: the session is asked for exactly that URL, and the encoder is never used. */
  method FetchFrom(url: Url, answer: Result<Exchange, Thrown>)
    returns (r: Result<seq<byte>, NetworkError>, asked: seq<Url>, encodeCalls: nat)
    ensures asked == [url] && encodeCalls == 0
    ensures r.Success? <==> answer.Success? && answer.value.response.HttpResponse?
                            && 200 <= answer.value.response.statusCode <= 299 && |answer.value.data| > 0
    ensures r.Success? ==> r.value == answer.value.data
    ensures answer.Failure? && answer.error.Foreign? ==> r == Failure(UnknownError(Some(answer.error.cause)))
  {
    var session := StubbedSession(answer);
    var encoder := new Encoder(None);
    var worker := new Worker(session, encoder);
    r := worker.FetchData(url);
    asked := session.urlLog;
    encodeCalls := encoder.encodeCount;
    CompleteSucceedsOnlyOnBody(answer);
  }

  /** The statuses the tests use: 200 with a body, 200 empty, 404, 401, 400 and 500. */
  lemma TestedStatuses(body: seq<byte>)
    requires |body| > 0
    ensures Complete(Result.Success(Exchange(body, HttpResponse(200)))) == Result.Success(body)
    ensures Complete(Result.Success(Exchange([], HttpResponse(200)))) == Failure(NoData)
    ensures Complete(Result.Success(Exchange([], HttpResponse(404)))) == Failure(ResponseIssue(NotFound))
    ensures Complete(Result.Success(Exchange([], HttpResponse(401)))) == Failure(ResponseIssue(AuthenticationError))
    ensures Complete(Result.Success(Exchange([], HttpResponse(400)))) == Failure(ResponseIssue(BadRequest))
    ensures Complete(Result.Success(Exchange([], HttpResponse(500)))) == Failure(ResponseIssue(ServerError))
  {
  }
}
