/**
 * `NetworkLayerWorker`: builds a request from a service, hands it to the session, and
 * turns the session's answer into body bytes or a `NetworkError`.
 */
module NetworkLayerWorker {
  import opened Wrappers
  import opened Utf8
  import opened Http
  import opened NetworkErrors
  import opened Requests
  import opened ServiceDescriptors
  import UrlParameterEncoder

  /** The metadata of a response: an HTTP response with its status code, or some other kind. */
  datatype UrlResponse = HttpResponse(statusCode: int) | NonHttpResponse

  /** What a session returns: the body and the response metadata. */
  datatype Exchange = Exchange(data: seq<byte>, response: UrlResponse)

  /** The timeout every built request carries, in seconds. */
  const RequestTimeout: real := 10.0

  /** `responseStatus(for:)`: the class of a status code. */
  function ResponseStatus(statusCode: int): NetworkResponse {
    if 200 <= statusCode <= 299 then NetworkResponse.Success
    else if statusCode == 400 then BadRequest
    else if statusCode == 401 || statusCode == 403 then AuthenticationError
    else if statusCode == 404 || statusCode == 405 || statusCode == 406 then NotFound
    else if 500 <= statusCode <= 599 then ServerError
    else Failed
  }

  /** `handleResponse(_:)`: the body of a successful, non-empty HTTP response; otherwise the error. */
  function HandleResponse(exchange: Exchange): Result<seq<byte>, NetworkError> {
    match exchange.response
    case NonHttpResponse => Failure(NoData)
    case HttpResponse(code) =>
      var status := ResponseStatus(code);
      if status == NetworkResponse.Success then
        if |exchange.data| > 0 then Result.Success(exchange.data) else Failure(NoData)
      else Failure(ResponseIssue(status))
  }

  /**
   * The `do`/`catch` around the session call in `request` and `fetchData`: a `NetworkError`
   * is rethrown as it is, any other error is wrapped as `unknownError`, and an answer is
   * handed to `handleResponse`.
   */
  function Complete(answer: Result<Exchange, Thrown>): Result<seq<byte>, NetworkError> {
    match answer
    case Failure(Raised(e)) => Failure(e)
    case Failure(Foreign(cause)) => Failure(UnknownError(Some(cause)))
    case Success(exchange) => HandleResponse(exchange)
  }

  /** The status table is exact: each class is reached by precisely the codes listed for it. */
  lemma ClassificationTable(code: int)
    ensures ResponseStatus(code) == NetworkResponse.Success <==> 200 <= code <= 299
    ensures ResponseStatus(code) == BadRequest <==> code == 400
    ensures ResponseStatus(code) == AuthenticationError <==> code == 401 || code == 403
    ensures ResponseStatus(code) == NotFound <==> 404 <= code <= 406
    ensures ResponseStatus(code) == ServerError <==> 500 <= code <= 599
    ensures ResponseStatus(code) == Failed <==>
              !(200 <= code <= 299 || 400 <= code <= 401 || code == 403 || 404 <= code <= 406 || 500 <= code <= 599)
  {
  }

  /** The boundary codes of the table. */
  lemma ClassificationBoundaries()
    ensures ResponseStatus(199) == Failed && ResponseStatus(200) == NetworkResponse.Success
    ensures ResponseStatus(299) == NetworkResponse.Success && ResponseStatus(300) == Failed
    ensures ResponseStatus(399) == Failed && ResponseStatus(402) == Failed
    ensures ResponseStatus(407) == Failed && ResponseStatus(499) == Failed
    ensures ResponseStatus(500) == ServerError && ResponseStatus(599) == ServerError
    ensures ResponseStatus(600) == Failed
  {
  }

  /**
   * The rules of `handleResponse`: a non-HTTP response and an empty successful body give
   * `noData`, any other status gives `responseIssue` of its class whatever the body, and
   * only a successful response with a body returns that body unchanged.
   */
  lemma HandleResponseRules(data: seq<byte>, response: UrlResponse)
    ensures response.NonHttpResponse? ==> HandleResponse(Exchange(data, response)) == Failure(NoData)
    ensures response.HttpResponse? && 200 <= response.statusCode <= 299 ==>
              HandleResponse(Exchange(data, response)) == if |data| > 0 then Result.Success(data) else Failure(NoData)
    ensures response.HttpResponse? && !(200 <= response.statusCode <= 299) ==>
              HandleResponse(Exchange(data, response)) == Failure(ResponseIssue(ResponseStatus(response.statusCode)))
              && ResponseStatus(response.statusCode) != NetworkResponse.Success
  {
  }

  /** A call yields bytes exactly when the session answered a 2xx status with a non-empty body, and those bytes are the body. */
  lemma CompleteSucceedsOnlyOnBody(answer: Result<Exchange, Thrown>)
    ensures Complete(answer).Success? <==>
              && answer.Success?
              && answer.value.response.HttpResponse?
              && 200 <= answer.value.response.statusCode <= 299
              && |answer.value.data| > 0
    ensures Complete(answer).Success? ==> Complete(answer).value == answer.value.data
    ensures answer.Failure? && answer.error.Raised? ==> Complete(answer) == Failure(answer.error.error)
    ensures answer.Failure? && answer.error.Foreign? ==> Complete(answer) == Failure(UnknownError(Some(answer.error.cause)))
  {
  }

  /**
   * The session the worker talks to (`NetworkSession`): its answers are given as functions
   * of what it is asked, and it records every call, as `MockNetworkSession` does.
   */
  class NetworkSession {
    const forRequest: RequestValue -> Result<Exchange, Thrown>
    const fromUrl: Url -> Result<Exchange, Thrown>
    var requestLog: seq<RequestValue>
    var urlLog: seq<Url>

    constructor (forRequest: RequestValue -> Result<Exchange, Thrown>, fromUrl: Url -> Result<Exchange, Thrown>)
      ensures this.forRequest == forRequest && this.fromUrl == fromUrl
      ensures requestLog == [] && urlLog == []
    {
      this.forRequest := forRequest;
      this.fromUrl := fromUrl;
      requestLog := [];
      urlLog := [];
    }

    /** `data(for:)`. */
    method DataForRequest(request: RequestValue) returns (r: Result<Exchange, Thrown>)
      modifies this
      ensures requestLog == old(requestLog) + [request] && urlLog == old(urlLog)
      ensures r == forRequest(request)
    {
      requestLog := requestLog + [request];
      r := forRequest(request);
    }

    /** `data(from:)`. */
    method DataFromUrl(url: Url) returns (r: Result<Exchange, Thrown>)
      modifies this
      ensures urlLog == old(urlLog) + [url] && requestLog == old(requestLog)
      ensures r == fromUrl(url)
    {
      urlLog := urlLog + [url];
      r := fromUrl(url);
    }
  }

  /**
   * The worker's `urlEncoder`: the standard `URLParameterEncoder`, or, when `stubbedError`
   * is set, a stand-in that throws that error without touching the request, as
   * `MockURLParameterEncoder` does. It counts its calls.
   */
  class Encoder {
    const stubbedError: Option<NetworkError>
    var encodeCount: nat

    constructor (stubbedError: Option<NetworkError>)
      ensures this.stubbedError == stubbedError && encodeCount == 0
    {
      this.stubbedError := stubbedError;
      encodeCount := 0;
    }

    method Encode(request: UrlRequest, parameters: Option<Parameters>) returns (outcome: Outcome<NetworkError>)
      modifies this, request
      ensures encodeCount == old(encodeCount) + 1
      ensures stubbedError.Some? ==> outcome == Fail(stubbedError.value) && unchanged(request)
      ensures stubbedError.None? ==>
                UrlParameterEncoder.Encoded(old(request.Value()), request.Value(), parameters, outcome)
    {
      encodeCount := encodeCount + 1;
      if stubbedError.Some? {
        return Fail(stubbedError.value);
      }
      outcome := UrlParameterEncoder.Encode(request, parameters);
    }
  }

  /**
   * `request` was built from `service` by `buildRequest`: the endpoint as URL, the
   * cache-bypassing policy, the fixed timeout, and the standard encoding of the service's
   * parameters. The service's method is not copied into the request.
   */
  predicate BuiltFrom(request: RequestValue, service: ServiceDescriptor) {
    UrlParameterEncoder.Encoded(
      RequestValue(Some(service.endpoint), map[], ReloadIgnoringLocalAndRemoteCacheData, RequestTimeout),
      request, service.parameters, Pass)
  }

  class Worker {
    const session: NetworkSession
    const encoder: Encoder

    constructor (session: NetworkSession, encoder: Encoder)
      ensures this.session == session && this.encoder == encoder
    {
      this.session := session;
      this.encoder := encoder;
    }

    /** `buildRequest(from:)`: encoder errors propagate unchanged. */
    method BuildRequest(service: ServiceDescriptor) returns (r: Result<UrlRequest, NetworkError>)
      modifies encoder
      ensures encoder.encodeCount == old(encoder.encodeCount) + 1
      ensures encoder.stubbedError.Some? ==> r == Failure(encoder.stubbedError.value)
      ensures encoder.stubbedError.None? ==> r.Success? && fresh(r.value) && BuiltFrom(r.value.Value(), service)
    {
      var request := new UrlRequest(service.endpoint, ReloadIgnoringLocalAndRemoteCacheData, RequestTimeout);
      var outcome := encoder.Encode(request, service.parameters);
      if outcome.Fail? {
        return Failure(outcome.error);
      }
      return Result.Success(request);
    }

    /**
     * `request(_:)`: build, send, handle. An encoder error is thrown as it is and the
     * session is never reached; otherwise the session is asked once, with the built
     * request, and its answer decides the result.
     */
    method Request(service: ServiceDescriptor) returns (r: Result<seq<byte>, NetworkError>)
      modifies encoder, session
      ensures encoder.encodeCount == old(encoder.encodeCount) + 1
      ensures session.urlLog == old(session.urlLog)
      ensures encoder.stubbedError.Some? ==>
                r == Failure(encoder.stubbedError.value) && session.requestLog == old(session.requestLog)
      ensures encoder.stubbedError.None? ==>
                && |session.requestLog| == |old(session.requestLog)| + 1
                && session.requestLog[..|old(session.requestLog)|] == old(session.requestLog)
                && BuiltFrom(session.requestLog[|old(session.requestLog)|], service)
                && r == Complete(session.forRequest(session.requestLog[|old(session.requestLog)|]))
    {
      var built := BuildRequest(service);
      if built.Failure? {
        return Failure(built.error);
      }
      var answer := session.DataForRequest(built.value.Value());
      r := Complete(answer);
    }

    /** `fetchData(from:)`: the URL goes to the session as it is; the encoder is not involved. */
    method FetchData(url: Url) returns (r: Result<seq<byte>, NetworkError>)
      modifies session
      ensures session.urlLog == old(session.urlLog) + [url]
      ensures session.requestLog == old(session.requestLog)
      ensures encoder.encodeCount == old(encoder.encodeCount)
      ensures r == Complete(session.fromUrl(url))
    {
      var answer := session.DataFromUrl(url);
      r := Complete(answer);
    }
  }
}
