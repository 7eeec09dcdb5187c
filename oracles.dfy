/**
 * The collaborators the two pipelines are written against: a `NetworkLayer`, a `Parser` and
 * the URL parser behind `String.asURL`. Each is a stand-in whose answers are fixed functions
 * of what it is asked and which records how it was called, as the test doubles do.
 */
module Oracles {
  import opened Wrappers
  import opened Utf8
  import opened NetworkErrors
  import opened Requests
  import opened Json
  import opened Endpoints

  /** `NetworkLayer`: `request(_:)` and `fetchData(from:)`, with the services and URLs asked for, in order. */
  class NetworkLayer {
    const respond: Service -> Result<seq<byte>, NetworkError>
    const fetch: Url -> Result<seq<byte>, NetworkError>
    var requests: seq<Service>
    var fetches: seq<Url>

    constructor (respond: Service -> Result<seq<byte>, NetworkError>, fetch: Url -> Result<seq<byte>, NetworkError>)
      ensures this.respond == respond && this.fetch == fetch
      ensures requests == [] && fetches == []
    {
      this.respond := respond;
      this.fetch := fetch;
      requests := [];
      fetches := [];
    }

    method Request(service: Service) returns (r: Result<seq<byte>, NetworkError>)
      modifies this
      ensures requests == old(requests) + [service] && fetches == old(fetches)
      ensures r == respond(service)
    {
      requests := requests + [service];
      r := respond(service);
    }

    method FetchData(url: Url) returns (r: Result<seq<byte>, NetworkError>)
      modifies this
      ensures fetches == old(fetches) + [url] && requests == old(requests)
      ensures r == fetch(url)
    {
      fetches := fetches + [url];
      r := fetch(url);
    }
  }

  /**
   * What `parse` yields for a model type decoded by `decode`: bytes that are no JSON document
   * are `dataCorrupted`, a document is handed to the model's initialiser.
   */
  function Parsed<T>(document: Option<Json>, decode: Json -> Result<T, DecodingError>): (r: Result<T, DecodingError>)
    ensures document.None? ==> r == Failure(DataCorrupted)
    ensures document.Some? ==> r == decode(document.value)
  {
    match document
    case None => Failure(DataCorrupted)
    case Some(j) => decode(j)
  }

  /** `Parser`: `syntax` is the JSON reader; the model's initialiser is passed per call. Calls are counted. */
  class Parser {
    const syntax: seq<byte> -> Option<Json>
    var parseCount: nat

    constructor (syntax: seq<byte> -> Option<Json>)
      ensures this.syntax == syntax && parseCount == 0
    {
      this.syntax := syntax;
      parseCount := 0;
    }

    method Parse<T>(data: seq<byte>, decode: Json -> Result<T, DecodingError>) returns (r: Result<T, DecodingError>)
      modifies this
      ensures parseCount == old(parseCount) + 1
      ensures r == Parsed(syntax(data), decode)
    {
      parseCount := parseCount + 1;
      r := Parsed(syntax(data), decode);
    }
  }

  /** What is known of `URL(string:)`: the empty string is no URL, and a full https address is one. */
  predicate KnownUrlParser(asUrl: string -> Option<Url>) {
    asUrl("").None? && asUrl("https://www.test.it/1/mock?id=1").Some?
  }
}
