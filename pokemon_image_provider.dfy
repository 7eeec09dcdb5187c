/** `PokemonImageProvider`: the sprite of a creature, fetched in two network steps. */
module PokemonImageProvider {
  import opened Wrappers
  import opened Utf8
  import opened NetworkErrors
  import opened Requests
  import opened Json
  import opened Pokemon
  import opened Endpoints
  import opened Oracles
  import PokeApiService

  /** `PokemonImageError`. */
  datatype PokemonImageError = MissingImage | NetworkFailure | ParsingFailure

  /** The service the first step requests. */
  function RecordService(pokemon: string): Service {
    PokeApi(PokeApiService.Pokemon(pokemon))
  }

  /** The `catch is NetworkError` arm: a download error of any kind becomes `networkFailure`. */
  function Downloaded(fetched: Result<seq<byte>, NetworkError>): (r: Result<seq<byte>, PokemonImageError>)
    ensures r.Success? <==> fetched.Success?
    ensures r.Success? ==> r.value == fetched.value
    ensures r.Failure? ==> r.error == NetworkFailure
  {
    match fetched
    case Success(bytes) => Success(bytes)
    case Failure(_) => Failure(NetworkFailure)
  }

  class ImageProvider {
    const network: NetworkLayer
    const parser: Parser
    const asUrl: string -> Option<Url>

    constructor (network: NetworkLayer, parser: Parser, asUrl: string -> Option<Url>)
      ensures this.network == network && this.parser == parser && this.asUrl == asUrl
    {
      this.network := network;
      this.parser := parser;
      this.asUrl := asUrl;
    }

    /**
     * `image(for:)`: request the creature record, parse it, read the sprite URL, download it.
     * Each step runs only when the previous one succeeded; a network error at either network
     * step is `networkFailure`, a parse error `parsingFailure`, a sprite string that is no URL
     * `missingImage`; otherwise the downloaded bytes are returned as they came.
     */
    method Image(pokemon: string) returns (r: Result<seq<byte>, PokemonImageError>)
      modifies network, parser
      ensures network.requests == old(network.requests) + [RecordService(pokemon)]
      ensures var record := network.respond(RecordService(pokemon));
              && (record.Failure? ==>
                    && r == Failure(NetworkFailure)
                    && parser.parseCount == old(parser.parseCount)
                    && network.fetches == old(network.fetches))
              && (record.Success? ==>
                    && parser.parseCount == old(parser.parseCount) + 1
                    && var parsed := Parsed(parser.syntax(record.value), DecodePokemon);
                       && (parsed.Failure? ==> r == Failure(ParsingFailure) && network.fetches == old(network.fetches))
                       && (parsed.Success? && asUrl(parsed.value.sprites.front).None? ==>
                             r == Failure(MissingImage) && network.fetches == old(network.fetches))
                       && (parsed.Success? && asUrl(parsed.value.sprites.front).Some? ==>
                             var url := asUrl(parsed.value.sprites.front).value;
                             network.fetches == old(network.fetches) + [url] && r == Downloaded(network.fetch(url))))
    {
      var record := network.Request(RecordService(pokemon));
      if record.Failure? {
        return Failure(NetworkFailure);
      }
      var parsed := parser.Parse(record.value, DecodePokemon);
      if parsed.Failure? {
        return Failure(ParsingFailure);
      }
      var imageUrl := asUrl(parsed.value.sprites.front);
      if imageUrl.None? {
        return Failure(MissingImage);
      }
      var fetched := network.FetchData(imageUrl.value);
      r := Downloaded(fetched);
    }
  }

  /** The record of the fixtures, carrying `front` as its sprite. */
  function RecordWithSprite(front: string): PokemonResponse {
    PokemonResponse(1, "Pikachu", Sprites(front))
  }

  /**
   * The provider against stand-ins: the record request answers `record`, the reader turns
   * every body into the document of `RecordWithSprite(front)` (or into nothing when
   * `parseable` is false), and every download answers `download`. The outcome, and which
   * calls were made, follow the table of `Image`.
   */
  method ImageScenario(pokemon: string, record: Result<seq<byte>, NetworkError>, parseable: bool,
                       front: string, asUrl: string -> Option<Url>, download: Result<seq<byte>, NetworkError>)
    returns (r: Result<seq<byte>, PokemonImageError>, requests: seq<Service>, parses: nat, fetches: seq<Url>)
    requires KnownUrlParser(asUrl)
    ensures requests == [RecordService(pokemon)]
    ensures record.Failure? ==> r == Failure(NetworkFailure) && parses == 0 && fetches == []
    ensures record.Success? ==> parses == 1
    ensures record.Success? && !parseable ==> r == Failure(ParsingFailure) && fetches == []
    ensures record.Success? && parseable && front == "" ==> r == Failure(MissingImage) && fetches == []
    ensures record.Success? && parseable && asUrl(front).Some? ==>
              fetches == [asUrl(front).value]
              && (download.Success? ==> r == Success(download.value))
              && (download.Failure? ==> r == Failure(NetworkFailure))
  {
    var document := PokemonJson(RecordWithSprite(front));
    var network := new NetworkLayer(_ => record, _ => download);
    var parser := new Parser(_ => if parseable then Some(document) else None);
    var provider := new ImageProvider(network, parser, asUrl);
    DecodePokemonJson(RecordWithSprite(front));
    r := provider.Image(pokemon);
    requests, parses, fetches := network.requests, parser.parseCount, network.fetches;
  }
}
