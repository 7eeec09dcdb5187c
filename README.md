# ShakespeareanPokemon request/response layer, in Dafny

This project models the network core of the ShakespeareanPokemon Swift package, which
fetches a creature's sprite from PokéAPI and a Shakespearean rendering of its description
from FunTranslations. The model covers these parts:

- **`NetworkLayerWorker`** builds a `URLRequest` from a `Service`, hands it to a
  `NetworkSession`, and classifies the answer. It returns the body bytes or a
  `NetworkError`.
- **`URLParameterEncoder`** rewrites a pending request in place. It replaces the query by
  one percent-encoded item per parameter and defaults the `Content-Type` header.
- **The two services**, `PokeAPIService` and `FunTranslationService`, give each request's
  path, method, parameters and endpoint.
- **The payload models** `PokemonResponse`, `PokemonSpecieResponse` (with its
  language-code fallback) and `ShakespeareTranslation` (with its
  percent-decode-or-keep-raw rule). They are decoded from a JSON value.
- **The two pipelines**, `PokemonImageProvider.image(for:)` and
  `ShakespeareanPokemonDescriptor.shakespeareanDescription(for:language:)`, run over a
  network layer and a parser. Each one stops at its first failure and remaps every failure
  into its own three-case error.

Each Swift source file has its own module. The worker's session and encoder, the
pipelines' network layer and parser, and the URL parser behind `String.asURL` are stand-in
objects. Their answers are fixed functions of what they are asked, and they record their
calls as the test doubles do. That record is what lets the model state "the translation
service is never asked" and "exactly two requests and two parses".

The encoder writes parameter values with the percent-encoding of section 2.1 of RFC 3986,
over UTF-8 (RFC 3629). The translation model reads them back with the same coding. Both
directions are implemented, so the round trip and the failure cases are proved rather than
assumed. The model takes the allowed character set to be the query set of section 3.4 of
RFC 3986: unreserved characters, sub-delims, `:`, `@`, `/` and `?`.

Two facts of the code shape the model:

- The encoder resets `queryItems` to an empty list before it adds one item per parameter
  (Sources/ShakespeareanPokemon/Network/URLParameterEncoder.swift:39). It does not append to
  an existing query, so encoding twice does not accumulate items.
- The species path is `pokemon-species/<name>`, with no leading `/`
  (Sources/ShakespeareanPokemon/Network/Services/PokeAPIService.swift:28), while the
  creature path `/pokemon/<name>` has one. The endpoint join still puts exactly one `/`
  before either. The package's own test expects the species path with a leading `/`
  (Tests/ShakespeareanPokemonTests/Network/Services/PokeAPIServiceTests.swift:26) and agrees
  on the endpoint (line 25); the model follows the source.

## Model

| member | source | states |
|---|---|---|
| `NetworkLayerWorker.ClassificationTable` | Sources/ShakespeareanPokemon/Network/NetworkLayerWorker.swift:176-191 | Each status class is reached by exactly its codes: 200..299 success, 400 bad request, 401/403 authentication, 404..406 not found, 500..599 server error, and every other integer failed (both directions) |
| `NetworkLayerWorker.ClassificationBoundaries` | Sources/ShakespeareanPokemon/Network/NetworkLayerWorker.swift:177-189 | The boundary codes 199, 200, 299, 300, 399, 402, 407, 499, 500, 599 and 600 classify as the table says |
| `NetworkLayerWorker.HandleResponseRules` | Sources/ShakespeareanPokemon/Network/NetworkLayerWorker.swift:158-170 | A non-HTTP response gives noData. A 2xx response gives its body unchanged if it is non-empty, otherwise noData. Any other status gives responseIssue of its class, whatever the body |
| `NetworkLayerWorker.CompleteSucceedsOnlyOnBody` | Sources/ShakespeareanPokemon/Network/NetworkLayerWorker.swift:92-124 | A call yields bytes iff the session answered a 2xx HTTP response with a non-empty body, and then yields that body. A NetworkError the session throws is rethrown as is; any other error becomes unknownError carrying it |
| `NetworkLayerWorker.NetworkSession.DataForRequest` | Tests/ShakespeareanPokemonTests/Network/Mocks/MockNetworkObjects.swift:30-37 | The request is appended to the session's request log and the stubbed answer for it is returned |
| `NetworkLayerWorker.NetworkSession.DataFromUrl` | Tests/ShakespeareanPokemonTests/Network/Mocks/MockNetworkObjects.swift:16-23 | The URL is appended to the session's URL log and the stubbed answer for it is returned |
| `NetworkLayerWorker.Encoder.Encode` | Tests/ShakespeareanPokemonTests/Network/Mocks/MockNetworkObjects.swift:40-51 | The call is counted. With a stubbed error it throws that error and leaves the request untouched. Otherwise the request is rewritten exactly as URLParameterEncoder.encode does |
| `NetworkLayerWorker.Worker.BuildRequest` | Sources/ShakespeareanPokemon/Network/NetworkLayerWorker.swift:135-145 | The encoder is called exactly once. Its error is thrown unchanged. Otherwise the request is a new one built from the endpoint with the cache-bypassing policy and a 10 s timeout, then encoded with the service's parameters. The HTTP method is not copied |
| `NetworkLayerWorker.Worker.Request` | Sources/ShakespeareanPokemon/Network/NetworkLayerWorker.swift:92-102 | The encoder is called once. If it fails, its error is the result and the session is never asked. Otherwise the session is asked exactly once, with the built request, and the result is the response rules applied to its answer |
| `NetworkLayerWorker.Worker.FetchData` | Sources/ShakespeareanPokemon/Network/NetworkLayerWorker.swift:115-124 | The URL goes to the session verbatim, the encoder is not used, and the same response and error rules decide the result |
| `WorkerScenarios.MockEndpoint` | Tests/ShakespeareanPokemonTests/Network/Mocks/MockService.swift:16-34 | The test service's endpoint is `https://www.test.it/<id>/mock`, with a single `/` before the id |
| `WorkerScenarios.EncodesId` | Tests/ShakespeareanPokemonTests/Network/Mocks/MockService.swift:40-45 | The parameters `["id": n]` encode to exactly the one item `id=<decimal n>` |
| `WorkerScenarios.RequestMock` | Tests/ShakespeareanPokemonTests/Network/NetworkLayerWorkerTests.swift:26-132 | With the standard encoder, the session is asked once with `https://www.test.it/<id>/mock?id=<id>`, the form Content-Type, the fixed cache policy and the fixed timeout. The result is the body for 2xx with data, noData for an empty body or a non-HTTP response, responseIssue for any other status, and the session's own error otherwise |
| `WorkerScenarios.RequestWithFailingEncoder` | Tests/ShakespeareanPokemonTests/Network/NetworkLayerWorkerTests.swift:43-57 | An encoder that throws makes request throw that error after one encode call and no session call |
| `WorkerScenarios.FetchFrom` | Tests/ShakespeareanPokemonTests/Network/NetworkLayerWorkerTests.swift:149-210 | fetchData asks the session for exactly the given URL and never calls the encoder. It succeeds iff the answer is 2xx with a body, and a foreign error becomes unknownError |
| `WorkerScenarios.TestedStatuses` | Tests/ShakespeareanPokemonTests/Network/NetworkLayerWorkerTests.swift:26-132 | The tested answers: 200 with a body gives the body, 200 empty gives noData, and 404, 401, 400 and 500 give notFound, authenticationError, badRequest and serverError |
| `UrlParameterEncoder.ItemFor` | Sources/ShakespeareanPokemon/Network/URLParameterEncoder.swift:41-45 | The item is named by the key. It has no value iff the parameter is nil. Otherwise its value consists of allowed characters and `%` only, and percent-decodes to the stringified parameter |
| `UrlParameterEncoder.QueryItemsFor` | Sources/ShakespeareanPokemon/Network/URLParameterEncoder.swift:39-47 | Starting from an empty query and visiting the keys in an arbitrary order gives exactly one item per key, with distinct names, each carrying that key's encoded value |
| `UrlParameterEncoder.RebuildQuery` | Sources/ShakespeareanPokemon/Network/URLParameterEncoder.swift:38-49 | An empty map leaves the URL alone. A non-empty map gives a URL at the same address whose query holds exactly one encoded item per key. Headers, cache policy and timeout are untouched |
| `UrlParameterEncoder.DefaultField` | Sources/ShakespeareanPokemon/Network/URLParameterEncoder.swift:51-53 | The field is set to the value only when no field of that name (in any letter case) is present; URL, cache policy and timeout are untouched |
| `UrlParameterEncoder.Encode` | Sources/ShakespeareanPokemon/Network/URLParameterEncoder.swift:34-54 | A request without a URL fails with missingURL and is unchanged. Nil parameters change nothing. An empty map leaves the URL alone. A non-empty map replaces the query with exactly one item per key at the same address. In the last two cases the Content-Type is defaulted. The cache policy and timeout are always kept |
| `UrlParameterEncoder.EncodingsAgree` | Sources/ShakespeareanPokemon/Network/URLParameterEncoder.swift:39-47 | Any two encodings of the same parameters hold the same items, so encoding again does not accumulate items |
| `UrlParameterEncoder.DefaultedHeadersKeepOthers` | Sources/ShakespeareanPokemon/Network/URLParameterEncoder.swift:51-53 | Afterwards the Content-Type is present. An existing one (in any letter case) is kept and the headers are unchanged. Otherwise exactly `application/x-www-form-urlencoded; charset=utf-8` is added and no other field changes |
| `UrlParameterEncoder.EncodesIdTwo` | Tests/ShakespeareanPokemonTests/Network/URLParameterEncoderTests.swift:22-29 | `["id": 2]` on `https://www.test.it/2/mock` gives `https://www.test.it/2/mock?id=2` |
| `UrlParameterEncoder.EncodesKeyOnly` | Tests/ShakespeareanPokemonTests/Network/URLParameterEncoderTests.swift:40-47 | `["json": nil]` gives the key-only item and `https://www.test.it/2/mock?json` |
| `Requests.NatToDecimal` | Sources/ShakespeareanPokemon/Network/URLParameterEncoder.swift:43 | The interpolated numeral is one or more decimal digits, with no leading zero, and read back digit by digit it denotes exactly the number |
| `Requests.NatToDecimalInjective` | Sources/ShakespeareanPokemon/Network/URLParameterEncoder.swift:43 | Two numbers have the same numeral iff they are equal, so an integer query value names its integer |
| `Requests.SetField` | Sources/ShakespeareanPokemon/Network/URLParameterEncoder.swift:52 | `setValue(_:forHTTPHeaderField:)`: the field gets the value, fields with another name (compared without ASCII case) are kept, and a differently cased spelling of the same field is dropped |
| `Requests.SetAbsentField` | Sources/ShakespeareanPokemon/Network/URLParameterEncoder.swift:51-52 | Setting a field that is absent in every letter case just adds that one entry |
| `Requests.UrlRequest.SetValue` | Sources/ShakespeareanPokemon/Network/URLParameterEncoder.swift:52 | Only the headers of the request change, as SetField says |
| `Requests.UrlRequest.constructor` | Sources/ShakespeareanPokemon/Network/NetworkLayerWorker.swift:136-138 | A new request has the given URL, cache policy and timeout, and no header fields |
| `PercentCoding.PercentEncode` | Sources/ShakespeareanPokemon/Network/URLParameterEncoder.swift:45 | The output consists of allowed characters and `%` only. A text made only of allowed characters is left unchanged |
| `PercentCoding.DecodeEncoded` | Sources/ShakespeareanPokemon/Network/Models/ShakespeareTranslation.swift:25 | Percent-decoding undoes percent-encoding for every string |
| `PercentCoding.DecodeWithoutPercent` | Sources/ShakespeareanPokemon/Network/Models/ShakespeareTranslation.swift:25 | A string with no `%` decodes to itself |
| `PercentCoding.DecodeMalformedTriplet` | Sources/ShakespeareanPokemon/Network/Models/ShakespeareTranslation.swift:25 | A `%` that is not followed by two hex digits makes decoding fail |
| `PercentCoding.DecodedStandsForOctets` | Sources/ShakespeareanPokemon/Network/Models/ShakespeareTranslation.swift:25 | A successful decoding is the UTF-8 reading of the unescaped octets: re-encoding it gives those octets back |
| `Utf8.DecodeEncoded` | Sources/ShakespeareanPokemon/Network/URLParameterEncoder.swift:45 | Decoding the UTF-8 encoding of any string gives the string back |
| `Utf8.EncodeDecoded` | Sources/ShakespeareanPokemon/Network/Models/ShakespeareTranslation.swift:25 | Every byte string the strict decoder accepts is the encoding of what it decodes to: overlong forms, surrogates and out-of-range values are rejected |
| `Http.MethodRawValueRoundTrip` | Sources/ShakespeareanPokemon/Network/HTTPMethod.swift:21-27 | The raw values name the methods one-to-one, and parsing is exact and case-sensitive |
| `NetworkErrors.Erased` | Sources/ShakespeareanPokemon/Network/NetworkError.swift:25 | Forgetting the payload keeps the case, and changes nothing outside unknownError |
| `NetworkErrors.EqualIsErasedEquality` | Sources/ShakespeareanPokemon/Network/NetworkError.swift:29-43 | `==` holds iff the two errors are structurally equal once unknownError payloads are forgotten |
| `NetworkErrors.EqualCases` | Sources/ShakespeareanPokemon/Network/NetworkError.swift:31-41 | missingURL and noData equal themselves. responseIssue values are equal iff their classes are. Any two unknownErrors are equal. Values of different cases never are |
| `NetworkErrors.EqualIsEquivalence` | Sources/ShakespeareanPokemon/Network/NetworkError.swift:28-43 | The relation is reflexive, symmetric and transitive, as Equatable requires |
| `ServiceDescriptors.AppendingPathComponent` | Sources/ShakespeareanPokemon/Network/Services/PokeAPIService.swift:22 | The component is joined to the base by exactly one `/`: one from the base or the component is reused, one is added when neither has it, and one is dropped when both have it |
| `PokeApiService.PokemonEndpoint` | Sources/ShakespeareanPokemon/Network/Services/PokeAPIService.swift:16-27 | pokemon(name) resolves to `https://pokeapi.co/api/v2/pokemon/<name>`, the path's leading `/` serving as the separator |
| `PokeApiService.SpeciesEndpoint` | Sources/ShakespeareanPokemon/Network/Services/PokeAPIService.swift:16-28 | pokemonSpecies(name) resolves to `https://pokeapi.co/api/v2/pokemon-species/<name>`, the join adding the `/` the path lacks |
| `PokeApiService.PokeApiDescriptors` | Sources/ShakespeareanPokemon/Network/Services/PokeAPIService.swift:16-44 | pokemon(name) is at `https://pokeapi.co/api/v2/pokemon/<name>` with path `/pokemon/<name>`. pokemonSpecies(name) is at `.../pokemon-species/<name>` with path `pokemon-species/<name>`. Both use GET and carry nil parameters |
| `PokeApiService.EndpointIdentifiesService` | Sources/ShakespeareanPokemon/Network/Services/PokeAPIService.swift:9-28 | Two services have the same endpoint iff they are the same case with the same name |
| `FunTranslationService.ShakespeareEndpoint` | Sources/ShakespeareanPokemon/Network/Services/FunTranslationService.swift:16-28 | The base URL joined with `/shakespeare.json` is exactly `https://api.funtranslations.com/translate/shakespeare.json` |
| `FunTranslationService.ShakespeareDescriptor` | Sources/ShakespeareanPokemon/Network/Services/FunTranslationService.swift:16-46 | Every text goes to `https://api.funtranslations.com/translate/shakespeare.json` with path `/shakespeare.json` and GET. The parameters are exactly the one entry `text` holding the text |
| `Json.Container` | Sources/ShakespeareanPokemon/Network/Models/ShakespeareTranslation.swift:22 | A value is a keyed container iff it is an object. Null reports valueNotFound |
| `Json.Required` | Sources/ShakespeareanPokemon/Network/Models/PokemonSpecie.swift:55 | A required key reads its value iff it is present and not null. Absent reports keyNotFound and null reports valueNotFound |
| `Json.DecodeString` | Sources/ShakespeareanPokemon/Network/Models/ShakespeareTranslation.swift:24 | Succeeds iff the key holds a string, and then gives that string |
| `Json.DecodeInt` | Sources/ShakespeareanPokemon/Network/Models/PokemonSpecie.swift:35 | Succeeds iff the key holds a number, and then gives that number |
| `Json.NestedContainer` | Sources/ShakespeareanPokemon/Network/Models/ShakespeareTranslation.swift:23 | Succeeds iff the key holds an object, and then gives its fields |
| `Json.DecodeArray` | Sources/ShakespeareanPokemon/Network/Models/PokemonSpecie.swift:37 | Succeeds iff the key holds an array, and then gives its elements |
| `Pokemon.DecodePokemonExactly` | Sources/ShakespeareanPokemon/Network/Models/Pokemon.swift:8-20 | A record decodes iff it has an integer id, a string name and a sprites object with a string `front_default`, and it then decodes to exactly those values. Other keys are ignored |
| `Pokemon.DecodePokemonJson` | Sources/ShakespeareanPokemon/Network/Models/Pokemon.swift:8-20 | Decoding the document written from a record gives the record back |
| `Pokemon.NullSpriteIsAnError` | Sources/ShakespeareanPokemon/Network/Models/Pokemon.swift:14-18 | A null `front_default` is a decoding error (valueNotFound), not an empty sprite |
| `PokemonSpecie.FromRawValue` | Sources/ShakespeareanPokemon/Network/Models/PokemonSpecie.swift:23-28 | A code is found iff the string is exactly one of the raw values, and the code found has that raw value |
| `PokemonSpecie.LanguageCodeRoundTrip` | Sources/ShakespeareanPokemon/Network/Models/PokemonSpecie.swift:23-28 | Every code is read back from its raw value as itself |
| `PokemonSpecie.CodeForExactly` | Sources/ShakespeareanPokemon/Network/Models/PokemonSpecie.swift:53-57 | A language name is english iff it is exactly "en", italian iff exactly "it", and unknown otherwise, never an error |
| `PokemonSpecie.OtherCodesAreUnknown` | Sources/ShakespeareanPokemon/Network/Models/PokemonSpecie.swift:56 | "ja-Hrkt", "fr", "EN", "It" and "" are all read as unknown |
| `PokemonSpecie.DecodeLanguageExactly` | Sources/ShakespeareanPokemon/Network/Models/PokemonSpecie.swift:48-58 | A language object decodes iff it has a string `name`, to the code that name maps to |
| `PokemonSpecie.DecodeEntries` | Sources/ShakespeareanPokemon/Network/Models/PokemonSpecie.swift:13 | An entry array decodes iff every element does. The entries are then the elements' decodings, in order and of the same number |
| `PokemonSpecie.DecodeSpecieJson` | Sources/ShakespeareanPokemon/Network/Models/PokemonSpecie.swift:33-46 | Decoding the document written from a species record gives the record back, entries in order |
| `PokemonSpecie.DecodeSpecieIgnoresOtherField` | Sources/ShakespeareanPokemon/Network/Models/PokemonSpecie.swift:33-46 | A field other than `id`, `name` and `flavor_text_entries` added to a record's document does not change what it decodes to |
| `ShakespeareTranslation.DecodeTranslationExactly` | Sources/ShakespeareanPokemon/Network/Models/ShakespeareTranslation.swift:21-26 | The envelope decodes iff it has a `contents` object with a string `translated`, to that string unescaped. A missing `contents` or `translated` reports keyNotFound for that key |
| `ShakespeareTranslation.UnescapedRule` | Sources/ShakespeareanPokemon/Network/Models/ShakespeareTranslation.swift:25 | The decoded text is used when percent-decoding succeeds. Otherwise the raw text is kept, so this step never fails |
| `ShakespeareTranslation.UnescapedWithoutPercent` | Sources/ShakespeareanPokemon/Network/Models/ShakespeareTranslation.swift:25 | A text with no `%` is returned unchanged |
| `ShakespeareTranslation.UnescapedEncoded` | Sources/ShakespeareanPokemon/Network/Models/ShakespeareTranslation.swift:25 | A percent-encoded text comes out as it was before encoding |
| `ShakespeareTranslation.UnescapedMalformed` | Sources/ShakespeareanPokemon/Network/Models/ShakespeareTranslation.swift:25 | A text with a malformed `%` triplet is kept raw, `%` included |
| `ShakespeareTranslation.OtherFieldsIgnored` | Sources/ShakespeareanPokemon/Network/Models/ShakespeareTranslation.swift:13-19 | Any other fields of the envelope or of `contents` do not change the result |
| `ShakespeareTranslation.FixtureEnvelope` | Tests/ShakespeareanPokemonTests/Services/PokemonProfileViewModelIntegrationTests.swift:127-138 | The fixture envelope, with `success`, `text` and `translation`, decodes to its `translated` text unescaped |
| `Oracles.NetworkLayer.Request` | Tests/ShakespeareanPokemonTests/Network/Mocks/MockNetworkObjects.swift:60-68 | The service is appended to the request trace and the stubbed answer for it is returned |
| `Oracles.NetworkLayer.FetchData` | Tests/ShakespeareanPokemonTests/Network/Mocks/MockNetworkObjects.swift:74-81 | The URL is appended to the fetch trace and the stubbed answer for it is returned |
| `Oracles.Parsed` | Sources/ShakespeareanPokemon/Network/Parser/CodableParser.swift:27-29 | Bytes that are no JSON document give dataCorrupted. A document is handed to the model's decoder |
| `Oracles.Parser.Parse` | Tests/ShakespeareanPokemonTests/Network/Mocks/MockCodableParser.swift:25-32 | The parse count goes up by one and the result is the model decoded from the bytes' document |
| `PokemonImageProvider.Downloaded` | Sources/ShakespeareanPokemon/Services/PokemonImageProvider.swift:66-68 | The downloaded bytes are returned verbatim. Any download error becomes networkFailure |
| `PokemonImageProvider.ImageProvider.Image` | Sources/ShakespeareanPokemon/Services/PokemonImageProvider.swift:59-74 | Exactly one record request is made. A network error there gives networkFailure, with no parse and no download. A parse error gives parsingFailure and no download. A sprite that is no URL gives missingImage and no download. Otherwise exactly that URL is downloaded, and its bytes or networkFailure are the result |
| `PokemonImageProvider.ImageScenario` | Tests/ShakespeareanPokemonTests/Services/PokemonImageProviderTests.swift:33-138 | The tested cases: a request error means 0 parses and no download. A parse error means 1 parse and no download. An empty sprite string gives missingImage without a download. A URL sprite is downloaded once, and a download error gives networkFailure |
| `ShakespeareanPokemonDescriptor.ToModel` | Sources/ShakespeareanPokemon/Services/ShakespeareanPokemonDescriptor.swift:91-95 | english maps to the english language code |
| `ShakespeareanPokemonDescriptor.FirstIn` | Sources/ShakespeareanPokemon/Services/ShakespeareanPokemonDescriptor.swift:71 | Gives none iff no entry is in the language. Otherwise gives an index whose entry is in the language, with no earlier entry in it |
| `ShakespeareanPokemonDescriptor.Description` | Sources/ShakespeareanPokemon/Services/ShakespeareanPokemonDescriptor.swift:71-74 | The selected text is that of the first entry in the language, and there is none iff no entry matches |
| `ShakespeareanPokemonDescriptor.FirstDescriptionWins` | Sources/ShakespeareanPokemon/Services/ShakespeareanPokemonDescriptor.swift:71 | Entries in other languages before the first matching one are skipped, and entries after it are never looked at |
| `ShakespeareanPokemonDescriptor.FixtureDescriptions` | Tests/ShakespeareanPokemonTests/Services/ShakespeareanPokemonDescriptorTests.swift:33-111 | An English entry is selected. A record with only an Italian entry has no English description |
| `ShakespeareanPokemonDescriptor.Descriptor.ShakespeareanDescription` | Sources/ShakespeareanPokemon/Services/ShakespeareanPokemonDescriptor.swift:67-85 | A species request error gives networkFailure after 1 request and 0 parses. A species parse error gives parsingFailure after 1 and 1. No description in the language gives missingTranslation after 1 and 1, with no translation request. Otherwise exactly the translation of the selected text is requested second. Its network error gives networkFailure, its parse error parsingFailure after 2 parses, and success gives the decoded translated text after 2 requests and 2 parses. fetchData is never used |
| `ShakespeareanPokemonDescriptor.ScenarioSpecies` | Tests/ShakespeareanPokemonTests/Network/Mocks/MockCodableParser.swift:20-31 | The stand-in reader answers the species request with the stubbed record exactly when one is stubbed, and fails otherwise, even when the translation body is the same bytes |
| `ShakespeareanPokemonDescriptor.ScenarioTranslation` | Tests/ShakespeareanPokemonTests/Network/Mocks/MockCodableParser.swift:20-31 | Once the record is read, the stand-in reader answers the translation request with the stubbed translation exactly when one is stubbed, whatever its bytes |
| `ShakespeareanPokemonDescriptor.DescriptionScenario` | Tests/ShakespeareanPokemonTests/Services/ShakespeareanPokemonDescriptorTests.swift:33-159 | The tested cases, for any name and for any two bodies, equal ones included, with the request and parse counts each asserts: 1/0 for a network error, 1/1 for a species parse error or a missing English entry, 2/2 for a translation parse error or a success, which returns the unescaped text; the two requests are the species of the name and the translation of its first English text |

## Left out

- The `URLSession` conformance and its logging (`NetworkLayerWorker.swift:54-64`) are real I/O. The session is a stand-in object with stubbed answers and call logs.
- `async`, `Sendable`, scheduling and cancellation are not modelled. Every call runs to completion in order. The view models that run both pipelines side by side are not part of this model.
- `JSONDecoder` is not modelled. Its reading of bytes as JSON is a function the parser is given. Only what the models' `init(from:)` read from the resulting value is modelled.
- JSON numbers are integers only. Floating point, and the decoder's key strategies, are not modelled.
- `URL(string:)`, behind `String.asURL`, is a function the image provider is given. The only facts assumed of it are that `""` is no URL and that a full https address is one.
- Foundation's `URLComponents` is not modelled, so `URLComponents(url:resolvingAgainstBaseURL:)` and `components.url` are taken to succeed for the URLs built here. A URL is its address (everything before the query) plus its list of query items.
- The exact character set of `.urlQueryAllowed` belongs to Foundation. The model uses the query set of section 3.4 of RFC 3986. Foundation's re-escaping of `%` when query items are assigned is not modelled.
- `appendingPathComponent` is modelled only for joining by a single `/`. Its percent-encoding of path characters is not modelled.
- The order of the query items follows Swift's unspecified dictionary order. The model lets the encoder visit keys in any order, and the encoder's contract fixes only which items appear.
- `timeoutInterval` (a `Double`) and the cache policy are recorded as values. The model gives them no behaviour.
- The payload of `unknownError` is an opaque `Error`. The model represents it as an optional foreign-error value that equality ignores.
- Oracles.NetworkLayer: the pipelines' network layer only ever fails with a `NetworkError`, as its test double does and as `NetworkLayerWorker` does (it wraps anything else as `unknownError`). A non-`NetworkError` thrown by some other conformer would reach the pipelines' last `catch` and become `parsingFailure`. That path is not modelled.
- Oracles.Parser: the parser only fails with a decoding error. A parser that threw a `NetworkError` would make the pipelines report `networkFailure`, and that is not modelled.
- NetworkLayerWorker.Encoder: without a stubbed error, the worker's encoder is the standard `URLParameterEncoder`. The test double that only records the call and leaves the request untouched is not modelled separately.
- `Parameters` values (`Any?` in Sources/ShakespeareanPokemon/Network/Services/Service.swift:10) are limited to text, integers and booleans; every service in the package passes a string or an integer, and other types' interpolations are not modelled.
- The `Hashable`/`Identifiable` conformances and the `Equatable` conformances of the models and services are covered only by Dafny's structural equality.
