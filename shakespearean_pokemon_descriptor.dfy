/** `ShakespeareanPokemonDescriptor`: a creature's description, translated, in two requests. */
module ShakespeareanPokemonDescriptor {
  import opened Wrappers
  import opened Utf8
  import opened NetworkErrors
  import opened Requests
  import opened Json
  import opened PokemonSpecie
  import opened ShakespeareTranslation
  import opened Endpoints
  import opened Oracles
  import PokeApiService
  import FunTranslationService

  /** `SPDError`. */
  datatype SpdError = MissingTranslation | NetworkFailure | ParsingFailure

  /** `SupportedLanguage`. */
  datatype SupportedLanguage = English

  /** `SupportedLanguage.toModel`. */
  function ToModel(language: SupportedLanguage): (code: LanguageCode)
    ensures language == SupportedLanguage.English ==> code == LanguageCode.English
  {
    match language
    case English => LanguageCode.English
  }

  /**
   * `first(where:)` on the entries' language codes: the index of the first entry written in
   * `code`, or none when no entry is.
   */
  function FirstIn(entries: seq<FlavorTextEntry>, code: LanguageCode): (r: Option<nat>)
    ensures r.None? <==> forall i :: 0 <= i < |entries| ==> entries[i].language.code != code
    ensures r.Some? ==> r.value < |entries| && entries[r.value].language.code == code
    ensures r.Some? ==> forall i :: 0 <= i < r.value ==> entries[i].language.code != code
    decreases |entries|
  {
    if entries == [] then None
    else if entries[0].language.code == code then Some(0)
    else
      match FirstIn(entries[1..], code)
      case None => None
      case Some(k) => Some(k + 1)
  }

  /** The text the translation is requested for: that of the first entry in the language. */
  function Description(entries: seq<FlavorTextEntry>, code: LanguageCode): (r: Option<string>)
    ensures r.None? <==> FirstIn(entries, code).None?
    ensures r.Some? ==> r.value == entries[FirstIn(entries, code).value].flavorText
  {
    match FirstIn(entries, code)
    case None => None
    case Some(i) => Some(entries[i].flavorText)
  }

  function SpeciesService(pokemon: string): Service {
    PokeApi(PokeApiService.PokemonSpecies(pokemon))
  }

  function TranslationService(text: string): Service {
    FunTranslation(FunTranslationService.Shakespeare(text))
  }

  class Descriptor {
    const network: NetworkLayer
    const parser: Parser

    constructor (network: NetworkLayer, parser: Parser)
      ensures this.network == network && this.parser == parser
    {
      this.network := network;
      this.parser := parser;
    }

    /**
     * `shakespeareanDescription(for:language:)`: request and parse the species record, pick
     * the first description in the language, request and parse its translation. Each step
     * runs only when the previous one succeeded; a network error is `networkFailure`, a parse
     * error `parsingFailure`, no description in the language `missingTranslation`; otherwise
     * the translated text is returned as the model decoded it.
     */
    method ShakespeareanDescription(pokemon: string, language: SupportedLanguage) returns (r: Result<string, SpdError>)
      modifies network, parser
      ensures network.fetches == old(network.fetches)
      ensures var species := network.respond(SpeciesService(pokemon));
              && (species.Failure? ==>
                    && r == Failure(NetworkFailure)
                    && network.requests == old(network.requests) + [SpeciesService(pokemon)]
                    && parser.parseCount == old(parser.parseCount))
              && (species.Success? ==>
                    var record := Parsed(parser.syntax(species.value), DecodeSpecie);
                    && (record.Failure? ==>
                          && r == Failure(ParsingFailure)
                          && network.requests == old(network.requests) + [SpeciesService(pokemon)]
                          && parser.parseCount == old(parser.parseCount) + 1)
                    && (record.Success? && Description(record.value.flavorTextEntries, ToModel(language)).None? ==>
                          && r == Failure(MissingTranslation)
                          && network.requests == old(network.requests) + [SpeciesService(pokemon)]
                          && parser.parseCount == old(parser.parseCount) + 1)
                    && (record.Success? && Description(record.value.flavorTextEntries, ToModel(language)).Some? ==>
                          var text := Description(record.value.flavorTextEntries, ToModel(language)).value;
                          var translation := network.respond(TranslationService(text));
                          && network.requests == old(network.requests) + [SpeciesService(pokemon), TranslationService(text)]
                          && (translation.Failure? ==>
                                r == Failure(NetworkFailure) && parser.parseCount == old(parser.parseCount) + 1)
                          && (translation.Success? ==>
                                && parser.parseCount == old(parser.parseCount) + 2
                                && var translated := Parsed(parser.syntax(translation.value), DecodeTranslation);
                                   && (translated.Failure? ==> r == Failure(ParsingFailure))
                                   && (translated.Success? ==> r == Success(translated.value.translated)))))
    {
      var species := network.Request(SpeciesService(pokemon));
      if species.Failure? {
        return Failure(NetworkFailure);
      }
      var record := parser.Parse(species.value, DecodeSpecie);
      if record.Failure? {
        return Failure(ParsingFailure);
      }
      var description := Description(record.value.flavorTextEntries, ToModel(language));
      if description.None? {
        return Failure(MissingTranslation);
      }
      var translation := network.Request(TranslationService(description.value));
      if translation.Failure? {
        return Failure(NetworkFailure);
      }
      var translated := parser.Parse(translation.value, DecodeTranslation);
      if translated.Failure? {
        return Failure(ParsingFailure);
      }
      r := Success(translated.value.translated);
    }
  }

  /** The descriptions of the fixtures: an English entry is chosen, an Italian one alone is not enough. */
  lemma FixtureDescriptions()
    ensures Description([FlavorTextEntry("I am electric!", Language(LanguageCode.English))], LanguageCode.English)
              == Some("I am electric!")
    ensures Description([FlavorTextEntry("Sono elettrico!", Language(LanguageCode.Italian))], LanguageCode.English)
              == None
  {
  }

  /** Entries in other languages before the first English one are skipped, and later ones are not looked at. */
  lemma {:induction false} FirstDescriptionWins(before: seq<FlavorTextEntry>, text: string, after: seq<FlavorTextEntry>, code: LanguageCode)
    requires forall i :: 0 <= i < |before| ==> before[i].language.code != code
    ensures Description(before + [FlavorTextEntry(text, Language(code))] + after, code) == Some(text)
  {
    var all := before + [FlavorTextEntry(text, Language(code))] + after;
    var k := FirstIn(all, code);
    assert all[|before|].language.code == code;
    assert k.Some?;
    assert forall i :: 0 <= i < |before| ==> all[i] == before[i];
    assert k.value == |before|;
  }

  /**
   * The stand-in reader of the scenario below. Like the mock reader, which answers by the
   * type it is asked for, it reads the species body as the document of `specie` (or nothing
   * when `speciesParses` is false) and any other body as the envelope of `translated` (or
   * nothing when `translationParses` is false). When both bodies are the same bytes, as with
   * the empty bodies the tests stub, the one document carries both the record's fields and
   * the envelope's `contents`.
   */
  function ScenarioDocument(species: Result<seq<byte>, NetworkError>, speciesParses: bool, specie: PokemonSpecieResponse,
                            translationParses: bool, translated: string, data: seq<byte>): Option<Json>
  {
    var contents := JObject(map["translated" := JString(translated)]);
    if species.Success? && data == species.value then
      (if !speciesParses then None
       else if translationParses then Some(JObject(SpecieJson(specie).fields["contents" := contents]))
       else Some(SpecieJson(specie)))
    else if translationParses then Some(JObject(map["contents" := contents])) else None
  }

  /** The species body reads as the record exactly when it is meant to parse. */
  lemma ScenarioSpecies(species: Result<seq<byte>, NetworkError>, speciesParses: bool, specie: PokemonSpecieResponse,
                        translationParses: bool, translated: string)
    requires species.Success?
    ensures var parsed := Parsed(ScenarioDocument(species, speciesParses, specie, translationParses, translated, species.value), DecodeSpecie);
            (parsed.Success? <==> speciesParses) && (speciesParses ==> parsed.value == specie)
  {
    var contents := JObject(map["translated" := JString(translated)]);
    DecodeSpecieJson(specie);
    DecodeSpecieIgnoresOtherField(specie, "contents", contents);
  }

  /** Once the species body has parsed, the translation body reads as the envelope exactly when it is meant to parse. */
  lemma ScenarioTranslation(species: Result<seq<byte>, NetworkError>, speciesParses: bool, specie: PokemonSpecieResponse,
                            translationParses: bool, translated: string, data: seq<byte>)
    requires species.Success? ==> speciesParses
    ensures var parsed := Parsed(ScenarioDocument(species, speciesParses, specie, translationParses, translated, data), DecodeTranslation);
            (parsed.Success? <==> translationParses) && (translationParses ==> parsed.value.translated == Unescaped(translated))
  {
    var contents := JObject(map["translated" := JString(translated)]);
    OtherFieldsIgnored(map[], map[], translated);
    OtherFieldsIgnored(SpecieJson(specie).fields, map[], translated);
    assert map[]["contents" := contents] == map["contents" := contents];
    assert map[]["translated" := JString(translated)] == map["translated" := JString(translated)];
  }

  /**
   * The descriptor against the stand-ins: the species request answers `species`, the
   * translation request `translation`, and `ScenarioDocument` reads the bodies, whatever
   * they are, equal ones included.
   */
  method DescriptionScenario(pokemon: string, species: Result<seq<byte>, NetworkError>, speciesParses: bool,
                             entries: seq<FlavorTextEntry>, translation: Result<seq<byte>, NetworkError>,
                             translationParses: bool, translated: string)
    returns (r: Result<string, SpdError>, requests: seq<Service>, parses: nat)
    ensures species.Failure? ==> r == Failure(NetworkFailure) && |requests| == 1 && parses == 0
    ensures species.Success? && !speciesParses ==> r == Failure(ParsingFailure) && |requests| == 1 && parses == 1
    ensures species.Success? && speciesParses && Description(entries, LanguageCode.English).None? ==>
              r == Failure(MissingTranslation) && |requests| == 1 && parses == 1
    ensures species.Success? && speciesParses && Description(entries, LanguageCode.English).Some? ==>
              && requests == [SpeciesService(pokemon), TranslationService(Description(entries, LanguageCode.English).value)]
              && (translation.Failure? ==> r == Failure(NetworkFailure) && parses == 1)
              && (translation.Success? && !translationParses ==> r == Failure(ParsingFailure) && parses == 2)
              && (translation.Success? && translationParses ==> r == Success(Unescaped(translated)) && parses == 2)
  {
    var specie := PokemonSpecieResponse(1, pokemon, entries);
    var network := new NetworkLayer((s: Service) => if s.PokeApi? then species else translation, _ => Failure(NoData));
    var parser := new Parser(data => ScenarioDocument(species, speciesParses, specie, translationParses, translated, data));
    var descriptor := new Descriptor(network, parser);
    if species.Success? {
      ScenarioSpecies(species, speciesParses, specie, translationParses, translated);
      if speciesParses && translation.Success? {
        ScenarioTranslation(species, speciesParses, specie, translationParses, translated, translation.value);
      }
    }
    r := descriptor.ShakespeareanDescription(pokemon, SupportedLanguage.English);
    requests, parses := network.requests, parser.parseCount;
  }
}
