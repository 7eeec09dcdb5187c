/**
 * `PokemonSpecieResponse`: a species record with its flavour-text entries, each tagged with
 * the language it is written in.
 */
module PokemonSpecie {
  import opened Wrappers
  import opened Json

  /** `LanguageCode`; the last case takes Swift's implicit raw value, its own name. */
  datatype LanguageCode = English | Italian | Unknown

  function RawValue(code: LanguageCode): string {
    match code
    case English => "en"
    case Italian => "it"
    case Unknown => "unknown"
  }

  /** `LanguageCode(rawValue:)`: an exact, case-sensitive match on the raw values. */
  function FromRawValue(raw: string): (r: Option<LanguageCode>)
    ensures r.Some? <==> raw == "en" || raw == "it" || raw == "unknown"
    ensures r.Some? ==> RawValue(r.value) == raw
  {
    if raw == "en" then Some(English)
    else if raw == "it" then Some(Italian)
    else if raw == "unknown" then Some(Unknown)
    else None
  }

  datatype Language = Language(code: LanguageCode)

  datatype FlavorTextEntry = FlavorTextEntry(flavorText: string, language: Language)

  datatype PokemonSpecieResponse = PokemonSpecieResponse(id: int, name: string, flavorTextEntries: seq<FlavorTextEntry>)

  /** The code a raw language name is read as: an unrecognised name is `unknown`, never an error. */
  function CodeFor(raw: string): LanguageCode {
    FromRawValue(raw).GetOr(Unknown)
  }

  /** `Language.init(from:)`: the string under `name`, mapped by `CodeFor`. */
  function DecodeLanguage(value: Json): Result<Language, DecodingError> {
    match Container(value, "language")
    case Failure(e) => Failure(e)
    case Success(fields) =>
      match DecodeString(fields, "name")
      case Failure(e) => Failure(e)
      case Success(raw) => Success(Language(CodeFor(raw)))
  }

  /** `FlavortextEntry.init(from:)`: `flavor_text` and the nested `language`. */
  function DecodeEntry(value: Json): Result<FlavorTextEntry, DecodingError> {
    match Container(value, "flavor_text_entries")
    case Failure(e) => Failure(e)
    case Success(fields) =>
      match DecodeString(fields, "flavor_text")
      case Failure(e) => Failure(e)
      case Success(text) =>
        match Required(fields, "language")
        case Failure(e) => Failure(e)
        case Success(language) =>
          match DecodeLanguage(language)
          case Failure(e) => Failure(e)
          case Success(l) => Success(FlavorTextEntry(text, l))
  }

  /** An array of entries decodes element by element, in order; the first failing element fails it. */
  function DecodeEntries(elements: seq<Json>): (r: Result<seq<FlavorTextEntry>, DecodingError>)
    ensures r.Success? <==> forall i :: 0 <= i < |elements| ==> DecodeEntry(elements[i]).Success?
    ensures r.Success? ==> |r.value| == |elements|
    ensures r.Success? ==> forall i :: 0 <= i < |elements| ==> r.value[i] == DecodeEntry(elements[i]).value
    decreases |elements|
  {
    if elements == [] then Success([])
    else
      match DecodeEntry(elements[0])
      case Failure(e) => Failure(e)
      case Success(first) =>
        match DecodeEntries(elements[1..])
        case Failure(e) =>
          assert exists i :: 0 <= i < |elements| - 1 && DecodeEntry(elements[1..][i]).Failure?;
          Failure(e)
        case Success(rest) =>
          assert forall i :: 1 <= i < |elements| ==> elements[i] == elements[1..][i - 1];
          Success([first] + rest)
  }

  /** The synthesised `init(from:)` of the species record. */
  function DecodeSpecie(value: Json): Result<PokemonSpecieResponse, DecodingError> {
    match Container(value, "")
    case Failure(e) => Failure(e)
    case Success(fields) =>
      match DecodeInt(fields, "id")
      case Failure(e) => Failure(e)
      case Success(id) =>
        match DecodeString(fields, "name")
        case Failure(e) => Failure(e)
        case Success(name) =>
          match DecodeArray(fields, "flavor_text_entries")
          case Failure(e) => Failure(e)
          case Success(elements) =>
            match DecodeEntries(elements)
            case Failure(e) => Failure(e)
            case Success(entries) => Success(PokemonSpecieResponse(id, name, entries))
  }

  /** Every code is written with its raw value and read back as itself. */
  lemma LanguageCodeRoundTrip(code: LanguageCode)
    ensures FromRawValue(RawValue(code)) == Some(code)
    ensures CodeFor(RawValue(code)) == code
  {
  }

  /**
   * Only the exact strings "en" and "it" name English and Italian; every other string,
   * whatever its case, is read as `unknown` rather than rejected.
   */
  lemma CodeForExactly(raw: string)
    ensures CodeFor(raw) == English <==> raw == "en"
    ensures CodeFor(raw) == Italian <==> raw == "it"
    ensures CodeFor(raw) == Unknown <==> raw != "en" && raw != "it"
  {
  }

  /** The codes the fixtures use that are not supported. */
  lemma OtherCodesAreUnknown()
    ensures CodeFor("ja-Hrkt") == Unknown && CodeFor("fr") == Unknown
    ensures CodeFor("EN") == Unknown && CodeFor("It") == Unknown && CodeFor("") == Unknown
  {
    CodeForExactly("ja-Hrkt");
    CodeForExactly("fr");
    CodeForExactly("EN");
    CodeForExactly("It");
    CodeForExactly("");
  }

  /** A language object decodes exactly when it has a string `name`; the name never makes it fail. */
  lemma DecodeLanguageExactly(value: Json)
    ensures DecodeLanguage(value).Success? <==>
              value.JObject? && "name" in value.fields && value.fields["name"].JString?
    ensures DecodeLanguage(value).Success? ==>
              DecodeLanguage(value).value == Language(CodeFor(value.fields["name"].text))
  {
  }

  function EntryJson(e: FlavorTextEntry): Json {
    JObject(map[
      "flavor_text" := JString(e.flavorText),
      "language" := JObject(map["name" := JString(RawValue(e.language.code)), "url" := JNull])])
  }

  function EntriesJson(entries: seq<FlavorTextEntry>): (r: seq<Json>)
    ensures |r| == |entries|
    ensures forall i :: 0 <= i < |entries| ==> r[i] == EntryJson(entries[i])
  {
    if entries == [] then [] else [EntryJson(entries[0])] + EntriesJson(entries[1..])
  }

  function SpecieJson(s: PokemonSpecieResponse): Json {
    JObject(map[
      "id" := JNumber(s.id),
      "name" := JString(s.name),
      "flavor_text_entries" := JArray(EntriesJson(s.flavorTextEntries))])
  }

  /** Writing a species record as a document and decoding it gives the record back, entries in order. */
  lemma DecodeSpecieJson(s: PokemonSpecieResponse)
    ensures DecodeSpecie(SpecieJson(s)) == Success(s)
  {
    var elements := EntriesJson(s.flavorTextEntries);
    forall i | 0 <= i < |elements|
      ensures DecodeEntry(elements[i]) == Success(s.flavorTextEntries[i])
    {
      var e := s.flavorTextEntries[i];
      LanguageCodeRoundTrip(e.language.code);
    }
    var r := DecodeEntries(elements);
    assert r.value == s.flavorTextEntries;
  }

  /** A field other than the three the record reads does not change what the document decodes to. */
  lemma DecodeSpecieIgnoresOtherField(s: PokemonSpecieResponse, key: string, extra: Json)
    requires key != "id" && key != "name" && key != "flavor_text_entries"
    ensures DecodeSpecie(JObject(SpecieJson(s).fields[key := extra])) == Success(s)
  {
    DecodeSpecieJson(s);
    var fields := SpecieJson(s).fields;
    var wider := fields[key := extra];
    assert wider["id"] == fields["id"] && wider["name"] == fields["name"];
    assert wider["flavor_text_entries"] == fields["flavor_text_entries"];
  }
}
