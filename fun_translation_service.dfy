/** `FunTranslationService`: the translation endpoint. */
module FunTranslationService {
  import opened Wrappers
  import opened Http
  import opened Requests
  import opened ServiceDescriptors

  datatype FunTranslationService = Shakespeare(text: string)

  const ServiceBaseUrl: string := "https://api.funtranslations.com/translate"

  function Path(service: FunTranslationService): string {
    match service
    case Shakespeare(_) => "/shakespeare.json"
  }

  function Method(service: FunTranslationService): HttpMethod {
    match service
    case Shakespeare(_) => Get
  }

  /** The text to translate travels as the one query parameter `text`. */
  function Parameters(service: FunTranslationService): Option<Requests.Parameters> {
    match service
    case Shakespeare(text) => Some(map["text" := Some(Text(text))])
  }

  function Endpoint(service: FunTranslationService): Url {
    Url(AppendingPathComponent(ServiceBaseUrl, Path(service)), [])
  }

  function Descriptor(service: FunTranslationService): ServiceDescriptor {
    ServiceDescriptor(Endpoint(service), Path(service), Method(service), Parameters(service))
  }

  /** The endpoint: the path's own '/' joins it to the base. */
  lemma ShakespeareEndpoint()
    ensures AppendingPathComponent(ServiceBaseUrl, "/shakespeare.json")
            == "https://api.funtranslations.com/translate/shakespeare.json"
  {
    var base, path := ServiceBaseUrl, "/shakespeare.json";
    assert base[|base| - 1] == 'e' && path[0] == '/';
    assert AppendingPathComponent(base, path) == base + path;
  }

  /**
   * Every text is sent to the same URL with GET; the parameters are exactly the one entry
   * `text`, holding the text itself.
   */
  lemma ShakespeareDescriptor(text: string)
    ensures Endpoint(Shakespeare(text)) == Url("https://api.funtranslations.com/translate/shakespeare.json", [])
    ensures Path(Shakespeare(text)) == "/shakespeare.json"
    ensures Method(Shakespeare(text)) == Get
    ensures Parameters(Shakespeare(text)).Some?
    ensures Parameters(Shakespeare(text)).value.Keys == {"text"}
    ensures Parameters(Shakespeare(text)).value["text"] == Some(Text(text))
  {
    ShakespeareEndpoint();
  }
}
