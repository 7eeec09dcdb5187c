/** `PokeAPIService`: the two endpoints of the creature database. */
module PokeApiService {
  import opened Wrappers
  import opened Http
  import opened Requests
  import opened ServiceDescriptors

  datatype PokeApiService = Pokemon(name: string) | PokemonSpecies(name: string)

  const ServiceBaseUrl: string := "https://pokeapi.co/api/v2"

  /** The species path is written without a leading '/'; the endpoint join makes up for it. */
  function Path(service: PokeApiService): string {
    match service
    case Pokemon(name) => "/pokemon/" + name
    case PokemonSpecies(name) => "pokemon-species/" + name
  }

  function Method(service: PokeApiService): HttpMethod {
    match service
    case Pokemon(_) => Get
    case PokemonSpecies(_) => Get
  }

  function Parameters(service: PokeApiService): Option<Requests.Parameters> {
    match service
    case Pokemon(_) => None
    case PokemonSpecies(_) => None
  }

  function Endpoint(service: PokeApiService): Url {
    Url(AppendingPathComponent(ServiceBaseUrl, Path(service)), [])
  }

  function Descriptor(service: PokeApiService): ServiceDescriptor {
    ServiceDescriptor(Endpoint(service), Path(service), Method(service), Parameters(service))
  }

  /** The creature endpoint: the path's own '/' joins it to the base. */
  lemma PokemonEndpoint(name: string)
    ensures Endpoint(Pokemon(name)).address == "https://pokeapi.co/api/v2/pokemon/" + name
  {
    var base, path := ServiceBaseUrl, Path(Pokemon(name));
    assert base[|base| - 1] == '2' && path[0] == '/';
    assert AppendingPathComponent(base, path) == base + path;
    assert base + path == (base + "/pokemon/") + name;
  }

  /** The species endpoint: the join supplies the '/' the path lacks. */
  lemma SpeciesEndpoint(name: string)
    ensures Endpoint(PokemonSpecies(name)).address == "https://pokeapi.co/api/v2/pokemon-species/" + name
  {
    var base, path := ServiceBaseUrl, Path(PokemonSpecies(name));
    assert base[|base| - 1] == '2' && path[0] == 'p';
    assert AppendingPathComponent(base, path) == base + "/" + path;
    assert base + "/" + path == (base + "/pokemon-species/") + name;
  }

  /** Both endpoints lie under the base URL, joined by a single '/', use GET and carry no parameters. */
  lemma PokeApiDescriptors(name: string)
    ensures Endpoint(Pokemon(name)) == Url("https://pokeapi.co/api/v2/pokemon/" + name, [])
    ensures Endpoint(PokemonSpecies(name)) == Url("https://pokeapi.co/api/v2/pokemon-species/" + name, [])
    ensures Path(Pokemon(name)) == "/pokemon/" + name
    ensures Path(PokemonSpecies(name)) == "pokemon-species/" + name
    ensures Method(Pokemon(name)) == Get && Method(PokemonSpecies(name)) == Get
    ensures Parameters(Pokemon(name)) == None && Parameters(PokemonSpecies(name)) == None
  {
    PokemonEndpoint(name);
    SpeciesEndpoint(name);
  }

  /** Distinct services are requested at distinct URLs, so the endpoint identifies the service. */
  lemma EndpointIdentifiesService(a: PokeApiService, b: PokeApiService)
    ensures Endpoint(a) == Endpoint(b) <==> a == b
  {
    PokeApiDescriptors(a.name);
    PokeApiDescriptors(b.name);
    var base := "https://pokeapi.co/api/v2/";
    assert Endpoint(a).address[|base| + 7] == if a.Pokemon? then '/' else '-';
    assert Endpoint(b).address[|base| + 7] == if b.Pokemon? then '/' else '-';
    if Endpoint(a) == Endpoint(b) {
      var x, y := Endpoint(a).address, Endpoint(b).address;
      if a.Pokemon? && b.Pokemon? {
        assert a.name == x[|base| + 8..] == b.name;
      } else if a.PokemonSpecies? && b.PokemonSpecies? {
        assert a.name == x[|base| + 16..] == b.name;
      }
    }
  }
}
