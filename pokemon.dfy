/** `PokemonResponse`: the part of a creature record the image provider reads. */
module Pokemon {
  import opened Wrappers
  import opened Json

  datatype Sprites = Sprites(front: string)

  datatype PokemonResponse = PokemonResponse(id: int, name: string, sprites: Sprites)

  /** The synthesised `init(from:)` of `Sprites`: `front` is read from `front_default`. */
  function DecodeSprites(value: Json): Result<Sprites, DecodingError> {
    match Container(value, "sprites")
    case Failure(e) => Failure(e)
    case Success(fields) =>
      match DecodeString(fields, "front_default")
      case Failure(e) => Failure(e)
      case Success(front) => Success(Sprites(front))
  }

  /** The synthesised `init(from:)` of `PokemonResponse`: `id`, `name` and the nested `sprites`. */
  function DecodePokemon(value: Json): Result<PokemonResponse, DecodingError> {
    match Container(value, "")
    case Failure(e) => Failure(e)
    case Success(fields) =>
      match DecodeInt(fields, "id")
      case Failure(e) => Failure(e)
      case Success(id) =>
        match DecodeString(fields, "name")
        case Failure(e) => Failure(e)
        case Success(name) =>
          if "sprites" !in fields then Failure(KeyNotFound("sprites"))
          else
            match DecodeSprites(fields["sprites"])
            case Failure(e) => Failure(e)
            case Success(sprites) => Success(PokemonResponse(id, name, sprites))
  }

  /** The smallest document that carries `p`. */
  function PokemonJson(p: PokemonResponse): Json {
    JObject(map[
      "id" := JNumber(p.id),
      "name" := JString(p.name),
      "sprites" := JObject(map["front_default" := JString(p.sprites.front)])])
  }

  /**
   * A record decodes exactly when it has an integer `id`, a string `name` and a `sprites`
   * object with a string `front_default`, and then to those values; other keys are ignored.
   */
  lemma DecodePokemonExactly(value: Json)
    ensures DecodePokemon(value).Success? <==>
              && value.JObject?
              && "id" in value.fields && value.fields["id"].JNumber?
              && "name" in value.fields && value.fields["name"].JString?
              && "sprites" in value.fields && value.fields["sprites"].JObject?
              && "front_default" in value.fields["sprites"].fields
              && value.fields["sprites"].fields["front_default"].JString?
    ensures DecodePokemon(value).Success? ==>
              DecodePokemon(value).value == PokemonResponse(
                value.fields["id"].number, value.fields["name"].text,
                Sprites(value.fields["sprites"].fields["front_default"].text))
  {
  }

  /** Decoding the document built from a record gives the record back. */
  lemma DecodePokemonJson(p: PokemonResponse)
    ensures DecodePokemon(PokemonJson(p)) == Success(p)
  {
    DecodePokemonExactly(PokemonJson(p));
  }

  /** A sprite whose `front_default` is null, a common case for missing artwork, fails to decode. */
  lemma NullSpriteIsAnError(value: Json)
    requires value.JObject? && "id" in value.fields && value.fields["id"].JNumber?
    requires "name" in value.fields && value.fields["name"].JString?
    requires "sprites" in value.fields && value.fields["sprites"] == JObject(map["front_default" := JNull])
    ensures DecodePokemon(value) == Failure(ValueNotFound("front_default"))
  {
  }
}
