/**
 * JSON values and the keyed-container reads a `Decodable` initialiser performs on them, with
 * the errors `JSONDecoder` reports: a missing key, a null where a value is required, and a
 * value of the wrong kind.
 */
module Json {
  import opened Wrappers

  /** A parsed JSON document; numbers are the integers the models read. */
  datatype Json =
    | JNull
    | JBool(flag: bool)
    | JNumber(number: int)
    | JString(text: string)
    | JArray(elements: seq<Json>)
    | JObject(fields: map<string, Json>)

  /** `DecodingError`: `keyNotFound`, `valueNotFound`, `typeMismatch` and `dataCorrupted`, with the key involved. */
  datatype DecodingError =
    | KeyNotFound(key: string)
    | ValueNotFound(key: string)
    | TypeMismatch(key: string)
    | DataCorrupted

  /** `container(keyedBy:)` on a whole value, read under `key`: only an object is a keyed container. */
  function Container(value: Json, key: string): (r: Result<map<string, Json>, DecodingError>)
    ensures r.Success? <==> value.JObject?
    ensures r.Success? ==> r.value == value.fields
    ensures value.JNull? ==> r == Failure(ValueNotFound(key))
  {
    match value
    case JObject(fields) => Success(fields)
    case JNull => Failure(ValueNotFound(key))
    case _ => Failure(TypeMismatch(key))
  }

  /** The value stored under `key`, or the error a required key reports: absent or null. */
  function Required(fields: map<string, Json>, key: string): (r: Result<Json, DecodingError>)
    ensures key !in fields ==> r == Failure(KeyNotFound(key))
    ensures key in fields && fields[key].JNull? ==> r == Failure(ValueNotFound(key))
    ensures r.Success? <==> key in fields && !fields[key].JNull?
    ensures r.Success? ==> r.value == fields[key]
  {
    if key !in fields then Failure(KeyNotFound(key))
    else if fields[key].JNull? then Failure(ValueNotFound(key))
    else Success(fields[key])
  }

  /** `decode(String.self, forKey:)`. */
  function DecodeString(fields: map<string, Json>, key: string): (r: Result<string, DecodingError>)
    ensures r.Success? <==> key in fields && fields[key].JString?
    ensures r.Success? ==> fields[key] == JString(r.value)
    ensures key !in fields ==> r == Failure(KeyNotFound(key))
  {
    match Required(fields, key)
    case Failure(e) => Failure(e)
    case Success(JString(s)) => Success(s)
    case Success(_) => Failure(TypeMismatch(key))
  }

  /** `decode(Int.self, forKey:)`. */
  function DecodeInt(fields: map<string, Json>, key: string): (r: Result<int, DecodingError>)
    ensures r.Success? <==> key in fields && fields[key].JNumber?
    ensures r.Success? ==> fields[key] == JNumber(r.value)
    ensures key !in fields ==> r == Failure(KeyNotFound(key))
  {
    match Required(fields, key)
    case Failure(e) => Failure(e)
    case Success(JNumber(n)) => Success(n)
    case Success(_) => Failure(TypeMismatch(key))
  }

  /** `nestedContainer(keyedBy:forKey:)`. */
  function NestedContainer(fields: map<string, Json>, key: string): (r: Result<map<string, Json>, DecodingError>)
    ensures r.Success? <==> key in fields && fields[key].JObject?
    ensures r.Success? ==> fields[key] == JObject(r.value)
    ensures key !in fields ==> r == Failure(KeyNotFound(key))
  {
    match Required(fields, key)
    case Failure(e) => Failure(e)
    case Success(JObject(m)) => Success(m)
    case Success(_) => Failure(TypeMismatch(key))
  }

  /** `decode([T].self, forKey:)`, before the elements are decoded. */
  function DecodeArray(fields: map<string, Json>, key: string): (r: Result<seq<Json>, DecodingError>)
    ensures r.Success? <==> key in fields && fields[key].JArray?
    ensures r.Success? ==> fields[key] == JArray(r.value)
    ensures key !in fields ==> r == Failure(KeyNotFound(key))
  {
    match Required(fields, key)
    case Failure(e) => Failure(e)
    case Success(JArray(items)) => Success(items)
    case Success(_) => Failure(TypeMismatch(key))
  }
}
