/** The supporting enumerations of the network layer: status classes and HTTP methods. */
module Http {
  import opened Wrappers

  /** The class of an HTTP response, derived from its status code. */
  datatype NetworkResponse =
    | Success
    | AuthenticationError
    | BadRequest
    | NotFound
    | ServerError
    | Failed

  /** The HTTP methods a service may declare. */
  datatype HttpMethod = Get | Post | Put | Patch | Delete

  /** The raw value of each method: its name as it appears on the request line. */
  function RawValue(m: HttpMethod): string {
    match m
    case Get => "GET"
    case Post => "POST"
    case Put => "PUT"
    case Patch => "PATCH"
    case Delete => "DELETE"
  }

  /** `HTTPMethod(rawValue:)`: the method with that exact (case-sensitive) name, if any. */
  function FromRawValue(raw: string): Option<HttpMethod> {
    if raw == "GET" then Some(Get)
    else if raw == "POST" then Some(Post)
    else if raw == "PUT" then Some(Put)
    else if raw == "PATCH" then Some(Patch)
    else if raw == "DELETE" then Some(Delete)
    else None
  }

  /** The raw values name the methods one-to-one: parsing a raw value gives back its method, and only raw values parse. */
  lemma MethodRawValueRoundTrip(m: HttpMethod, raw: string)
    ensures FromRawValue(RawValue(m)) == Some(m)
    ensures FromRawValue(raw) == Some(m) <==> raw == RawValue(m)
  {
  }
}
