/** The `Service` protocol: what one endpoint declares about the requests made to it. */
module ServiceDescriptors {
  import opened Wrappers
  import opened Http
  import opened Requests

  /** The four members a service provides: endpoint URL, path, method and parameters. */
  datatype ServiceDescriptor = ServiceDescriptor(
    endpoint: Url,
    path: string,
    httpMethod: HttpMethod,
    parameters: Option<Parameters>)

  /**
   * `appendingPathComponent`, as far as the services rely on it: the component is joined to
   * the base by exactly one '/', whether or not the base ends or the component starts with one.
   */
  function AppendingPathComponent(base: string, component: string): (r: string)
    ensures |base| > 0 && base[|base| - 1] != '/' && |component| > 0 && component[0] == '/' ==>
              r == base + component
    ensures |base| > 0 && base[|base| - 1] == '/' && (|component| == 0 || component[0] != '/') ==>
              r == base + component
    ensures (|base| == 0 || base[|base| - 1] != '/') && (|component| == 0 || component[0] != '/') ==>
              r == base + "/" + component
    ensures |base| > 0 && base[|base| - 1] == '/' && |component| > 0 && component[0] == '/' ==>
              r == base + component[1..]
  {
    var b := if |base| > 0 && base[|base| - 1] == '/' then base[..|base| - 1] else base;
    var c := if |component| > 0 && component[0] == '/' then component[1..] else component;
    assert |component| > 0 && component[0] == '/' ==> component == "/" + c;
    assert |base| > 0 && base[|base| - 1] == '/' ==> base == b + "/";
    b + "/" + c
  }
}
