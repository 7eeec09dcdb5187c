/**
 * The values a request is made of: URLs with their query items, parameter values, header
 * fields, and the mutable pending request (`URLRequest`) that the encoder edits in place.
 */
module Requests {
  import opened Wrappers

  /** One `name` or `name=value` entry of a query. */
  datatype QueryItem = QueryItem(name: string, value: Option<string>)

  /** A URL: everything before the query (scheme, host and path) and the query's items. */
  datatype Url = Url(address: string, queryItems: seq<QueryItem>)

  /** A parameter value; the source's `Any` holds the scalars its services pass. */
  datatype Scalar = Text(text: string) | Integer(number: int) | Boolean(flag: bool)

  /** `Parameters`: keys mapped to optional values (a nil value is a value-less key). */
  type Parameters = map<string, Option<Scalar>>

  function DigitChar(d: nat): (c: char)
    requires d < 10
    ensures '0' <= c <= '9'
  {
    ('0' as int + d) as char
  }

  /** The number a string of decimal digits denotes, read most significant digit first. */
  function DecimalValue(s: string): int {
    if s == [] then 0 else 10 * DecimalValue(s[..|s| - 1]) + (s[|s| - 1] as int - '0' as int)
  }

  /** The decimal numeral of `n`, most significant digit first, without leading zeros. */
  function NatToDecimal(n: nat): (r: string)
    ensures |r| >= 1 && (|r| > 1 ==> r[0] != '0')
    ensures forall i :: 0 <= i < |r| ==> '0' <= r[i] <= '9'
    ensures DecimalValue(r) == n
  {
    if n < 10 then [DigitChar(n)]
    else
      var prefix := NatToDecimal(n / 10);
      assert (prefix + [DigitChar(n % 10)])[..|prefix|] == prefix;
      prefix + [DigitChar(n % 10)]
  }

  /** Distinct numbers have distinct numerals, so a query value names its integer. */
  lemma NatToDecimalInjective(a: nat, b: nat)
    ensures NatToDecimal(a) == NatToDecimal(b) <==> a == b
  {
  }

  /** Swift's string interpolation of a parameter value, `"\(value)"`. */
  function Stringify(v: Scalar): string {
    match v
    case Text(t) => t
    case Integer(n) => if n < 0 then "-" + NatToDecimal(-n) else NatToDecimal(n)
    case Boolean(b) => if b then "true" else "false"
  }

  datatype CachePolicy = UseProtocolCachePolicy | ReloadIgnoringLocalAndRemoteCacheData

  const ContentTypeField: string := "Content-Type"
  const FormUrlEncoded: string := "application/x-www-form-urlencoded; charset=utf-8"

  function LowerAscii(s: string): (r: string)
    ensures |r| == |s|
  {
    if s == [] then []
    else [if 'A' <= s[0] <= 'Z' then (s[0] as int + 32) as char else s[0]] + LowerAscii(s[1..])
  }

  /** Header field names are compared without regard to ASCII case, as `URLRequest` does. */
  predicate SameFieldName(a: string, b: string) {
    LowerAscii(a) == LowerAscii(b)
  }

  /** `value(forHTTPHeaderField: name) != nil`. */
  predicate HasField(headers: map<string, string>, name: string) {
    exists k :: k in headers && SameFieldName(k, name)
  }

  /** `setValue(value, forHTTPHeaderField: name)`: replaces any field of that name. */
  function SetField(headers: map<string, string>, name: string, value: string): (r: map<string, string>)
    ensures name in r && r[name] == value
    ensures forall k :: k in headers && !SameFieldName(k, name) ==> k in r && r[k] == headers[k]
    ensures forall k :: k in r ==> k == name || (k in headers && !SameFieldName(k, name))
  {
    (map k | k in headers && !SameFieldName(k, name) :: headers[k])[name := value]
  }

  /** Setting a field that is not present only adds it. */
  lemma SetAbsentField(headers: map<string, string>, name: string, value: string)
    requires !HasField(headers, name)
    ensures SetField(headers, name, value) == headers[name := value]
  {
    var kept := map k | k in headers && !SameFieldName(k, name) :: headers[k];
    assert forall k :: k in headers ==> !SameFieldName(k, name);
    assert kept.Keys == headers.Keys;
    assert kept == headers;
  }

  /** A snapshot of a pending request, as the session receives it. */
  datatype RequestValue = RequestValue(
    url: Option<Url>,
    headers: map<string, string>,
    cachePolicy: CachePolicy,
    timeoutInterval: real)

  /** `URLRequest`, a value the source edits in place through `inout`. */
  class UrlRequest {
    var url: Option<Url>
    var headers: map<string, string>
    var cachePolicy: CachePolicy
    var timeoutInterval: real

    /** `URLRequest(url:cachePolicy:timeoutInterval:)`: no header fields yet. */
    constructor (url: Url, cachePolicy: CachePolicy, timeoutInterval: real)
      ensures this.url == Some(url) && headers == map[]
      ensures this.cachePolicy == cachePolicy && this.timeoutInterval == timeoutInterval
    {
      this.url := Some(url);
      this.headers := map[];
      this.cachePolicy := cachePolicy;
      this.timeoutInterval := timeoutInterval;
    }

    function Value(): RequestValue
      reads this
    {
      RequestValue(url, headers, cachePolicy, timeoutInterval)
    }

    method SetValue(value: string, name: string)
      modifies this
      ensures headers == SetField(old(headers), name, value)
      ensures url == old(url) && cachePolicy == old(cachePolicy) && timeoutInterval == old(timeoutInterval)
    {
      headers := SetField(headers, name, value);
    }
  }

  function QueryText(items: seq<QueryItem>): string
    decreases |items|
  {
    if items == [] then ""
    else
      var item := items[0];
      var text := item.name + (match item.value case None => "" case Some(v) => "=" + v);
      if |items| == 1 then text else text + "&" + QueryText(items[1..])
  }

  /**
   * `absoluteString` of a URL whose query is written from its items as they are stored
   * (Foundation's own re-escaping of the serialised query is not part of this model).
   */
  function AbsoluteString(u: Url): string {
    if u.queryItems == [] then u.address else u.address + "?" + QueryText(u.queryItems)
  }
}
