/** `ShakespeareTranslation`: the translated text out of the translation service's envelope. */
module ShakespeareTranslation {
  import opened Wrappers
  import opened Json
  import opened PercentCoding

  datatype ShakespeareTranslation = ShakespeareTranslation(translated: string)

  /** `removingPercentEncoding ?? raw`: the decoded text when it decodes, the raw text otherwise. */
  function Unescaped(raw: string): string {
    PercentDecode(raw).GetOr(raw)
  }

  /** `init(from:)`: `contents.translated`, unescaped; the rest of the envelope is not read. */
  function DecodeTranslation(value: Json): Result<ShakespeareTranslation, DecodingError> {
    match Container(value, "")
    case Failure(e) => Failure(e)
    case Success(root) =>
      match NestedContainer(root, "contents")
      case Failure(e) => Failure(e)
      case Success(contents) =>
        match DecodeString(contents, "translated")
        case Failure(e) => Failure(e)
        case Success(raw) => Success(ShakespeareTranslation(Unescaped(raw)))
  }

  /**
   * The envelope decodes exactly when it has a `contents` object holding a string
   * `translated`, and the result is that string unescaped; missing either is an error.
   */
  lemma DecodeTranslationExactly(value: Json)
    ensures DecodeTranslation(value).Success? <==>
              && value.JObject?
              && "contents" in value.fields && value.fields["contents"].JObject?
              && "translated" in value.fields["contents"].fields
              && value.fields["contents"].fields["translated"].JString?
    ensures DecodeTranslation(value).Success? ==>
              DecodeTranslation(value).value.translated ==
                Unescaped(value.fields["contents"].fields["translated"].text)
    ensures value.JObject? && "contents" !in value.fields ==>
              DecodeTranslation(value) == Failure(KeyNotFound("contents"))
    ensures value.JObject? && "contents" in value.fields && value.fields["contents"].JObject?
              && "translated" !in value.fields["contents"].fields ==>
              DecodeTranslation(value) == Failure(KeyNotFound("translated"))
  {
  }

  /** The unescaping step never fails: a decodable text is decoded, any other is kept as it came. */
  lemma UnescapedRule(raw: string)
    ensures PercentDecode(raw).Some? ==> Unescaped(raw) == PercentDecode(raw).value
    ensures PercentDecode(raw).None? ==> Unescaped(raw) == raw
  {
  }

  /** A text with no '%' in it is left exactly as it is. */
  lemma UnescapedWithoutPercent(raw: string)
    requires forall i :: 0 <= i < |raw| ==> raw[i] != '%'
    ensures Unescaped(raw) == raw
  {
    DecodeWithoutPercent(raw);
  }

  /** A text the service escaped comes out as it was before escaping. */
  lemma UnescapedEncoded(text: string)
    ensures Unescaped(PercentEncode(text)) == text
  {
    PercentCoding.DecodeEncoded(text);
  }

  /** A '%' not followed by two hex digits makes decoding fail, so the raw text is kept, '%' and all. */
  lemma UnescapedMalformed(prefix: string, rest: string)
    requires forall i :: 0 <= i < |prefix| ==> prefix[i] != '%'
    requires !(|rest| >= 2 && IsHexDigit(rest[0]) && IsHexDigit(rest[1]))
    ensures Unescaped(prefix + "%" + rest) == prefix + "%" + rest
  {
    DecodeMalformedTriplet(prefix, rest);
  }

  /** The fields the envelope carries beside `contents.translated` do not change the result. */
  lemma OtherFieldsIgnored(root: map<string, Json>, contents: map<string, Json>, raw: string)
    requires "contents" !in root && "translated" !in contents
    ensures DecodeTranslation(JObject(root["contents" := JObject(contents["translated" := JString(raw)])]))
              == Success(ShakespeareTranslation(Unescaped(raw)))
  {
  }

  /** The envelope of the integration fixture, with `success`, `text` and `translation` beside the text. */
  lemma FixtureEnvelope(raw: string)
    ensures DecodeTranslation(JObject(map[
              "success" := JObject(map["total" := JNumber(1)]),
              "contents" := JObject(map[
                "translated" := JString(raw),
                "text" := JString("some text"),
                "translation" := JString("shakespeare")])]))
            == Success(ShakespeareTranslation(Unescaped(raw)))
  {
  }
}
