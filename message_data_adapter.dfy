/**
 * The JSON adapter for message payloads. A payload travels as a nested object,
 * `{"Text": {"text": t}}` or `{"Image": {"link": l}}`; JSON `null`s are `None`.
 */
module MessageDataAdapter {
  import opened Models

  type JsonObject = map<string, Option<map<string, Option<string>>>>

  const MISSING_TEXT_DATA := "Missing Text data"
  const TEXT_FIELD_MISSING := "Text field is missing"
  const MISSING_IMAGE_DATA := "Missing Image data"
  const UNKNOWN_TYPE := "Unknown MessageData type"

  /** Looks up `key`, reading an absent key and a JSON null alike as `None`. */
  function Field<T>(m: map<string, Option<T>>, key: string): Option<T> {
    if key in m then m[key] else None
  }

  function IllegalArgument(message: string): Error {
    Error(Some(message))
  }

  /** Decodes a payload; "Text" is tried before "Image". */
  function FromJson(json: JsonObject): (r: Result<MessageData, Error>)
    ensures r.Success? && r.value.Text? ==> "Text" in json
    ensures r.Success? && r.value.Image? ==> "Text" !in json && "Image" in json && r.value.link.Some?
  {
    if "Text" in json then
      match json["Text"]
      case None => Failure(IllegalArgument(MISSING_TEXT_DATA))
      case Some(textData) =>
        match Field(textData, "text")
        case None => Failure(IllegalArgument(TEXT_FIELD_MISSING))
        case Some(text) => Success(Text(text))
    else if "Image" in json then
      match json["Image"]
      case None => Failure(IllegalArgument(MISSING_IMAGE_DATA))
      case Some(imageData) => Success(Image(Some(Field(imageData, "link").GetOr(""))))
    else
      Failure(IllegalArgument(UNKNOWN_TYPE))
  }

  /** Encodes a payload as a one-key object. */
  function ToJson(data: MessageData): (json: map<string, map<string, Option<string>>>)
    ensures |json| == 1
    ensures data.Text? ==> "Text" in json && json["Text"] == map["text" := Some(data.text)]
    ensures data.Image? ==> "Image" in json && json["Image"] == map["link" := data.link]
  {
    match data
    case Text(text) => map["Text" := map["text" := Some(text)]]
    case Image(link) => map["Image" := map["link" := link]]
  }

  /** The encoded object as the decoder receives it. */
  function AsJsonObject(m: map<string, map<string, Option<string>>>): JsonObject {
    map k | k in m :: Some(m[k])
  }

  /** Decoding undoes encoding for a text and for an image that has a link. */
  lemma RoundTrip(data: MessageData)
    requires data.Text? || data.link.Some?
    ensures FromJson(AsJsonObject(ToJson(data))) == Success(data)
  {
  }

  /** An image without a link comes back with the empty link. */
  lemma NullLinkDecodesAsEmpty()
    ensures FromJson(AsJsonObject(ToJson(Image(None)))) == Success(Image(Some("")))
  {
  }

  /** "Text" wins over "Image": an object holding both decodes by its "Text" entry. */
  lemma TextTakesPriority(json: JsonObject)
    requires "Text" in json && "Image" in json
    ensures FromJson(json).Success? ==> FromJson(json).value.Text?
    ensures FromJson(json).Failure? ==>
      FromJson(json).error in {IllegalArgument(MISSING_TEXT_DATA), IllegalArgument(TEXT_FIELD_MISSING)}
  {
  }

  /** A Text payload: a null object is rejected; otherwise its "text" entry, present and non-null, or the error. */
  lemma TextDecoding(json: JsonObject)
    requires "Text" in json
    ensures json["Text"].None? ==> FromJson(json) == Failure(IllegalArgument(MISSING_TEXT_DATA))
    ensures json["Text"].Some? && Field(json["Text"].value, "text").Some? ==>
      FromJson(json) == Success(Text(json["Text"].value["text"].value))
    ensures json["Text"].Some? && Field(json["Text"].value, "text").None? ==>
      FromJson(json) == Failure(IllegalArgument(TEXT_FIELD_MISSING))
  {
  }

  /** An Image payload: a null object is rejected; otherwise its "link" entry, or "" when it is absent or null. */
  lemma ImageDecoding(json: JsonObject)
    requires "Text" !in json && "Image" in json
    ensures json["Image"].None? ==> FromJson(json) == Failure(IllegalArgument(MISSING_IMAGE_DATA))
    ensures json["Image"].Some? ==>
      FromJson(json) == Success(Image(Some(Field(json["Image"].value, "link").GetOr(""))))
  {
  }

  /** An object with neither key is rejected. */
  lemma UnknownTypeRejected(json: JsonObject)
    requires "Text" !in json && "Image" !in json
    ensures FromJson(json) == Failure(IllegalArgument(UNKNOWN_TYPE))
  {
  }
}
