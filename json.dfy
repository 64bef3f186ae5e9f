/** JSON values as the Python code sees them after `json.loads`, and the
    library calls the code delegates to (the decoder, `json.dumps`, file
    reading and the two model back ends), which this model takes as inputs. */
module Json {

  datatype Option<T> = None | Some(value: T)

  /** A decoded JSON value: Python's None, bool, int/float, str, list and dict.
      A dict is a map from its keys; the insertion order of a Python dict is
      not represented. */
  datatype Json =
    | JNull
    | JBool(b: bool)
    | JNumber(n: real)
    | JString(s: string)
    | JArray(items: seq<Json>)
    | JObject(fields: map<string, Json>)

  /** What the JSON decoder does with a text: a value, a `JSONDecodeError`
      (the text is not JSON), or some other exception raised while decoding
      (a `RecursionError` on very deeply nested input, a `MemoryError`). Each
      `message` is what `str(e)` shows for the exception. */
  datatype Parsed = Parsed(value: Json) | ParseError(message: string) | ParserRaised(message: string)

  /** `json.loads` (and `json.load`, `response.json()`), left abstract. */
  type Parser = string -> Parsed

  /** `json.dumps`, left abstract. */
  type Serializer = Json -> string

  /** Opening and decoding a file: either an exception with its message, or the
      decoded text of the whole file. */
  datatype ReadOutcome = Unreadable(reason: string) | Contents(text: string)

  /** What the Gemini SDK's `model.generate_content(prompt).text` gives: an
      exception with its message, or the reply text. */
  datatype GenAiReply = Raised(message: string) | Replied(text: string)

  /** Python's `d.get(key)`: the value, or None (JSON null) when the key is absent. */
  function Get(d: map<string, Json>, key: string): Json
  {
    if key in d then d[key] else JNull
  }

  /** Python's `d.get(key, default)`. */
  function GetOr(d: map<string, Json>, key: string, default: Json): Json
  {
    if key in d then d[key] else default
  }
}
