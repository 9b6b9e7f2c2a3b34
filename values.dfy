/** Value types shared by the log-shipping client: bytes, decoded JSON and options. */
module Values {

  /** One octet of a byte buffer (Go `byte`). */
  newtype byte = x: int | 0 <= x < 256

  /** The newline byte that terminates every buffered record. */
  const Newline: byte := 10

  datatype Option<+T> = None | Some(value: T)

  /** A decoded JSON value, as `json.Unmarshal` produces it into `interface{}`.
      Numbers are kept as integers: their floating-point form plays no part here. */
  datatype Json =
    | JNull
    | JBool(b: bool)
    | JNumber(n: int)
    | JString(s: string)
    | JArray(items: seq<Json>)
    | JObject(fields: map<string, Json>)

  /** The JSON encoder, as the table of the records it can serialize and
      their encodings; a record outside the table fails to serialize. */
  type Encoder = map<Json, seq<byte>>

  function Marshal(encoder: Encoder, record: Json): Option<seq<byte>>
  {
    if record in encoder then Some(encoder[record]) else None
  }

  /** The JSON decoder, as the table of the request bodies that decode to
      an object and the objects they decode to. */
  type Decoder = map<string, map<string, Json>>

  function Unmarshal(decoder: Decoder, text: string): Option<map<string, Json>>
  {
    if text in decoder then Some(decoder[text]) else None
  }

  /** Go's `m[k]` on a `map[string]interface{}`: a missing key reads as nil. */
  function Get(m: map<string, Json>, k: string): Json
  {
    if k in m then m[k] else JNull
  }

  /** Go's `m[k]` on a `map[string]string`: a missing key reads as "". */
  function Header(headers: map<string, string>, k: string): string
  {
    if k in headers then headers[k] else ""
  }
}
