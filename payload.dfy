/** The parsed payload of a sensor report: the value tree the YAML library hands
    to the decoder, and the small wrapper types the decoder returns. */
module Payload {

  /** A value of the parsed payload tree. `Map` is the nested mapping that the
      type assertion of the decoder accepts (only its string keys can ever match a
      lookup, so only those are kept); `Float` is a Go `float64`; `Int` a Go `int`;
      `Other` is every remaining kind (string, bool, null, sequence, and any other
      numeric kind the parser may produce). */
  datatype Value =
    | Map(fields: map<string, Value>)
    | Float(x: real)
    | Int(n: int)
    | Other

  /** The outcome of parsing a payload into the top-level `map[string]interface{}`. */
  datatype Document =
    | Parsed(entries: map<string, Value>)
    | Unparsable

  datatype Option<+T> = None | Some(value: T)

  datatype DecodeError = Malformed

  datatype Result<+T> = Ok(value: T) | Err(error: DecodeError)
}
