/** The generic JSON value and the deserialisation error of the JSON
    library. Parsing itself belongs to the library and enters the model as
    function-typed parameters of the decoders. */
module Json {
  import opened Prelude

  /** A generic JSON value, simplified: a number is kept as its literal
      text rather than as an unsigned, signed or floating-point number,
      and an object as a list of members rather than a map with unique
      keys. Nothing here depends on either, since parsing is a parameter. */
  datatype Value =
    | Null
    | Bool(b: bool)
    | Number(literal: string)
    | String(s: string)
    | Array(items: seq<Value>)
    | Object(members: seq<(string, Value)>)

  /** A deserialisation error; `message` is its rendered text. */
  datatype ParseError = ParseError(message: string)

  /** A deserialiser from a body into a `T`, as the library provides one
      for every deserialisable type. */
  type Parser<T> = ByteString -> Result<T, ParseError>
}
