/** JSON values as they cross the HTTP boundary (document and result metadata). */
module Json {

  datatype Value =
    | Null
    | Bool(b: bool)
    | Number(n: real)
    | Str(s: string)
    | Array(items: seq<Value>)
    | Object(fields: map<string, Value>)

  /** A metadata mapping: string keys to arbitrary JSON values. */
  type Metadata = map<string, Value>
}
