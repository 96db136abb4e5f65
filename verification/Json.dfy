/** JSON documents as parsed values. Object keys are unique by construction. */
module Json {

  datatype Value =
    | Null
    | Bool(flag: bool)
    | Int(whole: int)
    | Float(number: real)
    | NonFinite
    | Text(text: string)
    | Array(items: seq<Value>)
    | Object(fields: map<string, Value>)

  type Fields = map<string, Value>
}
