/** The decoded JSON body of an inference response, as `response.json()` hands
    it to the handler. Numbers are kept as integers: the handler never looks
    at a number's value, only at the fact that it is not a container. */
module Json {

  datatype Value =
    | Null
    | Bool(b: bool)
    | Number(n: int)
    | Str(s: string)
    | Array(items: seq<Value>)
    | Object(fields: map<string, Value>)
}
