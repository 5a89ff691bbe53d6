/**
 * JSON values as the client's validator receives them (the output of JSON.parse).
 *
 * Numbers are split the way RFC 8927 looks at them: a number whose fractional
 * part is zero is JInt (so 25 and 25.0 are the same value), any other number is
 * JFraction. Nothing about a fractional number matters to the schemas modelled
 * here beyond the fact that it is a number that is not an integer.
 * An object is a map: JSON.parse keeps one value per member name.
 */
module Json {

  datatype Json =
    | JNull
    | JBool(b: bool)
    | JInt(n: int)
    | JFraction
    | JString(s: string)
    | JArray(items: seq<Json>)
    | JObject(members: map<string, Json>)
}
