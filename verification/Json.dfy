/** Parsed JSON as values; an object is a map, so key order is not represented. */
module Json {

  datatype J =
    | JNull | JBool(b: bool) | JNum(n: int) | JStr(s: string) | JArr(items: seq<J>) | JObj(fields: map<string, J>)

  type Fields = map<string, J>

  predicate IsStr(m: Fields, key: string, s: string) { key in m && m[key] == JStr(s) }

  predicate HasObj(m: Fields, key: string) { key in m && m[key].JObj? }
}
