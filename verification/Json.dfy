// JSON values as the host program holds them after parsing.
module Json {
  // An object is an association list in key order of the host dictionary; a
  // finite float is represented by the text the host prints for it.
  datatype Json =
    | JNull
    | JBool(b: bool)
    | JNum(n: int)
    | JFloat(repr: string)
    | JStr(s: string)
    | JArr(items: seq<Json>)
    | JObj(fields: seq<(string, Json)>)

  // Booleans compare equal to the integers 0 and 1 in the host language, at
  // any depth; Plain rewrites them so that host equality is equality of the
  // rewritten values.
  function Plain(j: Json): Json {
    match j
    case JBool(b) => JNum(if b then 1 else 0)
    case JArr(items) => JArr(seq(|items|, i requires 0 <= i < |items| => Plain(items[i])))
    case JObj(fields) =>
      JObj(seq(|fields|, i requires 0 <= i < |fields| => (fields[i].0, Plain(fields[i].1))))
    case _ => j
  }

  predicate HostEqual(a: Json, b: Json) {
    Plain(a) == Plain(b)
  }

  // Lists and dictionaries cannot be looked up in a host set.
  predicate Hashable(j: Json) {
    !j.JArr? && !j.JObj?
  }
}
