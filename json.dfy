/**
 * Decoded JSON values, as `response.json()` hands them to app.py, and
 * the Python operations app.py applies to them.
 */
module JsonValues {
  /** Numbers are integers here; fractional JSON numbers are not modelled. */
  datatype Json =
    | JNull
    | JBool(b: bool)
    | JNum(n: int)
    | JStr(s: string)
    | JArr(items: seq<Json>)
    | JObj(fields: map<string, Json>)

  /** Python truthiness of the decoded value: `None`, `False`, `0` and empty containers are false. */
  predicate Truthy(j: Json) {
    match j
    case JNull => false
    case JBool(b) => b
    case JNum(n) => n != 0
    case JStr(s) => s != ""
    case JArr(items) => items != []
    case JObj(fields) => fields != map[]
  }

  /** The falsy values of Python, as decoded from JSON: `None`, `False`, `0`, `""`, `[]` and `{}`. */
  lemma FalsyValues(j: Json)
    ensures !Truthy(j) <==> j == JNull || j == JBool(false) || j == JNum(0) || j == JStr("")
                             || j == JArr([]) || j == JObj(map[])
  {
  }

  /** `d.get(key)` on a decoded object: Python's `None`, that is `null`, when the key is absent. */
  function Get(fields: map<string, Json>, key: string): (r: Json)
    ensures key in fields ==> r == fields[key]
    ensures key !in fields ==> r == JNull
  {
    if key in fields then fields[key] else JNull
  }
}
