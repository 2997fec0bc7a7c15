/** The values the configuration builders produce and the test comparator inspects: JSON extended
    by tuples, plus a catch-all for values of any other Python type. */
module JsonValues {

  datatype Json =
    | JNull
    | JBool(b: bool)
    | JInt(i: int)
    | JFloat(f: real)
    | JStr(s: string)
    | JList(items: seq<Json>)
    | JTuple(items: seq<Json>)
    | JDict(fields: map<string, Json>)
      /** A value of some other Python type, identified by the type's name. */
    | JOther(typeName: string)

  /** Python's `type(x)`, as far as the comparator distinguishes types. */
  datatype PyType = TNone | TBool | TInt | TFloat | TStr | TList | TTuple | TDict | TOtherType(name: string)

  function TypeOf(j: Json): PyType {
    match j
    case JNull => TNone
    case JBool(_) => TBool
    case JInt(_) => TInt
    case JFloat(_) => TFloat
    case JStr(_) => TStr
    case JList(_) => TList
    case JTuple(_) => TTuple
    case JDict(_) => TDict
    case JOther(n) => TOtherType(n)
  }

  /** A list of strings as JSON strings. */
  function StrList(s: seq<string>): seq<Json> {
    seq(|s|, k requires 0 <= k < |s| => JStr(s[k]))
  }

  /** Python's `bool(x)`. */
  predicate Truthy(j: Json) {
    match j
    case JNull => false
    case JBool(b) => b
    case JInt(i) => i != 0
    case JFloat(f) => f != 0.0
    case JStr(s) => s != ""
    case JList(items) => items != []
    case JTuple(items) => items != []
    case JDict(fields) => fields != map[]
    case JOther(_) => true
  }
}
