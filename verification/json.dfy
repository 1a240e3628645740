/** The decoded JSON values the endpoint handles, with Python's notion of truthiness. */
module Json {

  /** A decoded JSON document. Numbers are integers; objects are string-keyed maps
      (the response is serialised with sorted keys, so insertion order is not observable). */
  datatype Value =
    | Null
    | Bool(b: bool)
    | Num(n: int)
    | Str(s: string)
    | Arr(items: seq<Value>)
    | Obj(fields: Fields)

  /** The fields of a JSON object, i.e. a Python `dict` with string keys. */
  type Fields = map<string, Value>

  /** Python's `bool(v)` for the decoded value: `None`, `False`, `0`, `""`, `[]` and `{}` are falsy. */
  predicate Truthy(v: Value) {
    match v
    case Null => false
    case Bool(b) => b
    case Num(n) => n != 0
    case Str(s) => |s| > 0
    case Arr(items) => |items| > 0
    case Obj(fields) => |fields| > 0
  }

  /** `d.get(key, default)` on a Python dict. */
  function GetOr(fields: Fields, key: string, default: Value): Value {
    if key in fields then fields[key] else default
  }

  /** The falsy values are exactly Python's: `None`, `False`, zero and the empty
      string, list and dict. */
  lemma FalsyValues(v: Value)
    ensures !Truthy(v) <==> v in {Null, Bool(false), Num(0), Str(""), Arr([]), Obj(map[])}
  {
    match v
    case Str(s) => assert s == "" <==> |s| == 0;
    case Arr(items) => assert items == [] <==> |items| == 0;
    case Obj(fields) => assert fields == map[] <==> |fields| == 0;
    case _ =>
  }
}
