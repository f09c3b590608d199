/** The values stored in a chunk's metadata dictionary by the vector
    stores: `None`, a string, an integer or a list of strings (the only
    shapes the indexing code writes). */
module MetaValues {

  datatype Value = Null | Str(s: string) | Int(i: int) | StrList(items: seq<string>)

  /** A chunk's metadata dictionary. */
  type Metadata = map<string, Value>

  /** Python's `metadata.get(key)`: `None` for a missing key. */
  function Get(m: Metadata, key: string): (v: Value)
    ensures key !in m ==> v == Null
    ensures key in m ==> v == m[key]
  {
    if key in m then m[key] else Null
  }

  /** Python truthiness: `None`, `""`, `0` and `[]` are false. */
  predicate Truthy(v: Value) {
    match v
    case Null => false
    case Str(s) => s != []
    case Int(i) => i != 0
    case StrList(items) => items != []
  }

  /** The string held by `v`, or `default` when it holds something else. */
  function StrOr(v: Value, default: string): string {
    if v.Str? then v.s else default
  }
}
