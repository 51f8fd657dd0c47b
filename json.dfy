/**
 * A parsed JSON or YAML document: objects keep their entries in document order, since the
 * checker reports its findings in the order it meets them.
 */
module JsonModel {
  import opened Wrappers
  import opened Dicts

  datatype Json =
    | Obj(entries: seq<(string, Json)>)
    | Arr(items: seq<Json>)
    | Str(text: string)
    | Null
    /** A number or a boolean; `falsy` for `0`, `0.0` and `false`, which Python tests as false. */
    | Other(falsy: bool)

  /** `{}` */
  const EmptyObject := Obj([])

  /**
   * `d.get(key)` on an object: the value of the entry named `key` (the last such entry, as
   * `json.load` keeps the last of duplicated keys). Anything but an object holds no keys.
   */
  function Get(j: Json, key: string): Option<Json> {
    if j.Obj? then Lookup(j.entries, key) else None
  }

  /** `key in d` */
  predicate HasKey(j: Json, key: string) {
    Get(j, key).Some?
  }

  /** `d.get(key, default)` */
  function GetOr(j: Json, key: string, default: Json): Json {
    Get(j, key).GetOr(default)
  }

  /**
   * A document `json.load` can give: no object in it names the same key twice, since the parser
   * keeps only the last of duplicated keys.
   */
  predicate Parsed(j: Json)
    decreases j
  {
    match j
    case Obj(entries) =>
      && (forall a, b :: 0 <= a < b < |entries| ==> entries[a].0 != entries[b].0)
      && (forall i :: 0 <= i < |entries| ==> Parsed(entries[i].1))
    case Arr(items) => forall i :: 0 <= i < |items| ==> Parsed(items[i])
    case _ => true
  }

  /** Python truthiness: empty containers and strings, `None`, zero and `false` are false. */
  predicate Truthy(j: Json) {
    match j
    case Obj(es) => es != []
    case Arr(xs) => xs != []
    case Str(s) => s != []
    case Null => false
    case Other(falsy) => !falsy
  }
}
