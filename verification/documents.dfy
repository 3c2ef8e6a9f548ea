/**
 The semi-structured object the watcher receives, and path lookup into it.

 A document is a JSON-like tree. Lookups return a tagged result that keeps
 apart a missing field (`NotFound`) and a field of the wrong shape
 (`WrongType`, which the program receives as an error).
 */
module Documents {

  datatype Value =
    | Null                             // JSON null
    | Other                            // a boolean or a number: never inspected
    | Str(s: string)
    | Arr(items: seq<Value>)
    | Obj(fields: map<string, Value>)

  /** One watched object: its whole content is a string-keyed map. */
  datatype Unstructured = Unstructured(content: map<string, Value>)

  datatype Lookup<+T> = Found(value: T) | NotFound | WrongType

  /** Follows `path` from `v`. A null met before the path is exhausted means
      "not found"; any other non-map met before the end is a shape error. */
  function NestedField(v: Value, path: seq<string>): Lookup<Value>
    decreases |path|
  {
    if |path| == 0 then Found(v)
    else match v
      case Null => NotFound
      case Obj(m) => if path[0] in m then NestedField(m[path[0]], path[1..]) else NotFound
      case _ => WrongType
  }

  /** A list at `path`; a value of any other kind there, null included, is a shape error. */
  function NestedSlice(m: map<string, Value>, path: seq<string>): Lookup<seq<Value>>
  {
    match NestedField(Obj(m), path)
    case Found(Arr(xs)) => Found(xs)
    case Found(_) => WrongType
    case NotFound => NotFound
    case WrongType => WrongType
  }

  /** A string at `path`; a value of any other kind there is a shape error. */
  function NestedString(m: map<string, Value>, path: seq<string>): Lookup<string>
  {
    match NestedField(Obj(m), path)
    case Found(Str(s)) => Found(s)
    case Found(_) => WrongType
    case NotFound => NotFound
    case WrongType => WrongType
  }

  /** `metadata.name`, or the empty string when it is missing or not a string. */
  function GetName(u: Unstructured): string
  {
    match NestedString(u.content, ["metadata", "name"])
    case Found(name) => name
    case _ => ""
  }

  /** Walking a longer path is walking its two halves one after the other;
      a miss or a shape error on the first half is final. */
  lemma {:induction false} NestedFieldAppend(v: Value, p: seq<string>, q: seq<string>)
    ensures NestedField(v, p + q) ==
      match NestedField(v, p)
      case Found(w) => NestedField(w, q)
      case NotFound => NotFound
      case WrongType => WrongType
    decreases |p|
  {
    if |p| == 0 {
      assert p + q == q;
    } else {
      assert (p + q)[0] == p[0];
      assert (p + q)[1..] == p[1..] + q;
      match v
      case Obj(m) =>
        if p[0] in m {
          NestedFieldAppend(m[p[0]], p[1..], q);
        }
      case _ =>
    }
  }

  /** A one-field string lookup on a map, stated directly on the map. */
  lemma NestedStringField(m: map<string, Value>, key: string)
    ensures NestedString(m, [key]).Found? <==> key in m && m[key].Str?
    ensures NestedString(m, [key]).Found? ==> m[key] == Str(NestedString(m, [key]).value)
    ensures NestedString(m, [key]).NotFound? <==> key !in m
  {
    var p: seq<string> := [key];
    assert p[0] == key && p[1..] == [];
    if key in m {
      assert NestedField(Obj(m), p) == NestedField(m[key], []) == Found(m[key]);
    } else {
      assert NestedField(Obj(m), p) == NotFound;
    }
  }

  /** The name is read from the `metadata` map when both levels have the expected shape. */
  lemma GetNameOf(u: Unstructured, meta: map<string, Value>, name: string)
    requires "metadata" in u.content && u.content["metadata"] == Obj(meta)
    requires "name" in meta && meta["name"] == Str(name)
    ensures GetName(u) == name
  {
    var p: seq<string> := ["metadata", "name"];
    assert p[1..] == ["name"] && p[1..][1..] == [];
  }
}
