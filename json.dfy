/** A JSON document as `serde_json::Value` presents it. Objects are their
    key/value pairs in iteration order. */
module Json {
  import opened Wrappers
  import opened Seqs

  datatype Json =
    | JNull
    | JBool(b: bool)
    | JNum(n: int)
    | JStr(s: string)
    | JArr(items: seq<Json>)
    | JObj(fields: seq<(string, Json)>)

  function Lookup(fields: seq<(string, Json)>, key: string): (r: Option<Json>)
    ensures r.Some? <==> exists i :: 0 <= i < |fields| && fields[i].0 == key
    ensures r.Some? ==> exists i :: 0 <= i < |fields| && fields[i] == (key, r.value)
  {
    if fields == [] then None
    else if fields[0].0 == key then Some(fields[0].1)
    else Lookup(fields[1..], key)
  }

  /** `Value::get` with a string key: the member of an object, None for a
      missing key or for any value that is not an object. */
  function Get(v: Json, key: string): (r: Option<Json>)
    ensures !v.JObj? ==> r.None?
  {
    match v
    case JObj(fields) => Lookup(fields, key)
    case _ => None
  }

  /** `Option<&Value>::and_then(|v| v.get(key))`. */
  function GetOpt(v: Option<Json>, key: string): (r: Option<Json>)
    ensures v.None? ==> r.None?
  {
    match v
    case None => None
    case Some(x) => Get(x, key)
  }

  /** `Value::as_str`. */
  function AsStr(v: Option<Json>): (r: Option<string>)
    ensures r.Some? <==> v.Some? && v.value.JStr?
  {
    match v
    case Some(JStr(s)) => Some(s)
    case _ => None
  }

  /** `Value::as_object`. */
  function AsObject(v: Option<Json>): (r: Option<seq<(string, Json)>>)
    ensures r.Some? <==> v.Some? && v.value.JObj?
  {
    match v
    case Some(JObj(fields)) => Some(fields)
    case _ => None
  }

  /** The members of section `key` of `doc`, in order; none when the
      section is missing or is not an object. */
  function Section(doc: Json, key: string): (fields: seq<(string, Json)>)
    ensures AsObject(Get(doc, key)).Some? ==> fields == AsObject(Get(doc, key)).value
    ensures AsObject(Get(doc, key)).None? ==> fields == []
  {
    AsObject(Get(doc, key)).GetOr([])
  }

  /** The members of several sections, one section after another. */
  function Sections(doc: Json, keys: seq<string>): seq<(string, Json)> {
    if keys == [] then [] else Sections(doc, keys[..|keys| - 1]) + Section(doc, keys[|keys| - 1])
  }

  /** Collecting over one more section appends what that section yields. */
  lemma CollectSectionsStep<U>(doc: Json, keys: seq<string>, k: nat, f: ((string, Json)) -> Option<U>)
    requires k < |keys|
    ensures Collect(Sections(doc, keys[..k + 1]), f) == Collect(Sections(doc, keys[..k]), f) + Collect(Section(doc, keys[k]), f)
  {
    assert keys[..k + 1][..k] == keys[..k];
    CollectAppend(Sections(doc, keys[..k]), Section(doc, keys[k]), f);
  }
}
