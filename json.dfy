/**
 * The JSON values an event holds, and the event itself as a map from
 * JSON-pointer path to the value stored there, with the typed getters the
 * decoder uses (`getString`, `getInt`, `getArray`, `getObject`).
 */
module JsonModel {
  import opened Util

  datatype Json =
    | JNull
    | JBool(b: bool)
    | JInt(n: int)
    | JString(s: string)
    | JArray(items: seq<Json>)
    | JObject(members: seq<Member>)

  datatype Member = Member(key: string, value: Json)

  /** An event: each JSON-pointer path that exists, with its value. */
  type Document = map<string, Json>

  function GetString(doc: Document, path: string): (r: Option<string>)
    ensures r.Some? <==> path in doc && doc[path].JString?
    ensures r.Some? ==> doc[path] == JString(r.value)
  {
    if path in doc && doc[path].JString? then Some(doc[path].s) else None
  }

  function GetInt(doc: Document, path: string): (r: Option<int>)
    ensures r.Some? <==> path in doc && doc[path].JInt?
    ensures r.Some? ==> doc[path] == JInt(r.value)
  {
    if path in doc && doc[path].JInt? then Some(doc[path].n) else None
  }

  function GetArray(doc: Document, path: string): (r: Option<seq<Json>>)
    ensures r.Some? <==> path in doc && doc[path].JArray?
    ensures r.Some? ==> doc[path] == JArray(r.value)
  {
    if path in doc && doc[path].JArray? then Some(doc[path].items) else None
  }

  function GetObject(doc: Document, path: string): (r: Option<seq<Member>>)
    ensures r.Some? <==> path in doc && doc[path].JObject?
    ensures r.Some? ==> doc[path] == JObject(r.value)
  {
    if path in doc && doc[path].JObject? then Some(doc[path].members) else None
  }

  /** `k` exists in both documents or in neither, with the same value. */
  predicate SameAt(a: Document, b: Document, k: string) {
    (k in a <==> k in b) && (k in a ==> a[k] == b[k])
  }
}
