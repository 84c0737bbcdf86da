/** JSON values as the broker's decoders produce them: `nil`, scalars, slices and string-keyed maps. */
module Json {

  datatype Option<+T> = None | Some(value: T)

  datatype Result<+T> = Ok(value: T) | Err(error: string)

  /** Numbers are kept as integers: nothing in the broker does arithmetic on them. */
  datatype Json =
    | JNull
    | JBool(b: bool)
    | JNumber(n: int)
    | JString(s: string)
    | JList(items: seq<Json>)
    | JMap(entries: map<string, Json>)

  /** The attribute `k` of an object; absent when the value is no object or has no such attribute. */
  function Get(d: Json, k: string): Option<Json> {
    if d.JMap? && k in d.entries then Some(d.entries[k]) else None
  }

  /** The attribute found by following object keys from the root. */
  function Lookup(d: Json, path: seq<string>): Option<Json> {
    if path == [] then Some(d)
    else match Get(d, path[0])
      case None => None
      case Some(v) => Lookup(v, path[1..])
  }

  /** No attribute is null. Nulls inside lists do not matter: lists are replaced whole. */
  predicate NullFree(d: Json) {
    d.JMap? ==> forall k | k in d.entries :: !d.entries[k].JNull? && NullFree(d.entries[k])
  }

  /** The JSON encoder and decoder; their syntax is immaterial here. */
  datatype Codec = Codec(encode: Json -> string, decode: string -> Option<Json>)

  ghost predicate Lawful(codec: Codec) {
    forall v {:trigger codec.encode(v)} :: codec.decode(codec.encode(v)) == Some(v)
  }
}
