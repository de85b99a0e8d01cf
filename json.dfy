/** The JSON form of a stored document: a map from keys to values, and the
    `toJSON` transform every schema installs (drop `_id` and `__v`, plus
    whatever the schema hides). */
module Json {

  datatype Value =
    | Str(s: string)
    | Num(n: int)
    | Bool(b: bool)
    | Date(t: int)
    | ObjectId(oid: nat)      // a stored ObjectId
    | HexString(hex: nat)     // `_id.toHexString()`, the virtual `id`
    | StrArray(items: seq<string>)

  type Document = map<string, Value>

  /** The keys every transform deletes. */
  const InternalKeys: set<string> := {"_id", "__v"}

  /** `delete transformed._id; delete transformed.__v;` and the schema's own deletions. */
  function Transform(doc: Document, hidden: set<string>): (r: Document)
    ensures forall k :: k in r <==> k in doc && k !in InternalKeys && k !in hidden
    ensures forall k :: k in r ==> r[k] == doc[k]
  {
    map k | k in doc && k !in InternalKeys && k !in hidden :: doc[k]
  }
}
