/**
 * The values the dictionary helpers handle: Python objects that `json` can
 * write and read back, with `None` as Null, and the contents of a file on disk.
 */
module Values {

  /** A JSON-representable Python value; dictionaries have string keys. */
  datatype Value =
    | Null
    | Boolean(b: bool)
    | Number(n: int)
    | Text(s: string)
    | List(items: seq<Value>)
    | Dict(entries: map<string, Value>)

  type Entries = map<string, Value>

  /** What `json.load` finds in a file: a decoded value, or text that is not valid JSON. */
  datatype Content = Json(value: Value) | Malformed

  /** `d.update(u)`: every key of u takes u's value, every other key of d keeps its own. */
  function Override(d: Entries, u: Entries): (r: Entries)
    ensures r.Keys == d.Keys + u.Keys
    ensures forall k :: k in u ==> r[k] == u[k]
    ensures forall k :: k in d && k !in u ==> r[k] == d[k]
  {
    d + u
  }

  /** Updating twice with the same dictionary is the same as updating once. */
  lemma OverrideIdempotent(d: Entries, u: Entries)
    ensures Override(Override(d, u), u) == Override(d, u)
  {
  }

  /** Two updates in a row equal one update with the second overriding the first. */
  lemma OverrideCompose(d: Entries, u1: Entries, u2: Entries)
    ensures Override(Override(d, u1), u2) == Override(d, Override(u1, u2))
  {
  }
}
