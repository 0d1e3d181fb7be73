/** The optional value used throughout the model, and lookups that return one. */
module Options {

  datatype Option<+T> = None | Some(value: T)

  /** What a `Map.get` finds: the stored value, or nothing. */
  function Lookup<K, V>(m: map<K, V>, k: K): (r: Option<V>)
    ensures r.Some? <==> k in m
  {
    if k in m then Some(m[k]) else None
  }

  /** Sets the key, or deletes it when there is no value. */
  function Assign<K(!new), V>(m: map<K, V>, k: K, v: Option<V>): (r: map<K, V>)
    ensures Lookup(r, k) == v
    ensures forall other :: other != k ==> Lookup(r, other) == Lookup(m, other)
  {
    match v
    case None => m - {k}
    case Some(x) => m[k := x]
  }

  /** `Array.map`. */
  function Mapped<A, B>(s: seq<A>, f: A -> B): (r: seq<B>)
    ensures |r| == |s| && forall i :: 0 <= i < |r| ==> r[i] == f(s[i])
  {
    if s == [] then [] else Mapped(s[..|s| - 1], f) + [f(s[|s| - 1])]
  }
}
