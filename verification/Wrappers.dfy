/** Optional values, and what readers of sequences make of them. */
module Wrappers {
  datatype Option<+T> = None | Some(value: T)

  // ----- what readers of sequences return: the items and what follows them -----

  function Cons<V, R>(v: V, r: Option<(seq<V>, R)>): Option<(seq<V>, R)>
  {
    match r
    case None => None
    case Some((vs, rest)) => Some(([v] + vs, rest))
  }

  ghost function Prepend<V, R>(vs: seq<V>, r: Option<(seq<V>, R)>): Option<(seq<V>, R)>
  {
    match r
    case None => None
    case Some((ws, rest)) => Some((vs + ws, rest))
  }

  lemma PrependCons<V, R>(vs: seq<V>, v: V, r: Option<(seq<V>, R)>)
    ensures Prepend(vs, Cons(v, r)) == Prepend(vs + [v], r)
  {
    if r.Some? {
      assert vs + ([v] + r.value.0) == (vs + [v]) + r.value.0;
    }
  }

  lemma PrependNil<V, R>(r: Option<(seq<V>, R)>)
    ensures Prepend([], r) == r
  {
    if r.Some? {
      assert [] + r.value.0 == r.value.0;
    }
  }
}
