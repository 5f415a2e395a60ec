/** A Python `dict` with integer keys: a map plus its insertion order.
    Python iterates a dict in insertion order and keeps a key's place when
    its value is reassigned; the order of a servo-id dict decides the
    order of the entries put on the wire, so the model keeps it. */
module OrderedDict {

  datatype Dict<V> = Dict(keys: seq<int>, vals: map<int, V>) {

    /** Keys are listed once each, and exactly the mapped keys are listed. */
    ghost predicate Valid() {
      && (forall i, j | 0 <= i < j < |keys| :: keys[i] != keys[j])
      && (forall k :: k in vals <==> k in keys)
    }

    /** `d.get(k, default)` */
    function Get(k: int, default: V): (v: V)
      ensures k in vals ==> v == vals[k]
      ensures k !in vals ==> v == default
    {
      if k in vals then vals[k] else default
    }

    /** `d[k] = v`: an existing key keeps its place, a new key goes last. */
    function Set(k: int, v: V): (d: Dict<V>)
      ensures Valid() ==> d.Valid()
      ensures d.vals == vals[k := v]
      ensures k in vals ==> d.keys == keys
      ensures k !in vals ==> d.keys == keys + [k]
    {
      if k in vals then Dict(keys, vals[k := v]) else Dict(keys + [k], vals[k := v])
    }
  }

  function Empty<V>(): (d: Dict<V>)
    ensures d.Valid() && d.keys == []
  {
    Dict([], map[])
  }

  /** A one-entry dict literal `{k: v}`. */
  function Single<V>(k: int, v: V): (d: Dict<V>)
    ensures d.Valid() && d.keys == [k] && d.vals == map[k := v]
  {
    Dict([k], map[k := v])
  }
}
