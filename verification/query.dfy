/** The parsed query string of a URL, as Go's `url.Values` holds it: every
    key maps to the list of values given for it, in order. */
module Query {

  type Values = map<string, seq<string>>

  /** `url.Values.Get`: the first value given for `key`, or the empty
      string when the key is absent or has no values. */
  function Get(q: Values, key: string): (v: string)
    ensures key in q && q[key] != [] ==> v == q[key][0]
    ensures (key !in q || q[key] == []) ==> v == ""
  {
    if key in q && |q[key]| > 0 then q[key][0] else ""
  }

  /** `url.Values.Set`: `key` now carries exactly the one value `v`,
      replacing whatever it had; every other key keeps its values. */
  function Set(q: Values, key: string, v: string): (r: Values)
    ensures key in r && r[key] == [v]
    ensures forall k | k != key :: (k in r <==> k in q)
    ensures forall k | k != key && k in q :: r[k] == q[k]
    ensures r.Keys == q.Keys + {key}
  {
    q[key := [v]]
  }

  /** Reading a key back after setting it yields the value set. */
  lemma GetSet(q: Values, key: string, v: string)
    ensures Get(Set(q, key, v), key) == v
  {
  }

  /** Setting one key is invisible to a reader of any other key. */
  lemma GetSetOther(q: Values, key: string, other: string, v: string)
    requires other != key
    ensures Get(Set(q, key, v), other) == Get(q, other)
  {
  }

  /** A second `Set` of the same key overwrites the first; values are
      never accumulated. */
  lemma SetSet(q: Values, key: string, v: string, w: string)
    ensures Set(Set(q, key, v), key, w) == Set(q, key, w)
  {
  }

  /** Setting distinct keys in either order gives the same query. */
  lemma SetCommutes(q: Values, a: string, v: string, b: string, w: string)
    requires a != b
    ensures Set(Set(q, a, v), b, w) == Set(Set(q, b, w), a, v)
  {
  }
}
