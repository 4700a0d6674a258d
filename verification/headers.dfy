/** Go's `http.Header`: a map from canonical header name to its list of
    values. Keys are taken as already canonical. */
module Headers {

  type HeaderMap = map<string, seq<string>>

  /** `http.Header.Set`: the key ends up with exactly the one value given,
      whatever it held before; every other key keeps its values. */
  function Set(h: HeaderMap, key: string, value: string): (r: HeaderMap)
    ensures r.Keys == h.Keys + {key}
    ensures r[key] == [value]
    ensures forall k :: k in h && k != key ==> r[k] == h[k]
  {
    h[key := [value]]
  }

  /** The last write to a key wins. */
  lemma SetLastWriteWins(h: HeaderMap, key: string, v1: string, v2: string)
    ensures Set(Set(h, key, v1), key, v2) == Set(h, key, v2)
  {
  }

  /** Writes to different keys do not interfere. */
  lemma SetCommutes(h: HeaderMap, k1: string, v1: string, k2: string, v2: string)
    requires k1 != k2
    ensures Set(Set(h, k1, v1), k2, v2) == Set(Set(h, k2, v2), k1, v1)
  {
  }

  /** The header-copying loop of `NormalResponse.WriteTo`: each key of `src`
      overwrites that key on the output, keys `src` lacks stay as they were.
      The loop's result is exactly the right-biased union `out + src`. */
  method CopyOnto(out: HeaderMap, src: HeaderMap) returns (r: HeaderMap)
    ensures r.Keys == out.Keys + src.Keys
    ensures forall k :: k in src ==> r[k] == src[k]
    ensures forall k :: k in out && k !in src ==> r[k] == out[k]
    ensures r == out + src
  {
    r := out;
    var todo := src.Keys;
    while todo != {}
      invariant todo <= src.Keys
      invariant r.Keys == out.Keys + (src.Keys - todo)
      invariant forall k :: k in src && k !in todo ==> r[k] == src[k]
      invariant forall k :: k in out && k !in src ==> r[k] == out[k]
      invariant forall k :: k in out && k in todo ==> r[k] == out[k]
      decreases todo
    {
      var k :| k in todo;
      r := r[k := src[k]];
      todo := todo - {k};
    }
  }
}
