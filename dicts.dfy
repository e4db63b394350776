/**
 * Python's insertion-ordered `dict` with string keys, as an association list.
 * Assigning to a present key replaces its value in place; a new key goes last.
 */
module Dicts {
  import opened Wrappers

  datatype Dict<V> = Dict(entries: seq<(string, V)>)

  function Empty<V>(): Dict<V> { Dict([]) }

  /** The keys in iteration order. */
  function Keys<V>(d: Dict<V>): (ks: seq<string>)
    ensures |ks| == |d.entries|
    ensures forall i :: 0 <= i < |ks| ==> ks[i] == d.entries[i].0
  {
    seq(|d.entries|, i requires 0 <= i < |d.entries| => d.entries[i].0)
  }

  predicate Distinct(ks: seq<string>) {
    forall i, j :: 0 <= i < j < |ks| ==> ks[i] != ks[j]
  }

  /** A dictionary holds each key once. */
  predicate Valid<V>(d: Dict<V>) {
    Distinct(Keys(d))
  }

  predicate Has<V>(d: Dict<V>, k: string) {
    k in Keys(d)
  }

  /** The position of `k` in iteration order, or -1. */
  function IndexOf<V>(d: Dict<V>, k: string): (r: int)
    ensures -1 <= r < |d.entries|
    ensures r >= 0 ==> d.entries[r].0 == k && forall j :: 0 <= j < r ==> d.entries[j].0 != k
    ensures r == -1 <==> !Has(d, k)
    decreases |d.entries|
  {
    if d.entries == [] then -1
    else if d.entries[0].0 == k then 0
    else
      var r := IndexOf(Dict(d.entries[1..]), k);
      assert Keys(d) == [d.entries[0].0] + Keys(Dict(d.entries[1..]));
      if r < 0 then -1 else r + 1
  }

  /** `d.get(k)` */
  function Get<V>(d: Dict<V>, k: string): (r: Option<V>)
    ensures r.Some? <==> Has(d, k)
    ensures r.Some? ==> r.value == d.entries[IndexOf(d, k)].1
  {
    var i := IndexOf(d, k);
    if i < 0 then None else Some(d.entries[i].1)
  }

  /** `d[k] = v` */
  function Set<V>(d: Dict<V>, k: string, v: V): (r: Dict<V>)
    ensures Keys(r) == if Has(d, k) then Keys(d) else Keys(d) + [k]
    ensures Get(r, k) == Some(v)
    ensures forall k' :: k' != k ==> Get(r, k') == Get(d, k')
    ensures Valid(d) ==> Valid(r)
  {
    var i := IndexOf(d, k);
    var r := if i < 0 then Dict(d.entries + [(k, v)]) else Dict(d.entries[i := (k, v)]);
    assert Keys(r) == if Has(d, k) then Keys(d) else Keys(d) + [k];
    assert forall k' :: k' != k ==> Get(r, k') == Get(d, k') by {
      forall k' | k' != k ensures Get(r, k') == Get(d, k') {
        var a, b := IndexOf(r, k'), IndexOf(d, k');
        if b >= 0 { assert r.entries[b] == d.entries[b]; assert a == b; }
        else { assert !Has(r, k'); }
      }
    }
    r
  }

  /** `{k: f(v) for k, v in d.items()}` */
  function MapValues<V, W>(d: Dict<V>, f: V -> W): (r: Dict<W>)
    ensures Keys(r) == Keys(d)
    ensures forall k :: Get(r, k) == (if Has(d, k) then Some(f(Get(d, k).value)) else None)
  {
    var r := Dict(seq(|d.entries|, i requires 0 <= i < |d.entries| => (d.entries[i].0, f(d.entries[i].1))));
    assert Keys(r) == Keys(d);
    assert forall k :: IndexOf(r, k) == IndexOf(d, k) by {
      forall k ensures IndexOf(r, k) == IndexOf(d, k) {
        var a, b := IndexOf(r, k), IndexOf(d, k);
        if a >= 0 && b >= 0 { assert !(a < b) && !(b < a); }
      }
    }
    r
  }
}
