/** A .NET `Dictionary<string, V>` as the generator uses it: a sequence of
    entries in insertion order (the order `foreach` visits them, since the
    generator never removes an entry), with `Add` that throws on a present
    key and an indexer assignment that replaces a present entry in place or
    appends a new one. */
module Dictionaries {
  import opened Wrappers

  type Dict<V> = seq<(string, V)>

  function Keys<V>(d: Dict<V>): (ks: seq<string>)
    ensures |ks| == |d|
    ensures forall i :: 0 <= i < |d| ==> ks[i] == d[i].0
  {
    seq(|d|, i requires 0 <= i < |d| => d[i].0)
  }

  predicate HasKey<V>(d: Dict<V>, k: string) {
    k in Keys(d)
  }

  predicate DistinctKeys<V>(d: Dict<V>) {
    forall i, j :: 0 <= i < j < |d| ==> d[i].0 != d[j].0
  }

  /** The position of the first entry with key `k`. */
  function IndexOf<V>(d: Dict<V>, k: string): (i: nat)
    requires HasKey(d, k)
    ensures i < |d| && d[i].0 == k
    ensures forall j :: 0 <= j < i ==> d[j].0 != k
  {
    if d[0].0 == k then 0
    else
      assert Keys(d) == [d[0].0] + Keys(d[1..]);
      var t := IndexOf(d[1..], k);
      assert forall j :: 0 <= j < 1 + t ==> d[j].0 != k by {
        forall j | 1 <= j < 1 + t ensures d[j].0 != k {
          assert d[j] == d[1..][j - 1];
        }
      }
      1 + t
  }

  /** `TryGetValue`: the value stored under `k`. */
  function Lookup<V>(d: Dict<V>, k: string): (r: Option<V>)
    ensures r.None? <==> !HasKey(d, k)
    ensures r.Some? ==> exists i :: 0 <= i < |d| && d[i] == (k, r.value)
  {
    if HasKey(d, k) then Some(d[IndexOf(d, k)].1) else None
  }

  /** `Dictionary.Add`: appends a new entry, throws when the key is present. */
  function Add<V>(d: Dict<V>, k: string, v: V): (r: Result<Dict<V>, string>)
    ensures r.Failure? <==> HasKey(d, k)
    ensures r.Failure? ==> r.error == k
    ensures r.Success? ==> r.value == d + [(k, v)]
    ensures r.Success? && DistinctKeys(d) ==> DistinctKeys(r.value)
  {
    if HasKey(d, k) then Failure(k) else Success(d + [(k, v)])
  }

  /** The indexer assignment `d[k] = v`. */
  function Set<V>(d: Dict<V>, k: string, v: V): (r: Dict<V>)
    ensures HasKey(d, k) ==> Keys(r) == Keys(d)
    ensures !HasKey(d, k) ==> r == d + [(k, v)]
    ensures HasKey(r, k)
    ensures DistinctKeys(d) ==> DistinctKeys(r)
  {
    if HasKey(d, k) then
      var r := d[IndexOf(d, k) := (k, v)];
      assert Keys(r) == Keys(d);
      r
    else
      var r := d + [(k, v)];
      assert Keys(r) == Keys(d) + [k];
      r
  }

  lemma SetLookup<V>(d: Dict<V>, k: string, v: V, k': string)
    requires DistinctKeys(d)
    ensures Lookup(Set(d, k, v), k') == if k' == k then Some(v) else Lookup(d, k')
  {
    var r := Set(d, k, v);
    if k' == k {
      if HasKey(d, k) {
        assert IndexOf(r, k) == IndexOf(d, k);
      } else {
        assert r[|d|].0 == k;
        assert IndexOf(r, k) == |d|;
      }
    } else if HasKey(d, k') {
      var i := IndexOf(d, k');
      assert r[i] == d[i] && Keys(r)[i] == k';
      assert IndexOf(r, k') == i;
    } else {
      assert !HasKey(r, k');
    }
  }
}
