/** PHP arrays with string keys: a lookup table that remembers the order in which keys
    were first inserted. Assigning to a key that is already present keeps its position;
    assigning to a new key appends it. `foreach` and `implode` walk the keys in that order. */
module OrderedMap {

  import opened Wrappers

  datatype Pair<V> = Pair(key: string, value: V)

  type Table<V> = seq<Pair<V>>

  /** The keys of `m`, in iteration order. */
  function Keys<V>(m: Table<V>): (r: seq<string>)
    ensures |r| == |m| && forall i :: 0 <= i < |m| ==> r[i] == m[i].key
  {
    seq(|m|, i requires 0 <= i < |m| => m[i].key)
  }

  /** No key occurs twice, which every table built by `Set` satisfies. */
  predicate UniqueKeys<V>(m: Table<V>) {
    forall i, j :: 0 <= i < j < |m| ==> m[i].key != m[j].key
  }

  /** The position of `k` in `m`, if it is a key. */
  function Find<V>(m: Table<V>, k: string): (r: Option<nat>)
    ensures r.None? <==> k !in Keys(m)
    ensures r.Some? ==> r.value < |m| && m[r.value].key == k
    ensures r.Some? ==> forall i :: 0 <= i < r.value ==> m[i].key != k
    decreases |m|
  {
    if |m| == 0 then None
    else if m[0].key == k then Some(0)
    else
      match Find(m[1..], k)
      case None =>
        assert Keys(m) == [m[0].key] + Keys(m[1..]);
        None
      case Some(i) => Some(i + 1)
  }

  /** `isset($m[$k])` for a table whose values are never `null`. */
  predicate Has<V>(m: Table<V>, k: string) {
    Find(m, k).Some?
  }

  /** `$m[$k]`, or `None` when the key is unset. */
  function Get<V>(m: Table<V>, k: string): (r: Option<V>)
    ensures r.Some? <==> Has(m, k)
  {
    match Find(m, k)
    case None => None
    case Some(i) => Some(m[i].value)
  }

  /** `$m[$k] = $v`. */
  function Set<V>(m: Table<V>, k: string, v: V): (r: Table<V>)
  {
    match Find(m, k)
    case Some(i) => m[i := Pair(k, v)]
    case None => m + [Pair(k, v)]
  }

  /** The first position holding `k` is the one `Find` reports. */
  lemma FindFirst<V>(m: Table<V>, k: string, i: nat)
    requires i < |m| && m[i].key == k
    requires forall j :: 0 <= j < i ==> m[j].key != k
    ensures Find(m, k) == Some(i)
  {
    assert k in Keys(m);
  }

  /** In a table without duplicate keys, each pair is what its key reads. */
  lemma UniqueGet<V>(m: Table<V>, i: nat)
    requires UniqueKeys(m) && i < |m|
    ensures Get(m, m[i].key) == Some(m[i].value)
  {
    FindFirst(m, m[i].key, i);
  }

  /** After `$m[$k] = $v`, reading `$k` gives `$v`. */
  lemma GetSetSame<V>(m: Table<V>, k: string, v: V)
    ensures Get(Set(m, k, v), k) == Some(v)
  {
    var r := Set(m, k, v);
    match Find(m, k)
    case Some(i) =>
      FindFirst(r, k, i);
    case None =>
      assert forall j :: 0 <= j < |m| ==> r[j] == m[j];
      FindFirst(r, k, |m|);
  }

  /** After `$m[$k] = $v`, every other key reads as before. */
  lemma GetSetOther<V>(m: Table<V>, k: string, v: V, k': string)
    requires k' != k
    ensures Get(Set(m, k, v), k') == Get(m, k')
  {
    var r := Set(m, k, v);
    assert |m| <= |r|;
    assert forall j :: 0 <= j < |m| ==> r[j].key == k' ==> m[j].key == k';
    match Find(m, k')
    case Some(i) =>
      FindFirst(r, k', i);
    case None =>
      forall j | 0 <= j < |r| ensures r[j].key != k' {
        if j < |m| { assert m[j].key in Keys(m); }
      }
      assert k' !in Keys(r);
  }

  /** Assignment keeps the position of a key already present and appends a new one. */
  lemma KeysSet<V>(m: Table<V>, k: string, v: V)
    ensures k in Keys(m) ==> Keys(Set(m, k, v)) == Keys(m)
    ensures k !in Keys(m) ==> Keys(Set(m, k, v)) == Keys(m) + [k]
  {
  }

  /** Assignment never creates a duplicate key. */
  lemma UniqueKeysSet<V>(m: Table<V>, k: string, v: V)
    requires UniqueKeys(m)
    ensures UniqueKeys(Set(m, k, v))
  {
    var r := Set(m, k, v);
    match Find(m, k)
    case Some(i) =>
    case None =>
      forall i, j | 0 <= i < j < |r| ensures r[i].key != r[j].key {
        if j == |m| { assert m[i].key in Keys(m); }
      }
  }
}
