/**
 * Python's built-in `dict`, as an association list in insertion order.
 * Assigning `d[k] = v` replaces the value of an existing key where it stands
 * and appends a new key at the end, so key order is first-insertion order.
 */
module PyDict {
  import opened Wrappers
  import opened Seqs

  datatype Entry<K, V> = Entry(key: K, value: V)

  type Dict<K, V> = seq<Entry<K, V>>

  /** The keys of `d`, in insertion order. */
  function Keys<K, V>(d: Dict<K, V>): (ks: seq<K>)
    ensures |ks| == |d|
    ensures forall i :: 0 <= i < |d| ==> ks[i] == d[i].key
  {
    seq(|d|, i requires 0 <= i < |d| => d[i].key)
  }

  predicate Distinct<T(==)>(s: seq<T>)
  {
    forall i, j :: 0 <= i < j < |s| ==> s[i] != s[j]
  }

  /** `d.get(k)`. */
  function Get<K(==), V>(d: Dict<K, V>, k: K): Option<V>
  {
    if d == [] then None
    else if d[0].key == k then Some(d[0].value)
    else Get(d[1..], k)
  }

  /** `d[k] = v`. */
  function Put<K(==), V>(d: Dict<K, V>, k: K, v: V): Dict<K, V>
  {
    if d == [] then [Entry(k, v)]
    else if d[0].key == k then [Entry(k, v)] + d[1..]
    else [d[0]] + Put(d[1..], k, v)
  }

  lemma KeysOfCons<K, V>(d: Dict<K, V>)
    requires d != []
    ensures Keys(d) == [d[0].key] + Keys(d[1..])
  {
  }

  lemma KeysOfSnoc<K, V>(d: Dict<K, V>, e: Entry<K, V>)
    ensures Keys(d + [e]) == Keys(d) + [e.key]
  {
  }

  /** `d.get(k)` is None exactly when `k` is no key of `d`. */
  lemma {:induction false} GetNone<K, V>(d: Dict<K, V>, k: K)
    ensures Get(d, k).None? <==> k !in Keys(d)
  {
    if d != [] {
      KeysOfCons(d);
      GetNone(d[1..], k);
    }
  }

  /**
   * `d[k] = v` keeps the keys and their order when `k` is a key already,
   * and otherwise appends the new entry at the end.
   */
  lemma {:induction false} PutKeys<K, V>(d: Dict<K, V>, k: K, v: V)
    ensures k in Keys(d) ==> Keys(Put(d, k, v)) == Keys(d)
    ensures k !in Keys(d) ==> Put(d, k, v) == d + [Entry(k, v)]
  {
    if d != [] {
      KeysOfCons(d);
      if d[0].key == k {
        KeysOfCons(Put(d, k, v));
      } else {
        PutKeys(d[1..], k, v);
        KeysOfCons(Put(d, k, v));
        if k !in Keys(d) {
          ConsDecompose(d);
          Assoc([d[0]], d[1..], [Entry(k, v)]);
        }
      }
    }
  }

  /** After `d[k] = v`, looking up `k` gives `v`. */
  lemma {:induction false} PutGet<K, V>(d: Dict<K, V>, k: K, v: V)
    ensures Get(Put(d, k, v), k) == Some(v)
  {
    if d != [] && d[0].key != k {
      PutGet(d[1..], k, v);
      HeadTailOfAppend([d[0]], Put(d[1..], k, v));
    }
  }

  /** `d[k] = v` leaves every other key's lookup as it was. */
  lemma {:induction false} PutGetOther<K, V>(d: Dict<K, V>, k: K, v: V, k': K)
    requires k' != k
    ensures Get(Put(d, k, v), k') == Get(d, k')
  {
    if d != [] && d[0].key != k {
      PutGetOther(d[1..], k, v, k');
      HeadTailOfAppend([d[0]], Put(d[1..], k, v));
    } else if d != [] {
      HeadTailOfAppend([Entry(k, v)], d[1..]);
    }
  }

  /** A dict never holds a key twice, and `d[k] = v` keeps it so. */
  lemma PutDistinct<K, V>(d: Dict<K, V>, k: K, v: V)
    requires Distinct(Keys(d))
    ensures Distinct(Keys(Put(d, k, v)))
  {
    PutKeys(d, k, v);
  }
}
