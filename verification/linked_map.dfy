/** Kotlin's default `Map` is a `LinkedHashMap`: iteration follows the order
    in which keys were first inserted, and putting an existing key replaces
    its value in place. It is modelled as an association list whose keys are
    distinct; `ToMap` is the plain Dafny map it denotes.
    The functions only compute; what they mean is stated by the lemmas
    below them, so that a proof pays only for the facts it asks for. */
module LinkedMap {
  import opened Wrappers

  type Entries<K, V> = seq<(K, V)>

  /** The key set. */
  function Keys<K(==), V>(m: Entries<K, V>): set<K> {
    if |m| == 0 then {} else {m[0].0} + Keys(m[1..])
  }

  /** No key occurs twice. */
  predicate Distinct<K(==), V>(m: Entries<K, V>) {
    |m| == 0 || (m[0].0 !in Keys(m[1..]) && Distinct(m[1..]))
  }

  /** `m[k]`: the value of the first entry with key `k`. */
  function Get<K(==), V>(m: Entries<K, V>, k: K): Option<V> {
    if |m| == 0 then None
    else if m[0].0 == k then Some(m[0].1)
    else Get(m[1..], k)
  }

  /** Values in iteration order (`m.values`). */
  function Values<K, V>(m: Entries<K, V>): (vs: seq<V>)
    ensures |vs| == |m|
  {
    if |m| == 0 then [] else [m[0].1] + Values(m[1..])
  }

  /** The Dafny map an association list denotes. */
  function ToMap<K(==), V>(m: Entries<K, V>): map<K, V> {
    if |m| == 0 then map[] else ToMap(m[1..])[m[0].0 := m[0].1]
  }

  /** Replaces the value at `k` in place by `f` of the old value, or appends
      `(k, f(None))` when `k` is new. */
  function Upsert<K(==), V>(m: Entries<K, V>, k: K, f: Option<V> -> V): Entries<K, V> {
    if |m| == 0 then [(k, f(None))]
    else if m[0].0 == k then [(k, f(Some(m[0].1)))] + m[1..]
    else [m[0]] + Upsert(m[1..], k, f)
  }

  /** Kotlin `m + (k to v)`. */
  function Put<K(==), V>(m: Entries<K, V>, k: K, v: V): Entries<K, V> {
    Upsert(m, k, _ => v)
  }

  /** Kotlin `m.mapValues { f(it.value) }`. */
  function MapValues<K, V, W>(m: Entries<K, V>, f: V -> W): (r: Entries<K, W>)
    ensures |r| == |m|
  {
    if |m| == 0 then [] else [(m[0].0, f(m[0].1))] + MapValues(m[1..], f)
  }

  /** Kotlin `values.sum()` on a map of reals: the values added in iteration order. */
  function SumValues<K>(m: Entries<K, real>): real {
    if |m| == 0 then 0.0 else m[0].1 + SumValues(m[1..])
  }

  // ----- lookups -----

  /** A lookup succeeds exactly for the keys present. */
  lemma {:induction false} GetKeys<K, V>(m: Entries<K, V>, k: K)
    ensures Get(m, k).Some? <==> k in Keys(m)
  {
    if |m| > 0 && m[0].0 != k {
      GetKeys(m[1..], k);
    }
  }

  /** The denoted map has the same keys and answers the same lookups. */
  lemma {:induction false} ToMapGet<K(!new), V>(m: Entries<K, V>)
    ensures ToMap(m).Keys == Keys(m)
    ensures forall k :: Get(m, k) == (if k in ToMap(m) then Some(ToMap(m)[k]) else None)
  {
    if |m| > 0 {
      ToMapGet(m[1..]);
    }
  }

  /** A Dafny map is determined by the lookups it answers. */
  lemma ToMapUnique<K(!new), V>(m: Entries<K, V>, w: map<K, V>)
    requires forall k :: Get(m, k) == (if k in w then Some(w[k]) else None)
    ensures ToMap(m) == w
  {
    ToMapGet(m);
    var t := ToMap(m);
    forall k
      ensures k in t <==> k in w
      ensures k in t ==> t[k] == w[k]
    {
      assert Get(m, k) == (if k in t then Some(t[k]) else None);
    }
  }

  /** The entry at position `i` is what a lookup of its key finds. */
  lemma {:induction false} GetAt<K, V>(m: Entries<K, V>, i: nat)
    requires Distinct(m) && i < |m|
    ensures Get(m, m[i].0) == Some(m[i].1)
  {
    if i > 0 {
      GetAt(m[1..], i - 1);
      assert m[1..][i - 1] == m[i];
      KeysAt(m[1..], i - 1);
    }
  }

  lemma {:induction false} KeysAt<K, V>(m: Entries<K, V>, i: nat)
    requires i < |m|
    ensures m[i].0 in Keys(m)
  {
    if i > 0 {
      KeysAt(m[1..], i - 1);
      assert m[1..][i - 1] == m[i];
    }
  }

  // ----- updates -----

  /** `Upsert` changes the entry of `k` alone, and keeps keys distinct. */
  lemma {:induction false} UpsertGet<K(!new), V>(m: Entries<K, V>, k: K, f: Option<V> -> V)
    ensures Keys(Upsert(m, k, f)) == Keys(m) + {k}
    ensures Get(Upsert(m, k, f), k) == Some(f(Get(m, k)))
    ensures forall k' :: k' != k ==> Get(Upsert(m, k, f), k') == Get(m, k')
    ensures Distinct(m) ==> Distinct(Upsert(m, k, f))
  {
    if |m| > 0 && m[0].0 != k {
      UpsertGet(m[1..], k, f);
    }
  }

  /** Insertion order: an existing key keeps its position, a new key goes last. */
  lemma {:induction false} UpsertOrder<K(!new), V>(m: Entries<K, V>, k: K, f: Option<V> -> V)
    ensures k in Keys(m) ==>
      (|Upsert(m, k, f)| == |m| && forall i :: 0 <= i < |m| ==> Upsert(m, k, f)[i].0 == m[i].0)
    ensures k !in Keys(m) ==> Upsert(m, k, f) == m + [(k, f(None))]
  {
    if |m| > 0 && m[0].0 != k {
      UpsertOrder(m[1..], k, f);
      assert m[1..] + [(k, f(None))] == (m + [(k, f(None))])[1..];
    }
  }

  /** `m + (k to v)` binds `k` to `v`, leaves every other key as it was, and
      keeps keys distinct. */
  lemma PutMap<K(!new), V>(m: Entries<K, V>, k: K, v: V)
    ensures ToMap(Put(m, k, v)) == ToMap(m)[k := v]
    ensures Distinct(m) ==> Distinct(Put(m, k, v))
  {
    var r := Put(m, k, v);
    UpsertGet(m, k, _ => v);
    ToMapGet(m);
    ToMapUnique(r, ToMap(m)[k := v]);
  }

  /** `m + (k to v)` keeps iteration order: a new key is appended. */
  lemma PutOrder<K(!new), V>(m: Entries<K, V>, k: K, v: V)
    ensures k in Keys(m) ==>
      (|Put(m, k, v)| == |m| && forall i :: 0 <= i < |m| ==> Put(m, k, v)[i].0 == m[i].0)
    ensures k !in Keys(m) ==> Put(m, k, v) == m + [(k, v)]
  {
    UpsertOrder(m, k, _ => v);
  }

  /** `mapValues` keeps the keys, their order, and transforms each value. */
  lemma {:induction false} MapValuesGet<K(!new), V, W>(m: Entries<K, V>, f: V -> W)
    ensures forall i :: 0 <= i < |m| ==> MapValues(m, f)[i] == (m[i].0, f(m[i].1))
    ensures Keys(MapValues(m, f)) == Keys(m)
    ensures forall k :: (Get(MapValues(m, f), k) ==
      match Get(m, k) case Some(v) => Some(f(v)) case None => None)
    ensures Distinct(m) ==> Distinct(MapValues(m, f))
  {
    if |m| > 0 {
      MapValuesGet(m[1..], f);
    }
  }

  // ----- order independence of sums -----

  /** The sum of `w` over the keys `ks`, in no particular order. */
  ghost function SumOver<K>(ks: set<K>, w: map<K, real>): real
    requires ks <= w.Keys
  {
    if ks == {} then 0.0
    else
      var k :| k in ks;
      w[k] + SumOver(ks - {k}, w)
  }

  /** The sum of the values of a Dafny map. */
  ghost function SumMap<K>(w: map<K, real>): real {
    SumOver(w.Keys, w)
  }

  /** Any key may be taken out first. */
  lemma {:induction false} SumOverRemove<K>(ks: set<K>, w: map<K, real>, k: K)
    requires ks <= w.Keys && k in ks
    ensures SumOver(ks, w) == w[k] + SumOver(ks - {k}, w)
    decreases ks
  {
    var j :| j in ks && SumOver(ks, w) == w[j] + SumOver(ks - {j}, w);
    if j != k {
      assert (ks - {j}) - {k} == (ks - {k}) - {j};
      SumOverRemove(ks - {j}, w, k);
      SumOverRemove(ks - {k}, w, j);
    }
  }

  /** Keys outside `ks` do not matter. */
  lemma {:induction false} SumOverFrame<K>(ks: set<K>, w: map<K, real>, w': map<K, real>)
    requires ks <= w.Keys && ks <= w'.Keys
    requires forall k :: k in ks ==> w[k] == w'[k]
    ensures SumOver(ks, w) == SumOver(ks, w')
    decreases ks
  {
    if ks != {} {
      var j :| j in ks && SumOver(ks, w) == w[j] + SumOver(ks - {j}, w);
      SumOverFrame(ks - {j}, w, w');
      SumOverRemove(ks, w', j);
    }
  }

  /** A map's iteration-order sum is the order-free sum of the map it denotes. */
  lemma {:induction false} SumValuesIsSumMap<K(!new)>(m: Entries<K, real>)
    requires Distinct(m)
    ensures SumValues(m) == SumMap(ToMap(m))
  {
    if |m| > 0 {
      SumValuesIsSumMap(m[1..]);
      ToMapGet(m);
      ToMapGet(m[1..]);
      var w := ToMap(m);
      var w' := ToMap(m[1..]);
      SumOverRemove(w.Keys, w, m[0].0);
      assert w.Keys - {m[0].0} == w'.Keys;
      SumOverFrame(w'.Keys, w, w');
    }
  }
}
