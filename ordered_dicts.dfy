/**
 * Python dictionaries remember insertion order, and the ingestion code iterates them:
 * a dictionary is its keys in insertion order together with the key-to-value map.
 * Every dictionary of the dbt artifacts is keyed by strings.
 */
module OrderedDicts {
  import opened Wrappers

  datatype DictRep<V> = DictRep(keys: seq<string>, entries: map<string, V>)

  ghost predicate Distinct(ks: seq<string>)
  {
    forall i, j :: 0 <= i < j < |ks| ==> ks[i] != ks[j]
  }

  ghost predicate WellFormed<V>(d: DictRep<V>)
  {
    && Distinct(d.keys)
    && (forall k :: k in d.entries <==> k in d.keys)
  }

  type Dict<V> = d: DictRep<V> | WellFormed(d) witness DictRep([], map[])

  function Empty<V>(): Dict<V>
  {
    DictRep([], map[])
  }

  /** `d.get(k)`. */
  function Lookup<V>(d: Dict<V>, k: string): Option<V>
  {
    if k in d.entries then Some(d.entries[k]) else None
  }

  /** `d.values()`, in the order of the keys. */
  function Values<V>(d: Dict<V>): (r: seq<V>)
    ensures |r| == |d.keys|
    ensures forall i :: 0 <= i < |d.keys| ==> r[i] == d.entries[d.keys[i]]
  {
    seq(|d.keys|, i requires 0 <= i < |d.keys| => d.entries[d.keys[i]])
  }

  /** `d.items()`, in the order of the keys. */
  function Items<V>(d: Dict<V>): (r: seq<(string, V)>)
    ensures |r| == |d.keys|
    ensures forall i :: 0 <= i < |d.keys| ==> r[i] == (d.keys[i], d.entries[d.keys[i]])
  {
    seq(|d.keys|, i requires 0 <= i < |d.keys| => (d.keys[i], d.entries[d.keys[i]]))
  }

  /** `d[k] = v`: an existing key keeps its place, a new key goes last. */
  function Put<V>(d: Dict<V>, k: string, v: V): (r: Dict<V>)
    ensures r.entries == d.entries[k := v]
    ensures r.keys == if k in d.entries then d.keys else d.keys + [k]
  {
    if k in d.entries then DictRep(d.keys, d.entries[k := v])
    else DictRep(d.keys + [k], d.entries[k := v])
  }

  /**
   * The key order after the keys adds are assigned one after the other into a dictionary
   * whose keys are ks: each key not yet present goes last, a present one stays where it is.
   */
  function KeysAfterPuts(ks: seq<string>, adds: seq<string>): seq<string>
  {
    if adds == [] then ks
    else
      var before := KeysAfterPuts(ks, adds[..|adds| - 1]);
      var k := adds[|adds| - 1];
      if k in before then before else before + [k]
  }

  /** Assigning one more key puts it last unless it is already present. */
  lemma KeysAfterPutsSnoc(ks: seq<string>, adds: seq<string>, k: string)
    ensures KeysAfterPuts(ks, adds + [k]) ==
      var before := KeysAfterPuts(ks, adds); if k in before then before else before + [k]
  {
    assert (adds + [k])[..|adds|] == adds;
  }

  /** A key is present after the assignments exactly when it was before or was assigned. */
  lemma {:induction false} KeysAfterPutsMembers(ks: seq<string>, adds: seq<string>)
    ensures forall k :: k in KeysAfterPuts(ks, adds) <==> k in ks || k in adds
  {
    if adds != [] {
      var front := adds[..|adds| - 1];
      KeysAfterPutsMembers(ks, front);
      assert adds == front + [adds[|adds| - 1]];
    }
  }

  /** Assigning distinct new keys appends them in the order they are assigned. */
  lemma {:induction false} KeysAfterPutsFresh(ks: seq<string>, adds: seq<string>)
    requires Distinct(adds)
    requires forall i :: 0 <= i < |adds| ==> adds[i] !in ks
    ensures KeysAfterPuts(ks, adds) == ks + adds
  {
    if adds != [] {
      var front := adds[..|adds| - 1];
      var k := adds[|adds| - 1];
      assert forall i :: 0 <= i < |front| ==> front[i] == adds[i];
      KeysAfterPutsFresh(ks, front);
      assert forall i :: 0 <= i < |front| ==> front[i] != k;
      assert adds == front + [k];
    }
  }

  /** The first n items of b written into a, one after the other. */
  function PutAll<V>(a: Dict<V>, b: Dict<V>, n: nat): Dict<V>
    requires n <= |b.keys|
  {
    if n == 0 then a
    else
      var k := b.keys[n - 1];
      Put(PutAll(a, b, n - 1), k, b.entries[k])
  }

  /** `{**a, **b}`. */
  function Merge<V>(a: Dict<V>, b: Dict<V>): Dict<V>
  {
    PutAll(a, b, |b.keys|)
  }

  /** The keys of ks that m does not hold, in the order of ks. */
  function Missing<V>(ks: seq<string>, m: map<string, V>): seq<string>
  {
    if ks == [] then []
    else Missing(ks[..|ks| - 1], m) + (if ks[|ks| - 1] in m then [] else [ks[|ks| - 1]])
  }

  lemma {:induction false} PutAllEntries<V>(a: Dict<V>, b: Dict<V>, n: nat)
    requires n <= |b.keys|
    ensures forall k :: k in PutAll(a, b, n).entries <==> k in a.entries || k in b.keys[..n]
    ensures forall k :: k in b.keys[..n] ==> PutAll(a, b, n).entries[k] == b.entries[k]
    ensures forall k :: k in a.entries && k !in b.keys[..n] ==> PutAll(a, b, n).entries[k] == a.entries[k]
  {
    if n > 0 {
      PutAllEntries(a, b, n - 1);
      assert b.keys[..n] == b.keys[..n - 1] + [b.keys[n - 1]];
    }
  }

  lemma {:induction false} PutAllKeys<V>(a: Dict<V>, b: Dict<V>, n: nat)
    requires n <= |b.keys|
    ensures PutAll(a, b, n).keys == a.keys + Missing(b.keys[..n], a.entries)
  {
    if n > 0 {
      PutAllKeys(a, b, n - 1);
      PutAllEntries(a, b, n - 1);
      var k := b.keys[n - 1];
      assert b.keys[..n][..n - 1] == b.keys[..n - 1];
      assert k !in b.keys[..n - 1];
    }
  }

  /** Overlaying b on a keeps every key of either and takes b's value on a shared key. */
  lemma MergeEntries<V>(a: Dict<V>, b: Dict<V>)
    ensures Merge(a, b).entries == a.entries + b.entries
  {
    var n := |b.keys|;
    PutAllEntries(a, b, n);
    assert b.keys[..n] == b.keys;
    var m, u := Merge(a, b).entries, a.entries + b.entries;
    assert m.Keys == u.Keys;
    forall k | k in m ensures m[k] == u[k] {
      if k in b.entries {
        assert k in b.keys[..n];
      }
    }
  }

  /** Overlaying b on a orders the keys as a's keys followed by b's new keys in b's order. */
  lemma MergeKeys<V>(a: Dict<V>, b: Dict<V>)
    ensures Merge(a, b).keys == a.keys + Missing(b.keys, a.entries)
  {
    var n := |b.keys|;
    PutAllKeys(a, b, n);
    assert b.keys[..n] == b.keys;
  }
}
