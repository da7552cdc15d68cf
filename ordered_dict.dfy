/** Python's `dict` keeps its keys in insertion order; assigning to an
    existing key keeps the key where it is and replaces its value. The
    modelled code relies on this order (JSON output, docker mounts), so a
    dictionary is a sequence of distinct keys together with a map. */
module OrderedDicts {

  datatype Dict<V> = Dict(keys: seq<string>, vals: map<string, V>) {

    /** The keys are distinct and are exactly the keys of the map. */
    ghost predicate Valid() {
      && (forall i, j :: 0 <= i < j < |keys| ==> keys[i] != keys[j])
      && (forall k :: k in vals <==> k in keys)
    }

    /** `d[k] = v` */
    function Put(k: string, v: V): (d: Dict<V>)
      ensures d.vals == vals[k := v]
      ensures k in vals ==> d.keys == keys
      ensures k !in vals ==> d.keys == keys + [k]
    {
      if k in vals then Dict(keys, vals[k := v]) else Dict(keys + [k], vals[k := v])
    }

    /** `list(d.values())`, in key order. */
    function Values(): (vs: seq<V>)
      requires Valid()
      ensures |vs| == |keys|
      ensures forall i :: 0 <= i < |keys| ==> vs[i] == vals[keys[i]]
    {
      seq(|keys|, i requires 0 <= i < |keys| => vals[keys[i]])
    }

    /** `len(d)` */
    function Size(): nat {
      |keys|
    }
  }

  function Empty<V>(): (d: Dict<V>)
    ensures d.Valid() && d.keys == [] && d.vals == map[]
  {
    Dict([], map[])
  }

  /** Assigning a key keeps the dictionary well formed and keeps the
      position of every key already present. */
  lemma PutValid<V>(d: Dict<V>, k: string, v: V)
    requires d.Valid()
    ensures d.Put(k, v).Valid()
    ensures |d.keys| <= |d.Put(k, v).keys|
    ensures forall i :: 0 <= i < |d.keys| ==> d.Put(k, v).keys[i] == d.keys[i]
  {
  }

  /** `d.update(e)`: walks the keys of `e` in order and assigns each one,
      so the new keys of `e` follow those of `d`, and on a shared key the
      value of `e` wins. */
  function Update<V>(d: Dict<V>, e: Dict<V>): (r: Dict<V>)
    requires e.Valid()
  {
    PutAll(d, e.keys, e.vals)
  }

  function PutAll<V>(d: Dict<V>, ks: seq<string>, vals: map<string, V>): Dict<V>
    requires forall k :: k in ks ==> k in vals
    decreases |ks|
  {
    if ks == [] then d else PutAll(d.Put(ks[0], vals[ks[0]]), ks[1..], vals)
  }

  lemma {:induction false} PutAllMeaning<V>(d: Dict<V>, ks: seq<string>, vals: map<string, V>)
    requires d.Valid()
    requires forall k :: k in ks ==> k in vals
    ensures PutAll(d, ks, vals).Valid()
    ensures forall k :: k in PutAll(d, ks, vals).vals <==> k in d.vals || k in ks
    ensures forall k :: k in ks ==> PutAll(d, ks, vals).vals[k] == vals[k]
    ensures forall k :: k in d.vals && k !in ks ==> PutAll(d, ks, vals).vals[k] == d.vals[k]
    ensures |d.keys| <= |PutAll(d, ks, vals).keys|
    ensures PutAll(d, ks, vals).keys[..|d.keys|] == d.keys
    decreases |ks|
  {
    if ks != [] {
      var d' := d.Put(ks[0], vals[ks[0]]);
      PutValid(d, ks[0], vals[ks[0]]);
      PutAllMeaning(d', ks[1..], vals);
      assert forall k :: k in ks <==> k == ks[0] || k in ks[1..];
      assert d'.keys[..|d.keys|] == d.keys;
      PrefixOfPrefix(PutAll(d', ks[1..], vals).keys, d'.keys, d.keys);
    }
  }

  lemma PrefixOfPrefix<T>(x: seq<T>, y: seq<T>, z: seq<T>)
    requires |y| <= |x| && x[..|y|] == y
    requires |z| <= |y| && y[..|z|] == z
    ensures x[..|z|] == z
  {
    assert x[..|z|] == y[..|z|];
  }

  /** The result of `d.update(e)`: the keys of `d` stay in front, and the
      values are those of `e` on its keys and those of `d` elsewhere. */
  lemma UpdateMeaning<V>(d: Dict<V>, e: Dict<V>)
    requires d.Valid() && e.Valid()
    ensures Update(d, e).Valid()
    ensures Update(d, e).vals == d.vals + e.vals
    ensures |d.keys| <= |Update(d, e).keys|
    ensures Update(d, e).keys[..|d.keys|] == d.keys
  {
    PutAllMeaning(d, e.keys, e.vals);
    MapUnion(Update(d, e).vals, d.vals, e.vals);
  }

  /** A map that agrees with `b` on its keys and with `a` elsewhere, and
      has the keys of both, is `a + b`. */
  lemma MapUnion<V>(m: map<string, V>, a: map<string, V>, b: map<string, V>)
    requires forall k :: k in m <==> k in a || k in b
    requires forall k :: k in b ==> m[k] == b[k]
    requires forall k :: k in a && k !in b ==> m[k] == a[k]
    ensures m == a + b
  {
  }
}
