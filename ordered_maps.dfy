/**
 * Python dictionaries: the keys in insertion order together with the value
 * of each key. Assigning to a key that is already present keeps the key
 * where it was and replaces its value; assigning to a new key appends it;
 * `pop` removes the key and its value.
 */
module OrderedMaps {

  datatype OrderedMap<K(==), V> = OrderedMap(keys: seq<K>, values: map<K, V>)

  predicate NoDuplicates<K(==)>(s: seq<K>) {
    forall i, j :: 0 <= i < j < |s| ==> s[i] != s[j]
  }

  /** The key order lists each stored key exactly once. */
  predicate Valid<K(==), V>(m: OrderedMap<K, V>) {
    && NoDuplicates(m.keys)
    && (forall i :: 0 <= i < |m.keys| ==> m.keys[i] in m.values)
    && (forall k :: k in m.values ==> k in m.keys)
  }

  /** `{}`. */
  function Empty<K(==), V>(): (r: OrderedMap<K, V>)
    ensures Valid(r) && r.keys == [] && r.values == map[]
  {
    OrderedMap([], map[])
  }

  /** `d[k] = v`. */
  function Put<K(==), V>(m: OrderedMap<K, V>, k: K, v: V): (r: OrderedMap<K, V>)
    ensures r.values == m.values[k := v]
    ensures r.keys == if k in m.values then m.keys else m.keys + [k]
  {
    OrderedMap(if k in m.values then m.keys else m.keys + [k], m.values[k := v])
  }

  /** Assignment keeps the key order duplicate-free and in step with the stored keys. */
  lemma PutValid<K, V>(m: OrderedMap<K, V>, k: K, v: V)
    requires Valid(m)
    ensures Valid(Put(m, k, v))
  {
  }

  /** The position of `k` in `s`. */
  function IndexOf<K(==)>(s: seq<K>, k: K): (i: nat)
    requires k in s
    ensures i < |s| && s[i] == k
    ensures k !in s[..i]
  {
    if s[0] == k then 0 else 1 + IndexOf(s[1..], k)
  }

  /** A position holding `k` with no earlier `k` is the position `IndexOf` finds. */
  lemma IndexOfUnique<K>(s: seq<K>, k: K, j: nat)
    requires j < |s| && s[j] == k && k !in s[..j]
    ensures IndexOf(s, k) == j
  {
    var i := IndexOf(s, k);
    if i < j {
      assert false;
    } else if j < i {
      assert false;
    }
  }

  /** `s` without the entry `s[i]`. */
  function Without<K>(s: seq<K>, i: nat): (r: seq<K>)
    requires i < |s|
    ensures |r| == |s| - 1
    ensures forall j :: 0 <= j < |r| ==> r[j] == if j < i then s[j] else s[j + 1]
  {
    s[..i] + s[i + 1..]
  }

  /** Dropping the entry of a duplicate-free sequence drops exactly that element. */
  lemma WithoutMembers<K>(s: seq<K>, i: nat)
    requires i < |s| && NoDuplicates(s)
    ensures NoDuplicates(Without(s, i))
    ensures forall x :: x in Without(s, i) <==> x in s && x != s[i]
  {
    var r := Without(s, i);
    forall x | x in s && x != s[i]
      ensures x in r
    {
      var j := IndexOf(s, x);
      assert r[if j < i then j else j - 1] == x;
    }
  }

  /** `d.pop(k)`, without the returned value (that is `m.values[k]`). */
  function Remove<K(==), V>(m: OrderedMap<K, V>, k: K): (r: OrderedMap<K, V>)
    requires Valid(m) && k in m.values
    ensures Valid(r)
    ensures r.values == m.values - {k}
  {
    var i := IndexOf(m.keys, k);
    WithoutMembers(m.keys, i);
    OrderedMap(Without(m.keys, i), m.values - {k})
  }

  /** `pop` keeps the other keys in their insertion order: the old order is the new one with `k` put back in place. */
  lemma RemoveKeepsOrder<K, V>(m: OrderedMap<K, V>, k: K)
    requires Valid(m) && k in m.values
    ensures exists i :: 0 <= i <= |Remove(m, k).keys| && m.keys == Remove(m, k).keys[..i] + [k] + Remove(m, k).keys[i..]
  {
    var i := IndexOf(m.keys, k);
    WithoutSplit(m.keys, i);
    assert m.keys == Remove(m, k).keys[..i] + [k] + Remove(m, k).keys[i..];
  }

  /** Putting the dropped entry back at its position restores the sequence. */
  lemma WithoutSplit<K>(s: seq<K>, i: nat)
    requires i < |s|
    ensures s == Without(s, i)[..i] + [s[i]] + Without(s, i)[i..]
  {
    var r := Without(s, i);
    assert r[..i] == s[..i];
    assert r[i..] == s[i + 1..];
    assert s == s[..i] + [s[i]] + s[i + 1..];
  }
}
