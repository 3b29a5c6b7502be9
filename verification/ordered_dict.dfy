/** Python dictionaries keyed by strings, as the sequence of their entries in insertion order. Overwriting a value
    leaves its entry where it is, and a new key goes to the end, so a scan meets the keys in the order in which they
    were first stored. */
module OrderedDicts {

  datatype Entry<+V> = Entry(key: string, value: V)

  /** The index of the entry for `key`, or the length of `d` when there is none. */
  function Find<V>(d: seq<Entry<V>>, key: string): (i: nat)
    ensures i <= |d|
    ensures i < |d| ==> d[i].key == key
    ensures forall k :: 0 <= k < i ==> d[k].key != key
  {
    if d == [] then 0
    else if d[0].key == key then 0
    else
      var j := Find(d[1..], key);
      assert forall k :: 0 < k <= j ==> d[k] == d[1..][k - 1];
      j + 1
  }

  /** The index of the first entry whose key starts with `prefix`, or the length of `d`. */
  function FindPrefix<V>(d: seq<Entry<V>>, prefix: string): (i: nat)
    ensures i <= |d|
    ensures i < |d| ==> prefix <= d[i].key
    ensures forall k :: 0 <= k < i ==> !(prefix <= d[k].key)
  {
    if d == [] then 0
    else if prefix <= d[0].key then 0
    else
      var j := FindPrefix(d[1..], prefix);
      assert forall k :: 0 < k <= j ==> d[k] == d[1..][k - 1];
      j + 1
  }

  predicate Has<V>(d: seq<Entry<V>>, key: string) {
    Find(d, key) < |d|
  }

  function At<V>(d: seq<Entry<V>>, key: string): V
    requires Has(d, key)
  {
    d[Find(d, key)].value
  }

  /** `d[key] = value`: overwrite in place, or append a new entry. */
  function Put<V>(d: seq<Entry<V>>, key: string, value: V): seq<Entry<V>> {
    var i := Find(d, key);
    if i < |d| then d[i := Entry(key, value)] else d + [Entry(key, value)]
  }

  /** `Find` is the only index at which the key could stand first. */
  lemma FindIs<V>(d: seq<Entry<V>>, key: string, i: nat)
    requires i <= |d| && (i < |d| ==> d[i].key == key)
    requires forall k :: 0 <= k < i ==> d[k].key != key
    ensures Find(d, key) == i
  {
  }

  /** After `d[key] = value` the key has the value, any `other` key what it had, and the keys their order. */
  lemma PutFinds<V>(d: seq<Entry<V>>, key: string, value: V, other: string)
    ensures var e := Put(d, key, value);
            && Has(e, key) && At(e, key) == value
            && (other != key ==> Has(e, other) == Has(d, other) && (Has(d, other) ==> At(e, other) == At(d, other)))
            && |e| == (if Has(d, key) then |d| else |d| + 1)
            && forall k :: 0 <= k < |d| ==> e[k].key == d[k].key
  {
    var e, i := Put(d, key, value), Find(d, key);
    assert e[i] == Entry(key, value);
    assert forall k :: 0 <= k < |d| ==> e[k].key == d[k].key && (k != i ==> e[k] == d[k]);
    FindIs(e, key, i);
    if other != key {
      var j := Find(d, other);
      FindIs(e, other, if j < |d| then j else |e|);
    }
  }

  /** `del d[key]` for a key that is present. */
  function RemoveAt<V>(d: seq<Entry<V>>, i: nat): seq<Entry<V>>
    requires i < |d|
  {
    d[..i] + d[i + 1..]
  }

  /** Deleting one entry leaves what every other key has. */
  lemma RemoveFinds<V>(d: seq<Entry<V>>, i: nat, key: string)
    requires i < |d| && d[i].key != key
    ensures Has(RemoveAt(d, i), key) == Has(d, key)
    ensures Has(d, key) ==> At(RemoveAt(d, i), key) == At(d, key)
  {
    var e, j := RemoveAt(d, i), Find(d, key);
    FindIs(e, key, if j > i then j - 1 else j);
  }
}
