/** Stable sorting by a numeric key, as Python's `sort` does it: the specification the sorting callers refer to. A sort
    is stable if for every key the items with that key stay in order, which also says that no item is lost or added;
    there is one sorted sequence with that property, and taking the first few of it can be done in batches. */
module StableSorting {

  datatype Item<+T> = Item(key: real, value: T)

  predicate Sorted<T>(s: seq<Item<T>>) {
    forall i, j :: 0 <= i < j < |s| ==> s[i].key <= s[j].key
  }

  /** Put `x` after everything whose key does not exceed its own. */
  function Insert<T>(s: seq<Item<T>>, x: Item<T>): (r: seq<Item<T>>)
    ensures |r| == |s| + 1
  {
    if s == [] || s[|s| - 1].key <= x.key then s + [x]
    else Insert(s[..|s| - 1], x) + [s[|s| - 1]]
  }

  function Sort<T>(s: seq<Item<T>>): (r: seq<Item<T>>)
    ensures |r| == |s|
  {
    if s == [] then [] else Insert(Sort(s[..|s| - 1]), s[|s| - 1])
  }

  /** The items with one key, in order. */
  function Only<T>(s: seq<Item<T>>, key: real): seq<Item<T>> {
    if s == [] then []
    else Only(s[..|s| - 1], key) + if s[|s| - 1].key == key then [s[|s| - 1]] else []
  }

  lemma {:induction false} InsertSorted<T>(s: seq<Item<T>>, x: Item<T>)
    requires Sorted(s)
    ensures Sorted(Insert(s, x))
    ensures forall i :: 0 <= i <= |s| ==> Insert(s, x)[i] == x || Insert(s, x)[i] in s
  {
    if s != [] && s[|s| - 1].key > x.key {
      InsertSorted(s[..|s| - 1], x);
    }
  }

  lemma {:induction false} InsertOnly<T>(s: seq<Item<T>>, x: Item<T>, key: real)
    requires Sorted(s)
    ensures Only(Insert(s, x), key) == Only(s, key) + if x.key == key then [x] else []
  {
    if s == [] || s[|s| - 1].key <= x.key {
    } else {
      var n := |s| - 1;
      InsertOnly(s[..n], x, key);
    }
  }

  /** `Sort` sorts, and keeps the items with equal keys as they were: nothing is lost, added or reordered. */
  lemma {:induction false} SortIsStable<T>(s: seq<Item<T>>)
    ensures Sorted(Sort(s))
    ensures forall key :: Only(Sort(s), key) == Only(s, key)
  {
    if s != [] {
      var n := |s| - 1;
      SortIsStable(s[..n]);
      InsertSorted(Sort(s[..n]), s[n]);
      forall key ensures Only(Sort(s), key) == Only(s, key) {
        InsertOnly(Sort(s[..n]), s[n], key);
      }
    }
  }

  lemma CancelLast<T>(a: seq<T>, b: seq<T>, x: T)
    requires a + [x] == b + [x]
    ensures a == b
  {
    assert a == (a + [x])[..|a|] && b == (b + [x])[..|b|];
  }

  lemma SomeOnly<T>(s: seq<Item<T>>)
    ensures s != [] ==> exists key :: Only(s, key) != []
  {
    if s != [] {
      assert Only(s, s[|s| - 1].key) != [];
    }
  }

  /** There is only one sorted sequence with given items per key. */
  lemma {:induction false} SortedIsUnique<T>(s: seq<Item<T>>, t: seq<Item<T>>)
    requires Sorted(s) && Sorted(t) && forall key :: Only(s, key) == Only(t, key)
    ensures s == t
    decreases |s|
  {
    if s == [] || t == [] {
      SomeOnly(s);
      SomeOnly(t);
    } else {
      var m, n := |s| - 1, |t| - 1;
      LastIsGreatest(s, t);
      LastIsGreatest(t, s);
      var key := s[m].key;
      assert Only(s, key)[|Only(s, key)| - 1] == s[m];
      assert Only(t, key)[|Only(t, key)| - 1] == t[n];
      forall k ensures Only(s[..m], k) == Only(t[..n], k) {
        var a, b := Only(s[..m], k), Only(t[..n], k);
        assert Only(s, k) == Only(t, k);
        if k == key {
          CancelLast(a, b, s[m]);
        } else {
          assert a + [] == a && b + [] == b;
        }
      }
      SortedIsUnique(s[..m], t[..n]);
      assert s == s[..m] + [s[m]] && t == t[..n] + [t[n]];
    }
  }

  lemma LastIsGreatest<T>(s: seq<Item<T>>, t: seq<Item<T>>)
    requires Sorted(s) && Sorted(t) && s != [] && t != []
    requires forall key :: Only(s, key) == Only(t, key)
    ensures s[|s| - 1].key <= t[|t| - 1].key
  {
    var key := s[|s| - 1].key;
    assert Only(s, key) != [];
    assert Only(s, key) == Only(t, key);
    hide Only;
    OnlyFrom(t, key);
  }

  lemma {:induction false} OnlyFrom<T>(s: seq<Item<T>>, key: real)
    ensures Only(s, key) != [] ==> exists i :: 0 <= i < |s| && s[i].key == key
  {
    if s != [] && s[|s| - 1].key != key {
      OnlyFrom(s[..|s| - 1], key);
    }
  }

  lemma {:induction false} InsertItems<T>(s: seq<Item<T>>, x: Item<T>)
    ensures multiset(Insert(s, x)) == multiset(s) + multiset{x}
  {
    if s != [] && s[|s| - 1].key > x.key {
      var n := |s| - 1;
      InsertItems(s[..n], x);
      assert s == s[..n] + [s[n]];
    }
  }

  lemma {:induction false} SortItems<T>(s: seq<Item<T>>)
    ensures multiset(Sort(s)) == multiset(s)
  {
    if s != [] {
      var n := |s| - 1;
      SortItems(s[..n]);
      InsertItems(Sort(s[..n]), s[n]);
      assert s == s[..n] + [s[n]];
    }
  }

  function Take<T>(s: seq<T>, k: nat): seq<T> {
    if |s| <= k then s else s[..k]
  }

  /** Inserting beyond the first `k` does not change the first `k`. */
  lemma {:induction false} TakeInsert<T>(s: seq<Item<T>>, x: Item<T>, k: nat)
    requires Sorted(s)
    ensures Take(Insert(Take(s, k), x), k) == Take(Insert(s, x), k)
    decreases |s|
  {
    if |s| > k {
      var n := |s| - 1;
      var t := Take(s, k);
      assert s[..n][..k] == s[..k] == t;
      if s[n].key <= x.key {
        if t != [] {
          assert t[|t| - 1] == s[k - 1] && s[k - 1].key <= s[n].key;
        }
        assert Insert(t, x) == t + [x] && Insert(s, x) == s + [x];
      } else {
        TakeInsert(s[..n], x, k);
        assert Insert(s, x)[..k] == Insert(s[..n], x)[..k];
      }
    }
  }

  lemma {:induction false} InsertLast<T>(s: seq<Item<T>>, x: Item<T>)
    requires Sorted(s + [x])
    ensures Insert(s, x) == s + [x]
  {
    if s != [] {
      assert (s + [x])[|s| - 1].key <= (s + [x])[|s|].key;
    }
  }

  lemma {:induction false} SortSorted<T>(s: seq<Item<T>>)
    requires Sorted(s)
    ensures Sort(s) == s
  {
    if s != [] {
      var n := |s| - 1;
      assert s == s[..n] + [s[n]];
      assert Sort(s) == Insert(Sort(s[..n]), s[n]);
      hide Sort, Insert;
      SortSorted(s[..n]);
      InsertLast(s[..n], s[n]);
    } else {
      assert Sort(s) == s;
    }
  }

  lemma SortNext<T>(a: seq<Item<T>>, x: Item<T>)
    ensures Sort(a + [x]) == Insert(Sort(a), x)
  {
    assert (a + [x])[..|a|] == a;
  }

  /** Keeping only the first `k` between batches loses nothing of the first `k` of them all. */
  lemma {:induction false} TakeSort<T>(a: seq<Item<T>>, b: seq<Item<T>>, k: nat)
    ensures Take(Sort(Take(Sort(a), k) + b), k) == Take(Sort(a + b), k)
    decreases |b|
  {
    hide Sort, Insert;
    if b == [] {
      assert Take(Sort(a), k) + b == Take(Sort(a), k) && a + b == a;
      SortIsStable(a);
      SortSorted(Take(Sort(a), k));
    } else {
      var n := |b| - 1;
      var x, first := b[n], Take(Sort(a), k);
      TakeSort(a, b[..n], k);
      assert first + b == first + b[..n] + [x] && a + b == a + b[..n] + [x];
      SortNext(first + b[..n], x);
      SortNext(a + b[..n], x);
      SortIsStable(first + b[..n]);
      SortIsStable(a + b[..n]);
      TakeInsert(Sort(first + b[..n]), x, k);
      TakeInsert(Sort(a + b[..n]), x, k);
    }
  }

  /** The items with the least key come first. */
  lemma {:induction false} LeastFirst<T>(s: seq<Item<T>>, key: real)
    requires Sorted(s) && forall i :: 0 <= i < |s| ==> key <= s[i].key
    ensures Only(s, key) <= s
    decreases |s|
  {
    if s != [] {
      var n := |s| - 1;
      LeastFirst(s[..n], key);
      assert s == s[..n] + [s[n]];
      if s[n].key == key {
        AllLeast(s[..n], key);
      }
    }
  }

  lemma {:induction false} AllLeast<T>(s: seq<Item<T>>, key: real)
    requires forall i :: 0 <= i < |s| ==> s[i].key == key
    ensures Only(s, key) == s
  {
    if s != [] {
      AllLeast(s[..|s| - 1], key);
      assert s == s[..|s| - 1] + [s[|s| - 1]];
    }
  }
}
