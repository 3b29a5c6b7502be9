/** One fill between two idle moments of the bus. Every symbol handled so far then has its entry, flat or not, and the
    entries stand in the order in which they last went to the end of the dictionary; so what a fill's scan for its
    prefix meets first can be told from the fills alone. */
module IdleFills {
  import opened OrderedDicts
  import opened PositionBooks
  import opened PositionInvariants

  /** After how many fills the entry of a symbol last went to the end of the dictionary: with its first fill, or with
      the latest that closed it, whose announcement puts the object back. */
  function Entered(fills: seq<Fill>, symbol: Symbol): nat
    decreases |fills|
  {
    if fills == [] then 0
    else
      var n := |fills| - 1;
      if fills[n].symbol == symbol && (!Mentioned(fills[..n], symbol) || Net(fills, symbol) == 0.0) then n + 1
      else Entered(fills[..n], symbol)
  }

  /** The scan for `symbol` meets the key of `other`, which starts with it, before its own. */
  predicate Blocks(before: seq<Fill>, other: Symbol, symbol: Symbol) {
    && other != symbol && Key(symbol) <= Key(other)
    && (!Mentioned(before, symbol) || Entered(before, other) < Entered(before, symbol))
  }

  predicate Blocked(before: seq<Fill>, f: Fill) {
    exists i :: 0 <= i < |before| && Blocks(before, before[i].symbol, f.symbol)
  }

  predicate Free(fills: seq<Fill>) {
    forall j :: 0 <= j < |fills| ==> !Blocked(fills[..j], fills[j]) && !Shorted(fills[..j], fills[j])
  }

  lemma {:induction false} EnteredBound(fills: seq<Fill>, symbol: Symbol)
    ensures Entered(fills, symbol) <= |fills|
    decreases |fills|
  {
    if fills != [] {
      EnteredBound(fills[..|fills| - 1], symbol);
    }
  }

  lemma EnteredAppend(fills: seq<Fill>, f: Fill, symbol: Symbol)
    ensures Entered(fills + [f], symbol)
         == if f.symbol == symbol && (!Mentioned(fills, symbol) || Net(fills + [f], symbol) == 0.0) then |fills| + 1
            else Entered(fills, symbol)
  {
    assert (fills + [f])[..|fills|] == fills;
  }

  // ---------- the invariant between fills ----------

  /** The entries stand in the order in which they were entered. */
  ghost predicate InOrder(dict: seq<Entry<nat>>, store: seq<Pos>, handled: seq<Fill>) {
    && (forall k :: 0 <= k < |dict| ==> dict[k].value < |store|)
    && (forall i, k :: 0 <= i < k < |dict| ==>
          Entered(handled, store[dict[i].value].symbol) < Entered(handled, store[dict[k].value].symbol))
  }

  /** Every symbol handled so far has one object with its net, flat or not, and an entry for it. */
  ghost predicate Settled(store: seq<Pos>, dict: seq<Entry<nat>>, handled: seq<Fill>) {
    && Accurate(store, handled) && Covers(store, handled) && Keyed(dict, store) && InOrder(dict, store, handled)
    && forall r: nat :: r < |store| ==> Listed(dict, r)
  }

  /** A book agrees with the fills when every open object is listed under its key. */
  lemma OpenListedAgrees(b: Book, handled: seq<Fill>)
    requires WellFormed(b) && Accurate(b.store, handled) && Covers(b.store, handled) && Keyed(b.dict, b.store)
    requires forall r: nat :: r < |b.store| && b.store[r].quantity > 0.0 ==> Listed(b.dict, r)
    ensures Agrees(b, handled)
  {
    forall symbol ensures Held(b, symbol) == Net(handled, symbol) {
      var i := Find(b.dict, Key(symbol));
      if i < |b.dict| {
        KeyInjective(symbol, b.store[b.dict[i].value].symbol);
      } else if Mentioned(handled, symbol) {
        assert Owned(b.store, symbol);
        var r :| 0 <= r < |b.store| && b.store[r].symbol == symbol;
      } else {
        UnmentionedNet(handled, symbol);
      }
    }
  }

  lemma SettledSymbol(store: seq<Pos>, dict: seq<Entry<nat>>, handled: seq<Fill>, k: nat)
    requires Settled(store, dict, handled) && k < |dict|
    ensures dict[k].value < |store| && dict[k].key == Key(store[dict[k].value].symbol)
    ensures Mentioned(handled, store[dict[k].value].symbol)
  {
    assert Owned(store, store[dict[k].value].symbol);
  }

  /** The entry of a symbol that has been handled. */
  lemma OwnEntry(store: seq<Pos>, dict: seq<Entry<nat>>, handled: seq<Fill>, symbol: Symbol) returns (k: nat)
    requires Settled(store, dict, handled) && Mentioned(handled, symbol)
    ensures k < |dict| && dict[k].value < |store| && store[dict[k].value].symbol == symbol
    ensures dict[k].key == Key(symbol)
    ensures forall i :: 0 <= i < |dict| && i != k ==> dict[i].value < |store| && store[dict[i].value].symbol != symbol
  {
    hide Key, Mentioned;
    assert Owned(store, symbol);
    var r: nat :| r < |store| && store[r].symbol == symbol;
    assert Listed(dict, r);
    k :| 0 <= k < |dict| && dict[k].value == r;
  }

  /** A free fill finds its own symbol's entry, or nothing when it is the first of its symbol. */
  lemma FreeFinds(store: seq<Pos>, dict: seq<Entry<nat>>, handled: seq<Fill>, f: Fill)
    requires Settled(store, dict, handled) && !Blocked(handled, f)
    ensures var i := FindPrefix(dict, Key(f.symbol));
            && (i < |dict| <==> Mentioned(handled, f.symbol))
            && (i < |dict| ==> dict[i].value < |store| && store[dict[i].value].symbol == f.symbol)
  {
    hide Settled, Key, Blocks;
    var i := FindPrefix(dict, Key(f.symbol));
    if i < |dict| {
      SettledSymbol(store, dict, handled, i);
      var other := store[dict[i].value].symbol;
      if other != f.symbol {
        NotBlocks(handled, f, other);
        var k := OwnEntry(store, dict, handled, f.symbol);
        SettledOrder(store, dict, handled, i, k);
      }
    } else if Mentioned(handled, f.symbol) {
      var k := OwnEntry(store, dict, handled, f.symbol);
    }
  }

  lemma NotBlocks(handled: seq<Fill>, f: Fill, other: Symbol)
    requires !Blocked(handled, f) && Mentioned(handled, other) && other != f.symbol && Key(f.symbol) <= Key(other)
    ensures Mentioned(handled, f.symbol) && Entered(handled, other) >= Entered(handled, f.symbol)
  {
    var j :| 0 <= j < |handled| && handled[j].symbol == other;
    assert !Blocks(handled, handled[j].symbol, f.symbol);
  }

  /** An entry that the scan for the prefix of entry `k` meets first was entered before it. */
  lemma SettledOrder(store: seq<Pos>, dict: seq<Entry<nat>>, handled: seq<Fill>, i: nat, k: nat)
    requires Settled(store, dict, handled) && i < |dict| && k < |dict|
    ensures dict[i].value < |store| && dict[k].value < |store|
    ensures Entered(handled, store[dict[i].value].symbol) < Entered(handled, store[dict[k].value].symbol) <==> i < k
  {
    if k < i {
      assert Entered(handled, store[dict[k].value].symbol) < Entered(handled, store[dict[i].value].symbol);
    }
  }

  /** A blocked fill finds the entry of another symbol. */
  lemma BlockedFinds(store: seq<Pos>, dict: seq<Entry<nat>>, handled: seq<Fill>, f: Fill)
    requires Settled(store, dict, handled) && Blocked(handled, f)
    ensures var i := FindPrefix(dict, Key(f.symbol));
            i < |dict| && dict[i].value < |store| && store[dict[i].value].symbol != f.symbol
  {
    hide Settled, Key;
    var i := FindPrefix(dict, Key(f.symbol));
    var j :| 0 <= j < |handled| && Blocks(handled, handled[j].symbol, f.symbol);
    var other := handled[j].symbol;
    assert Mentioned(handled, other);
    var k := OwnEntry(store, dict, handled, other);
    assert i <= k;
    SettledSymbol(store, dict, handled, i);
    if Mentioned(handled, f.symbol) {
      var m := OwnEntry(store, dict, handled, f.symbol);
      SettledOrder(store, dict, handled, k, m);
    }
  }

  // ---------- one fill ----------

  lemma SettledAgrees(b: Book, handled: seq<Fill>)
    requires WellFormed(b) && Settled(b.store, b.dict, handled)
    ensures Agrees(b, handled)
  {
    OpenListedAgrees(b, handled);
  }

  /** A fill that finds another symbol's entry leaves what its own symbol holds. */
  lemma MisdirectedKeeps(b: Book, f: Fill)
    requires WellFormed(b) && Keyed(b.dict, b.store)
    requires var i := FindPrefix(b.dict, Key(f.symbol)); i < |b.dict| && b.store[b.dict[i].value].symbol != f.symbol
    ensures Held(ApplyFill(b, f), f.symbol) == Held(b, f.symbol)
  {
    hide Hit, Closes, FindPrefix;
    var i, key, c := FindPrefix(b.dict, Key(f.symbol)), Key(f.symbol), ApplyFill(b, f);
    KeysDiffer(b.store[b.dict[i].value].symbol, f.symbol);
    RemoveFinds(b.dict, i, key);
    if Has(b.dict, key) {
      var own := b.store[At(b.dict, key)].symbol;
      KeyInjective(own, f.symbol);
      assert At(c.dict, key) == At(b.dict, key) != b.dict[i].value;
    }
  }

  /** A blocked fill leaves its own symbol's position as it was. */
  lemma BlockedDisagrees(b: Book, handled: seq<Fill>, f: Fill)
    requires WellFormed(b) && Settled(b.store, b.dict, handled) && Blocked(handled, f) && f.quantity > 0.0
    ensures !Agrees(ApplyFill(b, f), handled + [f])
  {
    BlockedFinds(b.store, b.dict, handled, f);
    MisdirectedKeeps(b, f);
    SettledAgrees(b, handled);
    NetAppend(handled, f, f.symbol);
    hide Held, ApplyFill, FindPrefix;
  }

  /** What handling a free fill comes to: the book agrees at once, and is settled after the announcement of object `r`.
      */
  ghost predicate Lands(c: Book, queue: seq<Event>, handled: seq<Fill>, r: nat) {
    && r < |c.store| && c.queue == queue + [PositionUpdated(r)] && Agrees(c, handled)
    && Settled(c.store, Put(c.dict, Key(c.store[r].symbol), r), handled)
  }

  lemma OrderKept(dict: seq<Entry<nat>>, store: seq<Pos>, handled: seq<Fill>, f: Fill, r: nat, p: Pos)
    requires InOrder(dict, store, handled) && r < |store| && store[r].symbol == f.symbol == p.symbol
    requires Mentioned(handled, f.symbol) && Net(handled + [f], f.symbol) != 0.0
    ensures InOrder(dict, store[r := p], handled + [f])
  {
    forall symbol ensures Entered(handled + [f], symbol) == Entered(handled, symbol) {
      EnteredAppend(handled, f, symbol);
    }
    hide Entered;
  }

  /** A symbol whose entry is the last to be entered may have it at the end. */
  lemma OrderAppended(dict: seq<Entry<nat>>, store: seq<Pos>, handled: seq<Fill>, f: Fill, e: Entry<nat>)
    requires InOrder(dict, store, handled) && e.value < |store| && store[e.value].symbol == f.symbol
    requires forall k :: 0 <= k < |dict| ==> store[dict[k].value].symbol != f.symbol
    requires !Mentioned(handled, f.symbol) || Net(handled + [f], f.symbol) == 0.0
    ensures InOrder(dict + [e], store, handled + [f])
  {
    forall symbol
      ensures Entered(handled + [f], symbol) == if symbol == f.symbol then |handled| + 1 else Entered(handled, symbol)
      ensures Entered(handled, symbol) <= |handled|
    {
      EnteredAppend(handled, f, symbol);
      EnteredBound(handled, symbol);
    }
    hide Entered, Net, Mentioned;
  }

  lemma OrderWithout(dict: seq<Entry<nat>>, store: seq<Pos>, handled: seq<Fill>, i: nat, r: nat, p: Pos)
    requires InOrder(dict, store, handled) && i < |dict| && r < |store| && store[r].symbol == p.symbol
    ensures InOrder(RemoveAt(dict, i), store[r := p], handled)
  {
    hide Entered;
  }

  lemma PutBack(dict: seq<Entry<nat>>, key: string, k: nat)
    requires k < |dict| && dict[k].key == key && forall i :: 0 <= i < |dict| && i != k ==> dict[i].key != key
    ensures Put(dict, key, dict[k].value) == dict
    ensures Put(RemoveAt(dict, k), key, dict[k].value) == RemoveAt(dict, k) + [dict[k]]
  {
    FindIs(dict, key, k);
    FindIs(RemoveAt(dict, k), key, |dict| - 1);
  }

  lemma PutNew(dict: seq<Entry<nat>>, key: string, r: nat)
    requires forall i :: 0 <= i < |dict| ==> dict[i].key != key
    ensures Put(dict, key, r) == dict + [Entry(key, r)] == Put(dict + [Entry(key, r)], key, r)
  {
    FindIs(dict, key, |dict|);
    var d := dict + [Entry(key, r)];
    FindIs(d, key, |dict|);
  }

  lemma OwnFound(store: seq<Pos>, dict: seq<Entry<nat>>, handled: seq<Fill>, symbol: Symbol, m: nat)
    requires Settled(store, dict, handled) && m < |dict| && dict[m].value < |store|
    requires store[dict[m].value].symbol == symbol
    requires forall i :: 0 <= i < |dict| && i != m ==> dict[i].value < |store| && store[dict[i].value].symbol != symbol
    ensures dict[m].key == Key(symbol) && forall k :: 0 <= k < |dict| && k != m ==> dict[k].key != Key(symbol)
  {
    forall k | 0 <= k < |dict| && k != m ensures dict[k].key != Key(symbol) {
      SettledSymbol(store, dict, handled, k);
      KeysDiffer(store[dict[k].value].symbol, symbol);
    }
  }

  lemma NoEntry(store: seq<Pos>, dict: seq<Entry<nat>>, handled: seq<Fill>, symbol: Symbol)
    requires Settled(store, dict, handled) && !Mentioned(handled, symbol)
    ensures forall k :: 0 <= k < |dict| ==> dict[k].key != Key(symbol)
  {
    forall k | 0 <= k < |dict| ensures dict[k].key != Key(symbol) {
      SettledSymbol(store, dict, handled, k);
      KeysDiffer(store[dict[k].value].symbol, symbol);
    }
  }

  /** The first fill of a symbol. */
  lemma FreeOpens(b: Book, handled: seq<Fill>, f: Fill)
    requires WellFormed(b) && Settled(b.store, b.dict, handled) && !Blocked(handled, f) && Deliverable(handled, f)
    requires !Mentioned(handled, f.symbol)
    ensures Lands(ApplyFill(b, f), b.queue, handled + [f], |b.store|)
  {
    hide Blocked, Key, Deliverable, Mentioned, FindPrefix, Entered, Accurate, Covers, Net, Blocks;
    var key, store, c := Key(f.symbol), b.store + [Opened(f)], ApplyFill(b, f);
    var e := Entry(key, |b.store|);
    FreeFinds(b.store, b.dict, handled, f);
    NoEntry(b.store, b.dict, handled, f.symbol);
    OpenedKeepsStore(b.store, handled, f);
    PutNew(b.dict, key, |b.store|);
    assert c.store == store && c.dict == b.dict + [e];
    assert InOrder(b.dict, store, handled);
    forall k | 0 <= k < |b.dict| ensures store[b.dict[k].value].symbol != f.symbol {
      SettledSymbol(b.store, b.dict, handled, k);
    }
    OrderAppended(b.dict, store, handled, f, e);
    ListedAfterAppend(b.dict, e);
    OpenListedAgrees(c, handled + [f]);
  }

  lemma HitSettles(store: seq<Pos>, dict: seq<Entry<nat>>, handled: seq<Fill>, f: Fill, k: nat)
    requires Settled(store, dict, handled) && Deliverable(handled, f) && k < |dict| && dict[k].value < |store|
    requires store[dict[k].value].symbol == f.symbol
    ensures var p := Hit(store[dict[k].value], f);
            var s := store[dict[k].value := p];
            && p.symbol == f.symbol && (p.quantity == 0.0 <==> Net(handled + [f], f.symbol) == 0.0)
            && (Closes(store[dict[k].value], f) <==> p.quantity == 0.0)
            && Accurate(s, handled + [f]) && Covers(s, handled + [f]) && Keyed(dict, s)
  {
    var r := dict[k].value;
    HitRight(store[r], handled, f);
    HitKeepsAccurate(store, handled, f, r);
    SymbolsKept(store, handled, f, r, Hit(store[r], f));
    hide Hit, Closes, Net, Key, Mentioned;
  }

  lemma StaysSettled(store: seq<Pos>, dict: seq<Entry<nat>>, handled: seq<Fill>, f: Fill, k: nat)
    requires Settled(store, dict, handled) && Deliverable(handled, f) && k < |dict| && dict[k].value < |store|
    requires store[dict[k].value].symbol == f.symbol && !Closes(store[dict[k].value], f)
    ensures Settled(store[dict[k].value := Hit(store[dict[k].value], f)], dict, handled + [f])
  {
    hide Deliverable, Entered, Accurate, Covers, Hit, Closes, Keyed, Net;
    var r := dict[k].value;
    HitSettles(store, dict, handled, f, k);
    SettledSymbol(store, dict, handled, k);
    OrderKept(dict, store, handled, f, r, Hit(store[r], f));
  }

  lemma ClosesSettled(store: seq<Pos>, dict: seq<Entry<nat>>, handled: seq<Fill>, f: Fill, k: nat)
    requires Settled(store, dict, handled) && Deliverable(handled, f) && k < |dict| && dict[k].value < |store|
    requires store[dict[k].value].symbol == f.symbol && Closes(store[dict[k].value], f)
    ensures var s := store[dict[k].value := Hit(store[dict[k].value], f)];
            Settled(s, RemoveAt(dict, k) + [dict[k]], handled + [f])
    ensures forall t: nat :: t < |store| && t != dict[k].value ==> Listed(RemoveAt(dict, k), t)
    ensures Keyed(RemoveAt(dict, k), store[dict[k].value := Hit(store[dict[k].value], f)])
  {
    hide Deliverable, Entered, Accurate, Covers, Hit, Closes, Net, Key, Mentioned, Listed;
    var r := dict[k].value;
    var p := Hit(store[r], f);
    HitSettles(store, dict, handled, f, k);
    SettledOthers(store, dict, handled, f.symbol, k);
    OrderWithout(dict, store, handled, k, r, p);
    ListedAfterRemove(dict, k);
    ListedAfterAppend(RemoveAt(dict, k), dict[k]);
    OrderAppended(RemoveAt(dict, k), store[r := p], handled, f, dict[k]);
  }

  /** A later fill of a symbol, whether it closes the position or not. */
  lemma FreeHits(b: Book, handled: seq<Fill>, f: Fill, k: nat)
    requires WellFormed(b) && Settled(b.store, b.dict, handled) && Deliverable(handled, f)
    requires k == FindPrefix(b.dict, Key(f.symbol)) < |b.dict|
    requires b.store[b.dict[k].value].symbol == f.symbol
    ensures Lands(ApplyFill(b, f), b.queue, handled + [f], b.dict[k].value)
  {
    hide Key, Deliverable, FindPrefix, InOrder, Accurate, Covers, Net, Hit, Closes, Keyed, Put, RemoveAt;
    var r, c := b.dict[k].value, ApplyFill(b, f);
    HitSettles(b.store, b.dict, handled, f, k);
    SettledOthers(b.store, b.dict, handled, f.symbol, k);
    OwnFound(b.store, b.dict, handled, f.symbol, k);
    PutBack(b.dict, Key(f.symbol), k);
    if Closes(b.store[r], f) {
      ClosesSettled(b.store, b.dict, handled, f, k);
    } else {
      StaysSettled(b.store, b.dict, handled, f, k);
    }
    hide Settled, Listed;
    OpenListedAgrees(c, handled + [f]);
  }

  lemma SettledOthers(store: seq<Pos>, dict: seq<Entry<nat>>, handled: seq<Fill>, symbol: Symbol, k: nat)
    requires Settled(store, dict, handled) && k < |dict| && dict[k].value < |store|
    requires store[dict[k].value].symbol == symbol
    ensures forall i :: 0 <= i < |dict| && i != k ==> dict[i].value < |store| && store[dict[i].value].symbol != symbol
  {
  }

  lemma FreeLands(b: Book, handled: seq<Fill>, f: Fill) returns (r: nat)
    requires WellFormed(b) && Settled(b.store, b.dict, handled) && !Blocked(handled, f) && Deliverable(handled, f)
    ensures Lands(ApplyFill(b, f), b.queue, handled + [f], r)
  {
    hide Settled, Blocked, Key, Deliverable, ApplyFill, Lands;
    FreeFinds(b.store, b.dict, handled, f);
    if Mentioned(handled, f.symbol) {
      var k := FindPrefix(b.dict, Key(f.symbol));
      FreeHits(b, handled, f, k);
      r := b.dict[k].value;
    } else {
      FreeOpens(b, handled, f);
      r := |b.store|;
    }
  }

  /** A fill that comes to a short symbol leaves it wrong. */
  lemma ShortedDisagrees(b: Book, handled: seq<Fill>, f: Fill)
    requires WellFormed(b) && Settled(b.store, b.dict, handled) && !Blocked(handled, f)
    requires f.quantity > 0.0 && Shorted(handled, f)
    ensures !Agrees(ApplyFill(b, f), handled + [f])
  {
    hide Blocked, Key, InOrder, Covers, FindPrefix, ApplyFill, Agrees, Accurate, Net, Keyed;
    if !Mentioned(handled, f.symbol) { UnmentionedNet(handled, f.symbol); }
    FreeFinds(b.store, b.dict, handled, f);
    var i := FindPrefix(b.dict, Key(f.symbol));
    SettledOthers(b.store, b.dict, handled, f.symbol, i);
    OwnFound(b.store, b.dict, handled, f.symbol, i);
    ShortedFill(b, handled, f, i);
  }
}
