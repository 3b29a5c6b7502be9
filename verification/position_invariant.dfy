/** What a position book says about the fills that have been handled, and the invariant of a book that is right: one
    object for each symbol, with the symbol's net, in a dictionary in which no key is taken for another. Every
    fill of a tame stream keeps it, whether it finds its symbol's object or opens one. */
module PositionInvariants {
  import opened OrderedDicts
  import opened PositionBooks

  function Signed(f: Fill): real {
    if f.side.Buy? then f.quantity else -f.quantity
  }

  /** The net quantity a sequence of fills leaves in a symbol. */
  function Net(fills: seq<Fill>, symbol: Symbol): real
    decreases |fills|
  {
    if fills == [] then 0.0
    else
      var last := fills[|fills| - 1];
      Net(fills[..|fills| - 1], symbol) + if last.symbol == symbol then Signed(last) else 0.0
  }

  lemma NetAppend(fills: seq<Fill>, f: Fill, symbol: Symbol)
    ensures Net(fills + [f], symbol) == Net(fills, symbol) + if f.symbol == symbol then Signed(f) else 0.0
  {
    assert (fills + [f])[..|fills|] == fills;
  }

  predicate Mentioned(fills: seq<Fill>, symbol: Symbol) {
    exists i :: 0 <= i < |fills| && fills[i].symbol == symbol
  }

  /** What the book shows for a symbol. */
  function Held(b: Book, symbol: Symbol): real
    requires WellFormed(b)
  {
    var i := Find(b.dict, Key(symbol));
    if i == |b.dict| then 0.0
    else
      var p := b.store[b.dict[i].value];
      if p.side.Buy? then p.quantity else -p.quantity
  }

  ghost predicate Agrees(b: Book, handled: seq<Fill>) {
    WellFormed(b) && forall symbol :: Held(b, symbol) == Net(handled, symbol)
  }

  // ---------- streams ----------

  predicate Positive(fills: seq<Fill>) {
    forall i :: 0 <= i < |fills| ==> fills[i].quantity > 0.0
  }

  /** The fill comes to a symbol that earlier fills have taken short. */
  predicate Shorted(before: seq<Fill>, f: Fill) { Net(before, f.symbol) < 0.0 }

  /** The fill reopens a symbol that earlier fills have brought back to zero. */
  predicate Reopens(before: seq<Fill>, f: Fill) {
    Mentioned(before, f.symbol) && Net(before, f.symbol) == 0.0
  }

  /** The fill is the first of its symbol, and the key of an earlier symbol starts with that symbol and a colon,
      as the key of "BTC/USDT:USDT" starts with "BTC/USDT:". */
  predicate Shadowed(before: seq<Fill>, f: Fill) {
    !Mentioned(before, f.symbol) && exists i :: 0 <= i < |before| && Key(f.symbol) <= Key(before[i].symbol)
  }

  predicate Tame(fills: seq<Fill>) {
    forall j :: 0 <= j < |fills| ==>
      !Shorted(fills[..j], fills[j]) && !Reopens(fills[..j], fills[j]) && !Shadowed(fills[..j], fills[j])
  }

  lemma {:induction false} UnmentionedNet(fills: seq<Fill>, symbol: Symbol)
    requires !Mentioned(fills, symbol)
    ensures Net(fills, symbol) == 0.0
    decreases |fills|
  {
    if fills != [] {
      UnmentionedNet(fills[..|fills| - 1], symbol);
    }
  }

  lemma MentionedAppend(fills: seq<Fill>, f: Fill, symbol: Symbol)
    ensures Mentioned(fills + [f], symbol) <==> Mentioned(fills, symbol) || f.symbol == symbol
  {
    if Mentioned(fills, symbol) {
      var i :| 0 <= i < |fills| && fills[i].symbol == symbol;
      assert (fills + [f])[i].symbol == symbol;
    }
    if f.symbol == symbol {
      assert (fills + [f])[|fills|].symbol == symbol;
    }
  }

  lemma KeyInjective(a: Symbol, b: Symbol)
    requires Key(a) == Key(b)
    ensures a == b
  {
    assert a.name == Key(a)[..|Key(a)| - 1] == Key(b)[..|Key(b)| - 1] == b.name;
  }

  lemma KeysDiffer(a: Symbol, b: Symbol)
    ensures Key(a) == Key(b) <==> a == b
  {
    if Key(a) == Key(b) {
      KeyInjective(a, b);
    }
  }

  // ---------- the invariant ----------

  /** The position shows the net quantity, a flat one as long. */
  predicate Right(p: Pos, net: real) {
    && 0.0 <= p.quantity && (p.side.Sell? ==> 0.0 < p.quantity)
    && net == if p.side.Buy? then p.quantity else -p.quantity
  }

  /** Each position holds its symbol's net quantity. */
  ghost predicate Accurate(store: seq<Pos>, handled: seq<Fill>) {
    forall r :: 0 <= r < |store| ==> Right(store[r], Net(handled, store[r].symbol))
  }

  /** One object for each symbol handled so far. */
  ghost predicate Covers(store: seq<Pos>, handled: seq<Fill>) {
    && (forall r, t :: 0 <= r < t < |store| ==> store[r].symbol != store[t].symbol)
    && (forall symbol :: Mentioned(handled, symbol) <==> Owned(store, symbol))
  }

  predicate Owned(store: seq<Pos>, symbol: Symbol) {
    exists r :: 0 <= r < |store| && store[r].symbol == symbol
  }

  /** No key is taken for the key of an older object's symbol. */
  ghost predicate Unshadowed(store: seq<Pos>) {
    forall r, t :: 0 <= r < t < |store| ==> !(Key(store[t].symbol) <= Key(store[r].symbol))
  }

  predicate Listed(dict: seq<Entry<nat>>, ref: nat) {
    exists k :: 0 <= k < |dict| && dict[k].value == ref
  }

  ghost predicate Keyed(dict: seq<Entry<nat>>, store: seq<Pos>) {
    forall k :: 0 <= k < |dict| ==> dict[k].value < |store| && dict[k].key == Key(store[dict[k].value].symbol)
  }

  /** Every open object is in the dictionary, after nothing but older objects. */
  ghost predicate Ordered(dict: seq<Entry<nat>>, store: seq<Pos>) {
    && (forall k :: 0 <= k < |dict| ==> dict[k].value < |store|)
    && (forall r :: 0 <= r < |store| && store[r].quantity > 0.0 ==> Listed(dict, r))
    && (forall i, k :: 0 <= i < k < |dict| ==>
          if store[dict[k].value].quantity > 0.0 then dict[i].value < dict[k].value
          else dict[i].value != dict[k].value)
  }

  ghost predicate Inv(b: Book, handled: seq<Fill>) {
    && Accurate(b.store, handled) && Covers(b.store, handled) && Unshadowed(b.store)
    && Keyed(b.dict, b.store) && Ordered(b.dict, b.store)
    && WellFormed(b)
  }

  // ---------- what the invariant is for ----------

  lemma InvAgrees(b: Book, handled: seq<Fill>)
    requires Inv(b, handled)
    ensures Agrees(b, handled)
  {
    forall symbol ensures Held(b, symbol) == Net(handled, symbol) {
      var i := Find(b.dict, Key(symbol));
      if i < |b.dict| {
        KeyInjective(symbol, b.store[b.dict[i].value].symbol);
      } else if Mentioned(handled, symbol) {
        assert Owned(b.store, symbol);
        var r :| 0 <= r < |b.store| && b.store[r].symbol == symbol;
      } else {
        UnmentionedNet(handled, symbol);
      }
    }
  }

  /** A fill for an open symbol finds that symbol's own object. */
  lemma FindsOwn(dict: seq<Entry<nat>>, store: seq<Pos>, r: nat)
    requires Keyed(dict, store) && Ordered(dict, store) && Unshadowed(store)
    requires r < |store| && store[r].quantity > 0.0
    ensures var i := FindPrefix(dict, Key(store[r].symbol)); i < |dict| && dict[i].value == r
  {
    var prefix := Key(store[r].symbol);
    assert Listed(dict, r);
    var k :| 0 <= k < |dict| && dict[k].value == r;
    forall i | 0 <= i < k ensures !(prefix <= dict[i].key) {
      assert dict[i].value < dict[k].value;
    }
    FirstMatch(dict, prefix, k);
  }

  lemma FirstMatch(dict: seq<Entry<nat>>, prefix: string, k: nat)
    requires k < |dict| && prefix <= dict[k].key
    requires forall i :: 0 <= i < k ==> !(prefix <= dict[i].key)
    ensures FindPrefix(dict, prefix) == k
  {
  }

  /** The first fill of an unshadowed symbol finds nothing. */
  lemma FindsNothing(b: Book, handled: seq<Fill>, f: Fill)
    requires Covers(b.store, handled) && Keyed(b.dict, b.store)
    requires !Mentioned(handled, f.symbol) && !Shadowed(handled, f)
    ensures FindPrefix(b.dict, Key(f.symbol)) == |b.dict|
  {
    forall i | 0 <= i < |b.dict| ensures !(Key(f.symbol) <= b.dict[i].key) {
      var symbol := b.store[b.dict[i].value].symbol;
      assert Owned(b.store, symbol);
      assert Mentioned(handled, symbol);
      var j :| 0 <= j < |handled| && handled[j].symbol == symbol;
      assert !(Key(f.symbol) <= Key(handled[j].symbol));
    }
  }

  // ---------- the steps keep the invariant ----------

  /** Storing an object under its key again changes nothing, or appends an object that is not open. */
  lemma PutKeeps(dict: seq<Entry<nat>>, store: seq<Pos>, ref: nat)
    requires Keyed(dict, store) && Ordered(dict, store) && ref < |store|
    requires forall r, t :: 0 <= r < t < |store| ==> store[r].symbol != store[t].symbol
    ensures Keyed(Put(dict, Key(store[ref].symbol), ref), store)
    ensures Ordered(Put(dict, Key(store[ref].symbol), ref), store)
  {
    var key := Key(store[ref].symbol);
    var i := Find(dict, key);
    if i < |dict| {
      KeyInjective(store[dict[i].value].symbol, store[ref].symbol);
      assert dict[i] == Entry(key, ref);
      assert Put(dict, key, ref) == dict;
    } else {
      var d := Put(dict, key, ref);
      assert d == dict + [Entry(key, ref)];
      forall k | 0 <= k < |dict| ensures dict[k].value != ref {
        assert dict[k].key != key;
      }
      ListedAfterAppend(dict, Entry(key, ref));
    }
  }

  lemma ListedAfterAppend(dict: seq<Entry<nat>>, e: Entry<nat>)
    ensures forall r: nat :: Listed(dict + [e], r) <==> Listed(dict, r) || r == e.value
  {
    var d := dict + [e];
    forall r: nat | Listed(dict, r) ensures Listed(d, r) {
      var k :| 0 <= k < |dict| && dict[k].value == r;
      assert d[k].value == r;
    }
    assert d[|dict|].value == e.value;
  }

  lemma ListedAfterRemove(dict: seq<Entry<nat>>, i: nat)
    requires i < |dict|
    ensures forall r: nat :: Listed(dict, r) && r != dict[i].value ==> Listed(RemoveAt(dict, i), r)
  {
    var d := RemoveAt(dict, i);
    forall r: nat | Listed(dict, r) && r != dict[i].value ensures Listed(d, r) {
      var k :| 0 <= k < |dict| && dict[k].value == r;
      assert d[if k > i then k - 1 else k].value == r;
    }
  }

  /** The fill comes to a symbol that is not short. */
  predicate Deliverable(handled: seq<Fill>, f: Fill) {
    f.quantity > 0.0 && Net(handled, f.symbol) >= 0.0
  }

  ghost predicate Fits(handled: seq<Fill>, f: Fill) {
    Deliverable(handled, f) && !Reopens(handled, f) && !Shadowed(handled, f)
  }

  /** Such a fill leaves the position it hits with the new net quantity, long or short. */
  lemma HitRight(p: Pos, handled: seq<Fill>, f: Fill)
    requires p.symbol == f.symbol && Deliverable(handled, f) && Right(p, Net(handled, f.symbol))
    ensures Hit(p, f).symbol == f.symbol && Right(Hit(p, f), Net(handled + [f], f.symbol))
    ensures Closes(p, f) <==> Hit(p, f).quantity == 0.0
    ensures Hit(p, f).quantity == 0.0 <==> Net(handled + [f], f.symbol) == 0.0
  {
    NetAppend(handled, f, f.symbol);
    hide Blend, Gain, Net;
  }

  /** A fill that comes to a short position leaves it wrong: a buy enlarges it, and a sale reduces it or turns it. */
  lemma ShortHit(p: Pos, f: Fill, net: real)
    requires Right(p, net) && net < 0.0 && f.quantity > 0.0
    ensures var q := Hit(p, f);
            (if Closes(p, f) then 0.0 else if q.side.Buy? then q.quantity else -q.quantity) != net + Signed(f)
  {
    hide Blend, Gain;
  }

  lemma HitKeepsAccurate(store: seq<Pos>, handled: seq<Fill>, f: Fill, r: nat)
    requires Accurate(store, handled) && r < |store| && store[r].symbol == f.symbol && Deliverable(handled, f)
    requires forall t :: 0 <= t < |store| && t != r ==> store[t].symbol != store[r].symbol
    ensures Accurate(store[r := Hit(store[r], f)], handled + [f])
  {
    HitRight(store[r], handled, f);
    hide Hit, Deliverable, Right;
    forall t | 0 <= t < |store| && t != r
      ensures Net(handled + [f], store[t].symbol) == Net(handled, store[t].symbol)
    {
    }
  }

  /** Replacing an object's numbers keeps whatever depends on symbols only. */
  lemma SymbolsKept(store: seq<Pos>, handled: seq<Fill>, f: Fill, r: nat, p: Pos)
    requires Covers(store, handled)
    requires r < |store| && store[r].symbol == f.symbol == p.symbol
    ensures Covers(store[r := p], handled + [f]) && (Unshadowed(store) ==> Unshadowed(store[r := p]))
  {
    var s := store[r := p];
    forall symbol ensures Mentioned(handled + [f], symbol) <==> Owned(s, symbol) {
      MentionedAppend(handled, f, symbol);
      OwnedReplace(store, r, p, symbol);
      assert Owned(store, f.symbol);
    }
  }

  lemma OwnedReplace(store: seq<Pos>, r: nat, p: Pos, symbol: Symbol)
    requires r < |store| && p.symbol == store[r].symbol
    ensures Owned(store, symbol) <==> Owned(store[r := p], symbol)
  {
    var s := store[r := p];
    if Owned(store, symbol) {
      var t :| 0 <= t < |store| && store[t].symbol == symbol;
      assert s[t].symbol == symbol;
    }
    if Owned(s, symbol) {
      var t :| 0 <= t < |s| && s[t].symbol == symbol;
      assert store[t].symbol == symbol;
    }
  }

  lemma RemovalKeepsDict(dict: seq<Entry<nat>>, store: seq<Pos>, i: nat)
    requires Keyed(dict, store) && Ordered(dict, store) && i < |dict|
    requires store[dict[i].value].quantity == 0.0
    ensures Keyed(RemoveAt(dict, i), store) && Ordered(RemoveAt(dict, i), store)
  {
    hide Key;
    ListedAfterRemove(dict, i);
  }

  lemma HitKeepsDict(dict: seq<Entry<nat>>, store: seq<Pos>, r: nat, p: Pos)
    requires Keyed(dict, store) && Ordered(dict, store) && r < |store|
    requires store[r].quantity > 0.0 && p.symbol == store[r].symbol && 0.0 <= p.quantity
    ensures Keyed(dict, store[r := p]) && Ordered(dict, store[r := p])
  {
    hide Key;
  }

  lemma FillExisting(b: Book, handled: seq<Fill>, f: Fill) returns (r: nat)
    requires Inv(b, handled) && Fits(handled, f) && Mentioned(handled, f.symbol)
    ensures Inv(ApplyFill(b, f), handled + [f])
    ensures r < |b.store| && b.store[r].symbol == f.symbol
    ensures ApplyFill(b, f).queue == b.queue + [PositionUpdated(r)]
    ensures ApplyFill(b, f).store == b.store[r := Hit(b.store[r], f)]
    ensures var i := FindPrefix(b.dict, Key(f.symbol));
            && i < |b.dict| && b.dict[i].value == r
            && ApplyFill(b, f).dict == if Hit(b.store[r], f).quantity == 0.0 then RemoveAt(b.dict, i) else b.dict
  {
    assert Owned(b.store, f.symbol);
    r :| 0 <= r < |b.store| && b.store[r].symbol == f.symbol;
    assert b.store[r].quantity > 0.0;
    FindsOwn(b.dict, b.store, r);
    var i, p := FindPrefix(b.dict, Key(f.symbol)), Hit(b.store[r], f);
    HitRight(b.store[r], handled, f);
    HitKeepsAccurate(b.store, handled, f, r);
    SymbolsKept(b.store, handled, f, r, p);
    HitKeepsDict(b.dict, b.store, r, p);
    hide Hit, Key, Accurate, Covers, Unshadowed, Keyed, Ordered, Closes, FindPrefix, WellFormed, Fits, Mentioned;
    if Closes(b.store[r], f) {
      RemovalKeepsDict(b.dict, b.store[r := p], i);
    }
  }

  lemma OpenedKeepsStore(store: seq<Pos>, handled: seq<Fill>, f: Fill)
    requires Accurate(store, handled) && Covers(store, handled)
    requires Deliverable(handled, f) && !Mentioned(handled, f.symbol)
    ensures Accurate(store + [Opened(f)], handled + [f])
    ensures Covers(store + [Opened(f)], handled + [f])
  {
    var s := store + [Opened(f)];
    UnmentionedNet(handled, f.symbol);
    forall t | 0 <= t < |store|
      ensures store[t].symbol != f.symbol && Net(handled + [f], store[t].symbol) == Net(handled, store[t].symbol)
    {
      assert Owned(store, store[t].symbol);
    }
    hide Net;
    forall symbol ensures Mentioned(handled + [f], symbol) <==> Owned(s, symbol) {
      MentionedAppend(handled, f, symbol);
      OwnedAppend(store, Opened(f), symbol);
    }
  }

  lemma OpenedUnshadowed(store: seq<Pos>, handled: seq<Fill>, f: Fill)
    requires Covers(store, handled) && Unshadowed(store) && !Shadowed(handled, f) && !Mentioned(handled, f.symbol)
    ensures Unshadowed(store + [Opened(f)])
  {
    forall t | 0 <= t < |store| ensures !(Key(f.symbol) <= Key(store[t].symbol)) {
      assert Owned(store, store[t].symbol);
      var j :| 0 <= j < |handled| && handled[j].symbol == store[t].symbol;
    }
    hide Key;
  }

  lemma OwnedAppend(store: seq<Pos>, p: Pos, symbol: Symbol)
    ensures Owned(store + [p], symbol) <==> Owned(store, symbol) || p.symbol == symbol
  {
    var s := store + [p];
    if Owned(store, symbol) {
      var t :| 0 <= t < |store| && store[t].symbol == symbol;
      assert s[t].symbol == symbol;
    }
    assert s[|store|] == p;
  }

  lemma OpenedKeepsDict(dict: seq<Entry<nat>>, store: seq<Pos>, f: Fill)
    requires Keyed(dict, store) && Ordered(dict, store)
    ensures Keyed(dict + [Entry(Key(f.symbol), |store|)], store + [Opened(f)])
    ensures Ordered(dict + [Entry(Key(f.symbol), |store|)], store + [Opened(f)])
  {
    hide Key;
    ListedAfterAppend(dict, Entry(Key(f.symbol), |store|));
  }

  lemma FillNew(b: Book, handled: seq<Fill>, f: Fill)
    requires Inv(b, handled) && Fits(handled, f) && !Mentioned(handled, f.symbol)
    ensures Inv(ApplyFill(b, f), handled + [f])
    ensures ApplyFill(b, f).store == b.store + [Opened(f)]
    ensures ApplyFill(b, f).queue == b.queue + [PositionUpdated(|b.store|)]
    ensures ApplyFill(b, f).dict == b.dict + [Entry(Key(f.symbol), |b.store|)]
  {
    FindsNothing(b, handled, f);
    OpenedKeepsStore(b.store, handled, f);
    OpenedUnshadowed(b.store, handled, f);
    OpenedKeepsDict(b.dict, b.store, f);
    assert Find(b.dict, Key(f.symbol)) == |b.dict| by {
      forall k | 0 <= k < |b.dict| ensures b.dict[k].key != Key(f.symbol) {
        assert !(Key(f.symbol) <= b.dict[k].key);
      }
    }
    hide Key, Accurate, Covers, Unshadowed, Keyed, Ordered, FindPrefix, WellFormed, Fits, Mentioned;
  }

  // ---------- fills that leave the book wrong ----------

  /** A fill that finds another symbol's position leaves its own symbol, which has no entry, without one. */
  lemma MisdirectedFill(b: Book, handled: seq<Fill>, f: Fill)
    requires WellFormed(b) && f.quantity > 0.0 && Net(handled, f.symbol) == 0.0
    requires FindPrefix(b.dict, Key(f.symbol)) < |b.dict| && Find(b.dict, Key(f.symbol)) == |b.dict|
    ensures !Agrees(ApplyFill(b, f), handled + [f])
  {
    var i, key, c := FindPrefix(b.dict, Key(f.symbol)), Key(f.symbol), ApplyFill(b, f);
    RemoveFinds(b.dict, i, key);
    NetAppend(handled, f, f.symbol);
    hide Hit, Closes, Net, Key, FindPrefix;
    assert Held(c, f.symbol) == 0.0;
  }

  /** A fill that finds its own symbol short leaves it wrong. */
  lemma ShortedFill(b: Book, handled: seq<Fill>, f: Fill, i: nat)
    requires WellFormed(b) && Accurate(b.store, handled) && f.quantity > 0.0 && Shorted(handled, f)
    requires i == FindPrefix(b.dict, Key(f.symbol)) < |b.dict| && b.store[b.dict[i].value].symbol == f.symbol
    requires b.dict[i].key == Key(f.symbol)
    requires forall k :: 0 <= k < |b.dict| && k != i ==> b.dict[k].key != Key(f.symbol)
    ensures !Agrees(ApplyFill(b, f), handled + [f])
  {
    var r, c, key := b.dict[i].value, ApplyFill(b, f), Key(f.symbol);
    ShortHit(b.store[r], f, Net(handled, f.symbol));
    NetAppend(handled, f, f.symbol);
    hide Hit, Closes, Net, Key, FindPrefix;
    if Closes(b.store[r], f) {
      FindIs(c.dict, key, |c.dict|);
    } else {
      FindIs(c.dict, key, i);
    }
  }
}
