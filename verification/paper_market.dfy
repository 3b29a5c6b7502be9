/** The market prices that the positions of the paper account show. */
module PaperMarkets {
  // The price of an open position is read off the events: whichever came later, its own last fill, or a price update of
  // any symbol, which marks all positions to the latest price of their own.

  import opened Arithmetic
  import opened FillPricing
  import opened OrderedDicts
  import opened PaperAccounts

  predicate Draws(t: Terms, e: Event) { e.UpdatePrice? && |e.draws| == t.book.bookLevels }

  /** The latest price of a symbol. */
  function LastPrice(t: Terms, events: seq<Event>, symbol: string): Option<real>
    decreases |events|
  {
    if events == [] then None
    else
      var n := |events| - 1;
      if Draws(t, events[n]) && events[n].symbol == symbol then Some(events[n].price)
      else LastPrice(t, events[..n], symbol)
  }

  /** The fills of a run. */
  function FillsOf(t: Terms, initial: real, events: seq<Event>): seq<Fill> {
    Play(t, Opening(initial), events).account.fills
  }

  /** The last event is an order that was filled for the position under `key`. */
  predicate FillsLast(t: Terms, initial: real, events: seq<Event>, key: string)
    requires events != []
  {
    var n := |events| - 1;
    && events[n].Execute? && PosKey(events[n].o.symbol, events[n].o.strategyId) == key
    && |FillsOf(t, initial, events)| > |FillsOf(t, initial, events[..n])|
  }

  /** The price that an open position in `symbol` under `key` shows after a run. */
  function Shown(t: Terms, initial: real, events: seq<Event>, key: string, symbol: string): Option<real>
    decreases |events|
  {
    if events == [] then None
    else
      var n := |events| - 1;
      if Draws(t, events[n]) then LastPrice(t, events, symbol)
      else if FillsLast(t, initial, events, key) then
        var fills := FillsOf(t, initial, events);
        Some(fills[|fills| - 1].price)
      else Shown(t, initial, events[..n], key, symbol)
  }

  // ---------- the invariant ----------

  ghost predicate DistinctKeys(d: seq<Entry<Pos>>) {
    forall i, j :: 0 <= i < j < |d| ==> d[i].key != d[j].key
  }

  /** The books hold the latest prices. */
  ghost predicate Priced(t: Terms, events: seq<Event>, books: map<string, Quote>) {
    forall symbol :: LastPrice(t, events, symbol) == if symbol in books then Some(books[symbol].mid) else None
  }

  ghost predicate Shows(t: Terms, initial: real, events: seq<Event>, s: State) {
    forall i :: 0 <= i < |s.account.positions| ==>
      var e := s.account.positions[i];
      && e.value.symbol in s.books
      && (e.value.quantity == 0.0 ==> e.value.avgEntry == 0.0)
      && (e.value.quantity > 0.0 ==>
            Shown(t, initial, events, e.key, e.value.symbol) == Some(e.value.currentPrice))
  }

  ghost predicate Tracks(t: Terms, initial: real, events: seq<Event>, s: State) {
    DistinctKeys(s.account.positions) && Priced(t, events, s.books) && Shows(t, initial, events, s)
  }

  // ---------- one event more ----------

  lemma {:induction false} PlaySnoc(t: Terms, s: State, events: seq<Event>, e: Event)
    ensures Play(t, s, events + [e]) == Apply(t, Play(t, s, events), e)
    decreases |events|
  {
    hide Apply;
    if events == [] {
      assert events + [e] == [e] && [e][1..] == [];
      assert Play(t, s, events + [e]) == Play(t, Apply(t, s, e), [e][1..]);
    } else {
      assert (events + [e])[1..] == events[1..] + [e];
      PlaySnoc(t, Apply(t, s, events[0]), events[1..], e);
    }
  }

  lemma LastPriceSnoc(t: Terms, events: seq<Event>, e: Event, symbol: string)
    ensures LastPrice(t, events + [e], symbol)
         == if Draws(t, e) && e.symbol == symbol then Some(e.price) else LastPrice(t, events, symbol)
  {
    assert (events + [e])[..|events|] == events;
  }

  lemma ShownSnoc(t: Terms, initial: real, events: seq<Event>, e: Event, key: string, symbol: string)
    ensures Shown(t, initial, events + [e], key, symbol)
         == if Draws(t, e) then LastPrice(t, events + [e], symbol)
            else if FillsLast(t, initial, events + [e], key) then
              var fills := FillsOf(t, initial, events + [e]);
              Some(fills[|fills| - 1].price)
            else Shown(t, initial, events, key, symbol)
    ensures FillsLast(t, initial, events + [e], key) <==>
              && e.Execute? && PosKey(e.o.symbol, e.o.strategyId) == key
              && |FillsOf(t, initial, events + [e])| > |FillsOf(t, initial, events)|
  {
    assert (events + [e])[..|events|] == events;
    hide LastPrice, FillsOf, PosKey;
  }

  /** A price update marks every open position to the latest price of its symbol. */
  lemma Marks(d: seq<Entry<Pos>>, prices: map<string, real>, i: nat)
    requires i < |d| && d[i].value.symbol in prices
    ensures var p, q := d[i].value, Repriced(d, prices)[i].value;
            && |Repriced(d, prices)| == |d| && Repriced(d, prices)[i].key == d[i].key
            && q.quantity == p.quantity && q.symbol == p.symbol && q.avgEntry == p.avgEntry
            && (p.quantity > 0.0 ==> q.currentPrice == prices[p.symbol])
  {
    hide Profit;
  }

  lemma UpdateTracks(t: Terms, initial: real, events: seq<Event>, s: State, e: Event)
    requires Tracks(t, initial, events, s) && Draws(t, e)
    ensures Tracks(t, initial, events + [e], Apply(t, s, e))
  {
    hide QuoteAt, Repriced, LastPrice, Shown, FillsLast, FillsOf;
    var v := Apply(t, s, e);
    var d, prices := s.account.positions, Mids(v.books);
    RepricedLength(d, prices);
    forall symbol
      ensures LastPrice(t, events + [e], symbol) == if symbol in v.books then Some(v.books[symbol].mid) else None
    {
      LastPriceSnoc(t, events, e, symbol);
      QuotedMid(t, e);
    }
    forall i: nat | i < |d|
      ensures var q := v.account.positions[i];
              && |v.account.positions| == |d| && q.key == d[i].key && q.value.symbol in v.books
              && (q.value.quantity == 0.0 ==> q.value.avgEntry == 0.0)
              && (q.value.quantity > 0.0 ==>
                    Shown(t, initial, events + [e], q.key, q.value.symbol) == Some(q.value.currentPrice))
    {
      Marks(d, prices, i);
      ShownSnoc(t, initial, events, e, d[i].key, d[i].value.symbol);
    }
  }

  lemma RepricedLength(d: seq<Entry<Pos>>, prices: map<string, real>)
    ensures |Repriced(d, prices)| == |d|
  {
  }

  lemma QuotedMid(t: Terms, e: Event)
    requires Draws(t, e)
    ensures QuoteAt(t.book, e.price, e.draws).mid == e.price
  {
  }

  // ---------- one order more ----------

  /** What a filled order leaves: its fill at the end of the log, and under its key a position that shows its price. */
  lemma SettledShows(a: Account, key: string, f: Fill)
    requires DistinctKeys(a.positions)
    ensures var b := Settled(a, key, f);
            && b.fills == a.fills + [f] && DistinctKeys(b.positions)
            && (forall i :: 0 <= i < |b.positions| ==>
                  if b.positions[i].key == key then
                    && b.positions[i].value.currentPrice == f.price
                    && (b.positions[i].value.quantity == 0.0 ==> b.positions[i].value.avgEntry == 0.0)
                    && (b.positions[i].value.symbol == f.symbol
                        || (i < |a.positions| && b.positions[i].value.symbol == a.positions[i].value.symbol))
                  else i < |a.positions| && b.positions[i] == a.positions[i])
  {
    hide Resized, Profit, CashFlow, ClosingTrade, Recorded, Updated;
    var i := Find(a.positions, key);
    var p := Held(a, key, f);
    UpdatedShows(p, f);
  }

  lemma UpdatedShows(p: Pos, f: Fill)
    ensures Updated(p, f).currentPrice == f.price && Updated(p, f).symbol == p.symbol
    ensures Updated(p, f).quantity == 0.0 ==> Updated(p, f).avgEntry == 0.0
  {
    hide Profit;
  }

  /** An order changes nothing, or is filled for the position under its key. */
  lemma PlacedShows(t: Terms, a: Account, o: Order, quote: Quote, quantity: real, root: real) returns (price: real)
    requires DistinctKeys(a.positions)
    ensures var b, key := Placed(t, a, o, quote, quantity, root), PosKey(o.symbol, o.strategyId);
            || b == a
            || (&& |b.fills| == |a.fills| + 1 && b.fills[|a.fills|].price == price && DistinctKeys(b.positions)
                && forall i :: 0 <= i < |b.positions| ==>
                     if b.positions[i].key == key then
                       && b.positions[i].value.currentPrice == price
                       && (b.positions[i].value.quantity == 0.0 ==> b.positions[i].value.avgEntry == 0.0)
                       && (b.positions[i].value.symbol == o.symbol
                           || (i < |a.positions| && b.positions[i].value.symbol == a.positions[i].value.symbol))
                     else i < |a.positions| && b.positions[i] == a.positions[i])
  {
    hide SimulatedPrice, Slipped, TieredFee, IsMaker, Settled, WithEquity, Equity, Affordable;
    price := 0.0;
    if Walked(o, quote).Price? {
      price := Slipped(t, o, Walked(o, quote).price, root);
      SettledShows(a, PosKey(o.symbol, o.strategyId),
                   MadeFill(o, price, quantity, TieredFee(t, a.volume, IsMaker(o, quote.mid))));
    }
  }

  lemma ExecuteTracks(t: Terms, initial: real, events: seq<Event>, s: State, e: Event)
    requires s == Play(t, Opening(initial), events) && Tracks(t, initial, events, s) && e.Execute?
    ensures Tracks(t, initial, events + [e], Apply(t, s, e))
  {
    hide LastPrice, Shown, Placed, FillsLast, Play, PosKey;
    PlaySnoc(t, Opening(initial), events, e);
    var v := Apply(t, s, e);
    forall symbol ensures LastPrice(t, events + [e], symbol) == LastPrice(t, events, symbol) {
      LastPriceSnoc(t, events, e, symbol);
    }
    forall key, symbol
      ensures Shown(t, initial, events + [e], key, symbol)
           == if PosKey(e.o.symbol, e.o.strategyId) == key && |v.account.fills| > |s.account.fills| then
                Some(v.account.fills[|v.account.fills| - 1].price)
              else Shown(t, initial, events, key, symbol)
    {
      ShownSnoc(t, initial, events, e, key, symbol);
    }
    if e.o.symbol in s.books {
      var price := PlacedShows(t, s.account, e.o, s.books[e.o.symbol], e.quantity, e.root);
    }
  }

  lemma NothingTracks(t: Terms, initial: real, events: seq<Event>)
    requires events == []
    ensures Tracks(t, initial, events, Play(t, Opening(initial), events))
  {
  }

  lemma {:induction false} RunTracks(t: Terms, initial: real, events: seq<Event>)
    ensures Tracks(t, initial, events, Play(t, Opening(initial), events))
    decreases |events|
  {
    hide Tracks, Apply, Play;
    if events == [] {
      NothingTracks(t, initial, events);
    } else {
      var n := |events| - 1;
      var init, e := events[..n], events[n];
      assert events == init + [e];
      RunTracks(t, initial, init);
      PlaySnoc(t, Opening(initial), init, e);
      var s := Play(t, Opening(initial), init);
      if Draws(t, e) {
        UpdateTracks(t, initial, init, s, e);
      } else if e.Execute? {
        ExecuteTracks(t, initial, init, s, e);
      } else {
        IdleTracks(t, initial, init, s, e);
      }
    }
  }

  lemma IdleTracks(t: Terms, initial: real, events: seq<Event>, s: State, e: Event)
    requires Tracks(t, initial, events, s) && !Draws(t, e) && !e.Execute?
    ensures Tracks(t, initial, events + [e], Apply(t, s, e))
  {
    hide LastPrice, Shown, FillsLast;
    assert Apply(t, s, e) == s;
    forall symbol ensures LastPrice(t, events + [e], symbol) == LastPrice(t, events, symbol) {
      LastPriceSnoc(t, events, e, symbol);
    }
    forall key, symbol
      ensures Shown(t, initial, events + [e], key, symbol) == Shown(t, initial, events, key, symbol)
    {
      ShownSnoc(t, initial, events, e, key, symbol);
    }
  }

  // ---------- the theorems ----------

  /** At any time an open position shows the price of its own last fill or, if a price update came later, the latest
      price of its symbol; and its unrealised profit is what selling it at that price would bring over its cost. */
  lemma ShownTheorem(t: Terms, initial: real, events: seq<Event>, i: nat)
    requires Sized(events) && i < |Play(t, Opening(initial), events).account.positions|
    requires Play(t, Opening(initial), events).account.positions[i].value.quantity > 0.0
    ensures var e := Play(t, Opening(initial), events).account.positions[i];
            && Shown(t, initial, events, e.key, e.value.symbol) == Some(e.value.currentPrice)
            && e.value.unrealized == (e.value.currentPrice - e.value.avgEntry) * e.value.quantity
  {
    RunTracks(t, initial, events);
    PlayBalances(t, Opening(initial), events, initial);
    hide Play, Shown;
    var p := Play(t, Opening(initial), events).account.positions[i].value;
    ProfitOf(p);
  }

  lemma ProfitOf(p: Pos)
    requires p.side.Buy? && p.unrealized == Worth(p.quantity, p.currentPrice) - Cost(p)
    ensures p.unrealized == (p.currentPrice - p.avgEntry) * p.quantity
  {
  }

  /** A closed position shows no entry price. */
  lemma ClosedTheorem(t: Terms, initial: real, events: seq<Event>, i: nat)
    requires i < |Play(t, Opening(initial), events).account.positions|
    requires Play(t, Opening(initial), events).account.positions[i].value.quantity == 0.0
    ensures Play(t, Opening(initial), events).account.positions[i].value.avgEntry == 0.0
  {
    RunTracks(t, initial, events);
    hide Play, Shown;
  }

  /** A price update is seen at once by every open position of its symbol. */
  lemma UpdateShows(t: Terms, initial: real, events: seq<Event>, e: Event, i: nat)
    requires Sized(events) && Draws(t, e)
    requires i < |Play(t, Opening(initial), events + [e]).account.positions|
    requires Play(t, Opening(initial), events + [e]).account.positions[i].value.quantity > 0.0
    requires Play(t, Opening(initial), events + [e]).account.positions[i].value.symbol == e.symbol
    ensures var p := Play(t, Opening(initial), events + [e]).account.positions[i].value;
            p.currentPrice == e.price && p.unrealized == (e.price - p.avgEntry) * p.quantity
  {
    ShownTheorem(t, initial, events + [e], i);
    ShownSnoc(t, initial, events, e, Play(t, Opening(initial), events + [e]).account.positions[i].key, e.symbol);
    LastPriceSnoc(t, events, e, e.symbol);
    hide Play, Shown, LastPrice;
  }

  /** What the open positions would bring over their cost at the prices they should show. */
  function MarketProfit(t: Terms, initial: real, events: seq<Event>, positions: seq<Entry<Pos>>): real {
    if positions == [] then 0.0
    else
      var e := positions[0];
      var shown := Shown(t, initial, events, e.key, e.value.symbol);
      (if e.value.quantity > 0.0 && shown.Some? then (shown.value - e.value.avgEntry) * e.value.quantity else 0.0)
      + MarketProfit(t, initial, events, positions[1..])
  }

  /** The equity figure is the cash plus the profit of the open positions at the prices that the events give them. */
  lemma MarketEquity(t: Terms, initial: real, events: seq<Event>)
    requires Sized(events)
    ensures var a := Play(t, Opening(initial), events).account;
            Equity(a) == a.cash + MarketProfit(t, initial, events, a.positions)
  {
    var d := Play(t, Opening(initial), events).account.positions;
    forall i: nat | i < |d| && d[i].value.quantity > 0.0
      ensures Shown(t, initial, events, d[i].key, d[i].value.symbol) == Some(d[i].value.currentPrice)
      ensures d[i].value.unrealized == (d[i].value.currentPrice - d[i].value.avgEntry) * d[i].value.quantity
    {
      ShownTheorem(t, initial, events, i);
    }
    hide Play, Shown;
    ProfitsAgree(t, initial, events, d);
  }

  lemma {:induction false} ProfitsAgree(t: Terms, initial: real, events: seq<Event>, d: seq<Entry<Pos>>)
    requires forall i :: 0 <= i < |d| && d[i].value.quantity > 0.0 ==>
               && Shown(t, initial, events, d[i].key, d[i].value.symbol) == Some(d[i].value.currentPrice)
               && d[i].value.unrealized == (d[i].value.currentPrice - d[i].value.avgEntry) * d[i].value.quantity
    ensures Unrealized(d) == MarketProfit(t, initial, events, d)
  {
    hide Shown;
    if d != [] {
      ProfitsAgree(t, initial, events, d[1..]);
    }
  }
}
