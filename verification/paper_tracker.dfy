/** The profit tracker of the paper account against the log of its runs: how many trades were closed, won and lost, what
    they cost in commission, how high equity ever stood after a fill and how far it fell from there. */
module PaperTrackers {
  import opened Arithmetic
  import opened FillPricing
  import opened OrderedDicts
  import opened PaperAccounts
  import opened PaperMarkets

  function Sales(fills: seq<Fill>): nat
    decreases |fills|
  {
    if fills == [] then 0 else Sales(fills[..|fills| - 1]) + if fills[|fills| - 1].side.Sell? then 1 else 0
  }

  function SaleCommissions(fills: seq<Fill>): real
    decreases |fills|
  {
    if fills == [] then 0.0
    else
      SaleCommissions(fills[..|fills| - 1])
      + if fills[|fills| - 1].side.Sell? then fills[|fills| - 1].commission else 0.0
  }

  function After(t: Terms, initial: real, events: seq<Event>): Account { Play(t, Opening(initial), events).account }

  /** The last event was an order that was filled. */
  predicate Filled(t: Terms, initial: real, events: seq<Event>)
    requires events != []
  {
    |After(t, initial, events).fills| > |After(t, initial, events[..|events| - 1]).fills|
  }

  /** How often the realised profit rose. */
  function Wins(t: Terms, initial: real, events: seq<Event>): nat
    decreases |events|
  {
    if events == [] then 0
    else
      var init := events[..|events| - 1];
      Wins(t, initial, init)
      + if After(t, initial, events).tracker.realized > After(t, initial, init).tracker.realized then 1 else 0
  }

  /** How often it fell. */
  function Losses(t: Terms, initial: real, events: seq<Event>): nat
    decreases |events|
  {
    if events == [] then 0
    else
      var init := events[..|events| - 1];
      Losses(t, initial, init)
      + if After(t, initial, events).tracker.realized < After(t, initial, init).tracker.realized then 1 else 0
  }

  /** The highest equity after a fill, or zero. */
  function Peak(t: Terms, initial: real, events: seq<Event>): real
    decreases |events|
  {
    if events == [] then 0.0
    else
      var before := Peak(t, initial, events[..|events| - 1]);
      if Filled(t, initial, events) then Max(before, Equity(After(t, initial, events))) else before
  }

  /** The greatest fall of equity below its peak so far, as a part of the peak. */
  function Fall(t: Terms, initial: real, events: seq<Event>): real
    decreases |events|
  {
    if events == [] then 0.0
    else
      var before, peak := Fall(t, initial, events[..|events| - 1]), Peak(t, initial, events);
      if Filled(t, initial, events) && peak > 0.0 then Max(before, 1.0 - Equity(After(t, initial, events)) / peak)
      else before
  }

  ghost predicate Logged(t: Terms, initial: real, events: seq<Event>) {
    var a := After(t, initial, events);
    && a.tracker.tradeCount == Sales(a.fills)
    && a.tracker.totalCommission == SaleCommissions(a.fills)
    && a.tracker.wins == Wins(t, initial, events)
    && a.tracker.losses == Losses(t, initial, events)
    && a.tracker.peakEquity == Peak(t, initial, events)
    && a.tracker.maxDrawdown == Fall(t, initial, events)
  }

  // ---------- one order ----------

  /** What an order that is filled does to the tracker. */
  predicate Counts(a: Account, b: Account) {
    && |b.fills| == |a.fills| + 1 && b.fills[..|a.fills|] == a.fills
    && var f, equity := b.fills[|a.fills|], Equity(b);
       var peak := Max(a.tracker.peakEquity, equity);
       && b.tracker.tradeCount == a.tracker.tradeCount + (if f.side.Sell? then 1 else 0)
       && b.tracker.totalCommission == a.tracker.totalCommission + (if f.side.Sell? then f.commission else 0.0)
       && b.tracker.wins == a.tracker.wins + (if b.tracker.realized > a.tracker.realized then 1 else 0)
       && b.tracker.losses == a.tracker.losses + (if b.tracker.realized < a.tracker.realized then 1 else 0)
       && b.tracker.peakEquity == peak
       && b.tracker.maxDrawdown == if peak > 0.0 then Max(a.tracker.maxDrawdown, 1.0 - equity / peak)
                                   else a.tracker.maxDrawdown
  }

  lemma FallOf(peak: real, equity: real)
    requires peak > 0.0
    ensures (peak - equity) / peak == 1.0 - equity / peak
  {
    var y := equity / peak;
    assert y * peak == equity;
    var d := (1.0 - y) * peak;
    assert d == peak - equity;
    Undone(1.0 - y, peak, d);
  }

  lemma Undone(x: real, a: real, y: real)
    requires a > 0.0 && y == x * a
    ensures y / a == x
  {
  }

  lemma EquityCounts(t: Tracker, equity: real)
    ensures var u, peak := WithEquity(t, equity), Max(t.peakEquity, equity);
            && u == t.(peakEquity := peak,
                       maxDrawdown := if peak > 0.0 then Max(t.maxDrawdown, 1.0 - equity / peak) else t.maxDrawdown)
  {
    var peak := Max(t.peakEquity, equity);
    if peak > 0.0 {
      FallOf(peak, equity);
    }
  }

  /** A sale within what is held is charged its whole commission. */
  lemma WholeCommission(p: Pos, f: Fill)
    requires 0.0 <= f.quantity <= p.quantity
    ensures ClosingTrade(p, f).commission == f.commission
    ensures ClosingTrade(p, f).netPnl == Profit(p, f.price, f.quantity) - f.commission
  {
    hide Profit;
    if f.quantity > 0.0 {
      assert f.quantity / f.quantity == 1.0;
    }
  }

  lemma SettledCounts(a: Account, key: string, f: Fill, initial: real)
    requires Balanced(a, initial) && 0.0 <= f.quantity
    requires f.side.Sell? ==> Has(a.positions, key) && f.quantity <= At(a.positions, key).quantity
    ensures var b := Settled(a, key, f);
            Counts(a, b.(tracker := WithEquity(b.tracker, Equity(b))))
  {
    hide Updated, CashFlow, WithEquity, Unrealized, Put, Find, Balanced, ClosingTrade, Profit, Cost;
    var b, p := Settled(a, key, f), Held(a, key, f);
    LongSide(a, key, f, initial);
    if f.side.Sell? {
      WholeCommission(p, f);
    }
    EquityCounts(b.tracker, Equity(b));
  }

  lemma LongSide(a: Account, key: string, f: Fill, initial: real)
    requires Balanced(a, initial)
    ensures Has(a.positions, key) ==> Held(a, key, f).side.Buy?
    ensures !Has(a.positions, key) ==> Held(a, key, f).side == f.side
  {
    hide TotalCost, BuyCommissions, Worth, Cost;
  }

  lemma PlacedCounts(t: Terms, a: Account, o: Order, quote: Quote, quantity: real, root: real, initial: real)
    requires Balanced(a, initial) && 0.0 <= quantity
    ensures var b := Placed(t, a, o, quote, quantity, root);
            b == a || Counts(a, b)
  {
    hide SimulatedPrice, Slipped, TieredFee, IsMaker, Settled, WithEquity, Equity, Counts, Balanced, Find, PosKey;
    if Walked(o, quote).Price? {
      var price, feeBps := Slipped(t, o, Walked(o, quote).price, root), TieredFee(t, a.volume, IsMaker(o, quote.mid));
      var f := MadeFill(o, price, quantity, feeBps);
      if Affordable(a, o, price, quantity, feeBps) {
        SettledCounts(a, PosKey(o.symbol, o.strategyId), f, initial);
      }
    }
  }

  // ---------- every run ----------

  lemma FillsSnoc(fills: seq<Fill>, f: Fill)
    ensures Sales(fills + [f]) == Sales(fills) + if f.side.Sell? then 1 else 0
    ensures SaleCommissions(fills + [f]) == SaleCommissions(fills) + if f.side.Sell? then f.commission else 0.0
  {
    assert (fills + [f])[..|fills|] == fills;
  }

  lemma LogSnoc(t: Terms, initial: real, events: seq<Event>, e: Event)
    ensures var more, a, b := events + [e], After(t, initial, events), After(t, initial, events + [e]);
            && (Filled(t, initial, more) <==> |b.fills| > |a.fills|)
            && Wins(t, initial, more)
                 == Wins(t, initial, events) + (if b.tracker.realized > a.tracker.realized then 1 else 0)
            && Losses(t, initial, more)
                 == Losses(t, initial, events) + (if b.tracker.realized < a.tracker.realized then 1 else 0)
            && Peak(t, initial, more)
                 == (if |b.fills| > |a.fills| then Max(Peak(t, initial, events), Equity(b))
                     else Peak(t, initial, events))
            && Fall(t, initial, more)
                 == (if |b.fills| > |a.fills| && Peak(t, initial, more) > 0.0 then
                       Max(Fall(t, initial, events), 1.0 - Equity(b) / Peak(t, initial, more))
                     else Fall(t, initial, events))
  {
    assert (events + [e])[..|events|] == events;
    hide After, Equity;
  }

  lemma LoggedSnoc(t: Terms, initial: real, events: seq<Event>, e: Event)
    requires Logged(t, initial, events)
    requires var a, b := After(t, initial, events), After(t, initial, events + [e]);
             (b.fills == a.fills && b.tracker == a.tracker) || Counts(a, b)
    ensures Logged(t, initial, events + [e])
  {
    hide After, Equity, Sales, SaleCommissions, Wins, Losses, Peak, Fall, Filled;
    LogSnoc(t, initial, events, e);
    var a, b := After(t, initial, events), After(t, initial, events + [e]);
    if Counts(a, b) {
      FillsSnoc(a.fills, b.fills[|a.fills|]);
      assert b.fills == a.fills + [b.fills[|a.fills|]];
    }
  }

  lemma NothingLogged(t: Terms, initial: real, events: seq<Event>)
    requires events == []
    ensures Logged(t, initial, events)
  {
  }

  /** Over every run the tracker holds what the log says: trades are the sales, with their commissions; won and lost are
      those that raised and lowered the realised profit; and peak and drawdown are those of equity after each fill. */
  lemma {:induction false} TrackerTheorem(t: Terms, initial: real, events: seq<Event>)
    requires Sized(events)
    ensures Logged(t, initial, events)
    decreases |events|
  {
    assert Balanced(Opening(initial).account, initial);
    hide Logged, Counts, Balanced, Play, Placed, Repriced, QuoteAt, Mids;
    if events == [] {
      NothingLogged(t, initial, events);
    } else {
      var n := |events| - 1;
      var init, e := events[..n], events[n];
      assert events == init + [e];
      TrackerTheorem(t, initial, init);
      PlayBalances(t, Opening(initial), init, initial);
      PlaySnoc(t, Opening(initial), init, e);
      var s := Play(t, Opening(initial), init);
      if e.Execute? && e.o.symbol in s.books {
        PlacedCounts(t, s.account, e.o, s.books[e.o.symbol], e.quantity, e.root, initial);
      }
      LoggedSnoc(t, initial, init, e);
    }
  }
}
