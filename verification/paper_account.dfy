/** The paper-trading account of exchanges/paper_trading.py. */
module PaperAccounts {
  // Balance checks, average-cost positions with flips, realised profit, and the equity figure. Prices come from the
  // simulated book of the symbol; what it draws, and the draw of a partial fill, are parameters. The only currency that
  // moves is the quote currency, `cash`.

  import B = BookWalks
  import opened Arithmetic
  import opened FillPricing
  import opened OrderedDicts

  type Side = B.Side

  datatype Fill = Fill(symbol: string, side: Side, price: real, quantity: real, commission: real)

  datatype Pos = Pos(symbol: string, side: Side, quantity: real, avgEntry: real, currentPrice: real, unrealized: real)

  /** A closing trade as the profit tracker records it. */
  datatype Trade = Trade(pnl: real, commission: real, netPnl: real)

  // ---------- one position ----------

  function Flat(symbol: string, side: Side): Pos {
    Pos(symbol, side, 0.0, 0.0, 0.0, 0.0)
  }

  function Marked(p: Pos, price: real): Pos {
    p.(currentPrice := price, unrealized := Profit(p, price, p.quantity))
  }

  /** What closing `quantity` of the position at `price` earns. */
  function Profit(p: Pos, price: real, quantity: real): real {
    (if p.side.Buy? then 1.0 else -1.0) * (price - p.avgEntry) * quantity
  }

  function ClosingTrade(p: Pos, f: Fill): Trade {
    var quantity := Min(f.quantity, p.quantity);
    var pnl := Profit(p, f.price, quantity);
    var commission := f.commission * if f.quantity > 0.0 then quantity / f.quantity else 1.0;
    Trade(pnl, commission, pnl - commission)
  }

  function Resized(p: Pos, f: Fill): Pos {
    if f.side == p.side then
      var quantity := p.quantity + f.quantity;
      p.(quantity := quantity,
         avgEntry := if quantity > 0.0 then (p.avgEntry * p.quantity + f.price * f.quantity) / quantity else 0.0)
    else
      var remaining := f.quantity - p.quantity;
      if remaining > 0.0 then p.(side := f.side, quantity := remaining, avgEntry := f.price)
      else if remaining == 0.0 then p.(quantity := 0.0, avgEntry := 0.0)
      else p.(quantity := -remaining)
  }

  function Updated(p: Pos, f: Fill): Pos { Marked(Resized(p, f), f.price) }

  function Trades(p: Pos, f: Fill): seq<Trade> {
    if p.side == f.side then [] else [ClosingTrade(p, f)]
  }

  // ---------- position arithmetic over any sequence of fills ----------

  function SignedQty(p: Pos): real { if p.side.Buy? then p.quantity else -p.quantity }

  function SignedFill(f: Fill): real { if f.side.Buy? then f.quantity else -f.quantity }

  function Worth(quantity: real, price: real): real { quantity * price }

  /** What the fill puts into the account, before commission. */
  function CashFlow(f: Fill): real { -(SignedFill(f) * f.price) }

  /** What the position cost: negative for a short. */
  function Cost(p: Pos): real { SignedQty(p) * p.avgEntry }

  function Gross(trades: seq<Trade>): real {
    if trades == [] then 0.0 else trades[0].pnl + Gross(trades[1..])
  }

  /** A fill changes the position's cost by what was paid, apart from the profit it realises. */
  lemma ResizedCost(p: Pos, f: Fill)
    requires 0.0 <= p.quantity && 0.0 <= f.quantity
    ensures SignedQty(Resized(p, f)) == SignedQty(p) + SignedFill(f) && 0.0 <= Resized(p, f).quantity
    ensures Cost(Resized(p, f)) == Cost(p) - CashFlow(f) + Gross(Trades(p, f))
  {
    if f.side == p.side {
      var quantity := p.quantity + f.quantity;
      assert quantity > 0.0 ==> Resized(p, f).avgEntry * quantity == p.avgEntry * p.quantity + f.price * f.quantity;
    } else {
      var trade := ClosingTrade(p, f);
      assert Gross([trade]) == trade.pnl + Gross([trade][1..]) == trade.pnl;
    }
  }

  /** The position and the closing trades after a sequence of fills for one key, opened by the first of them. */
  function Run(fills: seq<Fill>): (Pos, seq<Trade>)
    requires fills != []
    decreases |fills|
  {
    var n := |fills| - 1;
    var (p, trades) := if n == 0 then (Flat(fills[0].symbol, fills[0].side), []) else Run(fills[..n]);
    (Updated(p, fills[n]), trades + Trades(p, fills[n]))
  }

  function NetQuantity(fills: seq<Fill>): real
    decreases |fills|
  {
    if fills == [] then 0.0 else NetQuantity(fills[..|fills| - 1]) + SignedFill(fills[|fills| - 1])
  }

  function NetCash(fills: seq<Fill>): real
    decreases |fills|
  {
    if fills == [] then 0.0 else NetCash(fills[..|fills| - 1]) + CashFlow(fills[|fills| - 1])
  }

  lemma {:induction false} GrossAppend(a: seq<Trade>, b: seq<Trade>)
    ensures Gross(a + b) == Gross(a) + Gross(b)
  {
    if a == [] {
      assert a + b == b;
    } else {
      assert (a + b)[1..] == a[1..] + b;
      GrossAppend(a[1..], b);
    }
  }

  /** Through longs, shorts, closes and flips alike: the position is the sum of the signed fills, and the recorded
      gross profit is the net cash flow plus the cost of what is still held. */
  lemma {:induction false} PositionArithmetic(fills: seq<Fill>)
    requires fills != [] && forall i :: 0 <= i < |fills| ==> 0.0 <= fills[i].quantity
    ensures var (p, trades) := Run(fills);
            && 0.0 <= p.quantity
            && SignedQty(p) == NetQuantity(fills)
            && Gross(trades) == NetCash(fills) + Cost(p)
    decreases |fills|
  {
    hide Resized, Trades, Cost, CashFlow, SignedFill, Profit;
    var n := |fills| - 1;
    var f := fills[n];
    var (p, trades) := if n == 0 then (Flat(fills[0].symbol, fills[0].side), []) else Run(fills[..n]);
    if n > 0 {
      PositionArithmetic(fills[..n]);
    }
    FlatIsFree(fills[0]);
    ResizedCost(p, f);
    UpdatedCost(p, f);
    GrossAppend(trades, Trades(p, f));
  }

  lemma FlatIsFree(f: Fill)
    ensures SignedQty(Flat(f.symbol, f.side)) == 0.0 == Cost(Flat(f.symbol, f.side))
  {
  }

  lemma UpdatedCost(p: Pos, f: Fill)
    ensures Cost(Updated(p, f)) == Cost(Resized(p, f)) && SignedQty(Updated(p, f)) == SignedQty(Resized(p, f))
    ensures Updated(p, f).quantity == Resized(p, f).quantity
  {
    hide Resized, Profit;
  }

  lemma MarkedUnrealized(p: Pos, price: real)
    ensures Marked(p, price).unrealized == Worth(SignedQty(p), price) - Cost(p)
  {
  }

  /** Hence realised plus unrealised profit is what it would be if the position were sold off at that price. */
  lemma MarkToMarket(fills: seq<Fill>, price: real)
    requires fills != [] && forall i :: 0 <= i < |fills| ==> 0.0 <= fills[i].quantity
    ensures var (p, trades) := Run(fills);
            Gross(trades) + Marked(p, price).unrealized == NetCash(fills) + Worth(NetQuantity(fills), price)
  {
    hide Run, Marked, SignedQty, Cost, Worth;
    PositionArithmetic(fills);
    var (p, trades) := Run(fills);
    MarkedUnrealized(p, price);
  }

  // ---------- the account ----------

  datatype Tracker = Tracker(realized: real, totalCommission: real, tradeCount: nat, wins: nat, losses: nat,
                             peakEquity: real, maxDrawdown: real)

  datatype Account = Account(
    cash: real,
    positions: seq<Entry<Pos>>,
    fills: seq<Fill>,
    tracker: Tracker,
    volume: real)

  /** The account and the books of all symbols. The current price of a symbol is the mid price of its book. */
  datatype State = State(account: Account, books: map<string, Quote>)

  /** How an order ends: with a fill, with a refusal, or with the error of a symbol or a book that offers no price. */
  datatype Outcome = Filled | Partial | Rejected | NoPrice | NoLevels

  const NO_TRADES := Tracker(0.0, 0.0, 0, 0, 0, 0.0, 0.0)

  function Opening(initial: real): State { State(Account(initial, [], [], NO_TRADES, 0.0), map[]) }

  function PosKey(symbol: string, strategyId: string): string { symbol + ":" + strategyId }

  function Recorded(t: Tracker, trade: Trade): Tracker {
    t.(realized := t.realized + trade.netPnl,
       totalCommission := t.totalCommission + trade.commission,
       tradeCount := t.tradeCount + 1,
       wins := if trade.netPnl > 0.0 then t.wins + 1 else t.wins,
       losses := if trade.netPnl < 0.0 then t.losses + 1 else t.losses)
  }

  function WithEquity(t: Tracker, equity: real): Tracker {
    var peak := if equity > t.peakEquity then equity else t.peakEquity;
    t.(peakEquity := peak,
       maxDrawdown := if peak > 0.0 && (peak - equity) / peak > t.maxDrawdown then (peak - equity) / peak
                      else t.maxDrawdown)
  }

  function MadeFill(o: Order, price: real, quantity: real, feeBps: real): Fill {
    Fill(o.symbol, o.side, price, quantity, quantity * price * feeBps / 10000.0)
  }

  /** The balance or position check of `_execute_order`. */
  predicate Affordable(a: Account, o: Order, price: real, quantity: real, feeBps: real) {
    match o.side
    case Buy => a.cash >= quantity * price * (1.0 + feeBps / 10000.0)
    case Sell =>
      var key := PosKey(o.symbol, o.strategyId);
      Has(a.positions, key) && At(a.positions, key).quantity >= quantity
  }

  /** The position the fill meets: the one under the key, or a new flat one on the fill's own side. */
  function Held(a: Account, key: string, f: Fill): Pos {
    if Has(a.positions, key) then At(a.positions, key) else Flat(f.symbol, f.side)
  }

  function Settled(a: Account, key: string, f: Fill): Account {
    var p := Held(a, key, f);
    a.(cash := a.cash + CashFlow(f) - f.commission,
       positions := Put(a.positions, key, Updated(p, f)),
       fills := a.fills + [f],
       tracker := if p.side == f.side then a.tracker else Recorded(a.tracker, ClosingTrade(p, f)),
       volume := a.volume + f.quantity * f.price)
  }

  function Unrealized(positions: seq<Entry<Pos>>): real {
    if positions == [] then 0.0
    else (if positions[0].value.quantity > 0.0 then positions[0].value.unrealized else 0.0)
         + Unrealized(positions[1..])
  }

  /** `_calculate_equity`. */
  function Equity(a: Account): real { a.cash + Unrealized(a.positions) }

  function Executed(a: Account, o: Order, price: real, quantity: real, feeBps: real): Account {
    if Affordable(a, o, price, quantity, feeBps) then
      var b := Settled(a, PosKey(o.symbol, o.strategyId), MadeFill(o, price, quantity, feeBps));
      b.(tracker := WithEquity(b.tracker, Equity(b)))
    else a
  }

  /** `_execute_order`: the price of the book, slippage, fee tier, checks and settlement. */
  function Placed(t: Terms, a: Account, o: Order, quote: Quote, quantity: real, root: real): Account {
    match Walked(o, quote)
    case NoLevel => a
    case Price(walked) =>
      Executed(a, o, Slipped(t, o, walked, root), quantity, TieredFee(t, a.volume, IsMaker(o, quote.mid)))
  }

  function Walked(o: Order, quote: Quote): Simulated { SimulatedPrice(o, quote.bids, quote.asks, quote.mid) }

  function Mids(books: map<string, Quote>): map<string, real> { map symbol | symbol in books :: books[symbol].mid }

  function RepricedEntry(e: Entry<Pos>, prices: map<string, real>): Entry<Pos> {
    if e.value.quantity > 0.0 && e.value.symbol in prices then Entry(e.key, Marked(e.value, prices[e.value.symbol]))
    else e
  }

  /** `_update_unrealized_pnl`: every open position with a known price is marked. */
  function Repriced(positions: seq<Entry<Pos>>, prices: map<string, real>): seq<Entry<Pos>> {
    seq(|positions|, i requires 0 <= i < |positions| => RepricedEntry(positions[i], prices))
  }

  class EnhancedPaperTrading {
    const terms: Terms
    var cash: real
    var positions: seq<Entry<Pos>>
    var fills: seq<Fill>
    var tracker: Tracker
    var volume: real
    var books: map<string, Quote>

    function Value(): Account
      reads this
    {
      Account(cash, positions, fills, tracker, volume)
    }

    constructor (terms: Terms, initial: real)
      ensures this.terms == terms && State(Value(), books) == Opening(initial)
    {
      this.terms := terms;
      cash, positions, fills, tracker, volume := initial, [], [], NO_TRADES, 0.0;
      books := map[];
    }

    /** `update_price`, but for pending orders that it may trigger; they are executed later. */
    method UpdatePrice(symbol: string, price: real, draws: seq<real>)
      requires |draws| == terms.book.bookLevels
      modifies this`books, this`positions
      ensures State(Value(), books)
           == Apply(terms, old(State(Value(), books)), Event.UpdatePrice(symbol, price, draws))
    {
      hide B.Bids, B.Asks, Repriced;
      var bids, asks := B.Update(terms.book, price, draws);
      books := books[symbol := Quote(bids, asks, price)];
      UpdateUnrealizedPnl();
    }

    method ApplyBalanceChange(f: Fill)
      modifies this`cash
      ensures cash == old(cash) + CashFlow(f) - f.commission
    {
      if f.side.Buy? {
        var cost := f.price * f.quantity + f.commission;
        cash := cash - cost;
      } else {
        var revenue := f.price * f.quantity - f.commission;
        cash := cash + revenue;
      }
    }

    method UpdatePosition(f: Fill, strategyId: string)
      modifies this`positions, this`tracker
      ensures var key := PosKey(f.symbol, strategyId);
              var p := Held(old(Value()), key, f);
              && positions == Put(old(positions), key, Updated(p, f))
              && tracker == if p.side == f.side then old(tracker) else Recorded(old(tracker), ClosingTrade(p, f))
    {
      hide PosKey, Find, Put, ClosingTrade, Resized, Marked, Recorded;
      var key := PosKey(f.symbol, strategyId);
      var p := if Has(positions, key) then At(positions, key) else Flat(f.symbol, f.side);
      if p.side != f.side {
        tracker := Recorded(tracker, ClosingTrade(p, f));
      }
      p := Resized(p, f);
      p := Marked(p, f.price);
      positions := Put(positions, key, p);
    }

    method CalculateEquity() returns (equity: real)
      ensures equity == Equity(Value())
    {
      equity := cash;
      var i := 0;
      while i < |positions|
        invariant i <= |positions|
        invariant equity + Unrealized(positions[i..]) == cash + Unrealized(positions)
      {
        if positions[i].value.quantity > 0.0 {
          equity := equity + positions[i].value.unrealized;
        }
        i := i + 1;
      }
    }

    method ExecuteOrder(o: Order, quantity: real, root: real) returns (outcome: Outcome)
      requires o.symbol in books && Walked(o, books[o.symbol]).Price? ==>
                 Rooted(terms.slippage, o, Walked(o, books[o.symbol]).price, root)
      modifies this
      ensures books == old(books)
      ensures o.symbol !in books ==> outcome == NoPrice && Value() == old(Value())
      ensures o.symbol in books ==>
                var quote, a := books[o.symbol], old(Value());
                && Value() == Placed(terms, a, o, quote, quantity, root)
                && outcome == match Walked(o, quote)
                              case NoLevel => NoLevels
                              case Price(walked) =>
                                if !Affordable(a, o, Slipped(terms, o, walked, root), quantity,
                                               TieredFee(terms, a.volume, IsMaker(o, quote.mid))) then Rejected
                                else if quantity >= o.quantity then Filled else Partial
    {
      hide SimulatedPrice, Slipped, TieredFee, Executed, Affordable, IsMaker, Rooted;
      if o.symbol !in books {
        return NoPrice;
      }
      var quote := books[o.symbol];
      var walked := SimulateFillPrice(o, quote.bids, quote.asks, quote.mid);
      if walked.NoLevel? {
        return NoLevels;
      }
      var price := ApplySlippage(terms, o, walked.price, root);
      var feeBps := GetTieredFee(terms, volume, IsMaker(o, quote.mid));
      outcome := Settle(o, price, quantity, feeBps);
    }

    /** The checks and everything after them. */
    method Settle(o: Order, price: real, quantity: real, feeBps: real) returns (outcome: Outcome)
      modifies this
      ensures Value() == Executed(old(Value()), o, price, quantity, feeBps) && books == old(books)
      ensures outcome == if !Affordable(old(Value()), o, price, quantity, feeBps) then Rejected
                         else if quantity >= o.quantity then Filled else Partial
    {
      hide PosKey, Find, Put, ClosingTrade, Updated, CashFlow, WithEquity, Unrealized;
      if o.side.Buy? {
        var cost := quantity * price * (1.0 + feeBps / 10000.0);
        if cash < cost { return Rejected; }
      } else {
        var key := PosKey(o.symbol, o.strategyId);
        if !Has(positions, key) || At(positions, key).quantity < quantity { return Rejected; }
      }
      var commission := quantity * price * feeBps / 10000.0;
      var f := Fill(o.symbol, o.side, price, quantity, commission);
      fills := fills + [f];
      ApplyBalanceChange(f);
      UpdatePosition(f, o.strategyId);
      volume := volume + quantity * price;
      outcome := if quantity >= o.quantity then Filled else Partial;
      var equity := CalculateEquity();
      tracker := WithEquity(tracker, equity);
    }

    method UpdateUnrealizedPnl()
      modifies this`positions
      ensures positions == Repriced(old(positions), Mids(books))
    {
      hide Marked;
      var i := 0;
      while i < |positions|
        invariant i <= |positions| == |old(positions)|
        invariant forall k :: i <= k < |positions| ==> positions[k] == old(positions)[k]
        invariant forall k :: 0 <= k < i ==> positions[k] == RepricedEntry(old(positions)[k], Mids(books))
      {
        var e := positions[i];
        if e.value.quantity > 0.0 && e.value.symbol in books {
          positions := positions[i := Entry(e.key, Marked(e.value, books[e.value.symbol].mid))];
        }
        i := i + 1;
      }
    }
  }

  // ---------- conservation ----------

  function TotalCost(positions: seq<Entry<Pos>>): real {
    if positions == [] then 0.0 else Cost(positions[0].value) + TotalCost(positions[1..])
  }

  function MarketValue(positions: seq<Entry<Pos>>): real {
    if positions == [] then 0.0
    else Worth(positions[0].value.quantity, positions[0].value.currentPrice) + MarketValue(positions[1..])
  }

  function BuyCommissions(fills: seq<Fill>): real
    decreases |fills|
  {
    if fills == [] then 0.0
    else
      var f := fills[|fills| - 1];
      BuyCommissions(fills[..|fills| - 1]) + if f.side.Buy? then f.commission else 0.0
  }

  ghost predicate LongOnly(positions: seq<Entry<Pos>>) {
    forall i :: 0 <= i < |positions| ==> positions[i].value.side.Buy? && 0.0 <= positions[i].value.quantity
  }

  /** Every unrealised figure belongs to the price and quantity beside it. */
  ghost predicate WellMarked(positions: seq<Entry<Pos>>) {
    forall i :: 0 <= i < |positions| ==>
      positions[i].value.unrealized
        == Worth(positions[i].value.quantity, positions[i].value.currentPrice) - Cost(positions[i].value)
  }

  /** Cash and the cost of the positions are the opening balance and the profits, less the commissions on buys. */
  ghost predicate Balanced(a: Account, initial: real) {
    && LongOnly(a.positions) && WellMarked(a.positions)
    && a.cash + TotalCost(a.positions) == initial + a.tracker.realized - BuyCommissions(a.fills)
  }

  lemma {:induction false} TotalCostUpdate(d: seq<Entry<Pos>>, i: nat, e: Entry<Pos>)
    requires i < |d|
    ensures TotalCost(d[i := e]) == TotalCost(d) - Cost(d[i].value) + Cost(e.value)
  {
    hide Cost;
    if i == 0 {
      assert d[i := e][1..] == d[1..];
    } else {
      assert d[i := e][1..] == d[1..][i - 1 := e];
      TotalCostUpdate(d[1..], i - 1, e);
    }
  }

  lemma {:induction false} TotalCostAppend(d: seq<Entry<Pos>>, e: Entry<Pos>)
    ensures TotalCost(d + [e]) == TotalCost(d) + Cost(e.value)
  {
    hide Cost;
    if d == [] {
      assert d + [e] == [e] && [e][1..] == [];
    } else {
      assert (d + [e])[1..] == d[1..] + [e];
      TotalCostAppend(d[1..], e);
    }
  }

  /** Writing a position under a key changes the total by the difference in its own cost. */
  lemma TotalCostPut(a: Account, key: string, f: Fill, p: Pos)
    ensures TotalCost(Put(a.positions, key, p)) == TotalCost(a.positions) - Cost(Held(a, key, f)) + Cost(p)
  {
    hide TotalCost, Cost;
    var i := Find(a.positions, key);
    if i < |a.positions| {
      TotalCostUpdate(a.positions, i, Entry(key, p));
    } else {
      TotalCostAppend(a.positions, Entry(key, p));
      FlatIsFree(f);
    }
  }

  lemma BuyCommissionsAppend(fills: seq<Fill>, f: Fill)
    ensures BuyCommissions(fills + [f]) == BuyCommissions(fills) + if f.side.Buy? then f.commission else 0.0
  {
    assert (fills + [f])[..|fills|] == fills;
  }

  /** A fill the checks let through: a long position stays long, and a sale realises its profit net of commission. */
  lemma LongStaysLong(p: Pos, f: Fill)
    requires p.side.Buy? && 0.0 <= p.quantity && 0.0 <= f.quantity
    requires f.side.Sell? ==> f.quantity <= p.quantity
    ensures Updated(p, f).side.Buy? && 0.0 <= Updated(p, f).quantity
    ensures Cost(Updated(p, f)) == Cost(p) - CashFlow(f) + Gross(Trades(p, f))
    ensures f.side.Sell? ==> Gross(Trades(p, f)) == ClosingTrade(p, f).netPnl + f.commission
  {
    ResizedCost(p, f);
    UpdatedCost(p, f);
    hide Cost, CashFlow, ClosingTrade, Profit;
  }

  lemma UpdatedMarks(p: Pos, f: Fill)
    ensures Updated(p, f).unrealized
         == Worth(Updated(p, f).quantity, Updated(p, f).currentPrice) - Cost(Updated(p, f))
         || !Updated(p, f).side.Buy?
  {
    hide Resized, Worth, Cost;
    var q := Resized(p, f);
    MarkedUnrealized(q, f.price);
    UpdatedCost(p, f);
  }

  lemma PutKeepsLong(d: seq<Entry<Pos>>, key: string, p: Pos)
    requires LongOnly(d) && WellMarked(d)
    requires p.side.Buy? && 0.0 <= p.quantity
    requires p.unrealized == Worth(p.quantity, p.currentPrice) - Cost(p)
    ensures LongOnly(Put(d, key, p)) && WellMarked(Put(d, key, p))
  {
    hide Worth, Cost;
  }

  lemma SettledBalances(a: Account, key: string, f: Fill, initial: real)
    requires Balanced(a, initial) && 0.0 <= f.quantity
    requires f.side.Sell? ==> Has(a.positions, key) && f.quantity <= At(a.positions, key).quantity
    ensures Balanced(Settled(a, key, f), initial)
  {
    hide Updated, Cost, CashFlow, ClosingTrade, Worth, TotalCost, BuyCommissions, Put, Find;
    var p := Held(a, key, f);
    assert p.side.Buy? && 0.0 <= p.quantity;
    LongStaysLong(p, f);
    UpdatedMarks(p, f);
    PutKeepsLong(a.positions, key, Updated(p, f));
    TotalCostPut(a, key, f, Updated(p, f));
    BuyCommissionsAppend(a.fills, f);
    if f.side.Buy? {
      assert Trades(p, f) == [];
    }
  }

  /** An order either changes nothing, or is settled and leaves the account balanced. */
  lemma ExecutedBalances(a: Account, o: Order, price: real, quantity: real, feeBps: real, initial: real)
    requires Balanced(a, initial) && 0.0 <= quantity
    ensures Balanced(Executed(a, o, price, quantity, feeBps), initial)
  {
    hide PosKey, Find, Settled, WithEquity, Equity, Updated;
    var f := MadeFill(o, price, quantity, feeBps);
    if Affordable(a, o, price, quantity, feeBps) {
      SettledBalances(a, PosKey(o.symbol, o.strategyId), f, initial);
      EquityOnly(Settled(a, PosKey(o.symbol, o.strategyId), f), initial);
    }
  }

  lemma EquityOnly(a: Account, initial: real)
    requires Balanced(a, initial)
    ensures Balanced(a.(tracker := WithEquity(a.tracker, Equity(a))), initial)
  {
    hide Equity;
  }

  lemma {:induction false} RepricedCost(d: seq<Entry<Pos>>, prices: map<string, real>)
    ensures TotalCost(Repriced(d, prices)) == TotalCost(d)
  {
    var r := Repriced(d, prices);
    if d != [] {
      assert r[1..] == Repriced(d[1..], prices);
      RepricedCost(d[1..], prices);
      RepricedEntryCost(d[0], prices);
      hide Cost, RepricedEntry, Repriced;
    }
  }

  lemma RepricedEntryCost(e: Entry<Pos>, prices: map<string, real>)
    ensures var p := RepricedEntry(e, prices).value;
            Cost(p) == Cost(e.value) && p.side == e.value.side && p.quantity == e.value.quantity
    ensures var p := RepricedEntry(e, prices).value;
            p == e.value || (p.side.Buy? ==> p.unrealized == Worth(p.quantity, p.currentPrice) - Cost(p))
  {
    hide Profit, Worth;
    if e.value.quantity > 0.0 && e.value.symbol in prices {
      MarkedUnrealized(e.value, prices[e.value.symbol]);
    }
  }

  lemma RepricedBalances(a: Account, prices: map<string, real>, initial: real)
    requires Balanced(a, initial)
    ensures Balanced(a.(positions := Repriced(a.positions, prices)), initial)
  {
    hide TotalCost, BuyCommissions, RepricedEntry, Cost, Worth;
    RepricedCost(a.positions, prices);
    forall i | 0 <= i < |a.positions|
      ensures var p := Repriced(a.positions, prices)[i].value;
              && p.side.Buy? && 0.0 <= p.quantity
              && p.unrealized == Worth(p.quantity, p.currentPrice) - Cost(p)
    {
      RepricedEntryCost(a.positions[i], prices);
    }
  }

  /** The balance check covers the commission: a purchase never overdraws. */
  lemma BuyKeepsCash(a: Account, o: Order, price: real, quantity: real, feeBps: real)
    requires o.side.Buy? && Affordable(a, o, price, quantity, feeBps)
    ensures 0.0 <= a.cash + Proceeds(o, price, quantity, feeBps)
  {
  }

  /** What the fill of an order changes in cash, commission included. */
  function Proceeds(o: Order, price: real, quantity: real, feeBps: real): real {
    CashFlow(MadeFill(o, price, quantity, feeBps)) - MadeFill(o, price, quantity, feeBps).commission
  }

  /** No sale at a price, of whatever size, takes cash out of the account exactly when price and what the fee leaves of
      it do not have opposite signs. */
  lemma SellKeepsCash(o: Order, price: real, feeBps: real)
    requires o.side.Sell?
    ensures (forall quantity :: quantity >= 0.0 ==> 0.0 <= Proceeds(o, price, quantity, feeBps))
       <==> 0.0 <= price * (10000.0 - feeBps)
  {
    hide Proceeds;
    if 0.0 <= price * (10000.0 - feeBps) {
      forall quantity | quantity >= 0.0 ensures 0.0 <= Proceeds(o, price, quantity, feeBps) {
        PayoutOf(o, price, quantity, feeBps);
        PayoutSign(quantity, price, feeBps);
      }
    } else {
      PayoutOf(o, price, 1.0, feeBps);
      PayoutSign(1.0, price, feeBps);
      assert Proceeds(o, price, 1.0, feeBps) < 0.0;
    }
  }

  lemma PayoutSign(quantity: real, price: real, feeBps: real)
    requires quantity >= 0.0
    ensures 0.0 <= price * (10000.0 - feeBps) ==> 0.0 <= Payout(quantity * price, feeBps)
    ensures quantity > 0.0 && price * (10000.0 - feeBps) < 0.0 ==> Payout(quantity * price, feeBps) < 0.0
  {
    var k := price * (10000.0 - feeBps);
    assert Payout(quantity * price, feeBps) == quantity * k / 10000.0;
  }

  /** The proceeds of a sale, fee deducted. */
  function Payout(notional: real, feeBps: real): real { notional - notional * feeBps / 10000.0 }

  lemma PayoutOf(o: Order, price: real, quantity: real, feeBps: real)
    requires o.side.Sell?
    ensures Proceeds(o, price, quantity, feeBps) == Payout(quantity * price, feeBps)
  {
  }

  // ---------- runs ----------

  datatype Event =
    | UpdatePrice(symbol: string, price: real, draws: seq<real>)
    | Execute(o: Order, quantity: real, root: real)

  function Apply(t: Terms, s: State, e: Event): State {
    match e
    case UpdatePrice(symbol, price, draws) =>
      if |draws| != t.book.bookLevels then s
      else
        var books := s.books[symbol := QuoteAt(t.book, price, draws)];
        State(s.account.(positions := Repriced(s.account.positions, Mids(books))), books)
    case Execute(o, quantity, root) =>
      if o.symbol in s.books then s.(account := Placed(t, s.account, o, s.books[o.symbol], quantity, root)) else s
  }

  function Play(t: Terms, s: State, events: seq<Event>): State
    decreases |events|
  {
    if events == [] then s else Play(t, Apply(t, s, events[0]), events[1..])
  }

  /** Fills of non-negative size. */
  predicate Sized(events: seq<Event>) {
    forall i :: 0 <= i < |events| && events[i].Execute? ==> 0.0 <= events[i].quantity
  }

  lemma {:induction false} PlayBalances(t: Terms, s: State, events: seq<Event>, initial: real)
    requires Balanced(s.account, initial) && Sized(events)
    ensures Balanced(Play(t, s, events).account, initial)
    decreases |events|
  {
    hide Balanced, Placed, Repriced, Mids, QuoteAt;
    if events != [] {
      match events[0] {
        case Execute(o, quantity, root) =>
          if o.symbol in s.books {
            PlacedBalances(t, s.account, o, s.books[o.symbol], quantity, root, initial);
          }
        case UpdatePrice(symbol, price, draws) =>
          if |draws| == t.book.bookLevels {
            RepricedBalances(s.account, Mids(s.books[symbol := QuoteAt(t.book, price, draws)]), initial);
          }
      }
      PlayBalances(t, Apply(t, s, events[0]), events[1..], initial);
    }
  }

  lemma PlacedBalances(t: Terms, a: Account, o: Order, quote: Quote, quantity: real, root: real, initial: real)
    requires Balanced(a, initial) && 0.0 <= quantity
    ensures Balanced(Placed(t, a, o, quote, quantity, root), initial)
  {
    hide Balanced, Executed, Slipped, TieredFee, IsMaker, SimulatedPrice;
    match Walked(o, quote)
    case NoLevel =>
    case Price(walked) =>
      ExecutedBalances(a, o, Slipped(t, o, walked, root), quantity, TieredFee(t, a.volume, IsMaker(o, quote.mid)),
                       initial);
  }

  /** Cash and volume after a fill at a price that is not negative; a sale also needs a fee within the notional. */
  lemma ExecuteKeepsCash(a: Account, o: Order, price: real, quantity: real, feeBps: real)
    requires 0.0 <= a.cash && 0.0 <= quantity && 0.0 <= a.volume && (0.0 <= price || quantity == 0.0)
    requires o.side.Sell? ==> feeBps <= 10000.0
    ensures var b := Executed(a, o, price, quantity, feeBps);
            0.0 <= b.cash && 0.0 <= b.volume
  {
    hide PosKey, Find, Put, Updated, ClosingTrade, WithEquity, Equity, Payout;
    if Affordable(a, o, price, quantity, feeBps) {
      assert Executed(a, o, price, quantity, feeBps).cash == a.cash + Proceeds(o, price, quantity, feeBps);
      if o.side.Buy? {
        BuyKeepsCash(a, o, price, quantity, feeBps);
      } else {
        PayoutOf(o, price, quantity, feeBps);
        PayoutSign(quantity, price, feeBps);
      }
    }
  }

  lemma {:induction false} UnrealizedIsGain(d: seq<Entry<Pos>>)
    requires LongOnly(d) && WellMarked(d)
    ensures Unrealized(d) == MarketValue(d) - TotalCost(d)
  {
    hide Worth, Cost;
    if d != [] {
      UnrealizedIsGain(d[1..]);
      var p := d[0].value;
      assert p.quantity == 0.0 ==> Worth(p.quantity, p.currentPrice) == 0.0 == Cost(p) by {
        NoQuantity(p);
      }
    }
  }

  lemma NoQuantity(p: Pos)
    ensures p.quantity == 0.0 ==> Worth(p.quantity, p.currentPrice) == 0.0 == Cost(p)
  {
  }

  /** The equity figure is cash plus market value less the cost of the positions: over every run it is the true
      account value exactly while the open positions cost nothing. */
  lemma EquityTheorem(t: Terms, initial: real, events: seq<Event>)
    requires Sized(events)
    ensures var a := Play(t, Opening(initial), events).account;
            && Equity(a) == a.cash + MarketValue(a.positions) - TotalCost(a.positions)
            && (Equity(a) == a.cash + MarketValue(a.positions) <==> TotalCost(a.positions) == 0.0)
  {
    hide Play;
    PlayBalances(t, Opening(initial), events, initial);
    UnrealizedIsGain(Play(t, Opening(initial), events).account.positions);
  }
}
