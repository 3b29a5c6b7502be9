/** When the cash of the paper account can go negative. */
module PaperCash {
  // For every configuration that is not safe, a run into debt.

  import B = BookWalks
  import W = WorstSales
  import opened Arithmetic
  import opened FillPricing
  import opened OrderedDicts
  import opened PaperAccounts
  import opened PaperSafety
  import opened Roots
  import opened StableSorting

  lemma {:induction false} TierStays(sorted: seq<Item<Tier>>, volume: real, first: Tier) returns (more: real)
    ensures more > volume
    ensures forall v :: volume <= v <= more ==> ReachedTier(sorted, v, first) == ReachedTier(sorted, volume, first)
  {
    if sorted == [] {
      more := volume + 1.0;
    } else {
      var n := |sorted| - 1;
      more := TierStays(sorted[..n], volume, first);
      if volume < sorted[n].key {
        more := Min(more, (volume + sorted[n].key) / 2.0);
      }
    }
  }

  /** A fee that some volume meets, some volume above zero meets. */
  lemma FeeStays(t: Terms, volume: real, maker: bool) returns (more: real)
    requires 0.0 <= volume
    ensures more > 0.0 && TieredFee(t, more, maker) == TieredFee(t, volume, maker)
  {
    hide ReachedTier, Sort;
    if t.tiers == [] {
      more := volume + 1.0;
    } else {
      more := TierStays(Sort(AsItems(t.tiers)), volume, t.tiers[0]);
    }
  }

  /** A stop-limit purchase, whose price is its limit or the best ask. */
  function Purchase(quantity: real, limit: real): Order {
    Order("", "", B.Buy, StopLimit, quantity, Some(limit))
  }

  /** What is paid for a purchase of that notional by a fresh account. */
  function Outlay(t: Terms, notional: real): real { notional + notional * TieredFee(t, 0.0, false) / 10000.0 }

  /** The account that holds `quantity` units of the symbol and has spent all it had. */
  predicate Invested(a: Account, quantity: real, volume: real) {
    && a.cash == 0.0 && a.volume == volume
    && |a.positions| == 1 && a.positions[0].key == PosKey("", "") && a.positions[0].value.quantity == quantity
  }

  lemma Lowest(cfg: B.Config) returns (draws: seq<real>)
    ensures draws == seq(cfg.bookLevels, _ => 0.5) && B.Drawn(cfg, draws)
  {
    draws := seq(cfg.bookLevels, _ => 0.5);
  }

  /** The mid price at which the best ask is `ask`. */
  lemma MidOfAsk(cfg: B.Config, ask: real, draws: seq<real>) returns (mid: real)
    requires ask > 0.0 && -20000.0 < cfg.bookSpreadBps && B.Drawn(cfg, draws) && 0 < cfg.bookLevels
    ensures mid > 0.0 && B.Asks(cfg, mid, draws) != [] && B.Asks(cfg, mid, draws)[0].price == ask
  {
    hide B.Pow;
    var k := 1.0 + cfg.bookSpreadBps / 20000.0;
    mid := ask / k;
    assert mid * k == ask;
    SameSign(k, mid);
    assert B.BestAsk(cfg, mid) == mid * k;
    assert B.Asks(cfg, mid, draws)[0].price == B.BestAsk(cfg, mid) + Times(0 as real, mid * 0.0001);
  }

  lemma NewEntry(d: seq<Entry<Pos>>, key: string, p: Pos)
    requires d == []
    ensures !Has(d, key) && Put(d, key, p) == [Entry(key, p)]
  {
  }

  /** A fresh account puts all its money into a purchase. */
  lemma Purchased(t: Terms, quantity: real, volume: real, quote: Quote)
    requires quantity > 0.0 && volume > 0.0 && quote.asks != [] && quote.asks[0].price == volume / quantity
    ensures var a := Opening(Outlay(t, volume)).account;
            Invested(Placed(t, a, Purchase(quantity, volume / quantity), quote, quantity, 0.0), quantity, volume)
  {
    hide TieredFee, PosKey, WithEquity, Equity, Profit, Outlay;
    var limit := volume / quantity;
    assert quantity * limit == volume;
    var a, o, feeBps := Opening(Outlay(t, volume)).account, Purchase(quantity, limit), TieredFee(t, 0.0, false);
    var key, f := PosKey("", ""), MadeFill(o, limit, quantity, feeBps);
    assert Walked(o, quote) == Price(limit) && Slipped(t, o, limit, 0.0) == limit && !IsMaker(o, quote.mid);
    OutlayIs(t, volume, quantity, limit);
    assert Affordable(a, o, limit, quantity, feeBps);
    NewEntry(a.positions, key, Updated(Flat("", B.Buy), f));
    assert CashFlow(f) == -volume && f.commission == volume * feeBps / 10000.0;
    assert Updated(Flat("", B.Buy), f).quantity == quantity;
    hide Updated, CashFlow, Find, Put, Has;
  }

  lemma OutlayIs(t: Terms, volume: real, quantity: real, limit: real)
    requires quantity * limit == volume
    ensures var feeBps := TieredFee(t, 0.0, false);
            && Outlay(t, volume) == volume + volume * feeBps / 10000.0
            && quantity * limit * (1.0 + feeBps / 10000.0) == Outlay(t, volume)
  {
  }

  lemma OutlayNotNegative(t: Terms, volume: real)
    requires volume > 0.0 && -10000.0 <= TieredFee(t, 0.0, false)
    ensures 0.0 <= Outlay(t, volume)
  {
    hide TieredFee;
    var k := 1.0 + TieredFee(t, 0.0, false) / 10000.0;
    assert Outlay(t, volume) == Times(volume, k);
    TimesMono(volume, 0.0, k);
  }

  lemma StillInvested(a: Account, quantity: real, volume: real, prices: map<string, real>)
    requires Invested(a, quantity, volume)
    ensures Invested(a.(positions := Repriced(a.positions, prices)), quantity, volume)
  {
    hide Profit, PosKey;
  }

  /** An invested account that sells at a price for which the fee leaves less than nothing is in debt. */
  lemma SoldOff(t: Terms, a: Account, o: Order, quote: Quote, quantity: real, root: real, volume: real)
    requires o.side.Sell? && o.symbol == "" == o.strategyId && quantity > 0.0 && Invested(a, quantity, volume)
    requires Walked(o, quote).Price?
    requires Slipped(t, o, Walked(o, quote).price, root) * (10000.0 - TieredFee(t, volume, IsMaker(o, quote.mid))) < 0.0
    ensures Placed(t, a, o, quote, quantity, root).cash < 0.0
  {
    hide TieredFee, PosKey, WithEquity, Equity, Slipped, Put, Updated, ClosingTrade, IsMaker, Proceeds, Payout,
      SimulatedPrice;
    var price, feeBps := Slipped(t, o, Walked(o, quote).price, root), TieredFee(t, a.volume, IsMaker(o, quote.mid));
    assert Find(a.positions, PosKey("", "")) == 0;
    hide Find;
    assert Affordable(a, o, price, quantity, feeBps);
    ExecutedCash(a, o, price, quantity, feeBps);
    PayoutOf(o, price, quantity, feeBps);
    PayoutSign(quantity, price, feeBps);
  }

  lemma ExecutedCash(a: Account, o: Order, price: real, quantity: real, feeBps: real)
    requires Affordable(a, o, price, quantity, feeBps)
    ensures Executed(a, o, price, quantity, feeBps).cash == a.cash + Proceeds(o, price, quantity, feeBps)
  {
    hide PosKey, WithEquity, Equity, Find, Put, Updated, ClosingTrade, Affordable;
  }

  lemma Unfolds(t: Terms, bound: real, s: State, e: Event, rest: seq<Event>)
    ensures Play(t, s, [e] + rest) == Play(t, Apply(t, s, e), rest)
    ensures Legal(t, bound, s, [e] + rest) <==> Enabled(t, bound, s, e) && Legal(t, bound, Apply(t, s, e), rest)
  {
    assert ([e] + rest)[1..] == rest;
  }

  lemma PlayFour(t: Terms, bound: real, s: State, e1: Event, e2: Event, e3: Event, e4: Event)
    ensures var s1 := Apply(t, s, e1);
            var s2 := Apply(t, s1, e2);
            var s3 := Apply(t, s2, e3);
            var events := [e1] + [e2] + [e3] + [e4];
            && Play(t, s, events) == Apply(t, s3, e4)
            && (Legal(t, bound, s, events)
                <==> Enabled(t, bound, s, e1) && Enabled(t, bound, s1, e2) && Enabled(t, bound, s2, e3)
                     && Enabled(t, bound, s3, e4))
  {
    hide Apply, Enabled, Play, Legal;
    var none: seq<Event> := [];
    var s3 := Apply(t, Apply(t, Apply(t, s, e1), e2), e3);
    assert [e1] + [e2] + [e3] + [e4] == [e1] + ([e2] + ([e3] + ([e4] + none)));
    Unfolds(t, bound, s, e1, [e2] + ([e3] + ([e4] + none)));
    Unfolds(t, bound, Apply(t, s, e1), e2, [e3] + ([e4] + none));
    Unfolds(t, bound, Apply(t, Apply(t, s, e1), e2), e3, [e4] + none);
    Unfolds(t, bound, s3, e4, none);
    NoEvents(t, bound, Apply(t, s3, e4), none);
  }

  lemma NoEvents(t: Terms, bound: real, s: State, none: seq<Event>)
    requires none == []
    ensures Play(t, s, none) == s && Legal(t, bound, s, none)
  {
  }

  /** Some sale into debt makes a run into debt: trade up to the volume at which the fee is what it is, and sell. */
  lemma RunIntoDebt(t: Terms, bound: real, o: Order, mid: real, draws: seq<real>, root: real, volume: real)
      returns (initial: real, events: seq<Event>)
    requires t.book.bookLevels > 0 && Costly(t, bound) && volume > 0.0 && mid > 0.0 && B.Drawn(t.book, draws)
    requires o.side.Sell? && o.symbol == "" == o.strategyId && 0.0 < o.quantity <= bound
    requires o.price.Some? ==> o.price.value > 0.0
    requires Walked(o, QuoteAt(t.book, mid, draws)).Price?
    requires var walked := Walked(o, QuoteAt(t.book, mid, draws)).price;
             && Rooted(t.slippage, o, walked, root)
             && Slipped(t, o, walked, root) * (10000.0 - TieredFee(t, volume, IsMaker(o, mid))) < 0.0
    ensures 0.0 <= initial && Legal(t, bound, Opening(initial), events)
    ensures Play(t, Opening(initial), events).account.cash < 0.0
  {
    hide TieredFee, Slipped, SimulatedPrice, Placed, Invested, B.Bids, B.Asks, IsMaker, Play, Legal, Outlay;
    var q := o.quantity;
    var limit := volume / q;
    assert limit > 0.0;
    OutlayNotNegative(t, volume);
    initial := Outlay(t, volume);
    var buyDraws := Lowest(t.book);
    var buyMid := MidOfAsk(t.book, limit, buyDraws);
    var buy := Purchase(q, limit);
    var quote1, quote2 := QuoteAt(t.book, buyMid, buyDraws), QuoteAt(t.book, mid, draws);
    Purchased(t, q, volume, quote1);
    var s := Opening(initial);
    var e1, e2 := UpdatePrice("", buyMid, buyDraws), Execute(buy, q, 0.0);
    var e3, e4 := UpdatePrice("", mid, draws), Execute(o, q, root);
    var s1 := Apply(t, s, e1);
    NothingRepriced(s.account, Mids(s1.books));
    var s2 := Apply(t, s1, e2);
    StillInvested(s2.account, q, volume, Mids(s2.books["" := quote2]));
    var s3 := Apply(t, s2, e3);
    SoldOff(t, s3.account, o, quote2, q, root, volume);
    PlayFour(t, bound, s, e1, e2, e3, e4);
    events := [e1] + [e2] + [e3] + [e4];
  }

  lemma NothingRepriced(a: Account, prices: map<string, real>)
    requires a.positions == []
    ensures a.(positions := Repriced(a.positions, prices)) == a
  {
  }

  // ---------- fees above the notional ----------

  /** A sale that is not a market order, at its limit, as maker or taker. */
  function RestingSale(quantity: real, limit: real, maker: bool): Order {
    Order("", "", B.Sell, if maker then Iceberg else StopLimit, quantity, Some(limit))
  }

  lemma FeeDebt(t: Terms, bound: real, volume: real, maker: bool) returns (initial: real, events: seq<Event>)
    requires bound > 0.0 && t.book.bookLevels > 0 && Costly(t, bound)
    requires 0.0 <= volume && TieredFee(t, volume, maker) > 10000.0
    ensures 0.0 <= initial && Legal(t, bound, Opening(initial), events)
    ensures Play(t, Opening(initial), events).account.cash < 0.0
  {
    hide TieredFee, Play, Legal, Costly;
    var draws := Lowest(t.book);
    var more := FeeStays(t, volume, maker);
    var o := RestingSale(bound, 1.0, maker);
    var quote := QuoteAt(t.book, 1.0, draws);
    var price := Max(1.0, quote.bids[0].price);
    assert Walked(o, quote) == Price(price) && IsMaker(o, 1.0) == maker;
    Unslippable(t, o, price, 0.0);
    Opposite(price, TieredFee(t, more, maker));
    initial, events := RunIntoDebt(t, bound, o, 1.0, draws, 0.0, more);
  }

  lemma Opposite(price: real, feeBps: real)
    ensures price > 0.0 && feeBps > 10000.0 ==> price * (10000.0 - feeBps) < 0.0
    ensures price < 0.0 && feeBps < 10000.0 ==> price * (10000.0 - feeBps) < 0.0
  {
  }

  // ---------- market sales below zero ----------

  function MarketSale(quantity: real): Order { Order("", "", B.Sell, Market, quantity, None) }

  /** A market sale of `q` units at the mid price and draws fetches less than nothing. */
  predicate SellsBelowZero(t: Terms, mid: real, draws: seq<real>, q: real, root: real) {
    && mid > 0.0 && B.Drawn(t.book, draws) && q > 0.0
    && var walked := B.FillPrice(B.Bids(t.book, mid, draws), q, mid, B.Sell);
       Rooted(t.slippage, MarketSale(q), walked, root) && Slipped(t, MarketSale(q), walked, root) < 0.0
  }

  lemma SaleDebt(t: Terms, bound: real, mid: real, draws: seq<real>, q: real, root: real, volume: real)
      returns (initial: real, events: seq<Event>)
    requires t.book.bookLevels > 0 && Costly(t, bound) && SellsBelowZero(t, mid, draws, q, root) && q <= bound
    requires 0.0 <= volume && TieredFee(t, volume, false) < 10000.0
    ensures 0.0 <= initial && Legal(t, bound, Opening(initial), events)
    ensures Play(t, Opening(initial), events).account.cash < 0.0
  {
    hide TieredFee, Play, Legal, Costly, Slipped, B.FillPrice, B.Bids, B.Asks, Rooted;
    var more := FeeStays(t, volume, false);
    var o := MarketSale(q);
    Opposite(Slipped(t, o, B.FillPrice(B.Bids(t.book, mid, draws), q, mid, B.Sell), root), TieredFee(t, more, false));
    initial, events := RunIntoDebt(t, bound, o, mid, draws, root, more);
  }

  /** At a mid price of one the price has the sign of the proceeds. */
  lemma UnitSign(cfg: B.Config, draws: seq<real>, q: real)
    requires B.Drawn(cfg, draws) && 0.0 < q
    ensures var price := B.FillPrice(B.Bids(cfg, 1.0, draws), q, 1.0, B.Sell);
            && (W.UnitProceeds(cfg, draws, q) < 0.0 ==> price < 0.0)
            && (W.UnitProceeds(cfg, draws, q) > 0.0 ==> price > 0.0)
  {
    hide B.FillPrice, B.Bids, W.UnitProceeds;
    W.SalePrice(cfg, 1.0, draws, q);
    W.ScaledSign(1.0, W.UnitProceeds(cfg, draws, q), q);
  }

  /** With a rate that does not depend on size. */
  lemma RateDebt(t: Terms, bound: real) returns (draws: seq<real>, q: real)
    requires bound > 0.0 && t.book.bookLevels > 0 && t.book.bookDepthDecay > 0.0
    requires !t.slippage.VolumeImpact? && !SalesSafe(t, bound)
    ensures q <= bound && SellsBelowZero(t, 1.0, draws, q, 0.0)
  {
    hide B.FillPrice, B.Bids, W.UnitProceeds, W.BookSafe, W.Worthless, Slipped;
    if SlipRate(t, 0.0) < 1.0 {
      draws, q := W.UnsafeSale(t.book, bound);
    } else {
      draws, q := W.WorthySale(t.book, bound);
    }
    UnitSign(t.book, draws, q);
    SlippedSign(t, MarketSale(q), B.FillPrice(B.Bids(t.book, 1.0, draws), q, 1.0, B.Sell), 0.0);
  }

  // ---------- the impact model ----------

  /** A price has a lower bound, and the proceeds fall no faster. */
  lemma ProceedsFall(cfg: B.Config, draws: seq<real>) returns (slope: real)
    requires B.Drawn(cfg, draws) && cfg.bookDepthDecay > 0.0
    ensures slope > 0.0
    ensures forall p, q :: 0.0 <= p <= q ==>
              W.UnitProceeds(cfg, draws, p) <= W.UnitProceeds(cfg, draws, q) + Times(q - p, slope)
  {
    hide B.WalkCost, B.Built, Times;
    var bids, tail := B.Bids(cfg, 1.0, draws), W.Penalised(cfg);
    B.BidsDescend(cfg, 1.0, draws);
    var low := Min(if bids == [] then tail else bids[|bids| - 1].price, Min(tail, -1.0));
    slope := -low;
    forall p, q | 0.0 <= p <= q
      ensures W.UnitProceeds(cfg, draws, p) <= W.UnitProceeds(cfg, draws, q) + Times(q - p, slope)
    {
      B.NegatedCost(bids, p, tail);
      B.NegatedCost(bids, q, tail);
      W.CostRises(B.Negated(bids), p, q, -tail, slope);
    }
  }

  /** An unsafe sale stays one when its size is brought down to a square. */
  lemma UnsafeSquare(cfg: B.Config, draws: seq<real>, q: real) returns (root: real)
    requires B.Drawn(cfg, draws) && cfg.bookDepthDecay > 0.0 && 0.0 < q && W.UnitProceeds(cfg, draws, q) < 0.0
    ensures 0.0 < root && root * root < q && W.UnitProceeds(cfg, draws, root * root) < 0.0
  {
    hide W.UnitProceeds, Times;
    var slope := ProceedsFall(cfg, draws);
    var gap := -W.UnitProceeds(cfg, draws, q) / slope;
    PositiveQuotient(-W.UnitProceeds(cfg, draws, q), slope);
    root := SquareBelow(q, gap);
    Narrow(q - root * root, gap, slope);
    assert W.UnitProceeds(cfg, draws, root * root)
        <= W.UnitProceeds(cfg, draws, q) + Times(q - root * root, slope);
  }

  lemma Narrow(x: real, gap: real, slope: real)
    requires 0.0 < slope && x < gap
    ensures Times(x, slope) < gap * slope
  {
    SameSign(slope, gap - x);
    assert Times(slope, gap - x) == gap * slope - Times(x, slope);
  }

  lemma BelowAtOne(t: Terms, draws: seq<real>, q: real, root: real)
    requires B.Drawn(t.book, draws) && 0.0 < q && W.UnitProceeds(t.book, draws, q) < 0.0
    requires t.slippage.VolumeImpact? && IsRoot(root, q) && SlipRate(t, root) < 1.0
    ensures SellsBelowZero(t, 1.0, draws, q, root)
  {
    hide B.FillPrice, B.Bids, W.UnitProceeds, Slipped, SlipRate;
    UnitSign(t.book, draws, q);
    var price := B.FillPrice(B.Bids(t.book, 1.0, draws), q, 1.0, B.Sell);
    assert Load(MarketSale(q), price) == q;
    SlippedSign(t, MarketSale(q), price, root);
  }

  /** In a book that is not safe, a sale below the limit of the impact model. */
  lemma UnsafeImpact(t: Terms, bound: real) returns (draws: seq<real>, q: real, root: real)
    requires bound > 0.0 && t.book.bookDepthDecay > 0.0 && t.slippage.VolumeImpact? && !W.BookSafe(t.book, bound)
    requires t.slippage.factor > 0.0 ==> bound <= LargestSize(t.slippage.factor)
    ensures q <= bound && SellsBelowZero(t, 1.0, draws, q, root)
  {
    hide B.FillPrice, B.Bids, W.UnitProceeds, W.BookSafe, Slipped, LargestSize;
    var whole;
    draws, whole := W.UnsafeSale(t.book, bound);
    root := UnsafeSquare(t.book, draws, whole);
    q := SquareOf(root);
    RateBelow(t, root);
    BelowAtOne(t, draws, q, root);
  }

  lemma SquareOf(root: real) returns (q: real)
    requires root > 0.0
    ensures q == root * root && q > 0.0
  {
    q := root * root;
    PositiveProduct(root, root);
    assert Times(root, root) == q;
  }

  lemma RateBelow(t: Terms, root: real)
    requires t.slippage.VolumeImpact? && 0.0 < root
    requires t.slippage.factor > 0.0 ==> root * root < LargestSize(t.slippage.factor)
    ensures SlipRate(t, root) < 1.0
  {
    var f := t.slippage.factor;
    var x := f * root;
    FactorSign(f, root);
    if f > 0.0 {
      ImpactRate(f, root * root, root);
      assert x / 100.0 < 1.0;
    }
    assert SlipRate(t, root) == x / 100.0;
  }

  /** The book whose best level is full and whose others are as low as can be. */
  lemma FullBest(cfg: B.Config) returns (draws: seq<real>)
    requires cfg.bookDepthDecay > 0.0 && 0 < cfg.bookLevels
    ensures B.Drawn(cfg, draws)
    ensures B.Bids(cfg, 1.0, draws) == [B.Level(B.BestBid(cfg, 1.0), 5.0)] + W.LowBook(cfg)[1..]
    ensures W.LowBook(cfg)[0] == B.Level(B.BestBid(cfg, 1.0), 0.5)
  {
    hide B.BestBid;
    draws := seq(cfg.bookLevels, i => if i == 0 then 5.0 else 0.5);
    var bids, low := B.Bids(cfg, 1.0, draws), W.LowBook(cfg);
    assert bids[0] == B.Level(B.BestBid(cfg, 1.0), 5.0) && low[0] == B.Level(B.BestBid(cfg, 1.0), 0.5);
    forall i | 0 < i < cfg.bookLevels ensures bids[i] == low[i] {
    }
    hide B.Built;
    assert bids[1..] == low[1..];
  }

  lemma FullBestPays(cfg: B.Config, draws: seq<real>, q: real, small: real)
    requires cfg.bookDepthDecay > 0.0 && 0 < cfg.bookLevels && 0.0 < small < q <= Max(5.0, small + 4.0)
    requires W.BookSafe(cfg, small) && 0.0 < B.BestBid(cfg, 1.0) && B.Drawn(cfg, draws)
    requires W.LowBook(cfg) != []
    requires B.Bids(cfg, 1.0, draws) == [B.Level(B.BestBid(cfg, 1.0), 5.0)] + W.LowBook(cfg)[1..]
    requires W.LowBook(cfg)[0] == B.Level(B.BestBid(cfg, 1.0), 0.5)
    ensures W.UnitProceeds(cfg, draws, q) > 0.0
  {
    hide B.Bids, B.BestBid, W.BookSafe, W.LowBook, W.Penalised, Times, B.WalkCost;
    var best, low, bids, tail := B.BestBid(cfg, 1.0), W.LowBook(cfg), B.Bids(cfg, 1.0, draws), W.Penalised(cfg);
    assert bids[1..] == low[1..];
    if q <= 5.0 {
      FirstOnly(bids, q, tail);
      PositiveProduct(q, best);
    } else {
      var lowest := Lowest(cfg);
      LowBookIs(cfg, lowest);
      W.SafeSale(cfg, small, 1.0, lowest, q - 4.5);
      B.NextLevel(bids, q, tail);
      B.NextLevel(low, q - 4.5, tail);
      TimesSplit(0.5, 4.5, best);
      PositiveProduct(4.5, best);
    }
  }

  lemma LowBookIs(cfg: B.Config, draws: seq<real>)
    requires draws == seq(cfg.bookLevels, _ => 0.5)
    ensures B.Bids(cfg, 1.0, draws) == W.LowBook(cfg)
  {
  }

  lemma FirstOnly(levels: seq<B.Level>, q: real, tail: real)
    requires levels != [] && 0.0 < q <= levels[0].quantity
    ensures B.WalkCost(levels, q, tail) == Times(q, levels[0].price)
  {
    B.NothingCostsNothing(levels[1..], tail);
  }

  /** If the book is safe up to `small`, but something is worth something, then so is some sale beyond `small`. A book
      whose best level holds 5.0 comes to more, by 4.5 units at the best bid, than one whose level holds 0.5. */
  lemma WorthyBeyond(cfg: B.Config, small: real, bound: real) returns (draws: seq<real>, q: real)
    requires cfg.bookDepthDecay > 0.0 && 0 < cfg.bookLevels && 0.0 < small < bound
    requires W.BookSafe(cfg, small) && !W.Worthless(cfg, bound)
    ensures B.Drawn(cfg, draws) && small < q <= bound && W.UnitProceeds(cfg, draws, q) > 0.0
  {
    if B.BestBid(cfg, 1.0) <= 0.0 {
      draws := Lowest(cfg);
      q := bound;
    } else {
      draws := FullBest(cfg);
      q := Min(bound, Max(5.0, small + 4.0));
      FullBestPays(cfg, draws, q, small);
    }
  }

  /** A sale that is worth something, beyond the limit: at the right price the impact takes more than all of it. */
  lemma SlipSale(t: Terms, draws: seq<real>, q: real) returns (mid: real, root: real)
    requires t.slippage.VolumeImpact? && t.slippage.factor > 0.0 && LargestSize(t.slippage.factor) < q
    requires B.Drawn(t.book, draws) && 0.0 < q && W.UnitProceeds(t.book, draws, q) > 0.0
    ensures SellsBelowZero(t, mid, draws, q, root)
  {
    hide B.FillPrice, B.Bids, W.UnitProceeds, Slipped;
    var f, x := t.slippage.factor, W.UnitProceeds(t.book, draws, q);
    var a := 100.0 / f;
    PositiveQuotient(100.0, f);
    assert Times(a, a) == a * a;
    root := SquareBetween(a, q);
    var s := SquareOf(root);
    mid := MidOfLoad(x, q, s);
    W.SalePrice(t.book, mid, draws, q);
    var price := B.FillPrice(B.Bids(t.book, mid, draws), q, mid, B.Sell);
    assert Load(MarketSale(q), price) == s;
    ImpactBeyond(f, root);
    SlippedSign(t, MarketSale(q), price, root);
  }

  lemma ImpactBeyond(factor: real, root: real)
    requires factor > 0.0 && 100.0 / factor < root
    ensures factor * root / 100.0 > 1.0
  {
    var a := 100.0 / factor;
    assert a * factor == 100.0;
    SameSign(factor, root - a);
    assert Times(factor, root - a) == factor * root - 100.0;
  }

  /** The mid price at which a sale with proceeds `x` at a mid price of one has the load `s`. */
  lemma MidOfLoad(x: real, q: real, s: real) returns (mid: real)
    requires x > 0.0 && 0.0 < s <= q
    ensures mid > 0.0 && Times(mid, x) / q >= 1.0 && q / (Times(mid, x) / q) == s
  {
    hide Times;
    var w := q / s;
    AtLeastOne(q, s);
    Quotient(q, s);
    PositiveProduct(w, q);
    mid := Times(w, q) / x;
    PositiveQuotient(Times(w, q), x);
    Quotient(Times(w, q), x);
    Undo(w, q);
    TimesSwap(w, s);
    Undo(s, w);
  }

  lemma Quotient(y: real, a: real)
    requires a > 0.0
    ensures Times(y / a, a) == y
  {
    assert (y / a) * a == y;
  }

  lemma TimesSwap(x: real, y: real)
    ensures Times(x, y) == Times(y, x)
  {
  }

  lemma Undo(x: real, a: real)
    requires a > 0.0
    ensures Times(x, a) / a == x
  {
    var y := x * a;
    assert y / a == x;
  }

  lemma AtLeastOne(q: real, s: real)
    requires 0.0 < s <= q
    ensures q / s >= 1.0
  {
    var w := q / s;
    assert w * s == q;
    SameSign(s, w - 1.0);
    assert Times(s, w - 1.0) == q - s;
  }

  lemma LimitPositive(factor: real)
    requires factor > 0.0
    ensures LargestSize(factor) > 0.0
  {
    PositiveQuotient(100.0, factor);
    PositiveProduct(100.0 / factor, 100.0 / factor);
  }

  /** Whenever market sales are not safe, one of them fetches less than nothing. */
  lemma UnsafeMarketSale(t: Terms, bound: real) returns (mid: real, draws: seq<real>, q: real, root: real)
    requires bound > 0.0 && t.book.bookLevels > 0 && t.book.bookDepthDecay > 0.0 && !SalesSafe(t, bound)
    ensures q <= bound && SellsBelowZero(t, mid, draws, q, root)
  {
    hide SellsBelowZero, W.BookSafe, W.Worthless, W.UnitProceeds, LargestSize;
    mid, root := 1.0, 0.0;
    if !t.slippage.VolumeImpact? {
      draws, q := RateDebt(t, bound);
    } else {
      var f := t.slippage.factor;
      if f > 0.0 { LimitPositive(f); }
      var small := if f <= 0.0 || bound <= LargestSize(f) then bound else LargestSize(f);
      if !W.BookSafe(t.book, small) {
        draws, q, root := UnsafeImpact(t, small);
      } else {
        draws, q := WorthyBeyond(t.book, small, bound);
        mid, root := SlipSale(t, draws, q);
      }
    }
  }

  /** Some taker fee leaves something of the notional, or takes more. */
  ghost predicate Nets(t: Terms) { exists volume :: 0.0 <= volume && TieredFee(t, volume, false) != 10000.0 }

  /** No run with orders up to `bound` ends in debt, whatever the opening balance, the prices and the draws, exactly
      when the configuration is safe for orders of that size. */
  lemma CashTheorem(t: Terms, bound: real)
    requires bound > 0.0 && t.book.bookLevels > 0 && t.book.bookDepthDecay > 0.0 && Costly(t, bound) && Nets(t)
    ensures NeverInDebt(t, bound) <==> CashSafe(t, bound)
  {
    hide SalesSafe, Play, Legal, TieredFee, Costly;
    if CashSafe(t, bound) {
      forall initial, events | 0.0 <= initial && Legal(t, bound, Opening(initial), events)
        ensures 0.0 <= Play(t, Opening(initial), events).account.cash
      {
        SafeRuns(t, bound, initial, events);
      }
    } else if !FeesWithin(t) {
      var volume, maker :| 0.0 <= volume && TieredFee(t, volume, maker) > 10000.0;
      var initial, events := FeeDebt(t, bound, volume, maker);
      assert !NeverInDebt(t, bound);
    } else {
      var volume :| 0.0 <= volume && TieredFee(t, volume, false) != 10000.0;
      assert TieredFee(t, volume, false) <= 10000.0;
      var mid, draws, q, root := UnsafeMarketSale(t, bound);
      var initial, events := SaleDebt(t, bound, mid, draws, q, root, volume);
      assert !NeverInDebt(t, bound);
    }
  }

  /** Where all bids are above zero, fees and slippage decide alone. */
  lemma PlainCashTheorem(t: Terms, bound: real)
    requires bound > 0.0 && t.book.bookLevels > 0 && t.book.bookDepthDecay > 0.0 && Costly(t, bound) && Nets(t)
    requires B.BidsAboveZero(t.book)
    ensures NeverInDebt(t, bound) <==> FeesWithin(t) && SlipsWithin(t, bound, 1.0)
  {
    hide NeverInDebt, FeesWithin, Costly, TieredFee, W.BookSafe;
    CashTheorem(t, bound);
    W.AboveZeroIsSafe(t.book, bound);
    BestBidAboveZero(t.book);
    hide W.Worthless, B.BidsAboveZero;
    if t.slippage.VolumeImpact? && t.slippage.factor > 0.0 {
      LimitImpact(t.slippage.factor, bound);
    }
  }

  lemma BestBidAboveZero(cfg: B.Config)
    requires B.BidsAboveZero(cfg)
    ensures 0.0 < B.BestBid(cfg, 1.0)
  {
  }

  // ---------- the default configuration with the impact model ----------

  /** The default book, fees and balance, and the default factor of the impact model. */
  const IMPACT: Terms := Terms(B.Config(20, 10.0, 0.95), VolumeImpact(0.1), 2.0, 7.5, [])

  const SIZE: real := 4000000.0

  const PRICE: real := 0.008

  function Bought(): Order { Order("", "", B.Buy, Market, SIZE, None) }

  /** Whatever is drawn, the prices of the book lie close to the mid price. */
  lemma DefaultPrices(draws: seq<real>)
    requires B.Drawn(IMPACT.book, draws)
    ensures 0.008004 <= B.FillPrice(B.Asks(IMPACT.book, PRICE, draws), SIZE, PRICE, B.Buy) <= 0.0080592
    ensures 0.0079808 <= B.FillPrice(B.Bids(IMPACT.book, PRICE, draws), SIZE, PRICE, B.Sell) <= 1.0
  {
    hide B.Pow, B.WalkCost, B.Depth;
    var c := IMPACT.book;
    var asks, bids := B.Asks(c, PRICE, draws), B.Bids(c, PRICE, draws);
    B.BuyingIsConvex(c, PRICE, draws, SIZE, SIZE);
    assert asks[19].price == 0.0080192;
    B.BidsDescend(c, PRICE, draws);
    var tail := B.ShortagePrice(bids, PRICE, B.Sell);
    forall i | 0 <= i < 20 ensures 0.0079808 <= bids[i].price <= 1.0 {
      B.BidOfMid(c, PRICE, draws, i);
    }
    B.CostAtLeast(bids, SIZE, tail, 0.0079808);
    W.CostRises(bids, 0.0, SIZE, tail, 1.0);
    B.NothingCostsNothing(bids, tail);
    B.Slope(B.WalkCost(bids, SIZE, tail), SIZE, 0.0079808);
    B.Slope(B.WalkCost(bids, SIZE, tail), SIZE, 1.0);
  }

  /** The impact moves such an order by twice its price. */
  lemma DefaultSlippage(o: Order, price: real)
    requires o.kind.Market? && o.quantity == SIZE && price <= 1.0
    ensures Rooted(IMPACT.slippage, o, price, 2000.0)
    ensures Slipped(IMPACT, o, price, 2000.0) == if o.side.Buy? then 3.0 * price else -price
  {
  }

  lemma DefaultFee(volume: real)
    ensures TieredFee(IMPACT, volume, false) == 7.5
  {
  }

  lemma AfterDefaultBuy(quote: Quote, price: real)
    requires Walked(Bought(), quote) == Price(price) && 0.008004 <= price <= 0.0080592
    ensures var a := Placed(IMPACT, Opening(100000.0).account, Bought(), quote, SIZE, 2000.0);
            && 3200.0 <= a.cash <= 3880.0
            && |a.positions| == 1 && a.positions[0].key == PosKey("", "") && a.positions[0].value.quantity == SIZE
  {
    hide TieredFee, PosKey, WithEquity, Equity, Slipped, Profit, SimulatedPrice;
    var a, o := Opening(100000.0).account, Bought();
    DefaultSlippage(o, price);
    DefaultFee(0.0);
    var slipped := 3.0 * price;
    var f := MadeFill(o, slipped, SIZE, 7.5);
    assert Affordable(a, o, slipped, SIZE, 7.5);
    NewEntry(a.positions, PosKey("", ""), Updated(Flat("", B.Buy), f));
    assert CashFlow(f) == -(SIZE * slipped) && Updated(Flat("", B.Buy), f).quantity == SIZE;
    hide Updated, CashFlow, Find, Put, Has;
  }

  lemma AfterDefaultSale(a: Account, quote: Quote, price: real)
    requires 3200.0 <= a.cash <= 3880.0
    requires |a.positions| == 1 && a.positions[0].key == PosKey("", "") && a.positions[0].value.quantity == SIZE
    requires Walked(MarketSale(SIZE), quote) == Price(price) && 0.0079808 <= price <= 1.0
    ensures Placed(IMPACT, a, MarketSale(SIZE), quote, SIZE, 2000.0).cash < -28000.0
  {
    hide TieredFee, PosKey, WithEquity, Equity, Slipped, Put, Updated, ClosingTrade, Proceeds, SimulatedPrice;
    var o := MarketSale(SIZE);
    DefaultSlippage(o, price);
    DefaultFee(a.volume);
    assert Find(a.positions, PosKey("", "")) == 0;
    hide Find;
    assert Affordable(a, o, -price, SIZE, 7.5);
    ExecutedCash(a, o, -price, SIZE, 7.5);
    PayoutOf(o, -price, SIZE, 7.5);
  }

  /** Buying and selling once with the opening balance that comes as default, in any book the draws make: the purchase
      is affordable, the sale fetches a negative price, and the account ends more than 28000 in debt. */
  lemma DefaultRunIntoDebt(draws: seq<real>) returns (events: seq<Event>)
    requires B.Drawn(IMPACT.book, draws)
    ensures Legal(IMPACT, SIZE, Opening(100000.0), events)
    ensures Play(IMPACT, Opening(100000.0), events).account.cash < -28000.0
  {
    hide Placed, Rooted, B.FillPrice, B.Bids, B.Asks, Play, Legal, PosKey;
    var s, quote := Opening(100000.0), QuoteAt(IMPACT.book, PRICE, draws);
    var e1, e2, e3 := UpdatePrice("", PRICE, draws), Execute(Bought(), SIZE, 2000.0),
      Execute(MarketSale(SIZE), SIZE, 2000.0);
    DefaultPrices(draws);
    var ask, bid := Walked(Bought(), quote).price, Walked(MarketSale(SIZE), quote).price;
    var s1 := Apply(IMPACT, s, e1);
    NothingRepriced(s.account, Mids(s1.books));
    AfterDefaultBuy(quote, ask);
    var s2 := Apply(IMPACT, s1, e2);
    AfterDefaultSale(s2.account, quote, bid);
    DefaultSlippage(Bought(), ask);
    DefaultSlippage(MarketSale(SIZE), bid);
    PlayThree(IMPACT, SIZE, s, e1, e2, e3);
    events := [e1] + [e2] + [e3];
  }

  lemma PlayThree(t: Terms, bound: real, s: State, e1: Event, e2: Event, e3: Event)
    ensures var s1 := Apply(t, s, e1);
            var s2 := Apply(t, s1, e2);
            var events := [e1] + [e2] + [e3];
            && Play(t, s, events) == Apply(t, s2, e3)
            && (Legal(t, bound, s, events)
                <==> Enabled(t, bound, s, e1) && Enabled(t, bound, s1, e2) && Enabled(t, bound, s2, e3))
  {
    hide Apply, Enabled, Play, Legal;
    var none: seq<Event> := [];
    var s2 := Apply(t, Apply(t, s, e1), e2);
    assert [e1] + [e2] + [e3] == [e1] + ([e2] + ([e3] + none));
    Unfolds(t, bound, s, e1, [e2] + ([e3] + none));
    Unfolds(t, bound, Apply(t, s, e1), e2, [e3] + none);
    Unfolds(t, bound, s2, e3, none);
    NoEvents(t, bound, Apply(t, s2, e3), none);
  }
}
