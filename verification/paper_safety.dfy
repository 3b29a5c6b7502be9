/** What keeps the cash of the paper account from going negative: configuration and order size decide, that is the fees,
    the slippage of market sales, and the books they meet. */
module PaperSafety {
  import B = BookWalks
  import W = WorstSales
  import opened Arithmetic
  import opened FillPricing
  import opened OrderedDicts
  import opened PaperAccounts
  import opened Roots

  // ---------- runs ----------

  /** A price the market can show, with draws of a book; or an order of a size up to `bound`, filled in part or whole,
      whose limit price, if it has one, is above zero. A root is one. */
  predicate Enabled(t: Terms, bound: real, s: State, e: Event) {
    match e
    case UpdatePrice(_, price, draws) => price > 0.0 && B.Drawn(t.book, draws)
    case Execute(o, quantity, root) =>
      && 0.0 <= quantity <= o.quantity <= bound
      && (o.price.Some? ==> o.price.value > 0.0)
      && (o.symbol in s.books && Walked(o, s.books[o.symbol]).Price? ==>
            Rooted(t.slippage, o, Walked(o, s.books[o.symbol]).price, root))
  }

  predicate Legal(t: Terms, bound: real, s: State, events: seq<Event>)
    decreases |events|
  {
    events == [] || (Enabled(t, bound, s, events[0]) && Legal(t, bound, Apply(t, s, events[0]), events[1..]))
  }

  ghost predicate NeverInDebt(t: Terms, bound: real) {
    forall initial, events :: 0.0 <= initial && Legal(t, bound, Opening(initial), events) ==>
      0.0 <= Play(t, Opening(initial), events).account.cash
  }

  // ---------- the condition ----------

  /** No fee takes more than the whole notional, at whatever volume. */
  ghost predicate FeesWithin(t: Terms) {
    forall volume, maker :: 0.0 <= volume ==> TieredFee(t, volume, maker) <= 10000.0
  }

  /** The order size at which the impact model takes the whole price, where it is harshest: at prices up to one. */
  function LargestSize(factor: real): real
    requires factor > 0.0
  {
    Times(100.0 / factor, 100.0 / factor)
  }

  /** What book and slippage leave of a market sale of up to `bound` units is not below zero. While slippage takes less
      than the whole price, that is for the book to see to. Where it takes more, nothing may be worth anything. */
  predicate SalesSafe(t: Terms, bound: real) {
    match t.slippage
    case VolumeImpact(factor) =>
      if factor <= 0.0 || bound <= LargestSize(factor) then W.BookSafe(t.book, bound)
      else W.BookSafe(t.book, LargestSize(factor)) && W.Worthless(t.book, bound)
    case _ =>
      var rate := SlipRate(t, 0.0);
      if rate < 1.0 then W.BookSafe(t.book, bound) else rate == 1.0 || W.Worthless(t.book, bound)
  }

  /** Nobody is paid for a purchase: asks are above zero, slippage gives a buyer no more than the whole price, and nor
      does the fee of a fresh account. */
  predicate Costly(t: Terms, bound: real) {
    && -20000.0 < t.book.bookSpreadBps
    && -10000.0 <= TieredFee(t, 0.0, false)
    && match t.slippage
       case Fixed(bps) => -10000.0 <= bps
       case VolumeImpact(factor) => factor >= 0.0 || Impact(factor, bound) <= 10000.0
       case _ => true
  }

  ghost predicate CashSafe(t: Terms, bound: real) { FeesWithin(t) && SalesSafe(t, bound) }

  // ---------- safe configurations ----------

  ghost predicate Quoted(t: Terms, quote: Quote) {
    exists mid, draws :: mid > 0.0 && B.Drawn(t.book, draws) && quote == QuoteAt(t.book, mid, draws)
  }

  /** Neither cash nor volume is negative, and every book is one that `update` builds. */
  ghost predicate Sound(t: Terms, s: State) {
    && 0.0 <= s.account.cash && 0.0 <= s.account.volume
    && forall symbol :: symbol in s.books ==> Quoted(t, s.books[symbol])
  }

  lemma Squares(factor: real, quantity: real, bound: real)
    requires quantity <= bound
    ensures Impact(factor, quantity) <= Impact(factor, bound)
  {
    var f := factor * factor;
    assert f >= 0.0;
  }

  /** A market purchase meets asks above zero. */
  lemma AskedAboveZero(cfg: B.Config, mid: real, draws: seq<real>, q: real)
    requires B.Drawn(cfg, draws) && cfg.bookDepthDecay > 0.0 && mid > 0.0 && -20000.0 < cfg.bookSpreadBps
    ensures 0.0 < B.FillPrice(B.Asks(cfg, mid, draws), q, mid, B.Buy)
    ensures cfg.bookLevels > 0 ==> 0.0 < B.Asks(cfg, mid, draws)[0].price
  {
    var asks := B.Asks(cfg, mid, draws);
    B.AsksAscend(cfg, mid, draws);
    BestAskAboveZero(cfg, mid);
    hide B.BestAsk, B.Built;
    if q > 0.0 {
      var tail := B.ShortagePrice(asks, mid, B.Buy);
      B.PositiveAbove(asks, q, tail, if asks == [] then tail else asks[0].price);
    }
  }

  lemma BestAskAboveZero(cfg: B.Config, mid: real)
    requires mid > 0.0 && -20000.0 < cfg.bookSpreadBps
    ensures 0.0 < B.BestAsk(cfg, mid)
  {
    var k := 20000.0 + cfg.bookSpreadBps;
    PositiveProduct(mid, k);
    assert B.BestAsk(cfg, mid) == Times(mid, k) / 20000.0;
  }

  /** Slippage never gives a buyer more than the whole price. */
  lemma BuyerPays(t: Terms, bound: real, o: Order, price: real, root: real)
    requires Costly(t, bound) && o.kind.Market? && o.side.Buy? && price > 0.0 && 0.0 <= o.quantity <= bound
    requires Rooted(t.slippage, o, price, root)
    ensures 0.0 <= Slipped(t, o, price, root)
  {
    hide TieredFee;
    if t.slippage.VolumeImpact? {
      var f, m := t.slippage.factor, Max(price, 1.0);
      FactorSign(f, root);
      if f < 0.0 {
        Squares(f, o.quantity, bound);
        RootOfLoad(o.quantity, m, root, -f);
        assert Impact(-f, o.quantity) == Impact(f, o.quantity);
        SquareWithin(-f * root, m);
      }
    }
    hide Rooted, Costly;
    assert SlipRate(t, root) >= -1.0;
    TimesMono(price, 0.0, 1.0 + SlipRate(t, root));
    assert Slipped(t, o, price, root) == Times(price, 1.0 + SlipRate(t, root));
  }

  lemma BuyPrice(t: Terms, bound: real, o: Order, mid: real, draws: seq<real>, root: real)
    requires Costly(t, bound) && o.side.Buy? && 0.0 <= o.quantity <= bound && (o.price.Some? ==> o.price.value > 0.0)
    requires B.Drawn(t.book, draws) && t.book.bookDepthDecay > 0.0 && mid > 0.0
    requires var w := Walked(o, QuoteAt(t.book, mid, draws)); w.Price? && Rooted(t.slippage, o, w.price, root)
    ensures 0.0 <= Slipped(t, o, Walked(o, QuoteAt(t.book, mid, draws)).price, root)
  {
    AskedAboveZero(t.book, mid, draws, o.quantity);
    hide B.FillPrice, B.Built, Rooted, Slipped;
    if o.kind.Market? {
      BuyerPays(t, bound, o, Walked(o, QuoteAt(t.book, mid, draws)).price, root);
    } else {
      Unslippable(t, o, Walked(o, QuoteAt(t.book, mid, draws)).price, root);
    }
  }

  lemma Unslippable(t: Terms, o: Order, price: real, root: real)
    requires !o.kind.Market?
    ensures Slipped(t, o, price, root) == price
  {
  }

  /** The sign of a slipped sale price. */
  lemma SlippedSign(t: Terms, o: Order, price: real, root: real)
    requires o.kind.Market? && o.side.Sell?
    ensures var rate := SlipRate(t, root);
            && (price >= 0.0 && rate <= 1.0 ==> 0.0 <= Slipped(t, o, price, root))
            && (price <= 0.0 && rate >= 1.0 ==> 0.0 <= Slipped(t, o, price, root))
            && (rate == 1.0 ==> 0.0 <= Slipped(t, o, price, root))
            && (price < 0.0 && rate < 1.0 ==> Slipped(t, o, price, root) < 0.0)
            && (price > 0.0 && rate > 1.0 ==> Slipped(t, o, price, root) < 0.0)
  {
    hide SlipRate;
    var k := 1.0 - SlipRate(t, root);
    assert Slipped(t, o, price, root) == Times(price, k);
    if price > 0.0 { SameSign(price, k); }
    if price < 0.0 { SameSign(-price, k); TimesNegate(k, price); assert Times(-price, k) == -Times(price, k); }
    assert Times(0.0, k) == 0.0;
    assert k == 0.0 ==> Times(price, k) == 0.0;
    hide Times;
  }

  /** The rate of the impact model at prices up to one. */
  lemma ImpactRate(factor: real, q: real, root: real)
    requires factor > 0.0 && IsRoot(root, q)
    ensures factor * root / 100.0 <= 1.0 <==> q <= LargestSize(factor)
    ensures factor * root / 100.0 < 1.0 <==> q < LargestSize(factor)
  {
    var a := 100.0 / factor;
    assert a * factor == 100.0;
    RootsCompare(root, a);
    SameSign(factor, a - root);
    assert Times(factor, a - root) == 100.0 - factor * root;
    assert root == a ==> factor * root == 100.0;
  }

  lemma SellPrice(t: Terms, bound: real, o: Order, mid: real, draws: seq<real>, root: real)
    requires SalesSafe(t, bound) && o.side.Sell? && 0.0 < o.quantity <= bound
    requires o.price.Some? ==> o.price.value > 0.0
    requires B.Drawn(t.book, draws) && t.book.bookDepthDecay > 0.0 && mid > 0.0
    requires var w := Walked(o, QuoteAt(t.book, mid, draws)); w.Price? && Rooted(t.slippage, o, w.price, root)
    ensures 0.0 <= Slipped(t, o, Walked(o, QuoteAt(t.book, mid, draws)).price, root)
  {
    hide B.FillPrice, B.Built, Slipped, W.BookSafe, W.Worthless, LargestSize;
    var price := Walked(o, QuoteAt(t.book, mid, draws)).price;
    if !o.kind.Market? {
      Unslippable(t, o, price, root);
    } else {
      SlippedSign(t, o, price, root);
      if t.slippage.VolumeImpact? {
        ImpactSale(t, bound, o, mid, draws, root);
      } else if SlipRate(t, root) < 1.0 {
        W.SafeSale(t.book, bound, mid, draws, o.quantity);
      } else if SlipRate(t, root) > 1.0 {
        W.WorthlessSale(t.book, bound, mid, draws, o.quantity);
      }
    }
  }

  lemma ImpactSale(t: Terms, bound: real, o: Order, mid: real, draws: seq<real>, root: real)
    requires SalesSafe(t, bound) && o.side.Sell? && o.kind.Market? && 0.0 < o.quantity <= bound
    requires B.Drawn(t.book, draws) && t.book.bookDepthDecay > 0.0 && mid > 0.0 && t.slippage.VolumeImpact?
    requires Rooted(t.slippage, o, B.FillPrice(B.Bids(t.book, mid, draws), o.quantity, mid, B.Sell), root)
    ensures 0.0 <= Slipped(t, o, B.FillPrice(B.Bids(t.book, mid, draws), o.quantity, mid, B.Sell), root)
  {
    hide B.FillPrice, B.Bids, W.BookSafe, W.Worthless, LargestSize, Slipped;
    var f, price := t.slippage.factor, B.FillPrice(B.Bids(t.book, mid, draws), o.quantity, mid, B.Sell);
    SlippedSign(t, o, price, root);
    if f <= 0.0 {
      FactorSign(f, root);
      W.SafeSale(t.book, bound, mid, draws, o.quantity);
    } else if o.quantity <= LargestSize(f) {
      W.SafeSale(t.book, Min(bound, LargestSize(f)), mid, draws, o.quantity);
      if price > 0.0 {
        SaleSlipsIff(t, o, price, root);
        LimitImpact(f, o.quantity);
      }
    } else {
      W.WorthlessSale(t.book, bound, mid, draws, o.quantity);
      ImpactRate(f, o.quantity, root);
    }
  }

  lemma LimitImpact(factor: real, q: real)
    requires factor > 0.0
    ensures Impact(factor, q) <= 10000.0 <==> q <= LargestSize(factor)
  {
    var a, f := 100.0 / factor, factor * factor;
    assert a * factor == 100.0;
    PositiveProduct(factor, factor);
    assert Times(f, a * a) == (a * factor) * (a * factor) == 10000.0;
    assert Times(f, a * a - q) == 10000.0 - Impact(factor, q);
    SameSign(f, a * a - q);
  }

  lemma PlacedKeepsCash(t: Terms, bound: real, a: Account, o: Order, quote: Quote, quantity: real, root: real)
    requires CashSafe(t, bound) && Costly(t, bound) && t.book.bookDepthDecay > 0.0 && Quoted(t, quote)
    requires 0.0 <= a.cash && 0.0 <= a.volume && 0.0 <= quantity <= o.quantity <= bound
    requires o.price.Some? ==> o.price.value > 0.0
    requires Walked(o, quote).Price? ==> Rooted(t.slippage, o, Walked(o, quote).price, root)
    ensures var b := Placed(t, a, o, quote, quantity, root);
            0.0 <= b.cash && 0.0 <= b.volume
  {
    hide SalesSafe, Costly, Slipped, TieredFee, IsMaker, Executed, Rooted, QuoteAt, SimulatedPrice;
    if Walked(o, quote).Price? {
      var mid, draws :| mid > 0.0 && B.Drawn(t.book, draws) && quote == QuoteAt(t.book, mid, draws);
      var price := Slipped(t, o, Walked(o, quote).price, root);
      if o.side.Buy? {
        BuyPrice(t, bound, o, mid, draws, root);
      } else if o.quantity > 0.0 {
        SellPrice(t, bound, o, mid, draws, root);
      }
      var feeBps := TieredFee(t, a.volume, IsMaker(o, quote.mid));
      assert feeBps <= 10000.0;
      ExecuteKeepsCash(a, o, price, quantity, feeBps);
    }
  }

  lemma StepKeepsCash(t: Terms, bound: real, s: State, e: Event)
    requires CashSafe(t, bound) && Costly(t, bound) && t.book.bookDepthDecay > 0.0
    requires Sound(t, s) && Enabled(t, bound, s, e)
    ensures Sound(t, Apply(t, s, e))
  {
    hide CashSafe, Costly, Placed, Repriced, Rooted, SimulatedPrice;
    match e
    case UpdatePrice(symbol, price, draws) =>
      assert Quoted(t, QuoteAt(t.book, price, draws));
    case Execute(o, quantity, root) =>
      if o.symbol in s.books {
        PlacedKeepsCash(t, bound, s.account, o, s.books[o.symbol], quantity, root);
      }
  }

  lemma {:induction false} RunKeepsCash(t: Terms, bound: real, s: State, events: seq<Event>)
    requires CashSafe(t, bound) && Costly(t, bound) && t.book.bookDepthDecay > 0.0
    requires Sound(t, s) && Legal(t, bound, s, events)
    ensures Sound(t, Play(t, s, events))
    decreases |events|
  {
    hide CashSafe, Costly, Sound, Enabled, Apply;
    if events != [] {
      StepKeepsCash(t, bound, s, events[0]);
      RunKeepsCash(t, bound, Apply(t, s, events[0]), events[1..]);
    }
  }

  lemma SafeRuns(t: Terms, bound: real, initial: real, events: seq<Event>)
    requires CashSafe(t, bound) && Costly(t, bound) && t.book.bookDepthDecay > 0.0
    requires 0.0 <= initial && Legal(t, bound, Opening(initial), events)
    ensures 0.0 <= Play(t, Opening(initial), events).account.cash
  {
    hide CashSafe, Costly, Legal, Play;
    RunKeepsCash(t, bound, Opening(initial), events);
  }

  /** Over every run of executions and price updates: cash plus the cost of the positions is the opening balance plus
      realised profit, less the commissions of the buys; and all positions are long. In a safe configuration no run ends
      in debt; `CashTheorem` says when a configuration is safe. */
  lemma AccountConservation(t: Terms, initial: real, bound: real, events: seq<Event>)
    requires Sized(events)
    ensures var a := Play(t, Opening(initial), events).account;
            && LongOnly(a.positions)
            && a.cash + TotalCost(a.positions) == initial + a.tracker.realized - BuyCommissions(a.fills)
            && ((CashSafe(t, bound) && Costly(t, bound) && t.book.bookDepthDecay > 0.0
                 && 0.0 <= initial && Legal(t, bound, Opening(initial), events)) ==> 0.0 <= a.cash)
  {
    hide Play, CashSafe, Costly, Legal;
    PlayBalances(t, Opening(initial), events, initial);
    if CashSafe(t, bound) && Costly(t, bound) && t.book.bookDepthDecay > 0.0
       && 0.0 <= initial && Legal(t, bound, Opening(initial), events) {
      SafeRuns(t, bound, initial, events);
    }
  }
}
