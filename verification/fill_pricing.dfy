/** From an order to its fill price and fee in exchanges/paper_trading.py. */
module FillPricing {
  // The price the simulated book gives, slippage on top of it, and the fee tier. `math.sqrt` has no counterpart here:
  // a root is a parameter with the property that defines it.

  import B = BookWalks
  import opened Arithmetic
  import opened StableSorting

  datatype OrderType = Market | Limit | StopMarket | StopLimit | Iceberg

  datatype Order = Order(symbol: string, strategyId: string, side: B.Side, kind: OrderType, quantity: real,
                         price: Option<real>)

  datatype Slippage = Fixed(bps: real) | VolumeImpact(factor: real) | Spread | Unslipped

  /** A rate that a fee tier lists, or the base rate where it lists none. */
  datatype Rate = Base | Listed(bps: real)

  datatype Tier = Tier(threshold: real, maker: Rate, taker: Rate)

  /** The book of a symbol as `update` leaves it. */
  datatype Quote = Quote(bids: seq<B.Level>, asks: seq<B.Level>, mid: real)

  function QuoteAt(cfg: B.Config, mid: real, draws: seq<real>): Quote
    requires |draws| == cfg.bookLevels
  {
    Quote(B.Bids(cfg, mid, draws), B.Asks(cfg, mid, draws), mid)
  }

  /** The part of the configuration that sets prices and fees. */
  datatype Terms = Terms(book: B.Config, slippage: Slippage, makerBps: real, takerBps: real, tiers: seq<Tier>)

  // ---------- the price of the book ----------

  /** What `simulate_fill_price` returns, or the index error of a book without levels. */
  datatype Simulated = Price(price: real) | NoLevel

  /** A limit order never pays more than its limit nor more than the best ask, and never gets less than its limit nor
      less than the best bid; without a limit the middle of the book stands in. */
  function SimulatedPrice(o: Order, bids: seq<B.Level>, asks: seq<B.Level>, mid: real): Simulated {
    if o.kind.Market? then Price(B.FillPrice(if o.side.Buy? then asks else bids, o.quantity, mid, o.side))
    else
      var limit := if o.price.Some? then o.price.value else mid;
      match o.side
      case Buy => if asks == [] then NoLevel else Price(Min(limit, asks[0].price))
      case Sell => if bids == [] then NoLevel else Price(Max(limit, bids[0].price))
  }

  method SimulateFillPrice(o: Order, bids: seq<B.Level>, asks: seq<B.Level>, mid: real) returns (r: Simulated)
    ensures r == SimulatedPrice(o, bids, asks, mid)
  {
    if o.kind == Market {
      var levels := if o.side.Buy? then asks else bids;
      var price := B.WalkBook(levels, o.quantity, mid, o.side);
      return Price(price);
    }
    var limit := if o.price.None? then mid else o.price.value;
    if (if o.side.Buy? then asks else bids) == [] {
      return NoLevel;
    }
    if o.side.Buy? && limit >= asks[0].price {
      return Price(Min(limit, asks[0].price));
    } else if o.side.Sell? && limit <= bids[0].price {
      return Price(Max(limit, bids[0].price));
    }
    return Price(limit);
  }

  /** In a book as `update` builds it, with every bid above zero, no sale of any kind or size is priced at zero or
      below. */
  lemma SalesArePriced(o: Order, cfg: B.Config, mid: real, draws: seq<real>)
    requires B.Drawn(cfg, draws) && cfg.bookDepthDecay > 0.0 && mid > 0.0 && B.BidsAboveZero(cfg) && o.side.Sell?
    ensures
      var r := SimulatedPrice(o, B.Bids(cfg, mid, draws), B.Asks(cfg, mid, draws), mid);
      if r.NoLevel? then !o.kind.Market? && cfg.bookLevels == 0 else 0.0 < r.price
  {
    hide B.FillPrice;
    B.SalesArePositive(cfg, mid, draws, o.quantity);
    B.BidsPositive(cfg, mid, draws);
  }

  // ---------- slippage ----------

  /** The size of an order relative to its price, under the root of the impact model. */
  function Load(o: Order, price: real): real { o.quantity / Max(price, 1.0) }

  predicate IsRoot(root: real, x: real) { root >= 0.0 && root * root == x }

  /** The part of the price that slippage adds for a buyer and takes from a seller. */
  function SlipRate(t: Terms, root: real): real {
    match t.slippage
    case Fixed(bps) => bps / 10000.0
    case VolumeImpact(factor) => factor * root / 100.0
    case Spread => t.book.bookSpreadBps / 20000.0
    case Unslipped => 0.0
  }

  /** The root is one wherever the impact model takes it. */
  predicate Rooted(s: Slippage, o: Order, price: real, root: real) {
    o.kind.Market? && s.VolumeImpact? ==> IsRoot(root, Load(o, price))
  }

  function Slipped(t: Terms, o: Order, price: real, root: real): real {
    if !o.kind.Market? then price
    else if o.side.Buy? then price * (1.0 + SlipRate(t, root))
    else price * (1.0 - SlipRate(t, root))
  }

  /** `_apply_slippage`, for market orders as `_execute_order` calls it. */
  method ApplySlippage(t: Terms, o: Order, price: real, root: real) returns (slipped: real)
    requires Rooted(t.slippage, o, price, root)
    ensures slipped == Slipped(t, o, price, root)
  {
    if o.kind != Market {
      return price;
    }
    match t.slippage
    case Fixed(bps) =>
      var mult := bps / 10000.0;
      slipped := if o.side.Buy? then price * (1.0 + mult) else price * (1.0 - mult);
    case VolumeImpact(factor) =>
      var impact := factor * root / 100.0;
      slipped := if o.side.Buy? then price * (1.0 + impact) else price * (1.0 - impact);
    case Spread =>
      var spread := price * t.book.bookSpreadBps / 10000.0;
      slipped := if o.side.Buy? then price + spread / 2.0 else price - spread / 2.0;
    case Unslipped =>
      slipped := price;
  }

  /** The square of the impact, but for the price. */
  function Impact(factor: real, quantity: real): real { factor * factor * quantity }

  /** Slippage takes at most the whole price. For the impact model that bounds the size of the order. */
  predicate SlipsWithin(t: Terms, quantity: real, price: real) {
    match t.slippage
    case Fixed(bps) => bps <= 10000.0
    case VolumeImpact(factor) => factor <= 0.0 || Impact(factor, quantity) <= 10000.0 * Max(price, 1.0)
    case Spread => t.book.bookSpreadBps <= 20000.0
    case Unslipped => true
  }

  lemma RootOfLoad(quantity: real, m: real, root: real, factor: real)
    requires m > 0.0 && IsRoot(root, quantity / m)
    ensures Impact(factor, quantity) == (factor * root) * (factor * root) * m
  {
    var x := quantity / m;
    assert x * m == quantity;
    assert factor * factor * (root * root * m) == (factor * root) * (factor * root) * m;
  }

  lemma SquareWithin(x: real, m: real)
    requires m > 0.0
    ensures x <= 0.0 || x * x * m <= 10000.0 * m <==> x <= 100.0
  {
    if x > 100.0 {
      assert x * x > 10000.0;
      assert x * x * m > 10000.0 * m;
    } else if x > 0.0 {
      assert x * x <= 10000.0;
      assert x * x * m <= 10000.0 * m;
    }
  }

  /** A market sale at a positive price slips below zero exactly when the order is too large for the configuration. */
  lemma SaleSlipsIff(t: Terms, o: Order, price: real, root: real)
    requires o.kind.Market? && o.side.Sell? && price > 0.0 && o.quantity >= 0.0 && Rooted(t.slippage, o, price, root)
    ensures 0.0 <= Slipped(t, o, price, root) <==> SlipsWithin(t, o.quantity, price)
  {
    var rate := SlipRate(t, root);
    RateDecides(price, rate);
    if t.slippage.VolumeImpact? {
      var m, factor := Max(price, 1.0), t.slippage.factor;
      var x := factor * root;
      RootOfLoad(o.quantity, m, root, factor);
      SquareWithin(x, m);
      FactorSign(factor, root);
    }
  }

  lemma FactorSign(factor: real, root: real)
    requires root >= 0.0
    ensures factor <= 0.0 ==> factor * root <= 0.0
    ensures factor > 0.0 ==> factor * root >= 0.0
  {
  }

  lemma RateDecides(price: real, rate: real)
    requires price > 0.0
    ensures 0.0 <= price * (1.0 - rate) <==> rate <= 1.0
  {
  }

  // ---------- fee tiers ----------

  function Bps(r: Rate, base: real): real { if r.Base? then base else r.bps }

  function AsItems(tiers: seq<Tier>): (r: seq<Item<Tier>>)
    ensures |r| == |tiers| && forall i :: 0 <= i < |r| ==> r[i] == Item(tiers[i].threshold, tiers[i])
  {
    seq(|tiers|, i requires 0 <= i < |tiers| => Item(tiers[i].threshold, tiers[i]))
  }

  /** The last of the sorted tiers whose threshold the volume has reached. */
  function ReachedTier(sorted: seq<Item<Tier>>, volume: real, first: Tier): Tier {
    if sorted == [] then first
    else if volume >= sorted[|sorted| - 1].key then sorted[|sorted| - 1].value
    else ReachedTier(sorted[..|sorted| - 1], volume, first)
  }

  function TieredFee(t: Terms, volume: real, maker: bool): real {
    var base := if maker then t.makerBps else t.takerBps;
    if t.tiers == [] then base
    else
      var tier := ReachedTier(Sort(AsItems(t.tiers)), volume, t.tiers[0]);
      Bps(if maker then tier.maker else tier.taker, base)
  }

  /** `_get_tiered_fee`. */
  method GetTieredFee(t: Terms, volume: real, maker: bool) returns (bps: real)
    ensures bps == TieredFee(t, volume, maker)
  {
    hide Sort;
    var base := if maker then t.makerBps else t.takerBps;
    if t.tiers == [] {
      return base;
    }
    var tier, sorted := t.tiers[0], Sort(AsItems(t.tiers));
    for i := 0 to |sorted|
      invariant tier == ReachedTier(sorted[..i], volume, t.tiers[0])
    {
      assert sorted[..i + 1][..i] == sorted[..i];
      if volume >= sorted[i].key {
        tier := sorted[i].value;
      }
    }
    assert sorted[..|sorted|] == sorted;
    return Bps(if maker then tier.maker else tier.taker, base);
  }

  predicate Reached(t: Tier, volume: real) { volume >= t.threshold }

  lemma {:induction false} ReachedIsLast(sorted: seq<Item<Tier>>, volume: real, first: Tier)
    requires Sorted(sorted) && forall i :: 0 <= i < |sorted| ==> sorted[i].key == sorted[i].value.threshold
    ensures
      var r := ReachedTier(sorted, volume, first);
      if exists i :: 0 <= i < |sorted| && Reached(sorted[i].value, volume) then
        && (exists i :: 0 <= i < |sorted| && sorted[i].value == r) && Reached(r, volume)
        && forall i :: 0 <= i < |sorted| && Reached(sorted[i].value, volume) ==>
             sorted[i].value.threshold <= r.threshold
      else r == first
  {
    if sorted != [] {
      var n := |sorted| - 1;
      if volume < sorted[n].key {
        ReachedIsLast(sorted[..n], volume, first);
        assert forall i :: 0 <= i < n ==> sorted[..n][i] == sorted[i];
        assert !Reached(sorted[n].value, volume);
      } else {
        assert Reached(sorted[n].value, volume);
      }
    }
  }

  /** The fee comes from the listed tier with the highest threshold that the volume has reached, and from the first one
      listed while it has reached none. */
  lemma TierTheorem(tiers: seq<Tier>, volume: real)
    requires tiers != []
    ensures
      var r := ReachedTier(Sort(AsItems(tiers)), volume, tiers[0]);
      if exists t :: t in tiers && Reached(t, volume) then
        r in tiers && Reached(r, volume) && forall t :: t in tiers && Reached(t, volume) ==> t.threshold <= r.threshold
      else r == tiers[0]
  {
    hide ReachedTier, Reached, Sort, Sorted;
    var items := AsItems(tiers);
    var sorted := Sort(items);
    SortIsStable(items);
    SortItems(items);
    forall i | 0 <= i < |sorted|
      ensures sorted[i].value in tiers && sorted[i].key == sorted[i].value.threshold
    {
      assert sorted[i] in multiset(sorted);
      assert sorted[i] in items;
    }
    forall t | t in tiers
      ensures exists i :: 0 <= i < |sorted| && sorted[i].value == t
    {
      assert Item(t.threshold, t) in items by {
        var k :| 0 <= k < |tiers| && tiers[k] == t;
        assert items[k] == Item(t.threshold, t);
      }
      assert Item(t.threshold, t) in multiset(sorted);
    }
    ReachedIsLast(sorted, volume, tiers[0]);
  }

  /** `is_maker`: a resting order. Icebergs always count as one, stops never. */
  predicate IsMaker(o: Order, current: real) {
    var limit := if o.price.Some? then o.price.value else 0.0;
    o.kind.Iceberg? || (o.kind.Limit? && !(if o.side.Buy? then limit >= current else limit <= current))
  }
}
