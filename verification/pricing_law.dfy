/** What the prices and fees of the paper account mean. */
module PricingLaws {
  // Limits, slippage and fee tiers against what they promise, whatever the book.

  import B = BookWalks
  import opened Arithmetic
  import opened FillPricing
  import opened StableSorting

  /** The limit of an order that is not a market order; without one it is the mid price. */
  function LimitOf(o: Order, mid: real): real { if o.price.Some? then o.price.value else mid }

  /** An order with a limit pays no more than the limit and no more than the best ask, and gets no less than the limit
      and no less than the best bid; and its price is one of the two. */
  lemma LimitTheorem(o: Order, bids: seq<B.Level>, asks: seq<B.Level>, mid: real)
    requires !o.kind.Market?
    ensures var r, limit := SimulatedPrice(o, bids, asks, mid), LimitOf(o, mid);
            if o.side.Buy? then
              && (r.NoLevel? <==> asks == [])
              && (r.Price? ==>
                    r.price <= limit && r.price <= asks[0].price && (r.price == limit || r.price == asks[0].price))
            else
              && (r.NoLevel? <==> bids == [])
              && (r.Price? ==>
                    limit <= r.price && bids[0].price <= r.price && (r.price == limit || r.price == bids[0].price))
  {
  }

  /** A market order walks the side it trades against, and always has a price. */
  lemma MarketTheorem(o: Order, bids: seq<B.Level>, asks: seq<B.Level>, mid: real)
    requires o.kind.Market?
    ensures o.side.Buy? ==> SimulatedPrice(o, bids, asks, mid) == Price(B.FillPrice(asks, o.quantity, mid, B.Buy))
    ensures o.side.Sell? ==> SimulatedPrice(o, bids, asks, mid) == Price(B.FillPrice(bids, o.quantity, mid, B.Sell))
  {
    hide B.FillPrice;
  }

  /** Slippage takes from a seller what it costs a buyer: a fixed part of the price, half the spread, or for the impact
      model a hundredth of the factor for every unit of the root. Without a model, and for all but market orders, there
      is none. */
  lemma SlippageTheorem(t: Terms, buy: Order, sell: Order, price: real, root: real)
    requires buy.side.Buy? && sell.side.Sell? && buy.kind == sell.kind
    ensures Slipped(t, buy, price, root) - price == price - Slipped(t, sell, price, root)
    ensures !buy.kind.Market? || t.slippage.Unslipped? ==> Slipped(t, buy, price, root) == price
    ensures buy.kind.Market? ==>
              var more := Slipped(t, buy, price, root) - price;
              match t.slippage
              case Fixed(bps) => 10000.0 * more == price * bps
              case VolumeImpact(factor) => 100.0 * more == price * (factor * root)
              case Spread => 20000.0 * more == price * t.book.bookSpreadBps
              case Unslipped => more == 0.0
  {
    var rate := SlipRate(t, root);
    assert buy.kind.Market? ==> Slipped(t, buy, price, root) - price == price * rate;
    match t.slippage
    case VolumeImpact(factor) =>
      var x := factor * root;
      assert rate == x / 100.0;
      assert 100.0 * (price * (x / 100.0)) == price * x;
    case _ =>
  }

  /** `_should_queue`, for limit orders: not yet at the current price. */
  predicate ShouldQueue(o: Order, current: real)
    requires o.kind.Limit?
  {
    var limit := if o.price.None? then 0.0 else o.price.value;
    (o.side.Buy? && limit < current) || (o.side.Sell? && current < limit)
  }

  /** A limit order is charged as a maker exactly when it would have been queued at the current price; icebergs are
      makers always, and no other order ever is. */
  lemma MakersAreQueued(o: Order, current: real)
    ensures o.kind.Limit? ==> (IsMaker(o, current) <==> ShouldQueue(o, current))
    ensures o.kind.Iceberg? ==> IsMaker(o, current)
    ensures !o.kind.Limit? && !o.kind.Iceberg? ==> !IsMaker(o, current)
  {
  }

  /** The tier that a trading volume has earned: the one with the highest threshold reached, or the first one listed. */
  predicate Earned(tiers: seq<Tier>, volume: real, t: Tier) {
    && t in tiers
    && if exists u :: u in tiers && Reached(u, volume) then
         Reached(t, volume) && forall u :: u in tiers && Reached(u, volume) ==> u.threshold <= t.threshold
       else t == tiers[0]
  }

  /** The fee is the maker rate or the taker rate, as the order is, of an earned tier; a tier that lists no such rate,
      and a configuration without tiers, leaves the base rate. */
  lemma FeeTheorem(t: Terms, volume: real) returns (tier: Tier)
    ensures t.tiers == [] ==> TieredFee(t, volume, true) == t.makerBps && TieredFee(t, volume, false) == t.takerBps
    ensures t.tiers != [] ==>
              && Earned(t.tiers, volume, tier)
              && (tier.maker.Listed? ==> TieredFee(t, volume, true) == tier.maker.bps)
              && (tier.maker.Base? ==> TieredFee(t, volume, true) == t.makerBps)
              && (tier.taker.Listed? ==> TieredFee(t, volume, false) == tier.taker.bps)
              && (tier.taker.Base? ==> TieredFee(t, volume, false) == t.takerBps)
  {
    hide Sort, ReachedTier, Reached;
    if t.tiers == [] {
      tier := Tier(0.0, Base, Base);
    } else {
      tier := ReachedTier(Sort(AsItems(t.tiers)), volume, t.tiers[0]);
      TierTheorem(t.tiers, volume);
    }
  }
}
