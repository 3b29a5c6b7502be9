/** Pricing a market order in exchanges/paper_trading.py: the simulated order book that `update` builds around a mid
    price, and the walk along one side of it that gives a volume-weighted fill price. Costs are convex along ascending
    asks and concave along descending bids, up to the price of running out. */
module BookWalks {
  import opened Arithmetic

  datatype Side = Buy | Sell

  datatype Level = Level(price: real, quantity: real)

  datatype Config = Config(bookLevels: nat, bookSpreadBps: real, bookDepthDecay: real)

  /** The price of what the book cannot supply. */
  function ShortagePrice(levels: seq<Level>, mid: real, side: Side): real {
    if levels != [] then levels[|levels| - 1].price + mid * 0.005
    else mid * if side.Buy? then 1.001 else 0.999
  }

  /** What `quantity` comes to along the levels, with the rest at price `tail`. */
  function WalkCost(levels: seq<Level>, quantity: real, tail: real): real
    decreases |levels|
  {
    if quantity <= 0.0 then 0.0
    else if levels == [] then Times(quantity, tail)
    else
      var fill := Min(quantity, levels[0].quantity);
      Times(fill, levels[0].price) + WalkCost(levels[1..], quantity - fill, tail)
  }

  function FillPrice(levels: seq<Level>, quantity: real, mid: real, side: Side): real {
    if quantity > 0.0 then WalkCost(levels, quantity, ShortagePrice(levels, mid, side)) / quantity else mid
  }

  method WalkBook(levels: seq<Level>, quantity: real, mid: real, side: Side) returns (price: real)
    ensures price == FillPrice(levels, quantity, mid, side)
  {
    hide Times;
    var remaining, totalCost, i := quantity, 0.0, 0;
    ghost var tail := ShortagePrice(levels, mid, side);
    while i < |levels| && remaining > 0.0
      invariant i <= |levels|
      invariant totalCost + WalkCost(levels[i..], remaining, tail) == WalkCost(levels, quantity, tail)
    {
      var fill := Min(remaining, levels[i].quantity);
      totalCost := totalCost + Times(fill, levels[i].price);
      remaining := remaining - fill;
      i := i + 1;
    }
    if remaining > 0.0 {
      var slippage := mid * 0.005;
      var extra := if levels != [] then levels[|levels| - 1].price + slippage
                   else mid * if side.Buy? then 1.001 else 0.999;
      totalCost := totalCost + Times(remaining, extra);
    }
    price := if quantity > 0.0 then totalCost / quantity else mid;
  }

  // ---------- convexity ----------

  ghost predicate Sizes(levels: seq<Level>) {
    forall i :: 0 <= i < |levels| ==> levels[i].quantity > 0.0
  }

  ghost predicate Ascending(levels: seq<Level>, tail: real) {
    && (forall i, j :: 0 <= i < j < |levels| ==> levels[i].price <= levels[j].price)
    && (forall i :: 0 <= i < |levels| ==> levels[i].price <= tail)
  }

  /** The price at which the last unit of `quantity` is filled. */
  function MarginalPrice(levels: seq<Level>, quantity: real, tail: real): real {
    if levels == [] then tail
    else if quantity <= levels[0].quantity then levels[0].price
    else MarginalPrice(levels[1..], quantity - levels[0].quantity, tail)
  }

  /** Between the best price and the price of shortage, for every unit. */
  lemma {:induction false} CostBounds(levels: seq<Level>, q: real, tail: real, best: real)
    requires Sizes(levels) && Ascending(levels, tail) && q >= 0.0
    requires best <= tail && forall i :: 0 <= i < |levels| ==> best <= levels[i].price
    ensures Times(q, best) <= WalkCost(levels, q, tail) <= Times(q, tail)
    decreases |levels|
  {
    hide Times;
    TimesSplit(0.0, 0.0, best);
    TimesSplit(0.0, 0.0, tail);
    if q > 0.0 {
      TimesMono(q, best, tail);
      if levels != [] {
        var fill := Min(q, levels[0].quantity);
        CostBounds(levels[1..], q - fill, tail, best);
        TimesMono(fill, best, levels[0].price);
        TimesMono(fill, levels[0].price, tail);
        TimesSplit(fill, q - fill, best);
        TimesSplit(fill, q - fill, tail);
      }
    }
  }

  lemma {:induction false} MarginalBounds(levels: seq<Level>, q: real, tail: real)
    requires Sizes(levels) && Ascending(levels, tail)
    ensures MarginalPrice(levels, q, tail) <= tail
    ensures levels != [] ==> levels[0].price <= MarginalPrice(levels, q, tail)
    decreases |levels|
  {
    if levels != [] && q > levels[0].quantity {
      MarginalBounds(levels[1..], q - levels[0].quantity, tail);
    }
  }

  lemma NextLevel(levels: seq<Level>, q: real, tail: real)
    requires levels != [] && 0.0 <= levels[0].quantity <= q
    ensures WalkCost(levels, q, tail)
         == Times(levels[0].quantity, levels[0].price) + WalkCost(levels[1..], q - levels[0].quantity, tail)
  {
    hide Times;
    TimesSplit(0.0, 0.0, levels[0].price);
  }

  /** The marginal price supports the cost curve from below: the curve is convex. */
  lemma {:induction false} Supported(levels: seq<Level>, a: real, b: real, tail: real)
    requires Sizes(levels) && Ascending(levels, tail) && a >= 0.0 && b >= 0.0
    ensures WalkCost(levels, b, tail)
         >= WalkCost(levels, a, tail) + Times(b - a, MarginalPrice(levels, a, tail))
    decreases |levels|
  {
    hide Times;
    if levels == [] {
      TimesSplit(a, b - a, tail);
    } else {
      var l, rest := levels[0], levels[1..];
      var m := MarginalPrice(levels, a, tail);
      MarginalBounds(levels, a, tail);
      if a <= l.quantity {
        TimesSplit(a, b - a, l.price);
        if b > l.quantity {
          NextLevel(levels, b, tail);
          CostBounds(rest, b - l.quantity, tail, l.price);
          TimesSplit(l.quantity, b - l.quantity, l.price);
        }
      } else {
        var a' := a - l.quantity;
        NextLevel(levels, a, tail);
        if b <= l.quantity {
          Supported(rest, a', 0.0, tail);
          TimesMono(b - l.quantity, l.price, m);
          TimesSplit(l.quantity, b - l.quantity, l.price);
          TimesSplit(b - l.quantity, 0.0 - a', m);
        } else {
          NextLevel(levels, b, tail);
          Supported(rest, a', b - l.quantity, tail);
        }
      }
    }
  }

  /** A mean is raised by what is added at a price no lower than the mean. */
  lemma MeanRises(x: real, a: real, y: real, b: real, m: real)
    requires 0.0 < a <= b && x <= Times(a, m) && y >= x + Times(b - a, m)
    ensures x / a <= y / b
  {
    var u := x / a;
    TimesMono(b - a, u, m);
    TimesSplit(a, b - a, u);
    assert y >= Times(b, u);
  }

  /** Buying more never lowers the average price. */
  lemma AverageRises(levels: seq<Level>, a: real, b: real, tail: real)
    requires Sizes(levels) && Ascending(levels, tail) && 0.0 < a <= b
    ensures WalkCost(levels, a, tail) / a <= WalkCost(levels, b, tail) / b
  {
    hide Times, WalkCost;
    var m := MarginalPrice(levels, a, tail);
    Supported(levels, a, b, tail);
    Supported(levels, a, 0.0, tail);
    NothingCostsNothing(levels, tail);
    TimesSplit(a, 0.0 - a, m);
    MeanRises(WalkCost(levels, a, tail), a, WalkCost(levels, b, tail), b, m);
  }

  lemma NothingCostsNothing(levels: seq<Level>, tail: real)
    ensures WalkCost(levels, 0.0, tail) == 0.0
  {
  }

  /** Convexity of the cost curve, written for slopes. */
  lemma CostIsConvex(levels: seq<Level>, a: real, b: real, c: real, tail: real)
    requires Sizes(levels) && Ascending(levels, tail) && 0.0 <= a < b < c
    ensures (WalkCost(levels, b, tail) - WalkCost(levels, a, tail)) / (b - a)
         <= (WalkCost(levels, c, tail) - WalkCost(levels, b, tail)) / (c - b)
  {
    hide Times, WalkCost;
    var m := MarginalPrice(levels, b, tail);
    var x, y, z := WalkCost(levels, a, tail), WalkCost(levels, b, tail), WalkCost(levels, c, tail);
    Supported(levels, b, a, tail);
    Supported(levels, b, c, tail);
    TimesSplit(a - b, b - a, m);
    Slope(y - x, b - a, m);
    Slope(z - y, c - b, m);
  }

  lemma Slope(x: real, a: real, m: real)
    requires a > 0.0
    ensures x <= Times(a, m) ==> x / a <= m
    ensures x >= Times(a, m) ==> x / a >= m
  {
  }

  // ---------- selling ----------

  ghost predicate Descending(levels: seq<Level>) {
    forall i, j :: 0 <= i < j < |levels| ==> levels[i].price >= levels[j].price
  }

  function Depth(levels: seq<Level>): real {
    if levels == [] then 0.0 else levels[0].quantity + Depth(levels[1..])
  }

  function Negated(levels: seq<Level>): (r: seq<Level>)
    ensures |r| == |levels|
    ensures forall i :: 0 <= i < |r| ==> r[i] == Level(-levels[i].price, levels[i].quantity)
  {
    seq(|levels|, i requires 0 <= i < |levels| => Level(-levels[i].price, levels[i].quantity))
  }

  /** Selling is buying at negated prices. */
  lemma {:induction false} NegatedCost(levels: seq<Level>, q: real, tail: real)
    ensures WalkCost(Negated(levels), q, -tail) == -WalkCost(levels, q, tail)
    decreases |levels|
  {
    hide Times;
    if q > 0.0 {
      TimesNegate(q, tail);
      if levels != [] {
        var fill := Min(q, levels[0].quantity);
        assert Negated(levels)[1..] == Negated(levels[1..]);
        TimesNegate(fill, levels[0].price);
        NegatedCost(levels[1..], q - fill, tail);
      }
    }
  }

  /** Within the depth of the book the price of shortage plays no part; beyond it, every unit pays it. */
  lemma {:induction false} Shortage(levels: seq<Level>, q: real, tail: real, other: real)
    requires Sizes(levels) && q >= 0.0
    ensures 0.0 <= Depth(levels)
    ensures q <= Depth(levels) ==> WalkCost(levels, q, tail) == WalkCost(levels, q, other)
    ensures q >= Depth(levels) ==>
              WalkCost(levels, q, tail) == WalkCost(levels, Depth(levels), tail) + Times(q - Depth(levels), tail)
    decreases |levels|
  {
    hide Times;
    TimesSplit(0.0, 0.0, tail);
    if levels != [] {
      var l, rest := levels[0], levels[1..];
      assert Sizes(rest);
      if q >= l.quantity {
        Shortage(rest, q - l.quantity, tail, other);
        NextLevel(levels, q, tail);
        NextLevel(levels, q, other);
        NextLevel(levels, Depth(levels), tail);
      } else {
        Shortage(rest, 0.0, tail, other);
      }
    } else if q > 0.0 {
      NothingCostsNothing(levels, tail);
    }
  }

  /** Up to the depth of the bids, selling more never raises the average price. */
  lemma SellAverageFalls(levels: seq<Level>, a: real, b: real, tail: real)
    requires Sizes(levels) && Descending(levels) && 0.0 < a <= b <= Depth(levels)
    ensures WalkCost(levels, a, tail) / a >= WalkCost(levels, b, tail) / b
  {
    hide WalkCost, Depth;
    assert levels != [] by { DepthNonempty(levels); }
    var last := levels[|levels| - 1].price;
    Shortage(levels, a, tail, last);
    Shortage(levels, b, tail, last);
    NegatedCost(levels, a, last);
    NegatedCost(levels, b, last);
    AverageRises(Negated(levels), a, b, -last);
    NegatedQuotient(WalkCost(levels, a, tail), a);
    NegatedQuotient(WalkCost(levels, b, tail), b);
  }

  lemma NegatedQuotient(x: real, a: real)
    requires a > 0.0
    ensures (-x) / a == -(x / a)
  {
  }

  lemma DepthNonempty(levels: seq<Level>)
    requires Depth(levels) > 0.0
    ensures levels != []
  {
  }

  function Average(levels: seq<Level>, q: real, tail: real): real
    requires q > 0.0
  {
    WalkCost(levels, q, tail) / q
  }

  lemma MeanFalls(x: real, a: real, y: real, b: real, m: real)
    requires 0.0 < a <= b && x >= Times(a, m) && y <= x + Times(b - a, m)
    ensures x / a >= y / b
  {
    TimesNegate(a, m);
    TimesNegate(b - a, m);
    MeanRises(-x, a, -y, b, -m);
    NegatedQuotient(x, a);
    NegatedQuotient(y, b);
  }

  lemma ShortageDrags(levels: seq<Level>, a: real, b: real, tail: real)
    requires Sizes(levels) && 0.0 < Depth(levels) <= a <= b
    requires tail <= Average(levels, Depth(levels), tail)
    ensures Average(levels, a, tail) >= Average(levels, b, tail)
  {
    hide WalkCost, Times;
    var d := Depth(levels);
    hide Depth;
    Shortage(levels, a, tail, tail);
    Shortage(levels, b, tail, tail);
    Slope2(WalkCost(levels, d, tail), d, tail);
    TimesSplit(d, a - d, tail);
    TimesSplit(a - d, b - a, tail);
    MeanFalls(WalkCost(levels, a, tail), a, WalkCost(levels, b, tail), b, tail);
  }

  lemma Slope2(x: real, a: real, m: real)
    requires a > 0.0
    ensures x / a >= m <==> x >= Times(a, m)
  {
  }

  lemma ShortagePays(levels: seq<Level>, q: real, tail: real)
    requires Sizes(levels) && 0.0 < Depth(levels) < q
    requires tail > Average(levels, Depth(levels), tail)
    ensures Average(levels, Depth(levels), tail) < Average(levels, q, tail)
  {
    hide WalkCost, Times;
    var d := Depth(levels);
    hide Depth;
    var u := Average(levels, d, tail);
    Shortage(levels, q, tail, tail);
    Slope2(WalkCost(levels, d, tail), d, u);
    StrictTimes(q - d, u, tail);
    TimesSplit(d, q - d, u);
    StrictSlope(WalkCost(levels, q, tail), q, u);
  }

  lemma StrictTimes(x: real, p: real, q: real)
    requires x > 0.0 && p < q
    ensures Times(x, p) < Times(x, q)
  {
  }

  lemma StrictSlope(x: real, a: real, m: real)
    requires a > 0.0 && x > Times(a, m)
    ensures x / a > m
  {
  }

  /** The average price of a sale falls with its size over all sizes exactly when the price of shortage is no better
      than the average of selling into the whole book. */
  lemma SellAverageIff(levels: seq<Level>, tail: real)
    requires levels != [] && Sizes(levels) && Descending(levels)
    ensures 0.0 < Depth(levels)
    ensures (forall a, b :: 0.0 < a <= b ==> Average(levels, a, tail) >= Average(levels, b, tail))
       <==> tail <= Average(levels, Depth(levels), tail)
  {
    Shortage(levels[1..], 0.0, tail, tail);
    hide WalkCost, Depth;
    var d := Depth(levels);
    if tail <= Average(levels, d, tail) {
      forall a, b | 0.0 < a <= b ensures Average(levels, a, tail) >= Average(levels, b, tail) {
        if b <= d {
          SellAverageFalls(levels, a, b, tail);
        } else if a >= d {
          ShortageDrags(levels, a, b, tail);
        } else {
          SellAverageFalls(levels, a, d, tail);
          ShortageDrags(levels, d, b, tail);
        }
      }
    } else {
      ShortagePays(levels, d + 1.0, tail);
    }
  }

  // ---------- the books that `update` builds ----------

  function Pow(x: real, n: nat): real { if n == 0 then 1.0 else x * Pow(x, n - 1) }

  /** Depth falls by the same factor from level to level. */
  lemma PowTheorem(x: real, n: nat)
    ensures Pow(x, 0) == 1.0 && Pow(x, n + 1) == Times(x, Pow(x, n))
  {
  }

  /** What the book cannot supply costs half a percent of the mid price more than its last level, on either side;
      without levels a buyer pays a tenth of a percent above the mid price and a seller gets a tenth below. */
  lemma ShortageTheorem(levels: seq<Level>, mid: real)
    ensures levels != [] ==>
              200.0 * (ShortagePrice(levels, mid, Buy) - levels[|levels| - 1].price) == mid
              == 200.0 * (ShortagePrice(levels, mid, Sell) - levels[|levels| - 1].price)
    ensures levels == [] ==>
              1000.0 * (ShortagePrice(levels, mid, Buy) - mid) == mid
              == 1000.0 * (mid - ShortagePrice(levels, mid, Sell))
  {
  }

  /** Level `i`, on the side whose prices move by `step` per level. */
  function BuiltLevel(cfg: Config, best: real, step: real, draws: seq<real>, i: nat): Level
    requires i < |draws|
  {
    Level(best + Times(i as real, step), Times(draws[i], Pow(cfg.bookDepthDecay, i)))
  }

  function Built(cfg: Config, best: real, step: real, draws: seq<real>): (levels: seq<Level>)
    requires |draws| == cfg.bookLevels
    ensures |levels| == cfg.bookLevels
    ensures forall i :: 0 <= i < |levels| ==> levels[i] == BuiltLevel(cfg, best, step, draws, i)
  {
    seq(|draws|, i requires 0 <= i < |draws| => BuiltLevel(cfg, best, step, draws, i))
  }

  function BestBid(cfg: Config, mid: real): real { mid - mid * cfg.bookSpreadBps / 10000.0 / 2.0 }

  function BestAsk(cfg: Config, mid: real): real { mid + mid * cfg.bookSpreadBps / 10000.0 / 2.0 }

  function Bids(cfg: Config, mid: real, draws: seq<real>): seq<Level>
    requires |draws| == cfg.bookLevels
  {
    Built(cfg, BestBid(cfg, mid), -(mid * 0.0001), draws)
  }

  function Asks(cfg: Config, mid: real, draws: seq<real>): seq<Level>
    requires |draws| == cfg.bookLevels
  {
    Built(cfg, BestAsk(cfg, mid), mid * 0.0001, draws)
  }

  method Update(cfg: Config, mid: real, draws: seq<real>) returns (bids: seq<Level>, asks: seq<Level>)
    requires |draws| == cfg.bookLevels
    ensures bids == Bids(cfg, mid, draws) && asks == Asks(cfg, mid, draws)
  {
    var spread := mid * cfg.bookSpreadBps / 10000.0;
    var bestBid, bestAsk := mid - spread / 2.0, mid + spread / 2.0;
    var tick := mid * 0.0001;
    assert bestBid == BestBid(cfg, mid) && bestAsk == BestAsk(cfg, mid);
    hide Pow, Times, BestBid, BestAsk;
    bids, asks := [], [];
    for i := 0 to cfg.bookLevels
      invariant |bids| == i == |asks|
      invariant forall k :: 0 <= k < i ==> bids[k] == BuiltLevel(cfg, bestBid, -tick, draws, k)
      invariant forall k :: 0 <= k < i ==> asks[k] == BuiltLevel(cfg, bestAsk, tick, draws, k)
    {
      var baseQty := Times(draws[i], Pow(cfg.bookDepthDecay, i));
      TimesNegate(i as real, tick);
      bids := bids + [Level(bestBid - Times(i as real, tick), baseQty)];
      asks := asks + [Level(bestAsk + Times(i as real, tick), baseQty)];
    }
  }

  /** The draws come from `random.uniform(0.5, 5.0)`. */
  predicate Drawn(cfg: Config, draws: seq<real>) {
    |draws| == cfg.bookLevels && forall i :: 0 <= i < |draws| ==> 0.5 <= draws[i] <= 5.0
  }

  lemma {:induction false} PowPositive(x: real, n: nat)
    requires x > 0.0
    ensures Pow(x, n) > 0.0
  {
    if n > 0 { PowPositive(x, n - 1); }
  }

  lemma BuiltSizes(cfg: Config, best: real, step: real, draws: seq<real>)
    requires Drawn(cfg, draws) && cfg.bookDepthDecay > 0.0
    ensures Sizes(Built(cfg, best, step, draws))
  {
    forall i | 0 <= i < |draws| ensures BuiltLevel(cfg, best, step, draws, i).quantity > 0.0 {
      PowPositive(cfg.bookDepthDecay, i);
      assert 0.5 <= draws[i];
    }
  }

  lemma StepMono(i: nat, j: nat, step: real)
    requires i <= j
    ensures step >= 0.0 ==> Times(i as real, step) <= Times(j as real, step)
    ensures step <= 0.0 ==> Times(i as real, step) >= Times(j as real, step)
    ensures Times(0 as real, step) == 0.0
  {
  }

  lemma AsksAscend(cfg: Config, mid: real, draws: seq<real>)
    requires Drawn(cfg, draws) && cfg.bookDepthDecay > 0.0 && mid > 0.0
    ensures var asks := Asks(cfg, mid, draws);
            Sizes(asks) && Ascending(asks, ShortagePrice(asks, mid, Buy))
    ensures var asks := Asks(cfg, mid, draws);
            asks != [] ==> asks[0].price == BestAsk(cfg, mid) <= ShortagePrice(asks, mid, Buy)
  {
    hide Times, Pow, BestAsk;
    var asks, step := Asks(cfg, mid, draws), mid * 0.0001;
    BuiltSizes(cfg, BestAsk(cfg, mid), step, draws);
    forall i, j | 0 <= i <= j < |asks| ensures asks[i].price <= asks[j].price {
      StepMono(i, j, step);
    }
    StepMono(0, 0, step);
  }

  lemma BidsDescend(cfg: Config, mid: real, draws: seq<real>)
    requires Drawn(cfg, draws) && cfg.bookDepthDecay > 0.0 && mid > 0.0
    ensures Sizes(Bids(cfg, mid, draws)) && Descending(Bids(cfg, mid, draws))
    ensures cfg.bookLevels > 0 ==> Bids(cfg, mid, draws)[0].price == BestBid(cfg, mid)
  {
    hide Times, Pow, BestBid;
    var bids, step := Bids(cfg, mid, draws), -(mid * 0.0001);
    BuiltSizes(cfg, BestBid(cfg, mid), step, draws);
    forall i, j | 0 <= i < j < |bids| ensures bids[i].price >= bids[j].price {
      StepMono(i, j, step);
    }
    StepMono(0, 0, step);
  }

  /** Every book that `update` builds: a market buy costs on average no less the more is bought, and its average
      lies between the best ask and the price of shortage. */
  lemma BuyingIsConvex(cfg: Config, mid: real, draws: seq<real>, a: real, b: real)
    requires Drawn(cfg, draws) && cfg.bookDepthDecay > 0.0 && mid > 0.0 && 0.0 < a <= b
    ensures var asks := Asks(cfg, mid, draws);
            && FillPrice(asks, a, mid, Buy) <= FillPrice(asks, b, mid, Buy) <= ShortagePrice(asks, mid, Buy)
            && (asks != [] ==> BestAsk(cfg, mid) <= FillPrice(asks, a, mid, Buy))
  {
    hide Times, WalkCost, BestAsk, Built;
    var asks := Asks(cfg, mid, draws);
    var tail := ShortagePrice(asks, mid, Buy);
    AsksAscend(cfg, mid, draws);
    AverageRises(asks, a, b, tail);
    var best := if asks == [] then tail else asks[0].price;
    CostBounds(asks, b, tail, best);
    CostBounds(asks, a, tail, best);
    Slope(WalkCost(asks, b, tail), b, tail);
    Slope(WalkCost(asks, a, tail), a, best);
  }

  /** A market sale within the bids averages no more the more is sold, but in a book of at most 50 levels the penalty
      for running out is added to the price instead of taken off: selling past the depth raises the average. */
  lemma OversellingPays(cfg: Config, mid: real, draws: seq<real>, a: real, b: real, q: real)
    requires Drawn(cfg, draws) && cfg.bookDepthDecay > 0.0 && mid > 0.0 && 0 < cfg.bookLevels
    requires 0.0 < a <= b <= Depth(Bids(cfg, mid, draws)) < q
    ensures var bids := Bids(cfg, mid, draws);
            && FillPrice(bids, a, mid, Sell) >= FillPrice(bids, b, mid, Sell)
            && (cfg.bookLevels <= 50 ==>
                  FillPrice(bids, Depth(bids), mid, Sell) < FillPrice(bids, q, mid, Sell))
  {
    hide Times, WalkCost, BestBid, Built, Depth;
    var bids := Bids(cfg, mid, draws);
    var tail := ShortagePrice(bids, mid, Sell);
    BidsDescend(cfg, mid, draws);
    SellAverageFalls(bids, a, b, tail);
    if cfg.bookLevels <= 50 {
      var d := Depth(bids);
      PenaltyExceedsBook(cfg, mid, draws);
      BestIsBest(bids, d, tail);
      ShortagePays(bids, q, tail);
    }
  }

  /** 50 ticks of a basis point make up the 50 basis points of the penalty. */
  lemma PenaltyExceedsBook(cfg: Config, mid: real, draws: seq<real>)
    requires |draws| == cfg.bookLevels && 0 < cfg.bookLevels <= 50 && mid > 0.0
    ensures ShortagePrice(Bids(cfg, mid, draws), mid, Sell) > Bids(cfg, mid, draws)[0].price
  {
    var n := cfg.bookLevels - 1;
    assert n as real <= 49.0;
    TimesMono(mid, n as real, 49.0);
    assert Times(0 as real, -(mid * 0.0001)) == 0.0;
    hide Times, Pow, BestBid;
  }

  /** No sale averages better than the best bid. */
  lemma BestIsBest(levels: seq<Level>, q: real, tail: real)
    requires levels != [] && Sizes(levels) && Descending(levels) && 0.0 < q <= Depth(levels)
    ensures Average(levels, q, tail) <= levels[0].price
  {
    hide Times, WalkCost, Depth;
    var last := levels[|levels| - 1].price;
    Shortage(levels, q, tail, last);
    NegatedCost(levels, q, last);
    CostBounds(Negated(levels), q, -last, -levels[0].price);
    TimesNegate(q, levels[0].price);
    Slope(WalkCost(levels, q, tail), q, levels[0].price);
  }

  // ---------- positive prices ----------

  /** No average is below the lowest price. */
  lemma {:induction false} CostAtLeast(levels: seq<Level>, q: real, tail: real, low: real)
    requires Sizes(levels) && q >= 0.0 && low <= tail
    requires forall i :: 0 <= i < |levels| ==> low <= levels[i].price
    ensures Times(q, low) <= WalkCost(levels, q, tail)
    decreases |levels|
  {
    hide Times;
    TimesSplit(0.0, 0.0, low);
    if q > 0.0 {
      TimesMono(q, low, tail);
      if levels != [] {
        var fill := Min(q, levels[0].quantity);
        CostAtLeast(levels[1..], q - fill, tail, low);
        TimesMono(fill, low, levels[0].price);
        TimesSplit(fill, q - fill, low);
      }
    }
  }

  lemma SignOfQuotient(x: real, a: real)
    requires a > 0.0
    ensures x / a > 0.0 <==> x > 0.0
  {
    assert (x / a) * a == x;
  }

  /** Sales of every size fetch something exactly when selling the whole book does, and the price of shortage is not
      negative. */
  lemma AllSalesPositiveIff(levels: seq<Level>, tail: real)
    requires levels != [] && Sizes(levels) && Descending(levels)
    ensures 0.0 < Depth(levels)
    ensures (forall q :: 0.0 < q ==> 0.0 < Average(levels, q, tail))
       <==> 0.0 < Average(levels, Depth(levels), tail) && 0.0 <= tail
  {
    Shortage(levels[1..], 0.0, tail, tail);
    hide Times, WalkCost, Depth;
    var d := Depth(levels);
    var all := WalkCost(levels, d, tail);
    SignOfQuotient(all, d);
    if 0.0 < Average(levels, d, tail) && 0.0 <= tail {
      forall q | 0.0 < q ensures 0.0 < Average(levels, q, tail) {
        if q <= d {
          SellAverageFalls(levels, q, d, tail);
        } else {
          Shortage(levels, q, tail, tail);
          TimesMono(q - d, 0.0, tail);
          SignOfQuotient(WalkCost(levels, q, tail), q);
        }
      }
    } else if 0.0 < Average(levels, d, tail) {
      var q := d + all / -tail;
      SignOfQuotient(all, -tail);
      Shortage(levels, q, tail, tail);
      SoldOut(all, tail);
      SignOfQuotient(WalkCost(levels, q, tail), q);
      assert !(0.0 < Average(levels, q, tail));
    }
  }

  lemma SoldOut(x: real, tail: real)
    requires tail < 0.0
    ensures x + Times(x / -tail, tail) == 0.0
  {
    assert (x / -tail) * -tail == x;
  }

  /** Every bid of a book lies above zero if half the spread and the ticks down to the last level make up less than the
      whole price. */
  predicate BidsAboveZero(cfg: Config) {
    cfg.bookSpreadBps / 2.0 + cfg.bookLevels as real < 10000.0
  }

  lemma BidsPositive(cfg: Config, mid: real, draws: seq<real>)
    requires |draws| == cfg.bookLevels && BidsAboveZero(cfg) && mid > 0.0
    ensures forall i :: 0 <= i < cfg.bookLevels ==> 0.0 < Bids(cfg, mid, draws)[i].price
  {
    hide Times, Pow, BestBid, BuiltLevel;
    forall i | 0 <= i < cfg.bookLevels ensures 0.0 < Bids(cfg, mid, draws)[i].price {
      var k := 10000.0 - cfg.bookSpreadBps / 2.0 - i as real;
      assert i as real <= cfg.bookLevels as real;
      BidOfMid(cfg, mid, draws, i);
      Portion(mid, k);
    }
  }

  lemma Portion(mid: real, k: real)
    requires mid > 0.0 && k > 0.0
    ensures 0.0 < mid * k / 10000.0
  {
  }

  lemma BidOfMid(cfg: Config, mid: real, draws: seq<real>, i: nat)
    requires |draws| == cfg.bookLevels && i < cfg.bookLevels
    ensures Bids(cfg, mid, draws)[i].price == mid * (10000.0 - cfg.bookSpreadBps / 2.0 - i as real) / 10000.0
  {
    hide Pow;
  }

  /** In such a book a sale of any size has a positive price. */
  lemma SalesArePositive(cfg: Config, mid: real, draws: seq<real>, q: real)
    requires Drawn(cfg, draws) && cfg.bookDepthDecay > 0.0 && mid > 0.0 && BidsAboveZero(cfg)
    ensures 0.0 < FillPrice(Bids(cfg, mid, draws), q, mid, Sell)
  {
    hide Times, WalkCost, Depth, Built;
    var bids := Bids(cfg, mid, draws);
    var tail := ShortagePrice(bids, mid, Sell);
    if q > 0.0 {
      BidsDescend(cfg, mid, draws);
      BidsPositive(cfg, mid, draws);
      var low := if bids == [] then tail else bids[|bids| - 1].price;
      PositiveAbove(bids, q, tail, low);
    }
  }

  lemma PositiveAbove(levels: seq<Level>, q: real, tail: real, low: real)
    requires Sizes(levels) && q > 0.0 && 0.0 < low <= tail
    requires forall i :: 0 <= i < |levels| ==> low <= levels[i].price
    ensures 0.0 < WalkCost(levels, q, tail) / q
  {
    CostAtLeast(levels, q, tail, low);
    assert Times(q, low) > 0.0;
    hide WalkCost, Times;
    SignOfQuotient(WalkCost(levels, q, tail), q);
  }
}
