/** What routing means in terms of the quotes. */
module Routings {
  // Which quotes may be used, in which order they are taken, what each decision says, and against which ways of
  // spreading an order the plan is best, written from the fields of the quotes.

  import opened Arithmetic
  import opened OrderedDicts
  import opened Routers
  import opened StableSorting

  /** Buyers meet the ask, sellers the bid. */
  function PriceAt(q: Quote, side: Side): real {
    match side
    case Buy => q.ask
    case Sell => q.bid
  }

  function SizeAt(q: Quote, side: Side): real {
    match side
    case Buy => q.askSize
    case Sell => q.bidSize
  }

  /** What one unit costs at a venue, fee included; for a sale what it brings in, with the sign turned. */
  function UnitAt(q: Quote, side: Side): real {
    match side
    case Buy => q.ask + q.feeRate * q.ask
    case Sell => q.feeRate * q.bid - q.bid
  }

  predicate Passes(cfg: Config, q: Quote, side: Side) {
    !(q.latencyMs > cfg.maxLatencyMs) && !(SizeAt(q, side) < cfg.minLiquidity) && 0.0 < PriceAt(q, side)
  }

  /** The quotes that may be used, in the order in which the venues came. */
  function Passing(cfg: Config, quotes: seq<Entry<Quote>>, side: Side): seq<Quote> {
    if quotes == [] then []
    else
      (if Passes(cfg, quotes[0].value, side) then [quotes[0].value] else []) + Passing(cfg, quotes[1..], side)
  }

  /** How many of `n` the slice `[:m]` keeps: from the front, or all but the last ones. */
  function Slice(n: nat, m: int): nat {
    if m < 0 then if n + m < 0 then 0 else n + m
    else if n < m then n else m
  }

  /** The quotes of one unit price, in order. */
  function At(quotes: seq<Quote>, side: Side, unit: real): seq<Quote> {
    if quotes == [] then []
    else At(quotes[..|quotes| - 1], side, unit)
         + if UnitAt(quotes[|quotes| - 1], side) == unit then [quotes[|quotes| - 1]] else []
  }

  /** `ranked` has the same quotes, best first; equally good ones keep their order. */
  ghost predicate Ranks(ranked: seq<Quote>, quotes: seq<Quote>, side: Side) {
    && |ranked| == |quotes|
    && (forall i, j :: 0 <= i < j < |ranked| ==> UnitAt(ranked[i], side) <= UnitAt(ranked[j], side))
    && forall unit :: At(ranked, side, unit) == At(quotes, side, unit)
  }

  /** What is still wanted after the first `i` decisions. */
  function Wanted(plan: seq<Decision>, quantity: real, i: nat): real
    requires i <= |plan|
  {
    if i == 0 then quantity else Wanted(plan, quantity, i - 1) - plan[i - 1].quantity
  }

  /** The decision takes from the quote as much as is wanted and there, at its price and fee. */
  predicate Takes(d: Decision, q: Quote, wanted: real, side: Side) {
    && d.exchange == q.exchange && d.price == PriceAt(q, side)
    && d.quantity <= wanted && d.quantity <= SizeAt(q, side) && (d.quantity == wanted || d.quantity == SizeAt(q, side))
    && d.fee == d.quantity * d.price * q.feeRate
    && (d.quantity > 0.0 ==>
          d.netPrice * d.quantity == d.quantity * d.price + if side.Buy? then d.fee else -d.fee)
    && (d.quantity <= 0.0 ==> d.netPrice == 0.0)
  }

  // ---------- offers are quotes ----------

  function AsOffer(q: Quote, side: Side): Offer { Offer(q.exchange, PriceAt(q, side), SizeAt(q, side), q.feeRate) }

  function Offered(quotes: seq<Quote>, side: Side): (r: seq<Item<Offer>>)
    ensures |r| == |quotes|
    ensures forall i :: 0 <= i < |r| ==> r[i] == Item(UnitAt(quotes[i], side), AsOffer(quotes[i], side))
  {
    seq(|quotes|, i requires 0 <= i < |quotes| => Item(UnitAt(quotes[i], side), AsOffer(quotes[i], side)))
  }

  function Keyed(quotes: seq<Quote>, side: Side): (r: seq<Item<Quote>>)
    ensures |r| == |quotes|
    ensures forall i :: 0 <= i < |r| ==> r[i] == Item(UnitAt(quotes[i], side), quotes[i])
  {
    seq(|quotes|, i requires 0 <= i < |quotes| => Item(UnitAt(quotes[i], side), quotes[i]))
  }

  lemma OneOffer(cfg: Config, q: Quote, side: Side)
    ensures Usable(cfg, q, side) <==> Passes(cfg, q, side)
    ensures OfferOf(q, side) == AsOffer(q, side) && Unit(OfferOf(q, side), side) == UnitAt(q, side)
  {
  }

  lemma {:induction false} PassingSnoc(cfg: Config, quotes: seq<Entry<Quote>>, e: Entry<Quote>, side: Side)
    ensures Passing(cfg, quotes + [e], side)
         == Passing(cfg, quotes, side) + if Passes(cfg, e.value, side) then [e.value] else []
  {
    hide Passes;
    if quotes == [] {
      assert quotes + [e] == [e] && [e][1..] == [];
    } else {
      assert (quotes + [e])[1..] == quotes[1..] + [e];
      PassingSnoc(cfg, quotes[1..], e, side);
    }
  }

  /** The offers that are sorted are those of the passing quotes, as the fields of the quotes say. */
  lemma {:induction false} OffersAreQuotes(cfg: Config, quotes: seq<Entry<Quote>>, side: Side)
    ensures Offers(cfg, quotes, side) == Offered(Passing(cfg, quotes, side), side)
    decreases |quotes|
  {
    hide Passes, Usable, OfferOf, Unit, UnitAt, Passing;
    if quotes == [] {
      NonePassing(cfg, quotes, side);
    } else {
      var n := |quotes| - 1;
      OneOffer(cfg, quotes[n].value, side);
      OffersAreQuotes(cfg, quotes[..n], side);
      PassingSnoc(cfg, quotes[..n], quotes[n], side);
      assert quotes == quotes[..n] + [quotes[n]];
    }
  }

  lemma NonePassing(cfg: Config, quotes: seq<Entry<Quote>>, side: Side)
    requires quotes == []
    ensures Passing(cfg, quotes, side) == []
  {
  }

  // ---------- the ranking ----------

  ghost predicate Linked(a: seq<Item<Quote>>, b: seq<Item<Offer>>, side: Side) {
    && |a| == |b|
    && forall i :: 0 <= i < |a| ==>
         && a[i].key == b[i].key == UnitAt(a[i].value, side)
         && b[i].value == AsOffer(a[i].value, side)
  }

  lemma {:induction false} InsertLinked(a: seq<Item<Quote>>, b: seq<Item<Offer>>, x: Item<Quote>, y: Item<Offer>,
                                        side: Side)
    requires Linked(a, b, side) && Linked([x], [y], side)
    ensures Linked(Insert(a, x), Insert(b, y), side)
    decreases |a|
  {
    hide UnitAt, AsOffer;
    assert [x][0] == x && [y][0] == y;
    if a != [] && a[|a| - 1].key > x.key {
      InsertLinked(a[..|a| - 1], b[..|a| - 1], x, y, side);
    }
  }

  lemma {:induction false} SortLinked(a: seq<Item<Quote>>, b: seq<Item<Offer>>, side: Side)
    requires Linked(a, b, side)
    ensures Linked(Sort(a), Sort(b), side)
    decreases |a|
  {
    hide UnitAt, AsOffer;
    if a != [] {
      var n := |a| - 1;
      SortLinked(a[..n], b[..n], side);
      assert Linked([a[n]], [b[n]], side);
      InsertLinked(Sort(a[..n]), Sort(b[..n]), a[n], b[n], side);
    }
  }

  function Values(items: seq<Item<Quote>>): (r: seq<Quote>)
    ensures |r| == |items|
    ensures forall i :: 0 <= i < |r| ==> r[i] == items[i].value
  {
    seq(|items|, i requires 0 <= i < |items| => items[i].value)
  }

  lemma {:induction false} AtIsOnly(items: seq<Item<Quote>>, side: Side, unit: real)
    requires forall i :: 0 <= i < |items| ==> items[i].key == UnitAt(items[i].value, side)
    ensures At(Values(items), side, unit) == Values(Only(items, unit))
    decreases |items|
  {
    hide UnitAt;
    if items == [] {
      assert Values(items) == [] == Values(Only(items, unit));
    } else {
      var n := |items| - 1;
      AtIsOnly(items[..n], side, unit);
      assert Values(items)[..n] == Values(items[..n]);
    }
  }

  lemma RanksKeyed(quotes: seq<Quote>, side: Side)
    ensures Ranks(Values(Sort(Keyed(quotes, side))), quotes, side)
    ensures Linked(Sort(Keyed(quotes, side)), Sort(Offered(quotes, side)), side)
  {
    hide UnitAt, Only, At;
    var items := Keyed(quotes, side);
    var sorted := Sort(items);
    SortLinked(items, Offered(quotes, side), side);
    SortIsStable(items);
    assert Values(items) == quotes;
    forall unit ensures At(Values(sorted), side, unit) == At(quotes, side, unit) {
      AtIsOnly(items, side, unit);
      AtIsOnly(sorted, side, unit);
    }
  }

  // ---------- the plan ----------

  lemma UptoIsSlice<T>(s: seq<T>, m: int)
    ensures Slice(|s|, m) <= |s| && Upto(s, m) == s[..Slice(|s|, m)]
  {
  }

  lemma DecideTakes(q: Quote, wanted: real, side: Side)
    ensures Takes(Decide(AsOffer(q, side), Min(wanted, SizeAt(q, side)), side), q, wanted, side)
  {
    var fill := Min(wanted, SizeAt(q, side));
    var d := Decide(AsOffer(q, side), fill, side);
    if fill > 0.0 {
      var net := fill * d.price + if side.Buy? then d.fee else -d.fee;
      assert d.netPrice == net / fill;
      assert (net / fill) * fill == net;
    }
  }

  lemma {:induction false} WantedCons(d: Decision, rest: seq<Decision>, quantity: real, i: nat)
    requires i <= |rest|
    ensures Wanted([d] + rest, quantity, i + 1) == Wanted(rest, quantity - d.quantity, i)
  {
    if i > 0 {
      WantedCons(d, rest, quantity, i - 1);
      assert ([d] + rest)[i] == rest[i - 1];
    } else {
      assert ([d] + rest)[0] == d;
    }
  }

  /** The plan takes from the quotes in their order until nothing more is wanted. */
  ghost predicate Follows(plan: seq<Decision>, quotes: seq<Quote>, quantity: real, side: Side) {
    && |plan| <= |quotes|
    && (forall i :: 0 <= i < |plan| ==>
          Wanted(plan, quantity, i) > 0.0 && Takes(plan[i], quotes[i], Wanted(plan, quantity, i), side))
    && (|plan| < |quotes| ==> Wanted(plan, quantity, |plan|) <= 0.0)
  }

  lemma FollowsCons(d: Decision, rest: seq<Decision>, quotes: seq<Quote>, quantity: real, side: Side)
    requires quotes != [] && quantity > 0.0 && Takes(d, quotes[0], quantity, side)
    requires Follows(rest, quotes[1..], quantity - d.quantity, side)
    ensures Follows([d] + rest, quotes, quantity, side)
  {
    hide Takes, Wanted;
    var plan := [d] + rest;
    forall i | 0 <= i < |plan|
      ensures Wanted(plan, quantity, i) > 0.0 && Takes(plan[i], quotes[i], Wanted(plan, quantity, i), side)
    {
      if i > 0 {
        WantedCons(d, rest, quantity, i - 1);
        assert plan[i] == rest[i - 1] && quotes[i] == quotes[1..][i - 1];
      } else {
        WantedFirst(plan, quantity);
      }
    }
    WantedCons(d, rest, quantity, |rest|);
  }

  lemma WantedFirst(plan: seq<Decision>, quantity: real)
    ensures Wanted(plan, quantity, 0) == quantity
  {
  }

  lemma {:induction false} GreedyFollows(chosen: seq<Item<Offer>>, quotes: seq<Quote>, quantity: real, side: Side)
    requires |chosen| == |quotes| && forall i :: 0 <= i < |quotes| ==> chosen[i].value == AsOffer(quotes[i], side)
    ensures Follows(Greedy(chosen, quantity, side), quotes, quantity, side)
    decreases |chosen|
  {
    hide Takes, Decide, Follows;
    if chosen != [] && quantity > 0.0 {
      var fill := Min(quantity, SizeAt(quotes[0], side));
      DecideTakes(quotes[0], quantity, side);
      DecidedQuantity(AsOffer(quotes[0], side), fill, side);
      var d := Decide(AsOffer(quotes[0], side), fill, side);
      GreedyFollows(chosen[1..], quotes[1..], quantity - fill, side);
      FollowsCons(d, Greedy(chosen[1..], quantity - fill, side), quotes, quantity, side);
    } else {
      NothingFollows(quotes, quantity, side);
    }
  }

  lemma NothingFollows(quotes: seq<Quote>, quantity: real, side: Side)
    requires quotes == [] || quantity <= 0.0
    ensures Follows([], quotes, quantity, side)
  {
  }

  lemma DecidedQuantity(o: Offer, fill: real, side: Side)
    ensures Decide(o, fill, side).quantity == fill
  {
  }

  /** Routing takes from the quotes whose latency, size and price pass, best first by the price with its fee and equally
      good ones in the order of their venues, as many of them as the limit allows: of each its ask and ask size for a
      buyer, its bid and bid size for a seller, until nothing more is wanted. */
  lemma PlanTheorem(cfg: Config, quotes: seq<Entry<Quote>>, quantity: real, maxExchanges: int, side: Side)
      returns (ranked: seq<Quote>)
    ensures Ranks(ranked, Passing(cfg, quotes, side), side)
    ensures Slice(|ranked|, maxExchanges) <= |ranked|
    ensures Follows(Routed(cfg, quotes, quantity, maxExchanges, side), ranked[..Slice(|ranked|, maxExchanges)],
                    quantity, side)
  {
    hide Passing, Offers, Greedy, Ranks, Follows, Sort, Upto, UnitAt;
    var passing := Passing(cfg, quotes, side);
    OffersAreQuotes(cfg, quotes, side);
    RanksKeyed(passing, side);
    var sorted := Sort(Offered(passing, side));
    ranked := Values(Sort(Keyed(passing, side)));
    UptoIsSlice(sorted, maxExchanges);
    GreedyFollows(Upto(sorted, maxExchanges), ranked[..Slice(|ranked|, maxExchanges)], quantity, side);
  }

  // ---------- the best plan ----------

  /** What an allocation gives to a venue. */
  function Given(x: Allocation, exchange: string): real { if exchange in x then x[exchange] else 0.0 }

  /** What spreading an order over the quotes costs, fees included; for a sale what it brings in, with the sign turned.
      */
  function SpreadCost(quotes: seq<Quote>, x: Allocation, side: Side): real {
    if quotes == [] then 0.0
    else Given(x, quotes[0].exchange) * UnitAt(quotes[0], side) + SpreadCost(quotes[1..], x, side)
  }

  function Spread(quotes: seq<Quote>, x: Allocation): real {
    if quotes == [] then 0.0 else Given(x, quotes[0].exchange) + Spread(quotes[1..], x)
  }

  function Sizes(quotes: seq<Quote>, side: Side): real {
    if quotes == [] then 0.0 else SizeAt(quotes[0], side) + Sizes(quotes[1..], side)
  }

  ghost predicate Possible(quotes: seq<Quote>, x: Allocation, side: Side) {
    forall i :: 0 <= i < |quotes| ==> 0.0 <= Given(x, quotes[i].exchange) <= SizeAt(quotes[i], side)
  }

  lemma {:induction false} SumsAgree(quotes: seq<Quote>, x: Allocation, side: Side)
    ensures AllocationCost(Offered(quotes, side), x) == SpreadCost(quotes, x, side)
    ensures Total(Offered(quotes, side), x) == Spread(quotes, x)
    decreases |quotes|
  {
    hide UnitAt;
    if quotes != [] {
      var offers := Offered(quotes, side);
      assert offers[1..] == Offered(quotes[1..], side);
      SumsAgree(quotes[1..], x, side);
    }
  }

  lemma {:induction false} SupplyIsSizes(items: seq<Item<Offer>>, quotes: seq<Quote>, side: Side)
    requires |items| == |quotes| && forall i :: 0 <= i < |quotes| ==> items[i].value == AsOffer(quotes[i], side)
    ensures Supply(items) == Sizes(quotes, side)
    decreases |quotes|
  {
    if quotes != [] {
      SupplyIsSizes(items[1..], quotes[1..], side);
    }
  }

  /** The plan delivers what is wanted, or all that the best quotes within the limit have, and no way of spreading as
      much over all passing quotes within their sizes costs less with fees, or brings in more of a sale. */
  lemma BestExecution(cfg: Config, quotes: seq<Entry<Quote>>, quantity: real, maxExchanges: int, side: Side,
                      x: Allocation) returns (ranked: seq<Quote>)
    requires 0.0 <= cfg.minLiquidity
    ensures Ranks(ranked, Passing(cfg, quotes, side), side) && Slice(|ranked|, maxExchanges) <= |ranked|
    ensures var plan, passing := Routed(cfg, quotes, quantity, maxExchanges, side), Passing(cfg, quotes, side);
            && Delivered(plan) == (if quantity <= 0.0 then 0.0
                                   else Min(quantity, Sizes(ranked[..Slice(|ranked|, maxExchanges)], side)))
            && (Possible(passing, x, side) && Spread(passing, x) == Delivered(plan) ==>
                  PlanCost(plan, side) <= SpreadCost(passing, x, side))
  {
    hide Passing, Offers, Ranks, Sort, Upto, UnitAt, PlanCost, Delivered, SpreadCost, Spread, AllocationCost, Total,
      Supply, Sizes, Routed;
    var passing := Passing(cfg, quotes, side);
    OffersAreQuotes(cfg, quotes, side);
    RanksKeyed(passing, side);
    var sorted := Sort(Offered(passing, side));
    ranked := Values(Sort(Keyed(passing, side)));
    UptoIsSlice(sorted, maxExchanges);
    SupplyIsSizes(Upto(sorted, maxExchanges), ranked[..Slice(|ranked|, maxExchanges)], side);
    SumsAgree(passing, x, side);
    RoutingIsOptimal(cfg, quotes, quantity, maxExchanges, side, x);
    if Possible(passing, x, side) {
      var offers := Offered(passing, side);
      forall i | 0 <= i < |offers| ensures 0.0 <= Share(x, offers[i].value) <= offers[i].value.size {
        assert 0.0 <= Given(x, passing[i].exchange) <= SizeAt(passing[i], side);
      }
    }
  }
}
