/** Order routing over venues in exchanges/multi_exchange.py. */
module Routers {
  // A greedy walk over the venues in the order of their fee-inclusive price. Buying cheaply and selling dearly are
  // one problem: a venue's `unit` is what one unit costs there, fee included, and for a sale it is the net proceeds
  // with the sign turned.

  import opened Arithmetic
  import opened OrderedDicts
  import opened StableSorting

  datatype Quote = Quote(exchange: string, bid: real, ask: real, bidSize: real, askSize: real,
                         feeRate: real, latencyMs: real)

  datatype Config = Config(maxLatencyMs: real, minLiquidity: real)

  datatype Decision = Decision(exchange: string, price: real, quantity: real, fee: real, netPrice: real)

  /** What a venue offers on one side of the market. */
  datatype Offer = Offer(exchange: string, price: real, size: real, feeRate: real)

  datatype Side = Buy | Sell

  function OfferOf(q: Quote, side: Side): Offer {
    if side.Buy? then Offer(q.exchange, q.ask, q.askSize, q.feeRate)
    else Offer(q.exchange, q.bid, q.bidSize, q.feeRate)
  }

  /** The sort key: fee-inclusive price, turned around for sales, which sort in reverse. */
  function Unit(o: Offer, side: Side): real {
    if side.Buy? then o.price + Times(o.feeRate, o.price) else -(o.price - Times(o.feeRate, o.price))
  }

  predicate Usable(cfg: Config, q: Quote, side: Side) {
    var o := OfferOf(q, side);
    q.latencyMs <= cfg.maxLatencyMs && o.size >= cfg.minLiquidity && o.price > 0.0
  }

  /** The usable offers in dictionary order, with their keys. */
  function Offers(cfg: Config, quotes: seq<Entry<Quote>>, side: Side): seq<Item<Offer>>
    decreases |quotes|
  {
    if quotes == [] then []
    else
      var n := |quotes| - 1;
      var q := quotes[n].value;
      Offers(cfg, quotes[..n], side)
      + if Usable(cfg, q, side) then [Item(Unit(OfferOf(q, side), side), OfferOf(q, side))] else []
  }

  /** The slice `s[:n]`, which for a negative `n` leaves out that many at the end. */
  function Upto<T>(s: seq<T>, n: int): seq<T> {
    if n >= 0 then s[..if n <= |s| then n else |s|]
    else s[..if |s| + n >= 0 then |s| + n else 0]
  }

  function Decide(o: Offer, fill: real, side: Side): Decision {
    var fee := Times(Times(fill, o.price), o.feeRate);
    var net := if side.Buy? then Times(o.price, fill) + fee else Times(o.price, fill) - fee;
    Decision(o.exchange, o.price, fill, fee, if fill > 0.0 then net / fill else 0.0)
  }

  /** Fill from the front until nothing remains. */
  function Greedy(offers: seq<Item<Offer>>, remaining: real, side: Side): seq<Decision>
    decreases |offers|
  {
    if offers == [] || remaining <= 0.0 then []
    else
      var fill := Min(remaining, offers[0].value.size);
      [Decide(offers[0].value, fill, side)] + Greedy(offers[1..], remaining - fill, side)
  }

  function Routed(cfg: Config, quotes: seq<Entry<Quote>>, quantity: real, maxExchanges: int, side: Side)
    : seq<Decision>
  {
    Greedy(Upto(Sort(Offers(cfg, quotes, side)), maxExchanges), quantity, side)
  }

  class MultiExchangeRouter {
    const cfg: Config
    var quotes: seq<Entry<Quote>>

    constructor (cfg: Config)
      ensures quotes == [] && this.cfg == cfg
    {
      this.cfg := cfg;
      quotes := [];
    }

    method UpdateQuote(quote: Quote)
      modifies this
      ensures quotes == Put(old(quotes), quote.exchange, quote)
      ensures Has(quotes, quote.exchange) && At(quotes, quote.exchange) == quote
      ensures forall other :: other != quote.exchange && Has(old(quotes), other) ==>
                Has(quotes, other) && At(quotes, other) == At(old(quotes), other)
      ensures forall other :: other != quote.exchange && Has(quotes, other) ==> Has(old(quotes), other)
      ensures |quotes| == |old(quotes)| + if Has(old(quotes), quote.exchange) then 0 else 1
      ensures forall k :: 0 <= k < |old(quotes)| ==> quotes[k].key == old(quotes)[k].key
    {
      forall other: string {
        PutFinds(quotes, quote.exchange, quote, other);
      }
      hide Find, Has, Put;
      quotes := Put(quotes, quote.exchange, quote);
    }

    method ValidOffers(side: Side) returns (valid: seq<Item<Offer>>)
      ensures valid == Offers(cfg, quotes, side)
    {
      valid := [];
      for i := 0 to |quotes|
        invariant valid == Offers(cfg, quotes[..i], side)
      {
        assert quotes[..i + 1][..i] == quotes[..i];
        var q := quotes[i].value;
        if Usable(cfg, q, side) {
          valid := valid + [Item(Unit(OfferOf(q, side), side), OfferOf(q, side))];
        }
      }
      assert quotes[..|quotes|] == quotes;
    }

    /** `route_buy` and `route_sell`, which differ in the side they read and the sign of the fee. */
    method Route(quantity: real, maxExchanges: int, side: Side) returns (decisions: seq<Decision>)
      ensures decisions == Routed(cfg, quotes, quantity, maxExchanges, side)
    {
      hide Decide, Sort, Offers;
      var valid := ValidOffers(side);
      valid := Sort(valid);
      var chosen := Upto(valid, maxExchanges);
      decisions := [];
      var remaining, i := quantity, 0;
      while i < |chosen| && remaining > 0.0
        invariant i <= |chosen|
        invariant decisions + Greedy(chosen[i..], remaining, side) == Greedy(chosen, quantity, side)
      {
        var o := chosen[i].value;
        var fill := Min(remaining, o.size);
        decisions := decisions + [Decide(o, fill, side)];
        remaining := remaining - fill;
        i := i + 1;
      }
    }
  }

  // ---------- what a plan costs ----------

  /** An allocation of quantities to exchanges; an exchange it does not name gets nothing. */
  type Allocation = map<string, real>

  function Share(x: Allocation, o: Offer): real {
    if o.exchange in x then x[o.exchange] else 0.0
  }

  function Total(offers: seq<Item<Offer>>, x: Allocation): real {
    if offers == [] then 0.0 else Share(x, offers[0].value) + Total(offers[1..], x)
  }

  /** The fee-inclusive cost of an allocation; for sales, the net proceeds with the sign turned. */
  function AllocationCost(offers: seq<Item<Offer>>, x: Allocation): real {
    if offers == [] then 0.0
    else Times(Share(x, offers[0].value), offers[0].key) + AllocationCost(offers[1..], x)
  }

  ghost predicate Fits(offers: seq<Item<Offer>>, x: Allocation) {
    forall i :: 0 <= i < |offers| ==> 0.0 <= Share(x, offers[i].value) <= offers[i].value.size
  }

  function Delivered(decisions: seq<Decision>): real {
    if decisions == [] then 0.0 else decisions[0].quantity + Delivered(decisions[1..])
  }

  /** What the decisions cost, fee included; for sales, the proceeds net of fees with the sign turned. */
  function PlanCost(decisions: seq<Decision>, side: Side): real {
    if decisions == [] then 0.0
    else
      var d := decisions[0];
      (if side.Buy? then Times(d.price, d.quantity) + d.fee else -(Times(d.price, d.quantity) - d.fee))
      + PlanCost(decisions[1..], side)
  }

  function Supply(offers: seq<Item<Offer>>): real {
    if offers == [] then 0.0 else offers[0].value.size + Supply(offers[1..])
  }

  /** The least that `quantity` can cost when it is filled from the front. */
  function GreedyCost(offers: seq<Item<Offer>>, quantity: real): real
    decreases |offers|
  {
    if offers == [] || quantity <= 0.0 then 0.0
    else
      var fill := Min(quantity, offers[0].value.size);
      Times(fill, offers[0].key) + GreedyCost(offers[1..], quantity - fill)
  }

  ghost predicate Sizes(offers: seq<Item<Offer>>) {
    forall i :: 0 <= i < |offers| ==> 0.0 <= offers[i].value.size
  }

  /** Filling `more` costs at least `floor` a unit extra when no key lies below `floor`. */
  lemma {:induction false} ExtraCosts(offers: seq<Item<Offer>>, quantity: real, more: real, floor: real)
    requires Sizes(offers) && 0.0 <= quantity && 0.0 <= more && quantity + more <= Supply(offers)
    requires forall i :: 0 <= i < |offers| ==> floor <= offers[i].key
    ensures GreedyCost(offers, quantity + more) >= GreedyCost(offers, quantity) + Times(more, floor)
    decreases |offers|
  {
    hide Times;
    TimesSplit(0.0, 0.0, floor);
    if offers != [] {
      var o, rest := offers[0], offers[1..];
      TimesSplit(0.0, 0.0, o.key);
      if quantity >= o.value.size {
        ExtraCosts(rest, quantity - o.value.size, more, floor);
        GreedyNext(offers, quantity);
        GreedyNext(offers, quantity + more);
      } else if quantity + more <= o.value.size {
        TimesSplit(quantity, more, o.key);
        TimesMono(more, floor, o.key);
      } else {
        var here := o.value.size - quantity;
        ExtraCosts(rest, 0.0, more - here, floor);
        GreedyNext(offers, quantity + more);
        TimesSplit(quantity, here, o.key);
        TimesSplit(here, more - here, floor);
        TimesMono(here, floor, o.key);
      }
    }
  }

  lemma GreedyNext(offers: seq<Item<Offer>>, q: real)
    requires offers != [] && 0.0 <= offers[0].value.size <= q
    ensures GreedyCost(offers, q)
         == Times(offers[0].value.size, offers[0].key) + GreedyCost(offers[1..], q - offers[0].value.size)
  {
    hide Times;
    TimesSplit(0.0, 0.0, offers[0].key);
  }

  lemma {:induction false} TotalBounds(offers: seq<Item<Offer>>, x: Allocation)
    requires Fits(offers, x)
    ensures 0.0 <= Total(offers, x) <= Supply(offers)
  {
    if offers != [] {
      TotalBounds(offers[1..], x);
    }
  }

  /** The exchange argument: no allocation of the same total over the sorted offers costs less than filling them
      from the front. */
  lemma {:induction false} GreedyIsCheapest(offers: seq<Item<Offer>>, x: Allocation)
    requires Sorted(offers) && Fits(offers, x)
    ensures GreedyCost(offers, Total(offers, x)) <= AllocationCost(offers, x)
    decreases |offers|
  {
    hide Times;
    if offers != [] {
      var o, rest := offers[0], offers[1..];
      var here, there := Share(x, o.value), Total(rest, x);
      var fill := Min(here + there, o.value.size);
      assert Fits(rest, x) && Sizes(rest) && Sorted(rest);
      TotalBounds(rest, x);
      GreedyIsCheapest(rest, x);
      // moving `fill - here` units from the rest to the front saves at least the front's price on each
      ExtraCosts(rest, here + there - fill, fill - here, o.key);
      TimesSplit(here, fill - here, o.key);
      TimesSplit(0.0, 0.0, o.key);
    }
  }

  // ---------- sorting changes no sum ----------

  lemma {:induction false} TotalAppend(a: seq<Item<Offer>>, o: Item<Offer>, x: Allocation)
    ensures Total(a + [o], x) == Total(a, x) + Share(x, o.value)
    ensures AllocationCost(a + [o], x) == AllocationCost(a, x) + Times(Share(x, o.value), o.key)
  {
    hide Times;
    if a == [] {
      assert a + [o] == [o] && [o][1..] == [];
    } else {
      assert (a + [o])[1..] == a[1..] + [o];
      TotalAppend(a[1..], o, x);
    }
  }

  lemma {:induction false} TotalInsert(s: seq<Item<Offer>>, o: Item<Offer>, x: Allocation)
    ensures Total(Insert(s, o), x) == Total(s, x) + Share(x, o.value)
    ensures AllocationCost(Insert(s, o), x) == AllocationCost(s, x) + Times(Share(x, o.value), o.key)
  {
    hide Times, Total, AllocationCost;
    if s == [] || s[|s| - 1].key <= o.key {
      TotalAppend(s, o, x);
    } else {
      var n := |s| - 1;
      TotalInsert(s[..n], o, x);
      TotalAppend(Insert(s[..n], o), s[n], x);
      TotalAppend(s[..n], s[n], x);
      assert s == s[..n] + [s[n]];
    }
  }

  lemma {:induction false} TotalSort(s: seq<Item<Offer>>, x: Allocation)
    ensures Total(Sort(s), x) == Total(s, x) && AllocationCost(Sort(s), x) == AllocationCost(s, x)
  {
    hide Times, Total, AllocationCost;
    if s != [] {
      var n := |s| - 1;
      TotalSort(s[..n], x);
      TotalInsert(Sort(s[..n]), s[n], x);
      TotalAppend(s[..n], s[n], x);
      assert s == s[..n] + [s[n]];
    }
  }

  lemma SortMembers(s: seq<Item<Offer>>)
    ensures Sorted(Sort(s)) && forall i :: 0 <= i < |Sort(s)| ==> Sort(s)[i] in s
  {
    SortIsStable(s);
    SortItems(s);
    forall i | 0 <= i < |Sort(s)| ensures Sort(s)[i] in s {
      assert Sort(s)[i] in multiset(Sort(s));
    }
  }

  /** Every offer carries its own key and a size above the liquidity floor. */
  ghost predicate WellKeyed(offers: seq<Item<Offer>>, side: Side, floor: real) {
    forall i :: 0 <= i < |offers| ==>
      offers[i].key == Unit(offers[i].value, side) && floor <= offers[i].value.size
  }

  lemma {:induction false} OffersWellKeyed(cfg: Config, quotes: seq<Entry<Quote>>, side: Side)
    ensures WellKeyed(Offers(cfg, quotes, side), side, cfg.minLiquidity)
    decreases |quotes|
  {
    hide Unit;
    if quotes != [] {
      OffersWellKeyed(cfg, quotes[..|quotes| - 1], side);
    }
  }

  // ---------- the plan ----------

  lemma DecideCost(o: Offer, fill: real, side: Side)
    ensures var d := Decide(o, fill, side);
            (if side.Buy? then Times(d.price, d.quantity) + d.fee else -(Times(d.price, d.quantity) - d.fee))
              == Times(fill, Unit(o, side))
  {
  }

  lemma {:induction false} PlanCostIsGreedy(offers: seq<Item<Offer>>, q: real, side: Side)
    requires WellKeyed(offers, side, 0.0)
    ensures PlanCost(Greedy(offers, q, side), side) == GreedyCost(offers, q)
    ensures Delivered(Greedy(offers, q, side)) == if q <= 0.0 then 0.0 else Min(q, Supply(offers))
    ensures 0.0 <= Supply(offers)
    decreases |offers|
  {
    hide Times, Unit;
    if offers != [] {
      var fill := Min(q, offers[0].value.size);
      PlanCostIsGreedy(offers[1..], q - fill, side);
      if q > 0.0 {
        DecideCost(offers[0].value, fill, side);
        assert Greedy(offers, q, side)[1..] == Greedy(offers[1..], q - fill, side);
        hide Decide;
      }
    }
  }

  lemma {:induction false} SupplyNonNegative(offers: seq<Item<Offer>>)
    requires Sizes(offers)
    ensures 0.0 <= Supply(offers)
  {
    if offers != [] {
      SupplyNonNegative(offers[1..]);
    }
  }

  /** What a prefix can supply costs the same within the prefix and within the whole. */
  lemma {:induction false} GreedyPrefix(offers: seq<Item<Offer>>, n: nat, q: real)
    requires n <= |offers| && Sizes(offers) && q <= Supply(offers[..n])
    ensures GreedyCost(offers[..n], q) == GreedyCost(offers, q)
    decreases |offers|
  {
    hide Times;
    if n > 0 && q > 0.0 {
      assert offers[..n][1..] == offers[1..][..n - 1];
      SupplyNonNegative(offers[1..][..n - 1]);
      GreedyPrefix(offers[1..], n - 1, q - Min(q, offers[0].value.size));
    }
  }

  lemma UptoIsPrefix<T>(s: seq<T>, n: int) returns (k: nat)
    ensures k <= |s| && Upto(s, n) == s[..k]
  {
    k := |Upto(s, n)|;
  }

  lemma {:induction false} GreedyCapped(offers: seq<Item<Offer>>, q: real)
    requires Sizes(offers)
    ensures 0.0 <= Supply(offers)
    ensures GreedyCost(offers, q) == GreedyCost(offers, Min(q, Supply(offers)))
    decreases |offers|
  {
    hide Times;
    if offers != [] {
      var o := offers[0];
      GreedyCapped(offers[1..], q - Min(q, o.value.size));
      GreedyCapped(offers[1..], q);
      TimesSplit(0.0, 0.0, o.key);
    }
  }

  /** Routing fills the wanted quantity as far as the chosen venues can supply it, and no way of spreading the same
      total over all usable venues, within their sizes, is cheaper; for sales, none brings in more. */
  lemma RoutingIsOptimal(cfg: Config, quotes: seq<Entry<Quote>>, quantity: real, maxExchanges: int, side: Side,
                         x: Allocation)
    requires 0.0 <= cfg.minLiquidity
    ensures var offers := Offers(cfg, quotes, side);
            var plan := Routed(cfg, quotes, quantity, maxExchanges, side);
            && Delivered(plan)
                 == (if quantity <= 0.0 then 0.0 else Min(quantity, Supply(Upto(Sort(offers), maxExchanges))))
            && (Fits(offers, x) && Total(offers, x) == Delivered(plan) ==>
                  PlanCost(plan, side) <= AllocationCost(offers, x))
  {
    hide Times, Unit, Offers, Greedy, PlanCost, Delivered, Total, AllocationCost, GreedyCost, Sort, Upto;
    var offers := Offers(cfg, quotes, side);
    var sorted := Sort(offers);
    OffersWellKeyed(cfg, quotes, side);
    SortMembers(offers);
    TotalSort(offers, x);
    var k := UptoIsPrefix(sorted, maxExchanges);
    var chosen := sorted[..k];
    PlanCostIsGreedy(chosen, quantity, side);
    if Fits(offers, x) {
      GreedyIsCheapest(sorted, x);
      GreedyCapped(chosen, quantity);
      var total := Delivered(Greedy(chosen, quantity, side));
      GreedyPrefix(sorted, k, total);
      if quantity <= 0.0 {
        NothingBought(chosen, quantity);
      }
    }
  }

  lemma NothingBought(offers: seq<Item<Offer>>, q: real)
    requires q <= 0.0
    ensures GreedyCost(offers, q) == 0.0 == GreedyCost(offers, 0.0)
  {
  }
}
