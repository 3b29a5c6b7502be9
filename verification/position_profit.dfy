/** Profit and average entry of the positions that fills leave behind. */
module PositionProfits {
  // The money that went in and out, and what the position held has cost, are read off the fills alone; the objects of
  // the book are measured against them.

  import opened Arithmetic
  import opened PositionBooks
  import opened PositionInvariants
  import opened PositionRuns

  /** What a fill brings in. */
  function CashOf(f: Fill): real { if f.side.Sell? then Times(f.price, f.quantity) else -Times(f.price, f.quantity) }

  /** The cost of what is held after a fill, at average cost: a buy adds what it costs, a sale takes out its share, and
      whatever a sale goes short is held at its price. */
  function CostAfter(cost: real, held: real, f: Fill): real {
    if f.side.Buy? then cost + Times(f.price, f.quantity)
    else if 0.0 < held && f.quantity <= held then Times(cost, (held - f.quantity) / held)
    else Times(held - f.quantity, f.price)
  }

  /** What a sale that takes a long position short is credited with too much: it is booked in full against an average
      cost that only a part of it has. */
  function TooMuch(cost: real, held: real, f: Fill): real {
    if f.side.Sell? && 0.0 < held < f.quantity then Times(f.quantity - held, f.price - cost / held) else 0.0
  }

  /** The money that the fills of a symbol brought in, less what they took. */
  function Cash(fills: seq<Fill>, symbol: Symbol): real
    decreases |fills|
  {
    if fills == [] then 0.0
    else
      var f := fills[|fills| - 1];
      Cash(fills[..|fills| - 1], symbol) + if f.symbol == symbol then CashOf(f) else 0.0
  }

  /** The cost of what the fills of a symbol leave. */
  function Basis(fills: seq<Fill>, symbol: Symbol): real
    decreases |fills|
  {
    if fills == [] then 0.0
    else
      var init, f := fills[..|fills| - 1], fills[|fills| - 1];
      if f.symbol == symbol then CostAfter(Basis(init, symbol), Net(init, symbol), f) else Basis(init, symbol)
  }

  /** What was credited too much, by the last fill of the symbol if by any. */
  function Excess(fills: seq<Fill>, symbol: Symbol): real
    decreases |fills|
  {
    if fills == [] then 0.0
    else
      var init, f := fills[..|fills| - 1], fills[|fills| - 1];
      if f.symbol == symbol then TooMuch(Basis(init, symbol), Net(init, symbol), f) else Excess(init, symbol)
  }

  predicate BoughtWithin(fills: seq<Fill>, symbol: Symbol, low: real, high: real) {
    forall i :: 0 <= i < |fills| && fills[i].symbol == symbol && fills[i].side.Buy? ==> low <= fills[i].price <= high
  }

  function SignedQuantity(p: Pos): real { if p.side.Buy? then p.quantity else -p.quantity }

  /** The figures of a position are those of the fills of its symbol. */
  predicate Costed(p: Pos, cash: real, cost: real, excess: real) {
    && Times(SignedQuantity(p), p.avgEntry) == cost
    && p.realized == cash + cost + excess
    && (p.side.Buy? && p.quantity > 0.0 ==> excess == 0.0)
  }

  predicate Open(p: Pos) { p.side.Buy? && p.quantity > 0.0 }

  ghost predicate Priced(p: Pos, fills: seq<Fill>) {
    && Costed(p, Cash(fills, p.symbol), Basis(fills, p.symbol), Excess(fills, p.symbol))
    && forall low, high :: Open(p) && BoughtWithin(fills, p.symbol, low, high) ==> low <= p.avgEntry <= high
  }

  // ---------- one fill ----------

  lemma Snoc(fills: seq<Fill>, f: Fill, symbol: Symbol)
    ensures Cash(fills + [f], symbol) == Cash(fills, symbol) + if f.symbol == symbol then CashOf(f) else 0.0
    ensures Basis(fills + [f], symbol)
         == if f.symbol == symbol then CostAfter(Basis(fills, symbol), Net(fills, symbol), f) else Basis(fills, symbol)
    ensures Excess(fills + [f], symbol)
         == if f.symbol == symbol then TooMuch(Basis(fills, symbol), Net(fills, symbol), f) else Excess(fills, symbol)
  {
    assert (fills + [f])[..|fills|] == fills;
    hide CashOf, CostAfter, TooMuch, Net;
  }

  lemma BoughtAlso(fills: seq<Fill>, f: Fill, symbol: Symbol, low: real, high: real)
    requires BoughtWithin(fills + [f], symbol, low, high)
    ensures BoughtWithin(fills, symbol, low, high) && (f.symbol == symbol && f.side.Buy? ==> low <= f.price <= high)
  {
    assert forall i :: 0 <= i < |fills| ==> (fills + [f])[i] == fills[i];
    assert (fills + [f])[|fills|] == f;
  }

  lemma PricedOther(p: Pos, fills: seq<Fill>, f: Fill)
    requires Priced(p, fills) && f.symbol != p.symbol
    ensures Priced(p, fills + [f])
  {
    Snoc(fills, f, p.symbol);
    hide Cash, Basis, Excess, BoughtWithin, Costed;
    forall low, high | Open(p) && BoughtWithin(fills + [f], p.symbol, low, high) ensures low <= p.avgEntry <= high {
      BoughtAlso(fills, f, p.symbol, low, high);
    }
  }

  /** Buying moves the average entry to the mean of old and new. */
  lemma MeanCost(avg: real, n: real, price: real, q: real, mean: real)
    requires 0.0 < n && 0.0 < q && mean == (avg * n + price * q) / (n + q)
    ensures Times(n + q, mean) == Times(n, avg) + Times(price, q)
  {
    assert mean * (n + q) == avg * n + price * q;
  }

  lemma MeanWithin(avg: real, n: real, price: real, q: real, mean: real, low: real, high: real)
    requires 0.0 < n && 0.0 < q && Times(n + q, mean) == Times(n, avg) + Times(price, q)
    requires low <= avg <= high && low <= price <= high
    ensures low <= mean <= high
  {
    TimesMono(n, low, avg);
    TimesMono(n, avg, high);
    TimesMono(q, low, price);
    TimesMono(q, price, high);
    Distributes(n, q, low);
    Distributes(n, q, high);
    Ordered(n + q, mean, low);
    Ordered(n + q, mean, high);
    Commutes(price, q);
    hide Times;
  }

  lemma Distributes(n: real, q: real, x: real)
    ensures Times(n + q, x) == Times(n, x) + Times(q, x)
  {
  }

  lemma Commutes(x: real, y: real)
    ensures Times(x, y) == Times(y, x)
  {
  }

  lemma Ordered(total: real, x: real, y: real)
    requires 0.0 < total
    ensures Times(total, x) <= Times(total, y) ==> x <= y
    ensures Times(total, x) >= Times(total, y) ==> x >= y
  {
    var d := x - y;
    assert Times(total, x) - Times(total, y) == total * d;
  }

  lemma HitBuy(p: Pos, f: Fill)
    requires f.side.Buy? && 0.0 < f.quantity && Open(p)
    ensures var q := Hit(p, f);
            && q.side.Buy? && q.quantity == p.quantity + f.quantity && q.symbol == p.symbol && q.realized == p.realized
            && q.avgEntry == (p.avgEntry * p.quantity + f.price * f.quantity) / (p.quantity + f.quantity)
  {
  }

  lemma PricedBuy(p: Pos, fills: seq<Fill>, f: Fill)
    requires Priced(p, fills) && p.symbol == f.symbol && f.side.Buy? && f.quantity > 0.0 && Open(p)
    ensures Priced(Hit(p, f), fills + [f])
  {
    hide Cash, Basis, Excess, BoughtWithin, Net, Times, Hit;
    Snoc(fills, f, p.symbol);
    HitBuy(p, f);
    var q := Hit(p, f);
    MeanCost(p.avgEntry, p.quantity, f.price, f.quantity, q.avgEntry);
    forall low, high | BoughtWithin(fills + [f], p.symbol, low, high) ensures low <= q.avgEntry <= high {
      BoughtAlso(fills, f, p.symbol, low, high);
      MeanWithin(p.avgEntry, p.quantity, f.price, f.quantity, q.avgEntry, low, high);
    }
  }

  lemma HitSale(p: Pos, f: Fill)
    requires f.side.Sell? && 0.0 < f.quantity && Open(p)
    ensures var q := Hit(p, f);
            && q.symbol == p.symbol && SignedQuantity(q) == p.quantity - f.quantity
            && (Open(q) <==> f.quantity < p.quantity)
            && q.avgEntry == (if f.quantity <= p.quantity then p.avgEntry else f.price)
            && q.realized == p.realized + Times(f.price - p.avgEntry, f.quantity)
  {
  }

  /** The share that a sale takes out of the cost. */
  lemma Shares(avg: real, n: real, q: real)
    requires 0.0 < n
    ensures Times(Times(n, avg), (n - q) / n) == Times(n - q, avg)
    ensures Times(n, avg) / n == avg
  {
    var s := (n - q) / n;
    assert s * n == n - q;
    assert (n * avg) * s == avg * (s * n);
    var c := n * avg;
    assert c / n == avg;
  }

  /** What a sale books. */
  lemma Gained(avg: real, n: real, price: real, q: real)
    ensures Times(price - avg, q) == Times(price, q) + Times(n - q, avg) - Times(n, avg)
    ensures Times(price - avg, q) == Times(price, q) + Times(n - q, price) + Times(q - n, price - avg) - Times(n, avg)
  {
  }

  lemma PricedSale(p: Pos, fills: seq<Fill>, f: Fill)
    requires Priced(p, fills) && p.symbol == f.symbol && f.side.Sell? && f.quantity > 0.0
    requires Open(p) && p.quantity == Net(fills, f.symbol)
    ensures Priced(Hit(p, f), fills + [f])
  {
    hide Cash, Basis, Excess, BoughtWithin, Net, Times, Hit;
    Snoc(fills, f, p.symbol);
    HitSale(p, f);
    Shares(p.avgEntry, p.quantity, f.quantity);
    Gained(p.avgEntry, p.quantity, f.price, f.quantity);
    var q := Hit(p, f);
    forall low, high | Open(q) && BoughtWithin(fills + [f], p.symbol, low, high) ensures low <= q.avgEntry <= high {
      BoughtAlso(fills, f, p.symbol, low, high);
    }
  }

  lemma PricedOpened(fills: seq<Fill>, f: Fill)
    requires f.quantity > 0.0 && !Mentioned(fills, f.symbol)
    ensures Priced(Opened(f), fills + [f])
  {
    Snoc(fills, f, f.symbol);
    Unmentioned(fills, f.symbol);
    UnmentionedNet(fills, f.symbol);
    Commutes(f.quantity, f.price);
    TimesNegate(f.price, f.quantity);
    Commutes(f.price, -f.quantity);
    hide Cash, Basis, Excess, BoughtWithin, Net, Mentioned, Times;
    forall low, high | BoughtWithin(fills + [f], f.symbol, low, high) ensures f.side.Buy? ==> low <= f.price <= high {
      BoughtAlso(fills, f, f.symbol, low, high);
    }
  }

  lemma {:induction false} Unmentioned(fills: seq<Fill>, symbol: Symbol)
    requires !Mentioned(fills, symbol)
    ensures Cash(fills, symbol) == 0.0 == Basis(fills, symbol)
    decreases |fills|
  {
    hide Net, CashOf, CostAfter;
    if fills != [] {
      var n := |fills| - 1;
      assert fills[n].symbol != symbol;
      assert !Mentioned(fills[..n], symbol);
      Unmentioned(fills[..n], symbol);
    }
  }

  // ---------- every run ----------

  ghost predicate AllPriced(store: seq<Pos>, handled: seq<Fill>) {
    forall r :: 0 <= r < |store| ==> Priced(store[r], handled)
  }

  lemma OpenNow(b: Book, handled: seq<Fill>, f: Fill, r: nat)
    requires Inv(b, handled) && Fits(handled, f) && Mentioned(handled, f.symbol)
    requires r < |b.store| && b.store[r].symbol == f.symbol
    ensures Open(b.store[r]) && b.store[r].quantity == Net(handled, f.symbol) && f.quantity > 0.0
    ensures forall t :: 0 <= t < |b.store| && t != r ==> b.store[t].symbol != f.symbol
  {
    assert Right(b.store[r], Net(handled, f.symbol));
    hide Net, Mentioned;
  }

  lemma FillPrices(b: Book, handled: seq<Fill>, f: Fill)
    requires Inv(b, handled) && Fits(handled, f) && AllPriced(b.store, handled)
    ensures AllPriced(ApplyFill(b, f).store, handled + [f])
  {
    InvWellFormed(b, handled);
    hide Inv, Fits, ApplyFill, Hit, Opened, Priced, WellFormed;
    if Mentioned(handled, f.symbol) {
      var r := FillExisting(b, handled, f);
      OpenNow(b, handled, f, r);
      forall t | 0 <= t < |b.store| ensures Priced(ApplyFill(b, f).store[t], handled + [f]) {
        if t != r {
          PricedOther(b.store[t], handled, f);
        } else if f.side.Buy? {
          PricedBuy(b.store[r], handled, f);
        } else {
          PricedSale(b.store[r], handled, f);
        }
      }
    } else {
      FillNew(b, handled, f);
      NewSymbol(b, handled, f);
      forall t | 0 <= t < |b.store| ensures Priced(b.store[t], handled + [f]) {
        PricedOther(b.store[t], handled, f);
      }
      PricedOpened(handled, f);
    }
  }

  lemma NewSymbol(b: Book, handled: seq<Fill>, f: Fill)
    requires Inv(b, handled) && Fits(handled, f) && !Mentioned(handled, f.symbol)
    ensures f.quantity > 0.0 && forall t :: 0 <= t < |b.store| ==> b.store[t].symbol != f.symbol
  {
    hide Mentioned, Net;
    forall t | 0 <= t < |b.store| ensures b.store[t].symbol != f.symbol {
      assert Owned(b.store, b.store[t].symbol);
    }
  }

  lemma StepPrices(w: World, s: Step, rest: seq<Step>, fills: seq<Fill>)
    requires Positive(fills) && Tame(fills) && Inv(w.b, w.handled) && Enabled(w, s) && AllPriced(w.b.store, w.handled)
    requires Delivered(w) + Published([s] + rest) <= fills
    ensures AllPriced(Apply(w, s).b.store, Apply(w, s).handled)
  {
    hide Inv, AllPriced, Positive, Tame, Fits, ApplyFill, Key;
    if s.Handle? && w.b.queue[0].OrderFilled? {
      var f, rest' := w.b.queue[0].fill, w.b.queue[1..];
      assert w.b.queue == [OrderFilled(f)] + rest';
      assert Waiting(w.b.queue) == [f] + Waiting(rest');
      assert w.handled + [f] <= Delivered(w) <= Delivered(w) + Published([s] + rest);
      NextFits(w.handled, f, fills);
      InvIgnoresQueue(w.b, w.handled, rest');
      FillPrices(w.b.(queue := rest'), w.handled, f);
      HandleFillStep(w, f, rest');
    }
  }

  lemma {:induction false} RunPrices(w: World, steps: seq<Step>, fills: seq<Fill>)
    requires Positive(fills) && Tame(fills) && Inv(w.b, w.handled) && Legal(w, steps) && AllPriced(w.b.store, w.handled)
    requires Delivered(w) + Published(steps) <= fills
    ensures AllPriced(Exec(w, steps).b.store, Exec(w, steps).handled)
    decreases |steps|
  {
    hide Inv, AllPriced, Delivered, Apply, Positive, Tame, Enabled, Published;
    if steps != [] {
      assert steps == [steps[0]] + steps[1..];
      StepKeeps(w, steps[0], steps[1..], fills);
      StepPrices(w, steps[0], steps[1..], fills);
      RunPrices(Apply(w, steps[0]), steps[1..], fills);
    }
  }

  /** In every interleaving of a tame stream: the size of a position times its average entry is the cost of what its
      fills leave; its realised profit is the money they brought in plus that cost, and what a sale that took it short
      was credited too much; and the average entry of a long position lies between the lowest and the highest price
      bought at. */
  lemma ProfitTheorem(fills: seq<Fill>, steps: seq<Step>, r: nat)
    requires Positive(fills) && Tame(fills) && Interleaves(steps, fills) && r < |Exec(START, steps).b.store|
    ensures var p, handled := Exec(START, steps).b.store[r], Exec(START, steps).handled;
            && Times(SignedQuantity(p), p.avgEntry) == Basis(handled, p.symbol)
            && p.realized == Cash(handled, p.symbol) + Basis(handled, p.symbol) + Excess(handled, p.symbol)
            && (Open(p) ==>
                  && p.realized == Cash(handled, p.symbol) + Basis(handled, p.symbol)
                  && forall low, high :: BoughtWithin(handled, p.symbol, low, high) ==> low <= p.avgEntry <= high)
  {
    StartInv();
    StartDelivered();
    assert [] + Published(steps) == Published(steps);
    hide Inv, Delivered, Positive, Tame, Exec, Legal, Published, Times, Cash, Basis, Excess, BoughtWithin;
    RunPrices(START, steps, fills);
  }

  /** A sale is credited too much exactly when it takes a long position short at another price than the average cost. */
  lemma TooMuchIff(cost: real, held: real, f: Fill)
    ensures TooMuch(cost, held, f) != 0.0 <==> f.side.Sell? && 0.0 < held < f.quantity && Times(f.price, held) != cost
  {
    if f.side.Sell? && 0.0 < held < f.quantity {
      var x, y := f.quantity - held, f.price - cost / held;
      assert (cost / held) * held == cost;
      assert y * held == f.price * held - cost;
      NoZeroDivisors(x, y);
      NoZeroDivisors(held, y);
    }
  }

  lemma NoZeroDivisors(x: real, y: real)
    requires x > 0.0
    ensures x * y == 0.0 <==> y == 0.0
  {
  }

  // ---------- fills that come to a short position ----------

  /** The handlers do not know shorts: a buy counts as more of the same at the mean price, and a sale as if it bought
      back what it sold, with the profit of that. */
  lemma ShortMisread(p: Pos, f: Fill)
    requires p.side.Sell? && 0.0 < p.quantity && 0.0 < f.quantity
    ensures var q := Hit(p, f);
            if f.side.Buy? then
              && q.side.Sell? && q.quantity == p.quantity + f.quantity && q.realized == p.realized
              && Times(q.quantity, q.avgEntry) == Times(p.quantity, p.avgEntry) + Times(f.price, f.quantity)
            else
              && q.side.Sell? && q.realized == p.realized + Times(p.avgEntry - f.price, f.quantity)
              && (f.quantity <= p.quantity ==> q.quantity == p.quantity - f.quantity && q.avgEntry == p.avgEntry)
              && (f.quantity > p.quantity ==> q.quantity == f.quantity - p.quantity && q.avgEntry == f.price)
  {
    if f.side.Buy? {
      MeanCost(p.avgEntry, p.quantity, f.price, f.quantity, Hit(p, f).avgEntry);
    }
  }
}
