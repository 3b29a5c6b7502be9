/** The least that a sale up to a size can come to in the books of exchanges/paper_trading.py. */
module WorstSales {
  // A level of a simulated book holds between once and ten times its lowest quantity. The worst book has the lowest
  // quantities on the way down, and what more it can have it has at the lowest prices.

  import opened Arithmetic
  import opened BookWalks
  import opened Roots

  ghost predicate Ranges(low: seq<Level>, book: seq<Level>) {
    && |low| == |book|
    && forall i :: 0 <= i < |low| ==>
         low[i].price == book[i].price && low[i].quantity <= book[i].quantity <= 10.0 * low[i].quantity
  }

  /** What the levels can have on top of `low`: the lowest price first, and none counted above `floor`. */
  function Spare(low: seq<Level>, floor: real): seq<Level> {
    if low == [] then []
    else Spare(low[1..], floor) + [Level(Min(low[0].price, floor), 9.0 * low[0].quantity)]
  }

  /** What `quantity` comes to where each unit beyond `low` fetches the least it can, at most `floor`. */
  function Worst(low: seq<Level>, quantity: real, tail: real, floor: real): real {
    var d := Depth(low);
    if quantity <= d then WalkCost(low, quantity, tail)
    else WalkCost(low, d, tail) + WalkCost(Spare(low, floor), quantity - d, floor)
  }

  ghost predicate AtMost(levels: seq<Level>, p: real) {
    forall i :: 0 <= i < |levels| ==> levels[i].price <= p
  }

  // ---------- no book does worse ----------

  /** More units add no more than the highest price for each. */
  lemma {:induction false} CostRises(levels: seq<Level>, a: real, b: real, tail: real, p: real)
    requires Sizes(levels) && AtMost(levels, p) && 0.0 <= a <= b && (tail <= p || b <= Depth(levels))
    ensures WalkCost(levels, b, tail) <= WalkCost(levels, a, tail) + Times(b - a, p)
    decreases |levels|
  {
    hide Times;
    TimesSplit(0.0, 0.0, p);
    if a < b {
      if levels == [] {
        TimesSplit(a, b - a, tail);
        TimesSplit(0.0, 0.0, tail);
        TimesMono(b - a, tail, p);
      } else {
        RisesPast(levels, a, b, tail, p);
      }
    }
  }

  lemma {:induction false} RisesPast(levels: seq<Level>, a: real, b: real, tail: real, p: real)
    requires levels != [] && Sizes(levels) && AtMost(levels, p) && 0.0 <= a < b && (tail <= p || b <= Depth(levels))
    ensures WalkCost(levels, b, tail) <= WalkCost(levels, a, tail) + Times(b - a, p)
    decreases |levels|, 0
  {
    var l, rest := levels[0], levels[1..];
    hide Times;
    TimesSplit(a, b - a, l.price);
    TimesMono(b - a, l.price, p);
    if b > l.quantity {
      NextLevel(levels, b, tail);
      if a >= l.quantity {
        NextLevel(levels, a, tail);
        CostRises(rest, a - l.quantity, b - l.quantity, tail, p);
      } else {
        CostRises(rest, 0.0, b - l.quantity, tail, p);
        NothingCostsNothing(rest, tail);
        TimesSplit(a, l.quantity - a, l.price);
        TimesMono(l.quantity - a, l.price, p);
        TimesSplit(l.quantity - a, b - l.quantity, p);
      }
    }
  }

  /** In a walk through ascending prices, taking `e` units from the last level first saves nothing. */
  lemma {:induction false} LastFirst(s: seq<Level>, l: Level, u: real, e: real, tail: real)
    requires Sizes(s) && AtMost(s, l.price) && l.price <= tail && 0.0 <= e <= l.quantity && e <= u && 0.0 < l.quantity
    ensures WalkCost(s + [l], u, tail) <= Times(e, l.price) + WalkCost(s, u - e, tail)
    decreases |s|
  {
    hide Times;
    TimesSplit(0.0, 0.0, l.price);
    if s == [] {
      LastOnly(s, l, u, e, tail);
    } else if u > 0.0 {
      var h := s[0];
      assert (s + [l])[1..] == s[1..] + [l];
      if u - e >= h.quantity {
        NextLevel(s + [l], u, tail);
        NextLevel(s, u - e, tail);
        LastFirst(s[1..], l, u - h.quantity, e, tail);
      } else {
        LastShares(s, l, u, e, tail);
      }
    }
  }

  lemma LastOnly(s: seq<Level>, l: Level, u: real, e: real, tail: real)
    requires s == [] && l.price <= tail && 0.0 <= e <= l.quantity && e <= u && 0.0 < l.quantity
    ensures WalkCost(s + [l], u, tail) <= Times(e, l.price) + WalkCost(s, u - e, tail)
  {
    hide Times;
    var fill := Min(u, l.quantity);
    assert (s + [l])[1..] == [];
    TimesSplit(0.0, 0.0, l.price);
    TimesSplit(0.0, 0.0, tail);
    TimesSplit(e, fill - e, l.price);
    TimesSplit(fill - e, u - fill, tail);
    TimesMono(fill - e, l.price, tail);
  }

  /** The case in which the first level has room for all the other units. */
  lemma LastShares(s: seq<Level>, l: Level, u: real, e: real, tail: real)
    requires s != [] && Sizes(s) && AtMost(s, l.price) && l.price <= tail && 0.0 < l.quantity
    requires 0.0 <= e <= l.quantity && e <= u && 0.0 < u && u - e < s[0].quantity
    ensures WalkCost(s + [l], u, tail) <= Times(e, l.price) + WalkCost(s, u - e, tail)
  {
    hide Times;
    var h, whole := s[0], s + [l];
    assert whole[1..] == s[1..] + [l];
    TimesSplit(0.0, 0.0, h.price);
    NothingCostsNothing(s[1..], tail);
    assert WalkCost(s, u - e, tail) == Times(u - e, h.price);
    DepthAppend(s[1..], l);
    DepthAppend(s, l);
    CostRises(whole, u - e, u, tail, l.price);
    assert WalkCost(whole, u - e, tail) == Times(u - e, h.price) by {
      NothingCostsNothing(whole[1..], tail);
    }
  }

  lemma {:induction false} DepthAppend(s: seq<Level>, l: Level)
    ensures Depth(s + [l]) == Depth(s) + l.quantity
    ensures Sizes(s) ==> Depth(s) >= 0.0
  {
    if s == [] {
      assert (s + [l])[1..] == [];
    } else {
      assert (s + [l])[1..] == s[1..] + [l];
      DepthAppend(s[1..], l);
    }
  }

  lemma {:induction false} SpareBelow(low: seq<Level>, floor: real, p: real)
    requires Sizes(low) && AtMost(low, p)
    ensures Sizes(Spare(low, floor)) && AtMost(Spare(low, floor), Min(p, floor))
  {
    if low != [] {
      SpareBelow(low[1..], floor, p);
    }
  }

  /** Units beyond the lowest book that the first level has room for cost no more than that level. */
  lemma RoomAtFirst(low: seq<Level>, u: real, floor: real)
    requires low != [] && Sizes(low) && Descending(low) && 0.0 <= u <= 9.0 * low[0].quantity
    ensures WalkCost(Spare(low, floor), u, floor) <= Times(u, low[0].price)
  {
    hide Times, WalkCost, Depth;
    var l, spare := low[0], Spare(low[1..], floor);
    var h := Level(Min(l.price, floor), 9.0 * l.quantity);
    SpareBelow(low[1..], floor, l.price);
    DepthAppend(spare, h);
    NothingCostsNothing(spare + [h], floor);
    CostRises(spare + [h], 0.0, u, floor, h.price);
    TimesMono(u, h.price, l.price);
  }

  lemma FirstBeyond(low: seq<Level>, e: real, u: real, floor: real)
    requires low != [] && Sizes(low) && Descending(low) && 0.0 <= e <= 9.0 * low[0].quantity && e <= u
    ensures WalkCost(Spare(low, floor), u, floor)
         <= Times(e, low[0].price) + WalkCost(Spare(low[1..], floor), u - e, floor)
  {
    hide Times, WalkCost;
    var l := low[0];
    var h := Level(Min(l.price, floor), 9.0 * l.quantity);
    SpareBelow(low[1..], floor, l.price);
    LastFirst(Spare(low[1..], floor), h, u, e, floor);
    TimesMono(e, h.price, l.price);
  }

  /** Filling `e` units more at the first level leaves no less than the worst. */
  lemma FirstLevel(low: seq<Level>, e: real, r: real, tail: real, floor: real)
    requires low != [] && Sizes(low) && Descending(low)
    requires 0.0 <= e <= 9.0 * low[0].quantity && e <= r
    ensures var l := low[0];
            Worst(low, l.quantity + r, tail, floor)
              <= Times(l.quantity, l.price) + Times(e, l.price) + Worst(low[1..], r - e, tail, floor)
  {
    var l, rest := low[0], low[1..];
    var d := Depth(rest);
    assert Depth(low) == l.quantity + d;
    NextLevel(low, l.quantity + r, tail);
    DepthAppend(rest, l);
    NextLevel(low, Depth(low), tail);
    hide Times, WalkCost, Depth, Spare;
    if r <= d {
      CostRises(rest, r - e, r, tail, l.price);
    } else if r - e > d {
      FirstBeyond(low, e, r - d, floor);
    } else {
      CostRises(rest, r - e, d, tail, l.price);
      RoomAtFirst(low, r - d, floor);
      TimesSplit(d - (r - e), r - d, l.price);
    }
  }

  /** No book within the range comes to less than the worst. */
  lemma {:induction false} WorstIsLowest(low: seq<Level>, book: seq<Level>, q: real, tail: real, floor: real)
    requires Sizes(low) && Descending(low) && Ranges(low, book) && 0.0 <= q && floor <= tail
    ensures Worst(low, q, tail, floor) <= WalkCost(book, q, tail)
    decreases |low|
  {
    hide Times;
    if low == [] {
      TimesMono(q, floor, tail);
    } else {
      var l, x := low[0], book[0].quantity;
      var f := Min(q, x);
      assert Ranges(low[1..], book[1..]);
      DepthAppend(low[1..], l);
      TimesSplit(0.0, 0.0, l.price);
      if q <= l.quantity {
        NothingCostsNothing(low[1..], tail);
        NothingCostsNothing(book[1..], tail);
      } else {
        WorstIsLowest(low[1..], book[1..], q - f, tail, floor);
        FirstLevel(low, f - l.quantity, q - l.quantity, tail, floor);
        TimesSplit(l.quantity, f - l.quantity, l.price);
      }
    }
  }

  /** Once the worst of a size is not negative, nor is that of any smaller size. */
  lemma WorstStays(low: seq<Level>, q: real, bound: real, tail: real, floor: real)
    requires Sizes(low) && Descending(low) && floor <= 0.0 && 0.0 < q <= bound && 0.0 <= Worst(low, bound, tail, floor)
    ensures 0.0 <= Worst(low, q, tail, floor)
  {
    hide Times, WalkCost, Depth;
    var d, spare := Depth(low), Spare(low, floor);
    Shortage(low, 0.0, tail, tail);
    if bound <= d {
      NotBelow(low, q, bound, tail);
    } else {
      var p := if low == [] then 0.0 else low[0].price;
      SpareBelow(low, floor, p);
      NothingCostsNothing(spare, floor);
      TimesMono(bound - d, 0.0, 0.0);
      if q <= d {
        CostRises(spare, 0.0, bound - d, floor, 0.0);
        NotBelow(low, q, d, tail);
      } else {
        TimesMono(bound - q, 0.0, 0.0);
        CostRises(spare, q - d, bound - d, floor, 0.0);
      }
    }
  }

  lemma NotBelow(low: seq<Level>, q: real, b: real, tail: real)
    requires Sizes(low) && Descending(low) && 0.0 < q <= b <= Depth(low) && 0.0 <= WalkCost(low, b, tail)
    ensures 0.0 <= WalkCost(low, q, tail)
  {
    hide WalkCost, Depth;
    SellAverageFalls(low, q, b, tail);
    NotNegative(WalkCost(low, b, tail), b);
    NotNegative(WalkCost(low, q, tail), q);
  }

  lemma NotNegative(x: real, a: real)
    requires a > 0.0
    ensures x / a >= 0.0 <==> x >= 0.0
    ensures x / a <= 0.0 <==> x <= 0.0
  {
    assert (x / a) * a == x;
  }

  // ---------- some book does as badly ----------

  /** What the whole book comes to. */
  function Value(levels: seq<Level>): real {
    if levels == [] then 0.0 else Times(levels[0].quantity, levels[0].price) + Value(levels[1..])
  }

  lemma {:induction false} WholeBook(levels: seq<Level>, tail: real)
    requires Sizes(levels)
    ensures WalkCost(levels, Depth(levels), tail) == Value(levels)
    decreases |levels|
  {
    hide Times;
    if levels != [] {
      DepthAppend(levels[1..], levels[0]);
      NextLevel(levels, Depth(levels), tail);
      WholeBook(levels[1..], tail);
    }
  }

  lemma {:induction false} CostAppend(s: seq<Level>, h: Level, u: real, tail: real)
    requires Sizes(s) && 0.0 <= u && 0.0 < h.quantity
    ensures var f := Min(Max(0.0, u - Depth(s)), h.quantity);
            WalkCost(s + [h], u, tail) == WalkCost(s, u, tail) + Times(f, h.price) - Times(f, tail)
    decreases |s|
  {
    hide Times;
    TimesSplit(0.0, 0.0, h.price);
    TimesSplit(0.0, 0.0, tail);
    DepthAppend(s, h);
    if s == [] {
      assert (s + [h])[1..] == [];
      TimesSplit(Min(u, h.quantity), u - Min(u, h.quantity), tail);
    } else {
      assert (s + [h])[1..] == s[1..] + [h];
      DepthAppend(s[1..], s[0]);
      if u >= s[0].quantity {
        NextLevel(s, u, tail);
        NextLevel(s + [h], u, tail);
        CostAppend(s[1..], h, u - s[0].quantity, tail);
      } else {
        NothingCostsNothing(s[1..], tail);
        NothingCostsNothing(s[1..] + [h], tail);
      }
    }
  }

  /** The book that has `extra` units on top of the lowest where they are worst. What no level below the floor can
      take is left over. */
  lemma {:induction false} Realised(low: seq<Level>, extra: real, floor: real) returns (book: seq<Level>, rest: real)
    requires Sizes(low) && Descending(low) && 0.0 <= extra
    ensures Ranges(low, book) && 0.0 <= rest && Depth(book) + rest == Depth(low) + extra
    ensures Value(book) + Times(rest, floor) == Value(low) + WalkCost(Spare(low, floor), extra, floor)
    ensures (forall i :: 0 <= i < |low| ==> low[i].price < floor) ==>
              rest == Max(0.0, extra - Depth(Spare(low, floor)))
    decreases |low|
  {
    hide Times, Depth;
    if low == [] {
      book, rest := [], extra;
      NothingIn(low, floor);
    } else {
      var l := low[0];
      var h := Level(Min(l.price, floor), 9.0 * l.quantity);
      var book', rest' := Realised(low[1..], extra, floor);
      SpareBelow(low[1..], floor, l.price);
      CostAppend(Spare(low[1..], floor), h, extra, floor);
      var e := if l.price < floor then Min(rest', h.quantity) else 0.0;
      book, rest := [Level(l.price, l.quantity + e)] + book', rest' - e;
      Grown(low, book, e, book');
      DepthAppend(Spare(low[1..], floor), h);
      TimesSplit(l.quantity, e, l.price);
      TimesSplit(e, rest' - e, floor);
      TimesSplit(0.0, 0.0, l.price);
    }
  }

  lemma NothingIn(levels: seq<Level>, floor: real)
    requires levels == []
    ensures Depth(levels) == 0.0 == Value(levels) && Depth(Spare(levels, floor)) == 0.0
    ensures forall u :: u >= 0.0 ==> WalkCost(Spare(levels, floor), u, floor) == Times(u, floor)
  {
  }

  lemma Grown(low: seq<Level>, book: seq<Level>, e: real, rest: seq<Level>)
    requires low != [] && 0.0 <= e <= 9.0 * low[0].quantity && Ranges(low[1..], rest)
    requires book == [Level(low[0].price, low[0].quantity + e)] + rest
    ensures Ranges(low, book)
    ensures Depth(low) == low[0].quantity + Depth(low[1..]) && Depth(book) == low[0].quantity + e + Depth(rest)
    ensures Value(low) == Times(low[0].quantity, low[0].price) + Value(low[1..])
    ensures Value(book) == Times(low[0].quantity + e, low[0].price) + Value(rest)
  {
    hide Times;
    assert book[1..] == rest;
    forall i | 0 < i < |low| ensures low[i] == low[1..][i - 1] && book[i] == rest[i - 1] {
    }
  }

  /** If the worst of a size is negative, a sale of that size or less comes to less than nothing in some book. */
  lemma WorstHappens(low: seq<Level>, bound: real, tail: real) returns (book: seq<Level>, q: real)
    requires Sizes(low) && Descending(low) && 0.0 < bound && Worst(low, bound, tail, Min(0.0, tail)) < 0.0
    ensures Ranges(low, book) && 0.0 < q <= bound && WalkCost(book, q, tail) < 0.0
  {
    hide Times, WalkCost, Depth;
    var d, floor := Depth(low), Min(0.0, tail);
    if bound <= d {
      book, q := low, bound;
    } else {
      var rest;
      book, rest := Realised(low, bound - d, floor);
      var whole := Depth(book);
      assert Sizes(book);
      WholeBook(low, tail);
      WholeBook(book, tail);
      TimesSplit(0.0, 0.0, 0.0);
      TimesMono(rest, 0.0, 0.0);
      Shortage(book, bound, tail, tail);
      if tail <= 0.0 {
        q := bound;
      } else {
        q := whole;
        NothingCostsNothing(book, tail);
      }
    }
  }

  // ---------- books in which nothing is worth anything ----------

  lemma {:induction false} MoreIsLess(low: seq<Level>, book: seq<Level>)
    requires Ranges(low, book) && AtMost(low, 0.0)
    ensures Depth(low) <= Depth(book) && Value(book) <= Value(low)
    decreases |low|
  {
    hide Times;
    if low != [] {
      assert Ranges(low[1..], book[1..]);
      MoreIsLess(low[1..], book[1..]);
      var l, x := low[0], book[0].quantity;
      TimesSplit(l.quantity, x - l.quantity, l.price);
      TimesMono(x - l.quantity, l.price, 0.0);
    }
  }

  /** With no bid above zero a sale can only gain past the depth, and most in the lowest book. */
  lemma NothingGained(low: seq<Level>, book: seq<Level>, q: real, bound: real, tail: real)
    requires Sizes(low) && Ranges(low, book) && AtMost(low, 0.0) && 0.0 <= q <= bound
    requires WalkCost(low, bound, tail) <= 0.0
    ensures WalkCost(book, q, tail) <= 0.0
  {
    hide Times, WalkCost, Depth;
    assert Sizes(book);
    var d, e := Depth(low), Depth(book);
    Shortage(book, q, tail, tail);
    if tail <= 0.0 || q <= e {
      NothingCostsNothing(book, tail);
      CostRises(book, 0.0, q, tail, 0.0);
      TimesMono(q, 0.0, 0.0);
    } else {
      MoreIsLess(low, book);
      Shortage(low, bound, tail, tail);
      WholeBook(low, tail);
      WholeBook(book, tail);
      TimesMono(tail, q - e, bound - d);
    }
  }

  // ---------- the books that `update` builds ----------

  /** The lowest book at a mid price of one. */
  function LowBook(cfg: Config): seq<Level> { Bids(cfg, 1.0, seq(cfg.bookLevels, _ => 0.5)) }

  /** The price of shortage at a mid price of one. */
  function Penalised(cfg: Config): real { ShortagePrice(LowBook(cfg), 1.0, Sell) }

  /** The least that a sale of up to `bound` units can come to at a mid price of one. */
  function WorstProceeds(cfg: Config, bound: real): real {
    Worst(LowBook(cfg), bound, Penalised(cfg), Min(0.0, Penalised(cfg)))
  }

  /** What a sale comes to at a mid price of one. */
  function UnitProceeds(cfg: Config, draws: seq<real>, q: real): real
    requires |draws| == cfg.bookLevels
  {
    WalkCost(Bids(cfg, 1.0, draws), q, Penalised(cfg))
  }

  lemma LowBookDrawn(cfg: Config)
    requires cfg.bookDepthDecay > 0.0
    ensures Drawn(cfg, seq(cfg.bookLevels, _ => 0.5)) && Sizes(LowBook(cfg)) && Descending(LowBook(cfg))
  {
    BidsDescend(cfg, 1.0, seq(cfg.bookLevels, _ => 0.5));
  }

  lemma DrawnRanges(cfg: Config, draws: seq<real>)
    requires Drawn(cfg, draws) && cfg.bookDepthDecay > 0.0
    ensures Ranges(LowBook(cfg), Bids(cfg, 1.0, draws))
  {
    hide Pow, BestBid;
    var low, book := LowBook(cfg), Bids(cfg, 1.0, draws);
    forall i | 0 <= i < cfg.bookLevels
      ensures low[i].price == book[i].price && low[i].quantity <= book[i].quantity <= 10.0 * low[i].quantity
    {
      PowPositive(cfg.bookDepthDecay, i);
      TimesMono(Pow(cfg.bookDepthDecay, i), 0.5, draws[i]);
      TimesMono(Pow(cfg.bookDepthDecay, i), draws[i], 5.0);
    }
  }

  /** Every book in the range is drawn somehow. */
  lemma RangesDrawn(cfg: Config, book: seq<Level>) returns (draws: seq<real>)
    requires cfg.bookDepthDecay > 0.0 && Ranges(LowBook(cfg), book)
    ensures Drawn(cfg, draws) && Bids(cfg, 1.0, draws) == book
  {
    hide BestBid, Times, Pow;
    var d := cfg.bookDepthDecay;
    forall i: nat ensures Pow(d, i) > 0.0 {
      PowPositive(d, i);
    }
    draws := seq(|book|, i requires 0 <= i < |book| => book[i].quantity / Pow(d, i));
    forall i | 0 <= i < |book|
      ensures 0.5 <= draws[i] <= 5.0 && Bids(cfg, 1.0, draws)[i] == book[i]
    {
      Quotient(book[i].quantity, Pow(d, i));
      assert LowBook(cfg)[i].quantity == Times(0.5, Pow(d, i));
    }
  }

  lemma Quotient(x: real, p: real)
    requires p > 0.0 && Times(0.5, p) <= x <= 10.0 * Times(0.5, p)
    ensures 0.5 <= x / p <= 5.0 && Times(x / p, p) == x
  {
    assert (x / p) * p == x;
  }

  lemma {:induction false} ScaledCost(unit: seq<Level>, book: seq<Level>, m: real, q: real, tail: real)
    requires |unit| == |book|
    requires forall i :: 0 <= i < |unit| ==>
               book[i].price == Times(m, unit[i].price) && book[i].quantity == unit[i].quantity
    ensures WalkCost(book, q, Times(m, tail)) == Times(m, WalkCost(unit, q, tail))
    decreases |unit|
  {
    TimesMono(m, 0.0, 0.0);
    if q > 0.0 {
      if unit == [] {
        TimesTwice(m, q, tail);
      } else {
        var f := Min(q, unit[0].quantity);
        var head, rest := Times(f, unit[0].price), WalkCost(unit[1..], q - f, tail);
        ScaledCost(unit[1..], book[1..], m, q - f, tail);
        TimesTwice(m, f, unit[0].price);
        TimesSum(m, head, rest);
        hide Times;
      }
    }
  }

  lemma TimesTwice(m: real, x: real, y: real)
    ensures Times(x, Times(m, y)) == Times(m, Times(x, y))
  {
  }

  lemma TimesSum(m: real, x: real, y: real)
    ensures Times(m, x + y) == Times(m, x) + Times(m, y)
  {
  }

  /** Prices go with the mid price. */
  lemma UnitPrices(cfg: Config, mid: real, draws: seq<real>)
    requires |draws| == cfg.bookLevels
    ensures forall i :: 0 <= i < cfg.bookLevels ==>
              && Bids(cfg, mid, draws)[i].price == Times(mid, Bids(cfg, 1.0, draws)[i].price)
              && Bids(cfg, mid, draws)[i].quantity == Bids(cfg, 1.0, draws)[i].quantity
    ensures ShortagePrice(Bids(cfg, mid, draws), mid, Sell) == Times(mid, Penalised(cfg))
  {
    hide Pow;
    var unit := Bids(cfg, 1.0, draws);
    forall i | 0 <= i < cfg.bookLevels
      ensures Bids(cfg, mid, draws)[i].price == Times(mid, unit[i].price)
      ensures unit[i].price == LowBook(cfg)[i].price
    {
      BidOfMid(cfg, mid, draws, i);
      BidOfMid(cfg, 1.0, draws, i);
    }
  }

  /** The price of a sale is its proceeds at a mid price of one, scaled and divided. */
  lemma SalePrice(cfg: Config, mid: real, draws: seq<real>, q: real)
    requires |draws| == cfg.bookLevels && 0.0 < q
    ensures FillPrice(Bids(cfg, mid, draws), q, mid, Sell) == Times(mid, UnitProceeds(cfg, draws, q)) / q
  {
    hide Times, WalkCost, Pow, BestBid, Penalised;
    UnitPrices(cfg, mid, draws);
    ScaledCost(Bids(cfg, 1.0, draws), Bids(cfg, mid, draws), mid, q, Penalised(cfg));
  }

  lemma ScaledSign(m: real, x: real, q: real)
    requires m > 0.0 && q > 0.0
    ensures x >= 0.0 ==> Times(m, x) / q >= 0.0
    ensures x <= 0.0 ==> Times(m, x) / q <= 0.0
    ensures x < 0.0 ==> Times(m, x) / q < 0.0
    ensures x > 0.0 ==> Times(m, x) / q > 0.0
  {
    var y := Times(m, x);
    assert (y / q) * q == y;
    SameSign(m, x);
    SameSign(q, y / q);
    assert Times(q, y / q) == y;
    hide Times;
  }

  /** No sale of up to `bound` units is priced below zero, in whatever book. */
  predicate BookSafe(cfg: Config, bound: real) { 0.0 <= WorstProceeds(cfg, bound) }

  lemma SafeSale(cfg: Config, bound: real, mid: real, draws: seq<real>, q: real)
    requires Drawn(cfg, draws) && cfg.bookDepthDecay > 0.0 && mid > 0.0 && q <= bound && BookSafe(cfg, bound)
    ensures 0.0 <= FillPrice(Bids(cfg, mid, draws), q, mid, Sell)
    ensures 0.0 <= UnitProceeds(cfg, draws, q)
  {
    if 0.0 < q {
      var low, tail := LowBook(cfg), Penalised(cfg);
      LowBookDrawn(cfg);
      DrawnRanges(cfg, draws);
      hide Times, WalkCost, Worst, Bids, LowBook, Penalised;
      WorstStays(low, q, bound, tail, Min(0.0, tail));
      WorstIsLowest(low, Bids(cfg, 1.0, draws), q, tail, Min(0.0, tail));
      SalePrice(cfg, mid, draws, q);
      ScaledSign(mid, UnitProceeds(cfg, draws, q), q);
    }
  }

  lemma UnsafeSale(cfg: Config, bound: real) returns (draws: seq<real>, q: real)
    requires cfg.bookDepthDecay > 0.0 && 0.0 < bound && !BookSafe(cfg, bound)
    ensures Drawn(cfg, draws) && 0.0 < q <= bound && UnitProceeds(cfg, draws, q) < 0.0
  {
    LowBookDrawn(cfg);
    var book;
    book, q := WorstHappens(LowBook(cfg), bound, Penalised(cfg));
    draws := RangesDrawn(cfg, book);
  }

  /** No sale of up to `bound` units is priced above zero: the best bid is not, and running out pays too little. */
  predicate Worthless(cfg: Config, bound: real) {
    BestBid(cfg, 1.0) <= 0.0 && WalkCost(LowBook(cfg), bound, Penalised(cfg)) <= 0.0
  }

  lemma WorthlessSale(cfg: Config, bound: real, mid: real, draws: seq<real>, q: real)
    requires Drawn(cfg, draws) && cfg.bookDepthDecay > 0.0 && mid > 0.0 && 0.0 < q <= bound && Worthless(cfg, bound)
    ensures FillPrice(Bids(cfg, mid, draws), q, mid, Sell) <= 0.0
  {
    var low := LowBook(cfg);
    LowBookDrawn(cfg);
    DrawnRanges(cfg, draws);
    assert AtMost(low, 0.0) by {
      BidsDescend(cfg, 1.0, seq(cfg.bookLevels, _ => 0.5));
      hide Built;
    }
    hide Times, WalkCost, Bids, LowBook;
    NothingGained(low, Bids(cfg, 1.0, draws), q, bound, Penalised(cfg));
    SalePrice(cfg, mid, draws, q);
    ScaledSign(mid, UnitProceeds(cfg, draws, q), q);
  }

  /** Where it is not so, some sale up to the bound is priced above zero. */
  lemma WorthySale(cfg: Config, bound: real) returns (draws: seq<real>, q: real)
    requires cfg.bookDepthDecay > 0.0 && 0 < cfg.bookLevels && 0.0 < bound && !Worthless(cfg, bound)
    ensures Drawn(cfg, draws) && 0.0 < q <= bound && UnitProceeds(cfg, draws, q) > 0.0
  {
    draws := seq(cfg.bookLevels, _ => 0.5);
    LowBookDrawn(cfg);
    if BestBid(cfg, 1.0) > 0.0 {
      var l := LowBook(cfg)[0];
      BidsDescend(cfg, 1.0, draws);
      q := Min(bound, l.quantity);
      NothingCostsNothing(LowBook(cfg)[1..], Penalised(cfg));
      assert UnitProceeds(cfg, draws, q) == Times(q, l.price);
      PositiveProduct(q, l.price);
    } else {
      q := bound;
    }
  }

  /** The condition is exact: whatever the mid price and the draws, no sale of any size up to the bound is priced below
      zero, if and only if the worst proceeds at that size are not negative. */
  lemma SafeBookIff(cfg: Config, bound: real)
    requires cfg.bookDepthDecay > 0.0 && 0.0 < bound
    ensures BookSafe(cfg, bound)
       <==> forall mid, draws, q :: mid > 0.0 && Drawn(cfg, draws) && q <= bound ==>
              0.0 <= FillPrice(Bids(cfg, mid, draws), q, mid, Sell)
  {
    hide FillPrice, Bids, BookSafe;
    if BookSafe(cfg, bound) {
      forall mid, draws, q | mid > 0.0 && Drawn(cfg, draws) && q <= bound
        ensures 0.0 <= FillPrice(Bids(cfg, mid, draws), q, mid, Sell)
      {
        SafeSale(cfg, bound, mid, draws, q);
      }
    } else {
      var draws, q := UnsafeSale(cfg, bound);
      SalePrice(cfg, 1.0, draws, q);
      ScaledSign(1.0, UnitProceeds(cfg, draws, q), q);
    }
  }

  /** So a book with all its bids above zero is safe at every size. */
  lemma AboveZeroIsSafe(cfg: Config, bound: real)
    requires cfg.bookDepthDecay > 0.0 && 0.0 < bound && BidsAboveZero(cfg)
    ensures BookSafe(cfg, bound)
  {
    hide FillPrice, Bids, BookSafe, BidsAboveZero;
    forall mid, draws, q | mid > 0.0 && Drawn(cfg, draws) && q <= bound
      ensures 0.0 <= FillPrice(Bids(cfg, mid, draws), q, mid, Sell)
    {
      SalesArePositive(cfg, mid, draws, q);
    }
    SafeBookIff(cfg, bound);
  }

  /** A book whose best bid is below zero is safe at no size. */
  lemma NegativeBidIsUnsafe(cfg: Config, bound: real)
    requires cfg.bookDepthDecay > 0.0 && 0.0 < bound && 0 < cfg.bookLevels && BestBid(cfg, 1.0) < 0.0
    ensures !BookSafe(cfg, bound)
  {
    hide Times, BestBid, BookSafe;
    var draws := seq(cfg.bookLevels, _ => 0.5);
    LowBookDrawn(cfg);
    BidsDescend(cfg, 1.0, draws);
    var bids := Bids(cfg, 1.0, draws);
    var q := Min(bound, bids[0].quantity);
    NothingCostsNothing(bids[1..], Penalised(cfg));
    assert UnitProceeds(cfg, draws, q) == Times(q, bids[0].price);
    SameSign(q, bids[0].price);
    if BookSafe(cfg, bound) {
      SafeSale(cfg, bound, 1.0, draws, q);
    }
  }
}
