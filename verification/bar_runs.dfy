/** Whole runs of the two bar aggregators. */
module BarRuns {
  import opened Arithmetic
  import opened Timestamps
  import opened Bars

  // ---------- grouping all at once ----------

  /** A tick with the start its aggregator rounds it to. */
  datatype Stamped = Stamped(start: int, tick: Tick)

  function Highest(g: seq<Tick>): real
    requires g != []
  {
    if |g| == 1 then g[0].price else Max(Highest(g[..|g| - 1]), g[|g| - 1].price)
  }

  function Lowest(g: seq<Tick>): real
    requires g != []
  {
    if |g| == 1 then g[0].price else Min(Lowest(g[..|g| - 1]), g[|g| - 1].price)
  }

  function Volume(g: seq<Tick>): real {
    if g == [] then 0.0 else Volume(g[..|g| - 1]) + g[|g| - 1].quantity
  }

  function Turnover(g: seq<Tick>): real {
    if g == [] then 0.0 else Turnover(g[..|g| - 1]) + g[|g| - 1].price * g[|g| - 1].quantity
  }

  /** The bar of a group of ticks: open first, close last, highest, lowest, volume and count. */
  function Group(start: int, g: seq<Tick>): Weighted
    requires g != []
  {
    var bar := Partial(start, g[0].price, Highest(g), Lowest(g), g[|g| - 1].price, Volume(g), |g|);
    Weighted(bar, Turnover(g), Volume(g))
  }

  /** The starts that occur, in the order they first do. */
  function Starts(xs: seq<Stamped>): seq<int> {
    if xs == [] then []
    else
      var r, x := Starts(xs[..|xs| - 1]), xs[|xs| - 1];
      if x.start in r then r else r + [x.start]
  }

  function TicksAt(xs: seq<Stamped>, start: int): seq<Tick> {
    if xs == [] then []
    else
      var r, x := TicksAt(xs[..|xs| - 1], start), xs[|xs| - 1];
      if x.start == start then r + [x.tick] else r
  }

  /** One bar for each start, made of all the ticks with that start. */
  predicate IsBatch(bars: seq<Weighted>, xs: seq<Stamped>) {
    && |bars| == |Starts(xs)|
    && forall i :: 0 <= i < |bars| ==>
         TicksAt(xs, Starts(xs)[i]) != [] && bars[i] == Group(Starts(xs)[i], TicksAt(xs, Starts(xs)[i]))
  }

  predicate Sorted(xs: seq<Stamped>) {
    forall i, j :: 0 <= i < j < |xs| ==> xs[i].start <= xs[j].start
  }

  // ---------- one stream ----------

  datatype Feed = Feed(partial: Option<Partial>, out: seq<Partial>)

  function FeedStream(xs: seq<Stamped>): Feed {
    if xs == [] then Feed(None, [])
    else
      var f, x := FeedStream(xs[..|xs| - 1]), xs[|xs| - 1];
      var next := FeedNext(f.partial, x.start, x.tick);
      Feed(Some(next.0), if next.1.None? then f.out else f.out + [next.1.value])
  }

  datatype Trades = Trades(current: Option<Weighted>, out: seq<Weighted>, ticks: seq<Tick>)

  function TradesNext(w: Trades, x: Stamped): Trades {
    if w.current.None? then Trades(Some(BeginWeighted(x.start, x.tick)), w.out, w.ticks + [x.tick])
    else if x.start > w.current.value.bar.start then
      Trades(Some(BeginWeighted(x.start, x.tick)), w.out + [w.current.value], [x.tick])
    else Trades(Some(ExtendWeighted(w.current.value, x.tick)), w.out, w.ticks + [x.tick])
  }

  function TradeStream(xs: seq<Stamped>): Trades {
    if xs == [] then Trades(None, [], []) else TradesNext(TradeStream(xs[..|xs| - 1]), xs[|xs| - 1])
  }

  /** The same bars, but for the weighted price. */
  predicate SameBars(a: seq<Partial>, b: seq<Weighted>) {
    |a| == |b| && forall i :: 0 <= i < |a| ==> a[i] == b[i].bar
  }

  lemma GroupOfOne(start: int, t: Tick)
    ensures Group(start, [t]) == BeginWeighted(start, t)
  {
    var g := [t];
    var e := g[..0];
    assert Volume(e) == 0.0 && Turnover(e) == 0.0;
  }

  /** A bar takes in one more tick just as its group does. */
  lemma GroupGrows(start: int, g: seq<Tick>, t: Tick)
    requires g != []
    ensures Group(start, g + [t]) == ExtendWeighted(Group(start, g), t)
  {
    var h := g + [t];
    assert h[..|h| - 1] == g;
  }

  /** Nothing is in a group that does not start where asked. */
  lemma {:induction false} TicksAtMissing(xs: seq<Stamped>, start: int)
    ensures TicksAt(xs, start) == [] <==> start !in Starts(xs)
  {
    if xs != [] {
      TicksAtMissing(xs[..|xs| - 1], start);
    }
  }

  /** The last start is the latest. */
  lemma {:induction false} LastStart(xs: seq<Stamped>)
    requires Sorted(xs) && xs != []
    ensures Starts(xs) != [] && Starts(xs)[|Starts(xs)| - 1] == xs[|xs| - 1].start
    ensures forall i :: 0 <= i < |Starts(xs)| - 1 ==> Starts(xs)[i] < xs[|xs| - 1].start
  {
    var r := xs[..|xs| - 1];
    if r != [] {
      LastStart(r);
    } else {
      assert Starts(r) == [];
    }
  }

  lemma {:induction false} StartsDistinct(xs: seq<Stamped>)
    ensures forall i, j :: 0 <= i < j < |Starts(xs)| ==> Starts(xs)[i] != Starts(xs)[j]
  {
    if xs != [] {
      StartsDistinct(xs[..|xs| - 1]);
    }
  }

  lemma StartsNext(xs: seq<Stamped>)
    requires xs != []
    ensures Starts(xs) == Starts(xs[..|xs| - 1])
                          + if xs[|xs| - 1].start in Starts(xs[..|xs| - 1]) then [] else [xs[|xs| - 1].start]
  {
  }

  lemma TicksAtNext(xs: seq<Stamped>, start: int)
    requires xs != []
    ensures TicksAt(xs, start) == TicksAt(xs[..|xs| - 1], start)
                                  + if xs[|xs| - 1].start == start then [xs[|xs| - 1].tick] else []
  {
  }

  /** A tick with the latest start joins the last bar of the batch. */
  lemma BatchJoins(bars: seq<Weighted>, xs: seq<Stamped>, last: int)
    requires xs != [] && IsBatch(bars, xs[..|xs| - 1])
    requires Starts(xs[..|xs| - 1]) != [] && last == |Starts(xs[..|xs| - 1])| - 1
    requires Starts(xs[..|xs| - 1])[last] == xs[|xs| - 1].start
    ensures IsBatch(bars[last := ExtendWeighted(bars[last], xs[|xs| - 1].tick)], xs)
  {
    hide Starts, TicksAt, Group, ExtendWeighted;
    var ys, x := xs[..|xs| - 1], xs[|xs| - 1];
    var ss := Starts(ys);
    StartsNext(xs);
    assert Starts(xs) == ss;
    StartsDistinct(ys);
    GroupGrows(x.start, TicksAt(ys, x.start), x.tick);
    forall i | 0 <= i < |ss|
      ensures TicksAt(xs, ss[i]) == if i == last then TicksAt(ys, ss[i]) + [x.tick] else TicksAt(ys, ss[i])
    {
      TicksAtNext(xs, ss[i]);
    }
  }

  /** A tick with a new start opens another bar. */
  lemma BatchOpens(bars: seq<Weighted>, xs: seq<Stamped>)
    requires xs != [] && IsBatch(bars, xs[..|xs| - 1]) && xs[|xs| - 1].start !in Starts(xs[..|xs| - 1])
    ensures IsBatch(bars + [BeginWeighted(xs[|xs| - 1].start, xs[|xs| - 1].tick)], xs)
  {
    hide Starts, TicksAt, Group, BeginWeighted;
    var ys, x := xs[..|xs| - 1], xs[|xs| - 1];
    var ss := Starts(ys);
    StartsNext(xs);
    GroupOfOne(x.start, x.tick);
    TicksAtMissing(ys, x.start);
    TicksAtNext(xs, x.start);
    assert TicksAt(xs, x.start) == [x.tick];
    forall i | 0 <= i < |ss|
      ensures TicksAt(xs, ss[i]) == TicksAt(ys, ss[i])
    {
      TicksAtNext(xs, ss[i]);
    }
  }

  /** The bars a stream has closed and the one it is building. */
  function AllBars(w: Trades): seq<Weighted> {
    w.out + if w.current.None? then [] else [w.current.value]
  }

  /** Streaming is batch: for stamps that never go back, the closed bars and the partial one are the groups of all the
      ticks, in order. */
  lemma {:induction false} StreamingIsBatch(xs: seq<Stamped>)
    requires Sorted(xs)
    ensures IsBatch(AllBars(TradeStream(xs)), xs)
    ensures xs != [] ==> TradeStream(xs).current.Some?
                         && TradeStream(xs).current.value.bar.start == xs[|xs| - 1].start
  {
    if xs == [] {
      assert Starts(xs) == [];
    } else {
      var ys, x := xs[..|xs| - 1], xs[|xs| - 1];
      var w := TradeStream(ys);
      StreamingIsBatch(ys);
      if ys != [] {
        LastStart(ys);
      }
      StreamStep(xs, w);
    }
  }

  lemma StreamStep(xs: seq<Stamped>, w: Trades)
    requires Sorted(xs) && xs != [] && IsBatch(AllBars(w), xs[..|xs| - 1])
    requires |xs| == 1 ==> w.current.None?
    requires |xs| > 1 ==> w.current.Some? && w.current.value.bar.start == xs[|xs| - 2].start
    requires |xs| > 1 ==>
      var ss := Starts(xs[..|xs| - 1]);
      ss != [] && ss[|ss| - 1] == xs[|xs| - 2].start && forall i :: 0 <= i < |ss| - 1 ==> ss[i] < xs[|xs| - 2].start
    ensures IsBatch(AllBars(TradesNext(w, xs[|xs| - 1])), xs)
    ensures TradesNext(w, xs[|xs| - 1]).current.value.bar.start == xs[|xs| - 1].start
  {
    var ys, x := xs[..|xs| - 1], xs[|xs| - 1];
    var bars := AllBars(w);
    if |xs| == 1 {
      assert ys == [] && Starts(ys) == [];
      BatchOpens(bars, xs);
      assert AllBars(TradesNext(w, x)) == bars + [BeginWeighted(x.start, x.tick)];
    } else {
      hide Starts, IsBatch;
      StreamStepLater(xs, w);
    }
  }

  lemma StreamStepLater(xs: seq<Stamped>, w: Trades)
    requires Sorted(xs) && |xs| > 1 && IsBatch(AllBars(w), xs[..|xs| - 1])
    requires w.current.Some? && w.current.value.bar.start == xs[|xs| - 2].start
    requires
      var ss := Starts(xs[..|xs| - 1]);
      ss != [] && ss[|ss| - 1] == xs[|xs| - 2].start && forall i :: 0 <= i < |ss| - 1 ==> ss[i] < xs[|xs| - 2].start
    ensures IsBatch(AllBars(TradesNext(w, xs[|xs| - 1])), xs)
    ensures TradesNext(w, xs[|xs| - 1]).current.value.bar.start == xs[|xs| - 1].start
  {
    var ys, x := xs[..|xs| - 1], xs[|xs| - 1];
    var bars := AllBars(w);
    assert x.start >= xs[|xs| - 2].start;
    assert |bars| == |Starts(ys)|;
    hide Starts, IsBatch;
    if x.start > xs[|xs| - 2].start {
      BatchOpens(bars, xs);
      assert AllBars(TradesNext(w, x)) == bars + [BeginWeighted(x.start, x.tick)];
    } else {
      BatchJoins(bars, xs, |bars| - 1);
      assert AllBars(TradesNext(w, x)) == bars[|bars| - 1 := ExtendWeighted(w.current.value, x.tick)];
    }
  }

  // ---------- the two implementations ----------

  /** On stamps that never go back the two do the same; one that goes back makes `BarAggregator` close a bar that
      `TradeAggregator` keeps open, and it never makes up for it. */
  lemma {:induction false} StreamsAgreeIff(xs: seq<Stamped>)
    ensures |FeedStream(xs).out| >= |TradeStream(xs).out|
    ensures |FeedStream(xs).out| == |TradeStream(xs).out| <==> Sorted(xs)
    ensures Sorted(xs) ==> SameBars(FeedStream(xs).out, TradeStream(xs).out)
    ensures xs != [] ==> FeedStream(xs).partial.Some? && TradeStream(xs).current.Some?
                         && FeedStream(xs).partial.value.start == xs[|xs| - 1].start
                         && TradeStream(xs).current.value.bar.start >= xs[|xs| - 1].start
    ensures xs != [] && Sorted(xs) ==> FeedStream(xs).partial.value == TradeStream(xs).current.value.bar
    ensures xs == [] ==> FeedStream(xs).partial.None? && TradeStream(xs).current.None?
  {
    if xs != [] {
      var ys, x := xs[..|xs| - 1], xs[|xs| - 1];
      StreamsAgreeIff(ys);
      var f, w := FeedStream(ys), TradeStream(ys);
      hide Sorted, Begin, Extend;
    }
  }

  // ---------- the weighted price ----------

  predicate Bought(g: seq<Tick>) {
    forall i :: 0 <= i < |g| ==> g[i].quantity >= 0.0
  }

  lemma SumsGrow(g: seq<Tick>)
    requires g != []
    ensures Volume(g) == Volume(g[..|g| - 1]) + g[|g| - 1].quantity
    ensures Turnover(g) == Turnover(g[..|g| - 1]) + g[|g| - 1].price * g[|g| - 1].quantity
  {
  }

  lemma NothingTraded(g: seq<Tick>, low: real, high: real)
    requires g == []
    ensures Volume(g) == 0.0 == Turnover(g) && low * Volume(g) == 0.0 == high * Volume(g)
  {
  }

  lemma {:induction false} TurnoverBetween(g: seq<Tick>, low: real, high: real)
    requires Bought(g) && forall i :: 0 <= i < |g| ==> low <= g[i].price <= high
    ensures Volume(g) >= 0.0
    ensures low * Volume(g) <= Turnover(g) <= high * Volume(g)
  {
    hide Volume, Turnover;
    if g == [] {
      NothingTraded(g, low, high);
    } else {
      var n := |g| - 1;
      TurnoverBetween(g[..n], low, high);
      SumsGrow(g);
    }
  }

  lemma {:induction false} PricesBetween(g: seq<Tick>)
    requires g != []
    ensures forall i :: 0 <= i < |g| ==> Lowest(g) <= g[i].price <= Highest(g)
  {
    if |g| > 1 {
      var r := g[..|g| - 1];
      PricesBetween(r);
      assert forall i :: 0 <= i < |r| ==> r[i] == g[i];
      assert Lowest(g) == Min(Lowest(r), g[|g| - 1].price);
      assert Highest(g) == Max(Highest(r), g[|g| - 1].price);
    } else {
      assert g[0].price == Lowest(g) == Highest(g);
    }
  }

  lemma QuotientBetween(low: real, high: real, num: real, den: real)
    requires den > 0.0 && low * den <= num <= high * den
    ensures low <= num / den <= high
  {
    var v := num / den;
    assert v * den == num;
    RealMono(v, low, den);
    RealMono(high, v, den);
  }

  /** The volume-weighted price of a group lies between its low and its high as soon as something was traded. */
  lemma VwapInRange(start: int, g: seq<Tick>)
    requires g != [] && Bought(g)
    ensures
      var w := Group(start, g);
      if w.den > 0.0 then w.bar.low <= Vwap(w) <= w.bar.high else Vwap(w) == 0.0
  {
    PricesBetween(g);
    TurnoverBetween(g, Lowest(g), Highest(g));
    hide Lowest, Highest, Turnover;
    if Volume(g) > 0.0 {
      QuotientBetween(Lowest(g), Highest(g), Turnover(g), Volume(g));
    }
  }

  // ---------- interleaved runs ----------

  /** One call of `process_tick` or of `aggregate_time_bar`. */
  datatype Input = Input(tick: Tick, seconds: nat)

  function KeyOf(u: Input): Key { Key(u.tick.symbol, u.tick.exchange, u.seconds) }

  /** `BarAggregator` on a mixed run: its dictionary and what it returned, in order. */
  function FeedRun(us: seq<Input>): (map<Key, Partial>, seq<OHLCVBar>) {
    if us == [] then (map[], [])
    else
      var f, u := FeedRun(us[..|us| - 1]), us[|us| - 1];
      if u.seconds <= 0 then f
      else
        var next := FeedNext(Lookup(f.0, KeyOf(u)), FeedFloor(u.tick.at, u.seconds), u.tick);
        (f.0[KeyOf(u) := next.0],
         if next.1.None? then f.1
         else f.1 + [OHLCVBar(u.tick.symbol, u.tick.exchange, u.seconds, next.1.value, 0.0)])
  }

  /** The ticks of one key, stamped by one floor or the other. */
  function StreamOf(us: seq<Input>, key: Key, truncating: bool): seq<Stamped>
    requires key.seconds > 0
  {
    if us == [] then []
    else
      var r, u := StreamOf(us[..|us| - 1], key, truncating), us[|us| - 1];
      if KeyOf(u) != key then r
      else
        var floor := if truncating then FeedFloor(u.tick.at, key.seconds) else TradeFloor(u.tick.at, key.seconds);
        r + [Stamped(floor, u.tick)]
  }

  /** The bars returned for one key. */
  function OutOf(bars: seq<OHLCVBar>, key: Key): seq<Partial> {
    if bars == [] then []
    else
      var r, b := OutOf(bars[..|bars| - 1], key), bars[|bars| - 1];
      if Key(b.symbol, b.exchange, b.seconds) == key then r + [b.bar] else r
  }

  /** Keys do not disturb one another: in any mixed run a key fares as if its ticks were alone. */
  lemma {:induction false} KeysAreIndependent(us: seq<Input>, key: Key)
    requires key.seconds > 0
    ensures Lookup(FeedRun(us).0, key) == FeedStream(StreamOf(us, key, true)).partial
    ensures OutOf(FeedRun(us).1, key) == FeedStream(StreamOf(us, key, true)).out
  {
    if us == [] {
    } else {
      KeysAreIndependent(us[..|us| - 1], key);
    }
  }

  /** What the ticks of a symbol do to its cell of a `TradeAggregator`. */
  function TradeRun(us: seq<Input>, symbol: string): Cell {
    if us == [] then Cell(None, [], [])
    else
      var c, u := TradeRun(us[..|us| - 1], symbol), us[|us| - 1];
      if u.tick.symbol == symbol then TradeNext(c, u.tick, u.seconds).0 else c
  }

  /** The current bar is made of exactly the ticks that are stored. */
  predicate HoldsItsTicks(c: Cell) {
    if c.current.None? then c.ticks == []
    else c.ticks != [] && c.current.value == Group(c.current.value.bar.start, c.ticks)
  }

  /** Every tick keeps bar and ticks together, unless its timeframe has no length and the symbol has a bar: then the
      tick is stored and the bar does not know it. */
  lemma TicksFollowBarIff(c: Cell, t: Tick, seconds: nat)
    requires HoldsItsTicks(c)
    ensures HoldsItsTicks(TradeNext(c, t, seconds).0) <==> !(seconds == 0 && c.current.Some?)
  {
    hide Group, TradeFloor, BeginWeighted, ExtendWeighted;
    if seconds == 0 {
      if c.current.Some? {
        CountTells(c.current.value.bar.start, c.ticks, t);
      }
    } else {
      var start := TradeFloor(t.at, seconds);
      GroupOfOne(start, t);
      BeginStart(start, t);
      if c.current.Some? {
        GroupGrows(c.current.value.bar.start, c.ticks, t);
        ExtendStart(c.current.value, t);
      } else {
        assert c.ticks + [t] == [t];
      }
    }
  }

  lemma CountTells(start: int, g: seq<Tick>, t: Tick)
    requires g != []
    ensures Group(start, g) != Group(start, g + [t])
  {
    assert Group(start, g).bar.trades == |g|;
  }

  lemma BeginStart(start: int, t: Tick)
    ensures BeginWeighted(start, t).bar.start == start
  {
  }

  lemma ExtendStart(w: Weighted, t: Tick)
    ensures ExtendWeighted(w, t).bar.start == w.bar.start
  {
  }

  /** In runs without such a timeframe, mixed timeframes and late ticks included, the current bar of every symbol is the
      group of its stored ticks. */
  lemma {:induction false} TicksFollowBar(us: seq<Input>, symbol: string)
    requires forall i :: 0 <= i < |us| ==> us[i].seconds > 0
    ensures HoldsItsTicks(TradeRun(us, symbol))
  {
    hide HoldsItsTicks, TradeNext;
    if us != [] {
      var r, u := us[..|us| - 1], us[|us| - 1];
      TicksFollowBar(r, symbol);
      TicksFollowBarIff(TradeRun(r, symbol), u.tick, u.seconds);
    } else {
      NoTicks(us, symbol);
    }
  }

  lemma NoTicks(us: seq<Input>, symbol: string)
    requires us == []
    ensures HoldsItsTicks(TradeRun(us, symbol))
  {
  }

  /** Only this exchange and this timeframe are fed for the symbol of `key`. */
  predicate Alone(us: seq<Input>, key: Key) {
    forall i :: 0 <= i < |us| && us[i].tick.symbol == key.symbol ==> KeyOf(us[i]) == key
  }

  predicate InTimeOrder(xs: seq<Stamped>) {
    forall i, j :: 0 <= i < j < |xs| ==> xs[i].tick.at <= xs[j].tick.at
  }

  /** The bar that `w` stands for once it is closed. */
  function Closed(w: Weighted, key: Key): OHLCVBar {
    OHLCVBar(key.symbol, key.exchange, key.seconds, w.bar, Vwap(w))
  }

  /** A cell of the aggregator follows a stream. */
  predicate Follows(c: Cell, w: Trades, key: Key) {
    && c.current == w.current && c.ticks == w.ticks && |c.completed| == |w.out|
    && forall i :: 0 <= i < |w.out| ==> c.completed[i] == Closed(w.out[i], key)
  }

  lemma {:induction false} TradeProjects(us: seq<Input>, key: Key)
    requires key.seconds > 0 && Alone(us, key)
    ensures Follows(TradeRun(us, key.symbol), TradeStream(StreamOf(us, key, false)), key)
  {
    if us == [] {
      assert StreamOf(us, key, false) == [];
    } else {
      var r := us[..|us| - 1];
      assert forall i :: 0 <= i < |r| ==> r[i] == us[i];
      TradeProjects(r, key);
    }
  }

  function Floor(at: real, seconds: int, truncating: bool): int
    requires seconds > 0
  {
    if truncating then FeedFloor(at, seconds) else TradeFloor(at, seconds)
  }

  lemma {:induction false} StreamIsStamped(us: seq<Input>, key: Key, truncating: bool)
    requires key.seconds > 0
    ensures forall i :: 0 <= i < |StreamOf(us, key, truncating)| ==>
              StreamOf(us, key, truncating)[i].start
              == Floor(StreamOf(us, key, truncating)[i].tick.at, key.seconds, truncating)
  {
    hide FeedFloor, TradeFloor;
    if us != [] {
      StreamIsStamped(us[..|us| - 1], key, truncating);
    }
  }

  /** Ticks in time order have starts that never go back. */
  lemma OrderedIsSorted(us: seq<Input>, key: Key, truncating: bool)
    requires key.seconds > 0 && InTimeOrder(StreamOf(us, key, truncating))
    ensures Sorted(StreamOf(us, key, truncating))
  {
    hide FeedFloor, TradeFloor, StreamOf;
    var xs := StreamOf(us, key, truncating);
    StreamIsStamped(us, key, truncating);
    forall i, j | 0 <= i < j < |xs|
      ensures xs[i].start <= xs[j].start
    {
      FloorsRise(xs[i].tick.at, xs[j].tick.at, key.seconds);
    }
  }

  /** The bars of a key in a mixed run: those returned, and the one still open. */
  function FeedBars(us: seq<Input>, key: Key): seq<Partial> {
    OutOf(FeedRun(us).1, key) + if key in FeedRun(us).0 then [FeedRun(us).0[key]] else []
  }

  /** Some batch of bars, forgetting the weighted prices. */
  ghost predicate AreGroups(bars: seq<Partial>, xs: seq<Stamped>) {
    exists ws :: IsBatch(ws, xs) && SameBars(bars, ws)
  }

  /** However the ticks of all symbols, exchanges and timeframes are mixed, the bars that `BarAggregator` makes for one
      key whose own ticks come in time order are the groups of that key's ticks. */
  lemma FeedTheorem(us: seq<Input>, key: Key)
    requires key.seconds > 0 && InTimeOrder(StreamOf(us, key, true))
    ensures AreGroups(FeedBars(us, key), StreamOf(us, key, true))
  {
    hide IsBatch, Sorted, StreamOf, FeedRun, FeedStream, TradeStream, OutOf, InTimeOrder;
    var xs := StreamOf(us, key, true);
    OrderedIsSorted(us, key, true);
    KeysAreIndependent(us, key);
    StreamingIsBatch(xs);
    StreamsAgreeIff(xs);
    assert SameBars(FeedBars(us, key), AllBars(TradeStream(xs)));
  }

  /** The bars of `TradeAggregator` are the groups too, weighted price included, if the symbol has one exchange and one
      timeframe. */
  lemma TradeTheorem(us: seq<Input>, key: Key)
    requires key.seconds > 0 && Alone(us, key) && InTimeOrder(StreamOf(us, key, false))
    ensures
      var c, xs := TradeRun(us, key.symbol), StreamOf(us, key, false);
      exists ws: seq<Weighted> ::
        && IsBatch(ws, xs)
        && |ws| == |c.completed| + (if c.current.None? then 0 else 1)
        && (forall i :: 0 <= i < |c.completed| ==> c.completed[i] == Closed(ws[i], key))
        && (c.current.Some? ==> ws[|c.completed|] == c.current.value)
  {
    hide IsBatch, Sorted, StreamOf, TradeRun, TradeStream, InTimeOrder, Alone;
    var xs := StreamOf(us, key, false);
    OrderedIsSorted(us, key, false);
    TradeProjects(us, key);
    StreamingIsBatch(xs);
    var ws := AllBars(TradeStream(xs));
    assert IsBatch(ws, xs);
  }

  /** No tick of the key is just before an old boundary, so that the two floors agree on it. */
  predicate FloorsAgree(us: seq<Input>, key: Key)
    requires key.seconds > 0
  {
    forall i :: 0 <= i < |us| && KeyOf(us[i]) == key ==> !JustBeforeOldBoundary(us[i].tick.at, key.seconds)
  }

  lemma {:induction false} SameStream(us: seq<Input>, key: Key)
    requires key.seconds > 0 && FloorsAgree(us, key)
    ensures StreamOf(us, key, true) == StreamOf(us, key, false)
  {
    hide FeedFloor, TradeFloor, JustBeforeOldBoundary;
    if us != [] {
      var r, u := us[..|us| - 1], us[|us| - 1];
      assert forall i :: 0 <= i < |r| ==> r[i] == us[i];
      SameStream(r, key);
      FloorsAgreeIff(u.tick.at, key.seconds);
    }
  }

  /** The same open, high, low, close, volume and count, for the same start. */
  predicate SameFigures(a: seq<Partial>, b: seq<OHLCVBar>) {
    |a| == |b| && forall i :: 0 <= i < |a| ==> a[i] == b[i].bar
  }

  /** Given the same ticks the two aggregators complete the same bars exactly when no tick falls into an earlier
      interval than one before it; then their open bars are the same as well. */
  lemma AggregatorsAgreeIff(us: seq<Input>, key: Key)
    requires key.seconds > 0 && Alone(us, key) && FloorsAgree(us, key)
    ensures SameFigures(OutOf(FeedRun(us).1, key), TradeRun(us, key.symbol).completed)
            <==> Sorted(StreamOf(us, key, true))
    ensures Sorted(StreamOf(us, key, true)) ==>
      var p, w := Lookup(FeedRun(us).0, key), TradeRun(us, key.symbol).current;
      if p.Some? then w.Some? && p.value == w.value.bar else w.None?
  {
    hide Sorted, StreamOf, FeedRun, FeedStream, TradeRun, TradeStream, OutOf, Alone, FloorsAgree;
    var xs := StreamOf(us, key, true);
    SameStream(us, key);
    KeysAreIndependent(us, key);
    TradeProjects(us, key);
    StreamsAgreeIff(xs);
  }
}
