/** Ticks into bars, twice: `BarAggregator` of engine/data_feed.py and `TradeAggregator` of data/trade_aggregator.py.
    Timestamps are seconds since the epoch, as reals; a timeframe is its length in whole seconds. */
module Bars {
  import opened Arithmetic
  import opened Timestamps

  datatype Tick = Tick(at: real, symbol: string, exchange: string, price: real, quantity: real)

  /** The figures of a bar that is being built. */
  datatype Partial = Partial(start: int, open: real, high: real, low: real, close: real, volume: real, trades: nat)

  /** With the two sums the volume-weighted price is made from. */
  datatype Weighted = Weighted(bar: Partial, num: real, den: real)

  datatype OHLCVBar = OHLCVBar(symbol: string, exchange: string, seconds: int, bar: Partial, vwap: real)

  function Begin(start: int, t: Tick): Partial {
    Partial(start, t.price, t.price, t.price, t.price, t.quantity, 1)
  }

  function Extend(p: Partial, t: Tick): Partial {
    Partial(p.start, p.open, Max(p.high, t.price), Min(p.low, t.price), t.price, p.volume + t.quantity, p.trades + 1)
  }

  function BeginWeighted(start: int, t: Tick): Weighted {
    Weighted(Begin(start, t), t.price * t.quantity, t.quantity)
  }

  function ExtendWeighted(w: Weighted, t: Tick): Weighted {
    Weighted(Extend(w.bar, t), w.num + t.price * t.quantity, w.den + t.quantity)
  }

  function Vwap(w: Weighted): real {
    if w.den > 0.0 then w.num / w.den else 0.0
  }

  // ---------- the data feed's aggregator ----------

  datatype Key = Key(symbol: string, exchange: string, seconds: int)

  function Lookup<K, V>(m: map<K, V>, k: K): Option<V> {
    if k in m then Some(m[k]) else None
  }

  /** What one stamped tick does to the partial bar of its key: any other start closes the bar. */
  function FeedNext(p: Option<Partial>, start: int, t: Tick): (Partial, Option<Partial>) {
    if p.Some? && p.value.start != start then (Begin(start, t), p)
    else if p.None? then (Begin(start, t), None)
    else (Extend(p.value, t), None)
  }

  class BarAggregator {
    var bars: map<Key, Partial>

    constructor ()
      ensures bars == map[]
    {
      bars := map[];
    }

    method ProcessTick(t: Tick, seconds: int) returns (out: Option<OHLCVBar>)
      modifies this
      ensures seconds <= 0 ==> bars == old(bars) && out.None?
      ensures seconds > 0 ==>
        var key := Key(t.symbol, t.exchange, seconds);
        var next := FeedNext(Lookup(old(bars), key), FeedFloor(t.at, seconds), t);
        && bars == old(bars)[key := next.0]
        && out == if next.1.None? then None else Some(OHLCVBar(t.symbol, t.exchange, seconds, next.1.value, 0.0))
    {
      if seconds <= 0 {
        return None;
      }
      var key := Key(t.symbol, t.exchange, seconds);
      var start := FeedFloor(t.at, seconds);
      if key in bars && bars[key].start != start {
        out := Some(OHLCVBar(t.symbol, t.exchange, seconds, bars[key], 0.0));
        bars := bars[key := Begin(start, t)];
        return;
      }
      out := None;
      if key !in bars {
        bars := bars[key := Begin(start, t)];
        return;
      }
      var state := bars[key];
      state := state.(high := Max(state.high, t.price), low := Min(state.low, t.price), close := t.price);
      state := state.(volume := state.volume + t.quantity, trades := state.trades + 1);
      bars := bars[key := state];
    }
  }

  // ---------- the trade aggregator ----------

  /** What the three dictionaries of a `TradeAggregator` hold for one symbol. */
  datatype Cell = Cell(current: Option<Weighted>, completed: seq<OHLCVBar>, ticks: seq<Tick>)

  datatype Outcome = Returned(bar: Option<OHLCVBar>) | ZeroDivision

  /** What one tick does for its symbol: only a later start closes the bar. A timeframe of no length raises, and for a
      symbol that has a bar it does so after the tick was stored. */
  function TradeNext(c: Cell, t: Tick, seconds: int): (Cell, Outcome)
    requires seconds >= 0
  {
    if seconds == 0 then
      (if c.current.None? then c else c.(ticks := c.ticks + [t]), ZeroDivision)
    else
      var start := TradeFloor(t.at, seconds);
      if c.current.None? then
        (c.(current := Some(BeginWeighted(start, t)), ticks := c.ticks + [t]), Returned(None))
      else if start > c.current.value.bar.start then
        var done := OHLCVBar(t.symbol, t.exchange, seconds, c.current.value.bar, Vwap(c.current.value));
        (Cell(Some(BeginWeighted(start, t)), c.completed + [done], [t]), Returned(Some(done)))
      else
        (c.(current := Some(ExtendWeighted(c.current.value, t)), ticks := c.ticks + [t]), Returned(None))
  }

  /** A defaultdict of lists. */
  function ListAt<V>(m: map<string, seq<V>>, k: string): seq<V> {
    if k in m then m[k] else []
  }

  class TradeAggregator {
    var current: map<string, Weighted>
    var completed: map<string, seq<OHLCVBar>>
    var ticks: map<string, seq<Tick>>

    function CellOf(symbol: string): Cell
      reads this
    {
      Cell(Lookup(current, symbol), ListAt(completed, symbol), ListAt(ticks, symbol))
    }

    constructor ()
      ensures forall s :: CellOf(s) == Cell(None, [], [])
    {
      current, completed, ticks := map[], map[], map[];
    }

    method AggregateTimeBar(t: Tick, seconds: int) returns (out: Outcome)
      requires seconds >= 0
      modifies this
      ensures (CellOf(t.symbol), out) == TradeNext(old(CellOf(t.symbol)), t, seconds)
      ensures forall s :: s != t.symbol ==> CellOf(s) == old(CellOf(s))
    {
      var symbol := t.symbol;
      if symbol !in current {
        if seconds == 0 {
          return ZeroDivision;
        }
        current := current[symbol := BeginWeighted(TradeFloor(t.at, seconds), t)];
        ticks := ticks[symbol := ListAt(ticks, symbol) + [t]];
        return Returned(None);
      }
      var bar := current[symbol];
      ticks := ticks[symbol := ListAt(ticks, symbol) + [t]];
      if seconds == 0 {
        return ZeroDivision;
      }
      var start := TradeFloor(t.at, seconds);
      if start > bar.bar.start {
        var done := OHLCVBar(symbol, t.exchange, seconds, bar.bar, Vwap(bar));
        completed := completed[symbol := ListAt(completed, symbol) + [done]];
        current := current[symbol := BeginWeighted(start, t)];
        ticks := ticks[symbol := [t]];
        return Returned(Some(done));
      }
      current := current[symbol := ExtendWeighted(bar, t)];
      return Returned(None);
    }
  }
}
