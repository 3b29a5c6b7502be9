/** The two `_floor_timestamp` functions, of engine/data_feed.py and of data/trade_aggregator.py. Timestamps are
    seconds since the epoch, as reals; a timeframe is its length in whole seconds. One function drops the fraction
    towards zero before it rounds down, the other rounds the fraction away. */
module Timestamps {

  /** Python's `int(x)`: the fraction is dropped towards zero. */
  function Truncate(x: real): int {
    if x >= 0.0 then x.Floor else 0 - (-x).Floor
  }

  /** `_floor_timestamp` of data_feed.py, which truncates first. */
  function FeedFloor(x: real, seconds: int): int
    requires seconds > 0
  {
    Truncate(x) - Truncate(x) % seconds
  }

  /** `_floor_timestamp` of trade_aggregator.py: `x - x % seconds` on the fraction as it is. */
  function TradeFloor(x: real, seconds: int): int
    requires seconds > 0
  {
    seconds * (x / seconds as real).Floor
  }

  /** The last instants before a boundary that itself lies at or before the epoch. */
  predicate JustBeforeOldBoundary(x: real, seconds: int)
    requires seconds > 0
  {
    x < 0.0 && x.Floor as real != x && (x.Floor + 1) % seconds == 0
  }

  lemma RealMono(x: real, y: real, s: real)
    requires s > 0.0
    ensures x < y <==> x * s < y * s
  {
    assert y * s - x * s == (y - x) * s;
  }

  lemma DivideBetween(x: real, q: real, s: real)
    requires s > 0.0 && q * s <= x < q * s + s
    ensures q <= x / s < q + 1.0
  {
    var d := x / s;
    assert d * s == x;
    assert (q + 1.0) * s == q * s + s;
    RealMono(d, q, s);
    RealMono(d, q + 1.0, s);
  }

  lemma TradeFloorIsWhole(x: real, seconds: int)
    requires seconds > 0
    ensures TradeFloor(x, seconds) == x.Floor - x.Floor % seconds
  {
    var q, r := x.Floor / seconds, x.Floor % seconds;
    var m := q * seconds;
    assert x.Floor == m + r;
    assert m as real <= x < m as real + seconds as real by {
      assert x.Floor as real <= x < x.Floor as real + 1.0;
    }
    DivideBetween(x, q as real, seconds as real);
  }

  lemma NextMultiple(k: int, seconds: int)
    requires seconds > 0
    ensures (k + 1) - (k + 1) % seconds == k - k % seconds <==> (k + 1) % seconds != 0
  {
    var q, r := k / seconds, k % seconds;
    if r + 1 < seconds {
      Euclid(k + 1, q, r + 1, seconds);
    } else {
      Euclid(k + 1, q + 1, 0, seconds);
    }
  }

  lemma Euclid(k: int, q: int, r: int, s: int)
    requires s > 0 && 0 <= r < s && k == q * s + r
    ensures k / s == q && k % s == r
  {
    var d := k / s - q;
    assert d * s == r - k % s;
  }

  /** The two floors of one instant differ exactly just before a boundary not after the epoch. */
  lemma FloorsAgreeIff(x: real, seconds: int)
    requires seconds > 0
    ensures FeedFloor(x, seconds) == TradeFloor(x, seconds) <==> !JustBeforeOldBoundary(x, seconds)
  {
    TradeFloorIsWhole(x, seconds);
    NextMultiple(x.Floor, seconds);
    hide TradeFloor, Truncate;
  }

  lemma MultipleBelow(j: int, k: int, s: int)
    requires s > 0 && j <= k
    ensures j - j % s <= k - k % s <= k
  {
    var d := j / s - k / s;
    assert d * s == (j - j % s) - (k - k % s);
  }

  /** Later instants do not have an earlier floor. */
  lemma FloorsRise(x: real, y: real, seconds: int)
    requires seconds > 0 && x <= y
    ensures FeedFloor(x, seconds) <= FeedFloor(y, seconds)
    ensures TradeFloor(x, seconds) <= TradeFloor(y, seconds)
  {
    TradeFloorIsWhole(x, seconds);
    TradeFloorIsWhole(y, seconds);
    MultipleBelow(x.Floor, y.Floor, seconds);
    MultipleBelow(Truncate(x), Truncate(y), seconds);
    hide TradeFloor, Truncate;
  }
}
