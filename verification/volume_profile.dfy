/** The volume profile of data/trade_aggregator.py: bars dropped into price bins, and the value area, the bins that
    together hold 70% of the volume. `argsort` leaves the order of equal bins open, so that order is a parameter. */
module VolumeProfiles {

  datatype Bar = Bar(open: real, high: real, low: real, close: real, volume: real)

  // ---------- sums over bins ----------

  function Sum(v: seq<real>): real
    decreases |v|
  {
    if v == [] then 0.0 else Sum(v[..|v| - 1]) + v[|v| - 1]
  }

  /** The volume in a collection of bins. */
  function VolumeOf(v: seq<real>, bins: seq<nat>): real
    requires forall i :: 0 <= i < |bins| ==> bins[i] < |v|
    decreases |bins|
  {
    if bins == [] then 0.0 else VolumeOf(v, bins[..|bins| - 1]) + v[bins[|bins| - 1]]
  }

  function BarVolume(bars: seq<Bar>): real
    decreases |bars|
  {
    if bars == [] then 0.0 else BarVolume(bars[..|bars| - 1]) + bars[|bars| - 1].volume
  }

  predicate Distinct(s: seq<nat>) {
    forall i, j :: 0 <= i < j < |s| ==> s[i] != s[j]
  }

  /** A possible outcome of `argsort(v)[::-1]`. */
  predicate Descends(v: seq<real>, order: seq<nat>) {
    && |order| == |v| && Distinct(order)
    && (forall i :: 0 <= i < |order| ==> order[i] < |v|)
    && (forall i, j :: 0 <= i < j < |order| ==> v[order[i]] >= v[order[j]])
  }

  // ---------- binning ----------

  /** Edge `k` of the `n` bins between `min` and `max`. */
  function Edge(min: real, max: real, n: nat, k: nat): real
    requires n > 0
  {
    min + k as real * ((max - min) / n as real)
  }

  /** How many of the first `k` edges do not exceed `x`. */
  function EdgesBelow(x: real, min: real, max: real, n: nat, k: nat): nat
    requires n > 0
  {
    if k == 0 then 0
    else EdgesBelow(x, min, max, n, k - 1) + if Edge(min, max, n, k - 1) <= x then 1 else 0
  }

  /** `digitize(x, bins) - 1`, clamped to the bins there are. */
  function BinOf(x: real, min: real, max: real, n: nat): (b: nat)
    requires n > 0
    ensures b < n
  {
    var raw := EdgesBelow(x, min, max, n, n + 1) - 1;
    var capped := if raw < n - 1 then raw else n - 1;
    if capped > 0 then capped else 0
  }

  lemma {:induction false} SumUpdate(v: seq<real>, i: nat, x: real)
    requires i < |v|
    ensures Sum(v[i := x]) == Sum(v) - v[i] + x
    decreases |v|
  {
    var n := |v| - 1;
    if i == n {
      assert v[i := x][..n] == v[..n];
    } else {
      assert v[i := x][..n] == v[..n][i := x];
      SumUpdate(v[..n], i, x);
    }
  }

  lemma {:induction false} SumZeros(v: seq<real>)
    requires forall i :: 0 <= i < |v| ==> v[i] == 0.0
    ensures Sum(v) == 0.0
    decreases |v|
  {
    if v != [] {
      SumZeros(v[..|v| - 1]);
    }
  }

  lemma {:induction false} SumAdd(a: seq<real>, b: seq<real>, c: seq<real>)
    requires |a| == |b| == |c| && forall i :: 0 <= i < |a| ==> c[i] == a[i] + b[i]
    ensures Sum(c) == Sum(a) + Sum(b)
    decreases |a|
  {
    if a != [] {
      var n := |a| - 1;
      SumAdd(a[..n], b[..n], c[..n]);
    }
  }

  method AddTo(a: array<real>, b: nat, x: real)
    requires b < a.Length
    modifies a
    ensures a[..] == old(a[..])[b := old(a[b]) + x]
    ensures Sum(a[..]) == Sum(old(a[..])) + x
  {
    SumUpdate(a[..], b, a[b] + x);
    a[b] := a[b] + x;
    assert a[..] == old(a[..])[b := old(a[b]) + x];
  }

  lemma BarVolumeNext(bars: seq<Bar>, i: nat)
    requires i < |bars|
    ensures BarVolume(bars[..i + 1]) == BarVolume(bars[..i]) + bars[i].volume
  {
    assert bars[..i + 1][..i] == bars[..i];
  }

  /** The volume of the bars that close in bin `k`, those that closed up or the others. */
  function SideVolume(bars: seq<Bar>, min: real, max: real, n: nat, k: nat, up: bool): real
    requires n > 0
    decreases |bars|
  {
    if bars == [] then 0.0
    else
      var bar := bars[|bars| - 1];
      SideVolume(bars[..|bars| - 1], min, max, n, k, up)
      + if BinOf(bar.close, min, max, n) == k && (bar.close > bar.open) == up then bar.volume else 0.0
  }

  lemma SideVolumeNext(bars: seq<Bar>, i: nat, min: real, max: real, n: nat, k: nat, up: bool)
    requires i < |bars| && n > 0
    ensures SideVolume(bars[..i + 1], min, max, n, k, up) == SideVolume(bars[..i], min, max, n, k, up)
      + if BinOf(bars[i].close, min, max, n) == k && (bars[i].close > bars[i].open) == up then bars[i].volume else 0.0
  {
    assert bars[..i + 1][..i] == bars[..i];
  }

  /** Every bin holds its volume. */
  predicate SideVolumes(v: seq<real>, bars: seq<Bar>, min: real, max: real, n: nat, up: bool)
    requires n > 0
  {
    |v| == n && forall k :: 0 <= k < n ==> v[k] == SideVolume(bars, min, max, n, k, up)
  }

  lemma NoVolume(bars: seq<Bar>, v: seq<real>, min: real, max: real, n: nat)
    requires n > 0 && |v| == n && forall k :: 0 <= k < n ==> v[k] == 0.0
    ensures Sum(v) == 0.0 == BarVolume(bars[..0])
    ensures forall up :: SideVolumes(v, bars[..0], min, max, n, up)
  {
    SumZeros(v);
  }

  lemma SideVolumesNext(v: seq<real>, bars: seq<Bar>, i: nat, min: real, max: real, n: nat, up: bool)
    requires i < |bars| && n > 0 && SideVolumes(v, bars[..i], min, max, n, up)
    ensures
      var bar, b := bars[i], BinOf(bars[i].close, min, max, n);
      && |v| == n
      && SideVolumes(if (bar.close > bar.open) == up then v[b := v[b] + bar.volume] else v,
                       bars[..i + 1], min, max, n, up)
  {
    hide SideVolume, BinOf;
    forall k | 0 <= k < n
      ensures SideVolume(bars[..i + 1], min, max, n, k, up) == SideVolume(bars[..i], min, max, n, k, up)
        + if BinOf(bars[i].close, min, max, n) == k && (bars[i].close > bars[i].open) == up then bars[i].volume else 0.0
    {
      SideVolumeNext(bars, i, min, max, n, k, up);
    }
  }

  /** Drop every bar into the bin of its close, on the buy side if it closed up and on the sell side otherwise: each
      bin gets its own bars, and nothing of the volume is lost or counted twice. */
  method BinVolumes(bars: seq<Bar>, min: real, max: real, n: nat)
    returns (buys: array<real>, sells: array<real>, totals: seq<real>)
    requires n > 0
    ensures fresh(buys) && fresh(sells) && buys.Length == sells.Length == |totals| == n
    ensures forall k :: 0 <= k < n ==>
              && buys[k] == SideVolume(bars, min, max, n, k, true)
              && sells[k] == SideVolume(bars, min, max, n, k, false)
              && totals[k] == buys[k] + sells[k]
    ensures Sum(totals) == BarVolume(bars)
  {
    hide EdgesBelow, Edge, BinOf, Sum, SideVolume, BarVolume;
    buys := new real[n](_ => 0.0);
    sells := new real[n](_ => 0.0);
    NoVolume(bars, buys[..], min, max, n);
    NoVolume(bars, sells[..], min, max, n);
    var i := 0;
    while i < |bars|
      invariant i <= |bars| && buys.Length == sells.Length == n && buys != sells
      invariant Sum(buys[..]) + Sum(sells[..]) == BarVolume(bars[..i])
      invariant SideVolumes(buys[..], bars[..i], min, max, n, true)
      invariant SideVolumes(sells[..], bars[..i], min, max, n, false)
    {
      hide SideVolumes;
      var bar := bars[i];
      var b := BinOf(bar.close, min, max, n);
      BarVolumeNext(bars, i);
      SideVolumesNext(buys[..], bars, i, min, max, n, true);
      SideVolumesNext(sells[..], bars, i, min, max, n, false);
      if bar.close > bar.open {
        AddTo(buys, b, bar.volume);
      } else {
        AddTo(sells, b, bar.volume);
      }
      i := i + 1;
    }
    assert bars[..|bars|] == bars;
    ghost var bought, sold := buys[..], sells[..];
    totals := seq(n, k requires 0 <= k < n reads buys, sells => buys[k] + sells[k]);
    SumAdd(bought, sold, totals);
    forall k | 0 <= k < n
      ensures buys[k] == SideVolume(bars, min, max, n, k, true) && sells[k] == SideVolume(bars, min, max, n, k, false)
    {
      assert buys[k] == bought[k] && sells[k] == sold[k];
    }
  }

  lemma EdgeMono(min: real, max: real, n: nat, i: nat, j: nat)
    requires n > 0 && min < max && i <= j
    ensures Edge(min, max, n, i) <= Edge(min, max, n, j)
    ensures Edge(min, max, n, 0) == min && Edge(min, max, n, n) == max
  {
    var width := (max - min) / n as real;
    assert n as real * width == max - min;
    assert width > 0.0;
    assert i as real * width <= j as real * width;
  }

  /** The counted edges are exactly the ones at or below `x`. */
  lemma {:induction false} EdgesBelowIsFront(x: real, min: real, max: real, n: nat, k: nat)
    requires n > 0 && min < max
    ensures EdgesBelow(x, min, max, n, k) <= k
    ensures forall i :: 0 <= i < k ==> (Edge(min, max, n, i) <= x <==> i < EdgesBelow(x, min, max, n, k))
  {
    hide Edge;
    if k > 0 {
      EdgesBelowIsFront(x, min, max, n, k - 1);
      forall i | 0 <= i < k - 1 ensures Edge(min, max, n, i) <= Edge(min, max, n, k - 1) {
        EdgeMono(min, max, n, i, k - 1);
      }
    }
  }

  /** A price between the extremes lands between the edges of its bin; the highest belongs to the last bin. */
  lemma BinBrackets(x: real, min: real, max: real, n: nat)
    requires n > 0 && min < max && min <= x <= max
    ensures var b := BinOf(x, min, max, n);
            && Edge(min, max, n, b) <= x
            && (x < Edge(min, max, n, b + 1) || (x == max && b == n - 1))
  {
    hide Edge, EdgesBelow;
    EdgesBelowIsFront(x, min, max, n, n + 1);
    EdgeMono(min, max, n, 0, n);
    var b := BinOf(x, min, max, n);
    assert Edge(min, max, n, 0) <= x;
  }

  // ---------- the value area ----------

  /** The loop that collects bins until they hold 70%. */
  method ValueArea(v: seq<real>, order: seq<nat>) returns (chosen: seq<nat>)
    requires v != [] && Descends(v, order)
    ensures chosen != [] && chosen <= order
    ensures VolumeOf(v, chosen) >= 0.7 * Sum(v) || chosen == order
    ensures forall k :: 0 < k < |chosen| ==> VolumeOf(v, order[..k]) < 0.7 * Sum(v)
  {
    hide Sum, Distinct;
    var cumulative, total := 0.0, Sum(v);
    chosen := [];
    var i := 0;
    while i < |order|
      invariant i <= |order| && chosen == order[..i] && cumulative == VolumeOf(v, chosen)
      invariant forall k :: 0 < k <= i ==> VolumeOf(v, order[..k]) < 0.7 * total
    {
      assert order[..i + 1][..i] == order[..i];
      chosen := chosen + [order[i]];
      cumulative := cumulative + v[order[i]];
      if cumulative >= 0.7 * total {
        return;
      }
      i := i + 1;
    }
    assert order[..|order|] == order;
  }

  // ---------- minimality ----------

  function Without(s: seq<nat>, i: nat): seq<nat>
    requires i < |s|
  {
    s[..i] + s[i + 1..]
  }

  lemma {:induction false} VolumeWithout(v: seq<real>, bins: seq<nat>, i: nat)
    requires i < |bins| && forall k :: 0 <= k < |bins| ==> bins[k] < |v|
    ensures VolumeOf(v, bins) == VolumeOf(v, Without(bins, i)) + v[bins[i]]
    decreases |bins|
  {
    var n := |bins| - 1;
    if i == n {
      assert Without(bins, i) == bins[..n];
    } else {
      assert Without(bins, i)[..n - 1] == Without(bins[..n], i);
      VolumeWithout(v, bins[..n], i);
    }
  }

  /** Distinct numbers below `bound` are at most `bound` many. */
  lemma {:induction false} Pigeonhole(s: seq<nat>, bound: nat)
    requires Distinct(s) && forall i :: 0 <= i < |s| ==> s[i] < bound
    ensures |s| <= bound
    decreases bound
  {
    if s != [] {
      assert s[0] < bound;
      if i :| 0 <= i < |s| && s[i] == bound - 1 {
        Pigeonhole(Without(s, i), bound - 1);
      } else {
        Pigeonhole(s, bound - 1);
      }
    }
  }

  /** The place of each bin in the order. */
  lemma {:induction false} Ranks(order: seq<nat>, bins: seq<nat>) returns (ranks: seq<nat>)
    requires forall i :: 0 <= i < |bins| ==> bins[i] in order
    requires Distinct(bins)
    ensures |ranks| == |bins| && Distinct(ranks)
    ensures forall i :: 0 <= i < |bins| ==> ranks[i] < |order| && order[ranks[i]] == bins[i]
    decreases |bins|
  {
    if bins == [] {
      ranks := [];
    } else {
      var n := |bins| - 1;
      var before := Ranks(order, bins[..n]);
      assert bins[n] in order;
      var r :| 0 <= r < |order| && order[r] == bins[n];
      ranks := before + [r];
      forall i | 0 <= i < n ensures ranks[i] != r {
        assert order[ranks[i]] == bins[i] != bins[n];
      }
    }
  }

  /** Among `m` distinct ranks some is at least `m - 1`. */
  lemma FarRank(ranks: seq<nat>) returns (i: nat)
    requires Distinct(ranks) && ranks != []
    ensures i < |ranks| && ranks[i] >= |ranks| - 1
  {
    var m := |ranks|;
    if forall k :: 0 <= k < m ==> ranks[k] < m - 1 {
      Pigeonhole(ranks, m - 1);
    }
    i :| 0 <= i < m && ranks[i] >= m - 1;
  }

  /** No collection of as many bins holds more than the first ones in descending order. */
  lemma {:induction false} FrontIsHeaviest(v: seq<real>, order: seq<nat>, bins: seq<nat>)
    requires Descends(v, order) && Distinct(bins) && forall i :: 0 <= i < |bins| ==> bins[i] in order
    ensures |bins| <= |order| && (forall i :: 0 <= i < |bins| ==> bins[i] < |v|)
    ensures VolumeOf(v, bins) <= VolumeOf(v, order[..|bins|])
    decreases |bins|
  {
    var m := |bins|;
    var ranks := Ranks(order, bins);
    Pigeonhole(ranks, |order|);
    if m > 0 {
      var i := FarRank(ranks);
      var rest := Without(bins, i);
      WithoutKeeps(bins, i, order);
      assert v[bins[i]] <= v[order[m - 1]];
      VolumeNext(v, order, m - 1);
      VolumeWithout(v, bins, i);
      hide VolumeOf, Without, Distinct;
      FrontIsHeaviest(v, order, rest);
    }
  }

  lemma WithoutKeeps(bins: seq<nat>, i: nat, order: seq<nat>)
    requires i < |bins| && Distinct(bins) && forall k :: 0 <= k < |bins| ==> bins[k] in order
    ensures Distinct(Without(bins, i)) && |Without(bins, i)| == |bins| - 1
    ensures forall k :: 0 <= k < |bins| - 1 ==> Without(bins, i)[k] in order
  {
  }

  lemma VolumeNext(v: seq<real>, order: seq<nat>, k: nat)
    requires k < |order| && forall i :: 0 <= i < |order| ==> order[i] < |v|
    ensures VolumeOf(v, order[..k + 1]) == VolumeOf(v, order[..k]) + v[order[k]]
  {
    assert order[..k + 1][..k] == order[..k];
  }

  /** All bins of the order together hold everything. */
  lemma {:induction false} OrderHoldsAll(v: seq<real>, order: seq<nat>)
    requires |order| == |v| && Distinct(order) && forall i :: 0 <= i < |order| ==> order[i] < |v|
    ensures VolumeOf(v, order) == Sum(v)
    decreases |v|
  {
    if v != [] {
      var n := |v| - 1;
      var i := FarRank(order);
      var rest := Without(order, i);
      WithoutSmaller(order, i);
      VolumeWithout(v, order, i);
      VolumeShorter(v, rest);
      OrderHoldsAll(v[..n], rest);
    }
  }

  lemma WithoutSmaller(order: seq<nat>, i: nat)
    requires i < |order| && Distinct(order) && order[i] == |order| - 1
    requires forall k :: 0 <= k < |order| ==> order[k] < |order|
    ensures Distinct(Without(order, i)) && |Without(order, i)| == |order| - 1
    ensures forall k :: 0 <= k < |order| - 1 ==> Without(order, i)[k] < |order| - 1
  {
  }

  lemma {:induction false} VolumeShorter(v: seq<real>, bins: seq<nat>)
    requires v != [] && forall k :: 0 <= k < |bins| ==> bins[k] < |v| - 1
    ensures VolumeOf(v, bins) == VolumeOf(v[..|v| - 1], bins)
    decreases |bins|
  {
    if bins != [] {
      VolumeShorter(v, bins[..|bins| - 1]);
    }
  }

  lemma {:induction false} SumNonNegative(v: seq<real>)
    requires forall i :: 0 <= i < |v| ==> v[i] >= 0.0
    ensures Sum(v) >= 0.0
    decreases |v|
  {
    if v != [] {
      SumNonNegative(v[..|v| - 1]);
    }
  }

  /** The bins `ValueArea` can return: the shortest front of the order that holds 70%. */
  ghost predicate IsValueArea(v: seq<real>, order: seq<nat>, chosen: seq<nat>) {
    && Descends(v, order) && chosen != [] && chosen <= order
    && (VolumeOf(v, chosen) >= 0.7 * Sum(v) || chosen == order)
    && (forall k :: 0 < k < |chosen| ==> VolumeOf(v, order[..k]) < 0.7 * Sum(v))
  }

  /** A collection of distinct bins that holds 70% of the volume. */
  ghost predicate Holds(v: seq<real>, bins: seq<nat>) {
    && Distinct(bins) && (forall i :: 0 <= i < |bins| ==> bins[i] < |v|)
    && VolumeOf(v, bins) >= 0.7 * Sum(v)
  }

  /** Every bin is somewhere in the order. */
  lemma InOrder(order: seq<nat>, b: nat)
    requires Distinct(order) && (forall i :: 0 <= i < |order| ==> order[i] < |order|) && b < |order|
    ensures b in order
  {
    if b !in order {
      var more := order + [b];
      Pigeonhole(more, |order|);
    }
  }

  /** Whatever way ties are broken, the value area holds 70% of the volume, and no collection of bins that does is
      smaller, exactly when there is any volume at all. */
  lemma ValueAreaIsMinimal(v: seq<real>, order: seq<nat>, chosen: seq<nat>)
    requires IsValueArea(v, order, chosen) && forall i :: 0 <= i < |v| ==> v[i] >= 0.0
    ensures Holds(v, chosen)
    ensures (forall bins :: Holds(v, bins) ==> |chosen| <= |bins|) <==> Sum(v) > 0.0
  {
    hide Descends, Sum, VolumeOf;
    SumNonNegative(v);
    ChosenHolds(v, order, chosen);
    if Sum(v) > 0.0 {
      forall bins | Holds(v, bins) ensures |chosen| <= |bins| {
        NoneSmaller(v, order, chosen, bins);
      }
    } else {
      NoBins(v, []);
      assert Holds(v, []);
    }
  }

  lemma ChosenHolds(v: seq<real>, order: seq<nat>, chosen: seq<nat>)
    requires IsValueArea(v, order, chosen) && Sum(v) >= 0.0
    ensures Holds(v, chosen)
  {
    OrderHoldsAll(v, order);
    hide Sum, VolumeOf;
    assert forall i :: 0 <= i < |chosen| ==> chosen[i] == order[i];
  }

  lemma NoBins(v: seq<real>, bins: seq<nat>)
    requires bins == []
    ensures VolumeOf(v, bins) == 0.0
  {
  }

  lemma NoneSmaller(v: seq<real>, order: seq<nat>, chosen: seq<nat>, bins: seq<nat>)
    requires IsValueArea(v, order, chosen) && Holds(v, bins) && Sum(v) > 0.0
    ensures |chosen| <= |bins|
  {
    hide Sum, VolumeOf;
    forall i | 0 <= i < |bins| ensures bins[i] in order {
      InOrder(order, bins[i]);
    }
    FrontIsHeaviest(v, order, bins);
    if bins == [] {
      NoBins(v, bins);
    }
  }
}
