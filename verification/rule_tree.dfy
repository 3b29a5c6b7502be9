/** Rule trees (genome/rule_tree.py) as values, which is what `to_dict` gives, and their random generators. */
module RuleTrees {

  datatype Id = Id(text: string)

  datatype LogicOp = AND | OR | NOT

  datatype CompareOp = GT | LT | GTE | LTE | EQ | CROSS_ABOVE | CROSS_BELOW

  datatype IndicatorType =
    | RSI | EMA | SMA | MACD | MACD_SIGNAL | MACD_HIST | BB_UPPER | BB_LOWER | BB_MIDDLE | ATR | ADX
    | STOCH_K | STOCH_D | CCI | WILLIAMS_R | MFI | OBV | VWAP | MOMENTUM | ROC

  datatype MicroType = BOOK_IMBALANCE | SPREAD | BID_DEPTH | ASK_DEPTH | VPIN | KYLE_LAMBDA | TRADE_FLOW

  datatype AssetType = CORRELATION | BETA | SENTIMENT | ON_CHAIN | FUNDING_RATE | OPEN_INTEREST

  datatype PriceType = CLOSE | OPEN | HIGH | LOW | VOLUME

  datatype MetaType = REGIME_STATE | VOLATILITY | HOUR | DAY_OF_WEEK

  datatype NodeType =
    | Logic(logic: LogicOp)
    | Compare(compare: CompareOp)
    | CONSTANT
    | Indicator(indicator: IndicatorType)
    | Micro(micro: MicroType)
    | Asset(asset: AssetType)
    | Price(price: PriceType)
    | Meta(meta: MetaType)

  datatype Param = Whole(whole: int) | Decimal(decimal: real) | Text(text: string)

  /** What a node holds besides its id and its children. */
  datatype Gene = Gene(kind: NodeType, value: real, params: map<string, Param>)

  datatype Tree = Tree(id: Id, gene: Gene, children: seq<Tree>)

  function Max(a: nat, b: nat): nat { if a >= b then a else b }

  function Depth(t: Tree): nat
    decreases t
  {
    if t.children == [] then 0 else 1 + DepthAll(t.children)
  }

  function DepthAll(ts: seq<Tree>): nat
    decreases ts
  {
    if ts == [] then 0 else Max(Depth(ts[0]), DepthAll(ts[1..]))
  }

  function Size(t: Tree): nat
    decreases t
  {
    1 + SizeAll(t.children)
  }

  function SizeAll(ts: seq<Tree>): nat
    decreases ts
  {
    if ts == [] then 0 else Size(ts[0]) + SizeAll(ts[1..])
  }

  /** All nodes, each before its children. */
  function Collect(t: Tree): seq<Tree>
    decreases t
  {
    [t] + CollectAll(t.children)
  }

  function CollectAll(ts: seq<Tree>): seq<Tree>
    decreases ts
  {
    if ts == [] then [] else Collect(ts[0]) + CollectAll(ts[1..])
  }

  lemma CollectLeaf(t: Tree)
    requires t.children == []
    ensures Collect(t) == [t]
  {
  }

  lemma CollectOne(t: Tree)
    requires |t.children| == 1
    ensures Collect(t) == [t] + Collect(t.children[0])
  {
    var e := t.children[1..];
    assert CollectAll(e) == [];
  }

  lemma CollectTwo(t: Tree)
    requires |t.children| == 2
    ensures Collect(t) == [t] + Collect(t.children[0]) + Collect(t.children[1])
  {
    var r, e := t.children[1..], t.children[2..];
    assert CollectAll(e) == [];
    assert r[1..] == e && r[0] == t.children[1];
    assert CollectAll(r) == Collect(t.children[1]);
  }

  lemma {:induction false} CollectSize(t: Tree)
    ensures |Collect(t)| == Size(t)
    decreases t
  {
    CollectSizeAll(t.children);
  }

  lemma {:induction false} CollectSizeAll(ts: seq<Tree>)
    ensures |CollectAll(ts)| == SizeAll(ts)
    decreases ts
  {
    if ts != [] {
      CollectSize(ts[0]);
      CollectSizeAll(ts[1..]);
    }
  }

  // ---------- types ----------

  predicate ValueTree(t: Tree) {
    !t.gene.kind.Logic? && !t.gene.kind.Compare? && t.children == []
  }

  /** A correctly typed rule: logic over rules, comparisons over values. */
  predicate BoolTree(t: Tree)
    decreases t
  {
    match t.gene.kind
    case Logic(NOT) => |t.children| == 1 && BoolTree(t.children[0])
    case Logic(_) => |t.children| == 2 && BoolTree(t.children[0]) && BoolTree(t.children[1])
    case Compare(_) => |t.children| == 2 && ValueTree(t.children[0]) && ValueTree(t.children[1])
    case _ => false
  }

  // ---------- generators ----------

  method FreshId() returns (id: Id) {
    var s: string := *;
    return Id(s);
  }

  method ChooseWhole(options: seq<int>) returns (p: Param)
    requires options != []
    ensures p.Whole? && p.whole in options
  {
    var i: nat :| i < |options|;
    return Whole(options[i]);
  }

  /** `params` has exactly the key `key`, with one of the `options`. */
  predicate OneOf(params: map<string, Param>, key: string, options: seq<int>) {
    params.Keys == {key} && params[key].Whole? && params[key].whole in options
  }

  /** The parameters an indicator of each kind is made with. */
  predicate Sensible(kind: IndicatorType, params: map<string, Param>) {
    match kind
    case RSI | CCI | WILLIAMS_R | MFI => OneOf(params, "period", [7, 14, 21, 28])
    case EMA | SMA => OneOf(params, "period", [8, 12, 21, 34, 55, 100, 200])
    case ATR => OneOf(params, "period", [7, 14, 21])
    case ADX => OneOf(params, "period", [14, 21, 28])
    case STOCH_K | STOCH_D => params.Keys == {"k_period", "d_period"} && params["d_period"] == Whole(3)
                              && params["k_period"] in {Whole(9), Whole(14), Whole(21)}
    case MACD | MACD_SIGNAL | MACD_HIST =>
      params == map["fast" := Whole(12), "slow" := Whole(26), "signal" := Whole(9)]
    case BB_UPPER | BB_LOWER | BB_MIDDLE =>
      && params.Keys == {"period", "std"} && params["period"] in {Whole(14), Whole(20), Whole(30)}
      && params["std"] in {Decimal(1.5), Decimal(2.0), Decimal(2.5)}
    case MOMENTUM | ROC => OneOf(params, "period", [5, 10, 14, 20])
    case OBV | VWAP => params == map[]
  }

  method RandomIndicator() returns (t: Tree)
    ensures ValueTree(t) && t.gene.kind.Indicator?
    ensures Sensible(t.gene.kind.indicator, t.gene.params)
  {
    var kind: IndicatorType := *;
    var id := FreshId();
    var params: map<string, Param> := map[];
    match kind {
      case RSI | CCI | WILLIAMS_R | MFI =>
        var p := ChooseWhole([7, 14, 21, 28]);
        params := map["period" := p];
      case EMA | SMA =>
        var p := ChooseWhole([8, 12, 21, 34, 55, 100, 200]);
        params := map["period" := p];
      case ATR =>
        var p := ChooseWhole([7, 14, 21]);
        params := map["period" := p];
      case ADX =>
        var p := ChooseWhole([14, 21, 28]);
        params := map["period" := p];
      case STOCH_K | STOCH_D =>
        var p := ChooseWhole([9, 14, 21]);
        params := map["k_period" := p, "d_period" := Whole(3)];
      case MACD | MACD_SIGNAL | MACD_HIST =>
        params := map["fast" := Whole(12), "slow" := Whole(26), "signal" := Whole(9)];
      case BB_UPPER | BB_LOWER | BB_MIDDLE =>
        var p := ChooseWhole([14, 20, 30]);
        var std: real :| std in [1.5, 2.0, 2.5];
        params := map["period" := p, "std" := Decimal(std)];
      case MOMENTUM | ROC =>
        var p := ChooseWhole([5, 10, 14, 20]);
        params := map["period" := p];
      case OBV | VWAP =>
    }
    return Tree(id, Gene(Indicator(kind), 0.0, params), []);
  }

  /** `random.random()`. */
  method Random() returns (x: real)
    ensures 0.0 <= x < 1.0
  {
    var any: real := *;
    x := if 0.0 <= any < 1.0 then any else 0.0;
  }

  method Leaf(kind: NodeType, value: real) returns (t: Tree)
    ensures t.gene == Gene(kind, value, map[]) && t.children == []
  {
    var id := FreshId();
    return Tree(id, Gene(kind, value, map[]), []);
  }

  method RandomPrice() returns (t: Tree)
    ensures ValueTree(t) && t.gene.kind.Price?
  {
    var kind: PriceType := *;
    t := Leaf(Price(kind), 0.0);
  }

  method RandomConstant() returns (t: Tree)
    ensures ValueTree(t) && t.gene.kind == CONSTANT && -100.0 <= t.gene.value <= 100.0
  {
    var cents: int := *;
    var value := if -10000 <= cents <= 10000 then cents as real / 100.0 else 0.0;
    t := Leaf(CONSTANT, value);
  }

  /** The generators pick their leaves from these; cross-asset and meta nodes they never make. */
  predicate Drawn(kind: NodeType) {
    kind.Indicator? || kind.Price? || kind.Micro? || kind == CONSTANT
  }

  method RandomValue() returns (t: Tree)
    ensures ValueTree(t) && Drawn(t.gene.kind)
  {
    var choice := Random();
    if choice < 0.5 {
      t := RandomIndicator();
    } else if choice < 0.7 {
      t := RandomPrice();
    } else if choice < 0.85 {
      var kind: MicroType := *;
      t := Leaf(Micro(kind), 0.0);
    } else {
      t := RandomConstant();
    }
  }

  /** A correctly typed rule whose leaves are all drawn. */
  predicate Grown(t: Tree)
    decreases t
  {
    match t.gene.kind
    case Logic(NOT) => |t.children| == 1 && Grown(t.children[0])
    case Logic(_) => |t.children| == 2 && Grown(t.children[0]) && Grown(t.children[1])
    case Compare(_) =>
      && |t.children| == 2 && ValueTree(t.children[0]) && ValueTree(t.children[1])
      && Drawn(t.children[0].gene.kind) && Drawn(t.children[1].gene.kind)
    case _ => false
  }

  lemma {:induction false} GrownIsTyped(t: Tree)
    requires Grown(t)
    ensures BoolTree(t)
    decreases t
  {
    if t.gene.kind.Logic? {
      GrownIsTyped(t.children[0]);
      if t.gene.kind != Logic(NOT) {
        GrownIsTyped(t.children[1]);
      }
    }
  }

  lemma DepthOfOne(a: Tree)
    ensures DepthAll([a]) == Depth(a)
  {
    var e := [a][1..];
    assert DepthAll(e) == 0;
  }

  lemma DepthOfTwo(a: Tree, b: Tree)
    ensures DepthAll([a, b]) == Max(Depth(a), Depth(b))
  {
    assert [a, b][1..] == [b];
    DepthOfOne(b);
  }

  method RandomComparison() returns (t: Tree)
    ensures Grown(t) && t.gene.kind.Compare? && Depth(t) == 1
  {
    var kind: CompareOp := *;
    var id := FreshId();
    var left := RandomValue();
    var right := RandomValue();
    DepthOfTwo(left, right);
    return Tree(id, Gene(Compare(kind), 0.0, map[]), [left, right]);
  }

  method RandomLogical(maxDepth: int) returns (t: Tree)
    ensures Grown(t) && 1 <= Depth(t) <= if maxDepth <= 0 then 1 else maxDepth + 1
    ensures maxDepth > 0 <==> t.gene.kind.Logic?
    decreases maxDepth
  {
    if maxDepth <= 0 {
      t := RandomComparison();
      return;
    }
    var kind: LogicOp := *;
    var id := FreshId();
    if kind == NOT {
      var child := RandomComparison();
      DepthOfOne(child);
      return Tree(id, Gene(Logic(NOT), 0.0, map[]), [child]);
    }
    var left := RandomComparison();
    var right: Tree;
    var choice := Random();
    if choice < 0.5 {
      right := RandomComparison();
    } else {
      right := RandomLogical(maxDepth - 1);
    }
    DepthOfTwo(left, right);
    return Tree(id, Gene(Logic(kind), 0.0, map[]), [left, right]);
  }

  /** Any tree it makes is correctly typed and at most one level deeper than asked. */
  method RandomTree(maxDepth: int) returns (t: Tree)
    ensures Grown(t) && 1 <= Depth(t) <= if maxDepth <= 0 then 1 else maxDepth + 1
  {
    if maxDepth <= 0 {
      t := RandomComparison();
      return;
    }
    var choice := Random();
    if choice < 0.3 {
      t := RandomComparison();
    } else if choice < 0.7 {
      t := RandomLogical(maxDepth - 1);
    } else {
      var kind: LogicOp :| kind in {AND, OR};
      var id := FreshId();
      var left := RandomLogical(maxDepth - 1);
      var right := RandomLogical(maxDepth - 1);
      DepthOfTwo(left, right);
      return Tree(id, Gene(Logic(kind), 0.0, map[]), [left, right]);
    }
  }
}
