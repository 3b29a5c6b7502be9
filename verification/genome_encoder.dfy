/** The rule evaluator of genome/genome_encoder.py. */
module GenomeEncoders {
  // A missing value makes everything above it missing; a tree that is not correctly typed can raise. Keys of the
  // context are kept in parts instead of being formatted into one string.

  import opened RuleTrees

  datatype Key =
    | Plain(kind: NodeType)
    | WithPeriod(kind: NodeType, period: Param)
    | WithSymbol(kind: NodeType, symbol: string, period: Param)
    | WithSource(source: Param)

  type Context = map<Key, real>

  datatype Value = Flag(flag: bool) | Number(number: real)

  /** What `_evaluate_node` does: an exception, `None`, or a value. */
  datatype Outcome = Raised | Absent | Got(value: Value)

  /** Python's `bool(v)`. */
  predicate Truth(v: Value) {
    match v
    case Flag(b) => b
    case Number(r) => r != 0.0
  }

  /** Python's `float(v)`. */
  function AsFloat(v: Value): real {
    match v
    case Flag(b) => if b then 1.0 else 0.0
    case Number(r) => r
  }

  function Replace(s: string, a: char, b: char): string {
    if s == [] then [] else [if s[0] == a then b else s[0]] + Replace(s[1..], a, b)
  }

  function ParamOr(params: map<string, Param>, name: string, default: Param): Param {
    if name in params then params[name] else default
  }

  function Get(ctx: Context, key: Key): Outcome {
    if key in ctx then Got(Number(ctx[key])) else Absent
  }

  /** The value nodes: a constant, or a look-up in the context. */
  function EvalLeaf(g: Gene, ctx: Context): Outcome {
    match g.kind
    case CONSTANT => Got(Number(g.value))
    case Indicator(_) => Get(ctx, WithPeriod(g.kind, ParamOr(g.params, "period", Whole(14))))
    case Asset(CORRELATION) => EvalPair(g, ctx)
    case Asset(BETA) => EvalPair(g, ctx)
    case Asset(SENTIMENT) => Get(ctx, WithSource(ParamOr(g.params, "source", Text("news"))))
    case _ => Get(ctx, Plain(g.kind))
  }

  /** `symbol.replace("/", "_")` raises on what is not a string. */
  function EvalPair(g: Gene, ctx: Context): Outcome {
    var symbol := ParamOr(g.params, "symbol", Text("BTC/USDT"));
    if !symbol.Text? then Raised
    else Get(ctx, WithSymbol(g.kind, Replace(symbol.text, '/', '_'), ParamOr(g.params, "period", Whole(30))))
  }

  predicate Compares(op: CompareOp, l: real, r: real) {
    match op
    case GT => l > r
    case LT => l < r
    case GTE => l >= r
    case LTE => l <= r
    case _ => -0.0000000001 < l - r < 0.0000000001
  }

  predicate Joins(op: LogicOp, l: bool, r: bool) {
    if op == AND then l && r else l || r
  }

  predicate Crosses(kind: NodeType) {
    kind == Compare(CROSS_ABOVE) || kind == Compare(CROSS_BELOW)
  }

  /** The child at `i`, or `None` where there is none. */
  function EvalChild(t: Tree, i: nat, ctx: Context): Outcome
    decreases t, 0
  {
    if i < |t.children| then Eval(t.children[i], ctx) else Absent
  }

  /** `_evaluate_node`, with all its branches; it raises where `children[0]` is missing under AND and OR. */
  function Eval(t: Tree, ctx: Context): Outcome
    decreases t, 1
  {
    match t.gene.kind
    case Logic(NOT) =>
      (match EvalChild(t, 0, ctx)
       case Raised => Raised
       case Absent => Absent
       case Got(v) => Got(Flag(!Truth(v))))
    case Logic(op) =>
      if t.children == [] then Raised
      else
        var l, r := EvalChild(t, 0, ctx), EvalChild(t, 1, ctx);
        if l.Raised? || r.Raised? then Raised
        else if l.Absent? || r.Absent? then Absent
        else Got(Flag(Joins(op, Truth(l.value), Truth(r.value))))
    case Compare(op) =>
      if Crosses(t.gene.kind) then Absent
      else
        var l, r := EvalChild(t, 0, ctx), EvalChild(t, 1, ctx);
        if l.Raised? || r.Raised? then Raised
        else if l.Absent? || r.Absent? then Absent
        else Got(Flag(Compares(op, AsFloat(l.value), AsFloat(r.value))))
    case _ => EvalLeaf(t.gene, ctx)
  }

  // ---------- typed rules ----------

  /** Nodes that have no value: crosses, which are not implemented, and leaves the context does not know. */
  predicate Stuck(t: Tree, ctx: Context) {
    if t.gene.kind.Compare? || t.gene.kind.Logic? then Crosses(t.gene.kind) else EvalLeaf(t.gene, ctx).Absent?
  }

  predicate AnyStuck(ts: seq<Tree>, ctx: Context) {
    exists i :: 0 <= i < |ts| && Stuck(ts[i], ctx)
  }

  /** No look-up raises. */
  predicate Clean(ts: seq<Tree>, ctx: Context) {
    forall i :: 0 <= i < |ts| && !ts[i].gene.kind.Compare? && !ts[i].gene.kind.Logic? ==>
      !EvalLeaf(ts[i].gene, ctx).Raised?
  }

  function LeafValue(t: Tree, ctx: Context): real {
    var v := EvalLeaf(t.gene, ctx);
    if v.Got? then AsFloat(v.value) else 0.0
  }

  function Abs(x: real): real { if x >= 0.0 then x else -x }

  /** What a comparison says of the excess of its left number over its right one. */
  predicate Says(op: CompareOp, excess: real) {
    match op
    case GT => 0.0 < excess
    case GTE => !(excess < 0.0)
    case LT => excess < 0.0
    case LTE => !(0.0 < excess)
    case _ => Abs(excess) < 0.0000000001
  }

  /** What a typed rule says when every node has a value: plain logic over comparisons of numbers. */
  predicate Holds(t: Tree, ctx: Context)
    requires BoolTree(t)
    decreases t
  {
    match t.gene.kind
    case Logic(NOT) => !Holds(t.children[0], ctx)
    case Logic(AND) => Holds(t.children[0], ctx) && Holds(t.children[1], ctx)
    case Logic(OR) => Holds(t.children[0], ctx) || Holds(t.children[1], ctx)
    case Compare(op) => Says(op, LeafValue(t.children[0], ctx) - LeafValue(t.children[1], ctx))
  }

  lemma StuckAppend(a: seq<Tree>, b: seq<Tree>, ctx: Context)
    ensures AnyStuck(a + b, ctx) <==> AnyStuck(a, ctx) || AnyStuck(b, ctx)
    ensures Clean(a + b, ctx) <==> Clean(a, ctx) && Clean(b, ctx)
  {
    hide Stuck, EvalLeaf;
    var c := a + b;
    assert forall i :: 0 <= i < |a| ==> c[i] == a[i];
    assert forall i :: 0 <= i < |b| ==> c[|a| + i] == b[i];
    if AnyStuck(a, ctx) {
      var i :| 0 <= i < |a| && Stuck(a[i], ctx);
      assert Stuck(c[i], ctx);
    }
    if AnyStuck(b, ctx) {
      var i :| 0 <= i < |b| && Stuck(b[i], ctx);
      assert Stuck(c[|a| + i], ctx);
    }
  }

  lemma StuckOne(t: Tree, ctx: Context)
    ensures AnyStuck([t], ctx) <==> Stuck(t, ctx)
    ensures Clean([t], ctx) <==> t.gene.kind.Compare? || t.gene.kind.Logic? || !EvalLeaf(t.gene, ctx).Raised?
  {
    hide Stuck, EvalLeaf;
    if Stuck(t, ctx) {
      assert Stuck([t][0], ctx);
    }
    if Clean([t], ctx) {
      assert [t][0] == t;
    }
  }

  /** On a correctly typed rule the evaluator never raises for want of a child and never sees a value of the wrong type:
      it returns `None` exactly when some node of the tree is stuck, and otherwise what the rule says. */
  lemma {:induction false} EvalTheorem(t: Tree, ctx: Context)
    requires BoolTree(t) && Clean(Collect(t), ctx)
    ensures Eval(t, ctx) == if AnyStuck(Collect(t), ctx) then Absent else Got(Flag(Holds(t, ctx)))
    decreases t
  {
    hide Stuck, AnyStuck, Clean, Collect, EvalLeaf, Compares;
    StuckOne(t, ctx);
    if |t.children| == 1 {
      CollectOne(t);
      StuckAppend([t], Collect(t.children[0]), ctx);
      EvalTheorem(t.children[0], ctx);
      NotStuck(t, ctx);
    } else {
      CollectTwo(t);
      StuckAppend([t] + Collect(t.children[0]), Collect(t.children[1]), ctx);
      StuckAppend([t], Collect(t.children[0]), ctx);
      if t.gene.kind.Logic? {
        EvalTheorem(t.children[0], ctx);
        EvalTheorem(t.children[1], ctx);
        NotStuck(t, ctx);
      } else {
        EvalComparison(t, ctx);
      }
    }
  }

  lemma NotStuck(t: Tree, ctx: Context)
    requires t.gene.kind.Logic?
    ensures !Stuck(t, ctx)
  {
  }

  lemma LeafOutcome(t: Tree, ctx: Context)
    requires ValueTree(t)
    ensures Eval(t, ctx) == EvalLeaf(t.gene, ctx)
    ensures AnyStuck(Collect(t), ctx) <==> EvalLeaf(t.gene, ctx).Absent?
    ensures Clean(Collect(t), ctx) <==> !EvalLeaf(t.gene, ctx).Raised?
  {
    hide EvalLeaf, AnyStuck, Clean, Collect;
    CollectLeaf(t);
    StuckOne(t, ctx);
  }

  lemma EvalComparison(t: Tree, ctx: Context)
    requires BoolTree(t) && t.gene.kind.Compare?
    requires Clean(Collect(t.children[0]), ctx) && Clean(Collect(t.children[1]), ctx)
    ensures
      var stuck := Stuck(t, ctx) || AnyStuck(Collect(t.children[0]), ctx) || AnyStuck(Collect(t.children[1]), ctx);
      Eval(t, ctx) == if stuck then Absent else Got(Flag(Holds(t, ctx)))
  {
    hide EvalLeaf, AnyStuck, Clean, Collect;
    LeafOutcome(t.children[0], ctx);
    LeafOutcome(t.children[1], ctx);
  }

  /** Rules the generators grow never raise, whatever the context holds. */
  lemma {:induction false} GrownIsClean(t: Tree, ctx: Context)
    requires Grown(t)
    ensures Clean(Collect(t), ctx)
    decreases t
  {
    hide Clean, Collect, EvalLeaf;
    StuckOne(t, ctx);
    if |t.children| == 1 {
      CollectOne(t);
      StuckAppend([t], Collect(t.children[0]), ctx);
      GrownIsClean(t.children[0], ctx);
    } else {
      CollectTwo(t);
      StuckAppend([t] + Collect(t.children[0]), Collect(t.children[1]), ctx);
      StuckAppend([t], Collect(t.children[0]), ctx);
      if t.gene.kind.Logic? {
        GrownIsClean(t.children[0], ctx);
        GrownIsClean(t.children[1], ctx);
      } else {
        DrawnIsClean(t.children[0], ctx);
        DrawnIsClean(t.children[1], ctx);
      }
    }
  }

  lemma DrawnIsClean(t: Tree, ctx: Context)
    requires ValueTree(t) && Drawn(t.gene.kind)
    ensures Clean(Collect(t), ctx)
  {
    assert !EvalLeaf(t.gene, ctx).Raised?;
    hide EvalLeaf;
    LeafOutcome(t, ctx);
  }

  /** So a grown rule gives a boolean or `None`, and `None` exactly when some node is stuck. */
  lemma GrownRules(t: Tree, ctx: Context)
    requires Grown(t)
    ensures BoolTree(t) && Eval(t, ctx) == if AnyStuck(Collect(t), ctx) then Absent else Got(Flag(Holds(t, ctx)))
  {
    hide *;
    GrownIsTyped(t);
    GrownIsClean(t, ctx);
    EvalTheorem(t, ctx);
  }

  // ---------- what leaves read ----------

  function WithParam(g: Gene, name: string, p: Param): Gene { g.(params := g.params[name := p]) }

  /** A leaf that lacks a parameter reads what it would read with the usual one. */
  lemma UsualParams(g: Gene, ctx: Context)
    ensures g.kind.Indicator? && "period" !in g.params ==>
              EvalLeaf(g, ctx) == EvalLeaf(WithParam(g, "period", Whole(14)), ctx)
    ensures g.kind in {Asset(CORRELATION), Asset(BETA)} && "period" !in g.params ==>
              EvalLeaf(g, ctx) == EvalLeaf(WithParam(g, "period", Whole(30)), ctx)
    ensures g.kind in {Asset(CORRELATION), Asset(BETA)} && "symbol" !in g.params ==>
              EvalLeaf(g, ctx) == EvalLeaf(WithParam(g, "symbol", Text("BTC/USDT")), ctx)
    ensures g.kind == Asset(SENTIMENT) && "source" !in g.params ==>
              EvalLeaf(g, ctx) == EvalLeaf(WithParam(g, "source", Text("news")), ctx)
  {
    hide Replace;
  }

  /** The parameters a leaf looks at. */
  predicate Looks(kind: NodeType, name: string) {
    || (name == "period" && (kind.Indicator? || kind in {Asset(CORRELATION), Asset(BETA)}))
    || (name == "symbol" && kind in {Asset(CORRELATION), Asset(BETA)})
    || (name == "source" && kind == Asset(SENTIMENT))
  }

  /** Two names that are one to the context: equal but for slashes in the place of underscores. */
  predicate SameName(a: string, b: string) {
    |a| == |b| && forall i :: 0 <= i < |a| ==> a[i] == b[i] || (a[i] in "/_" && b[i] in "/_")
  }

  lemma {:induction false} ReplaceChars(s: string)
    ensures |Replace(s, '/', '_')| == |s|
    ensures forall i :: 0 <= i < |s| ==> Replace(s, '/', '_')[i] == if s[i] == '/' then '_' else s[i]
  {
    if s != [] {
      ReplaceChars(s[1..]);
    }
  }

  lemma SameNameIff(a: string, b: string)
    ensures Replace(a, '/', '_') == Replace(b, '/', '_') <==> SameName(a, b)
  {
    ReplaceChars(a);
    ReplaceChars(b);
    var x, y := Replace(a, '/', '_'), Replace(b, '/', '_');
    hide Replace;
    if x == y {
      forall i | 0 <= i < |a| ensures a[i] == b[i] || (a[i] in "/_" && b[i] in "/_") {
        assert x[i] == y[i];
      }
    }
  }

  lemma SameKeys(g: Gene, h: Gene)
    requires forall ctx :: EvalLeaf(g, ctx) == EvalLeaf(h, ctx) && !EvalLeaf(g, ctx).Raised?
    requires g.kind != CONSTANT && !g.kind.Logic? && !g.kind.Compare? && !h.kind.Logic? && !h.kind.Compare?
    ensures KeyOf(g) == KeyOf(h)
  {
    hide Replace;
    var empty: Context := map[];
    assert EvalLeaf(g, empty) == EvalLeaf(h, empty) && !EvalLeaf(g, empty).Raised?;
    var ctx: Context := map[KeyOf(g) := 0.0];
    assert EvalLeaf(g, ctx) == EvalLeaf(h, ctx);
    LeafFinds(g, ctx);
    LeafFinds(h, ctx);
  }

  /** No leaf reads the entry of another: two leaves that have the same outcome in every context are of one kind, and
      agree in every parameter that this kind looks at, symbols up to slashes. */
  lemma LeavesAreApart(g: Gene, h: Gene, name: string)
    requires forall ctx :: EvalLeaf(g, ctx) == EvalLeaf(h, ctx) && !EvalLeaf(g, ctx).Raised?
    requires g.kind != CONSTANT && !g.kind.Logic? && !g.kind.Compare? && !h.kind.Logic? && !h.kind.Compare?
    requires Looks(g.kind, name) ==> name in g.params && name in h.params
    ensures g.kind == h.kind
    ensures Looks(g.kind, name) ==>
              || g.params[name] == h.params[name]
              || (name == "symbol" && g.params[name].Text? && h.params[name].Text?
                  && SameName(g.params[name].text, h.params[name].text))
  {
    SameKeys(g, h);
    LeafFinds(g, map[]);
    LeafFinds(h, map[]);
    hide EvalLeaf;
    KeyTells(g, h, name);
  }

  lemma KeyTells(g: Gene, h: Gene, name: string)
    requires KeyOf(g) == KeyOf(h) && !g.kind.Logic? && !g.kind.Compare? && !h.kind.Logic? && !h.kind.Compare?
    requires Looks(g.kind, name) ==> name in g.params && name in h.params
    requires g.kind in {Asset(CORRELATION), Asset(BETA)} && name == "symbol" ==>
               g.params[name].Text? && h.params[name].Text?
    ensures g.kind == h.kind
    ensures Looks(g.kind, name) ==>
              || g.params[name] == h.params[name]
              || (name == "symbol" && SameName(g.params[name].text, h.params[name].text))
  {
    hide Replace, SameName;
    if Looks(g.kind, name) && name == "symbol" {
      SameNameIff(g.params[name].text, h.params[name].text);
    }
  }

  /** The key of a leaf that does not raise. */
  function KeyOf(g: Gene): Key {
    match g.kind
    case Indicator(_) => WithPeriod(g.kind, ParamOr(g.params, "period", Whole(14)))
    case Asset(SENTIMENT) => WithSource(ParamOr(g.params, "source", Text("news")))
    case Asset(CORRELATION) => PairKey(g)
    case Asset(BETA) => PairKey(g)
    case _ => Plain(g.kind)
  }

  function PairKey(g: Gene): Key {
    var symbol := ParamOr(g.params, "symbol", Text("BTC/USDT"));
    WithSymbol(g.kind, if symbol.Text? then Replace(symbol.text, '/', '_') else "",
               ParamOr(g.params, "period", Whole(30)))
  }

  /** A look-up raises exactly where a pair's symbol is not text, and otherwise gives what the context holds. */
  lemma LeafFinds(g: Gene, ctx: Context)
    requires !g.kind.Logic? && !g.kind.Compare?
    ensures EvalLeaf(g, ctx).Raised? <==>
              g.kind in {Asset(CORRELATION), Asset(BETA)} && "symbol" in g.params && !g.params["symbol"].Text?
    ensures g.kind == CONSTANT ==> EvalLeaf(g, ctx) == Got(Number(g.value))
    ensures g.kind != CONSTANT && !EvalLeaf(g, ctx).Raised? ==>
              EvalLeaf(g, ctx) == if KeyOf(g) in ctx then Got(Number(ctx[KeyOf(g)])) else Absent
  {
    hide Replace;
  }

  // ---------- comparisons and ill-typed trees ----------

  function Leaf(x: real): Tree { Tree(Id(""), Gene(CONSTANT, x, map[]), []) }

  function Node(kind: NodeType, children: seq<Tree>): Tree { Tree(Id(""), Gene(kind, 0.0, map[]), children) }

  /** What the evaluator makes of a comparison of two numbers. */
  predicate Compared(op: CompareOp, l: real, r: real) {
    Eval(Node(Compare(op), [Leaf(l), Leaf(r)]), map[]) == Got(Flag(true))
  }

  lemma ComparedIs(op: CompareOp, l: real, r: real)
    ensures Compared(op, l, r) <==> !Crosses(Compare(op)) && Compares(op, l, r)
  {
    var t, ctx: Context := Node(Compare(op), [Leaf(l), Leaf(r)]), map[];
    assert t.children[0] == Leaf(l) && t.children[1] == Leaf(r);
    LeafGives(l, ctx);
    LeafGives(r, ctx);
    hide Compares, Leaf;
    assert EvalChild(t, 0, ctx) == Got(Number(l)) && EvalChild(t, 1, ctx) == Got(Number(r));
    assert Eval(t, ctx) == if Crosses(Compare(op)) then Absent else Got(Flag(Compares(op, l, r)));
  }

  lemma LeafGives(x: real, ctx: Context)
    ensures Eval(Leaf(x), ctx) == Got(Number(x))
  {
  }

  /** Comparisons are those of an order: a greater left number makes GT and GTE true where it changes them at all, and
      LT and LTE false; GTE denies LT and LTE denies GT; turning both numbers round turns GT into LT; and a number is
      equal to those nearer than a tenth of a billionth. */
  lemma ComparisonLaws(l: real, r: real, more: real)
    requires l <= more
    ensures (Compared(GT, l, r) ==> Compared(GT, more, r)) && (Compared(GTE, l, r) ==> Compared(GTE, more, r))
    ensures (Compared(LT, more, r) ==> Compared(LT, l, r)) && (Compared(LTE, more, r) ==> Compared(LTE, l, r))
    ensures (Compared(GTE, l, r) <==> !Compared(LT, l, r)) && (Compared(LTE, l, r) <==> !Compared(GT, l, r))
    ensures (Compared(GT, l, r) <==> Compared(LT, r, l)) && (l < more ==> Compared(GT, more, l))
    ensures !Compared(GT, l, l) && !Compared(LT, l, l)
    ensures Compared(EQ, l, r) <==> Abs(l - r) < 0.0000000001
    ensures !Compared(CROSS_ABOVE, l, r) && !Compared(CROSS_BELOW, l, r)
  {
    AllCompared(l, r);
    AllCompared(more, r);
    AllCompared(r, l);
    AllCompared(more, l);
    AllCompared(l, l);
    hide Compared;
  }

  lemma AllCompared(l: real, r: real)
    ensures Compared(GT, l, r) <==> l > r
    ensures Compared(LT, l, r) <==> l < r
    ensures Compared(GTE, l, r) <==> l >= r
    ensures Compared(LTE, l, r) <==> l <= r
    ensures Compared(EQ, l, r) <==> Abs(l - r) < 0.0000000001
    ensures !Compared(CROSS_ABOVE, l, r) && !Compared(CROSS_BELOW, l, r)
  {
    hide Compared;
    ComparedIs(GT, l, r);
    ComparedIs(LT, l, r);
    ComparedIs(GTE, l, r);
    ComparedIs(LTE, l, r);
    ComparedIs(EQ, l, r);
    ComparedIs(CROSS_ABOVE, l, r);
    ComparedIs(CROSS_BELOW, l, r);
  }

  /** Where a tree is not correctly typed, a number counts as true unless it is zero, and a verdict counts as one or
      zero. */
  lemma Coercions(x: real, ctx: Context)
    ensures Eval(Node(Logic(NOT), [Leaf(x)]), ctx) == Got(Flag(x == 0.0))
    ensures Eval(Node(Compare(EQ), [Node(Logic(NOT), [Leaf(x)]), Leaf(if x == 0.0 then 1.0 else 0.0)]), ctx)
         == Got(Flag(true))
  {
    var t, one := Node(Logic(NOT), [Leaf(x)]), Leaf(if x == 0.0 then 1.0 else 0.0);
    assert t.children[0] == Leaf(x);
    LeafGives(x, ctx);
    LeafGives(if x == 0.0 then 1.0 else 0.0, ctx);
    hide Leaf;
    assert Eval(t, ctx) == Got(Flag(x == 0.0));
    var u := Node(Compare(EQ), [t, one]);
    assert u.children[0] == t && u.children[1] == one;
  }

  /** A junction without children raises; any other operator that lacks an operand has no value. */
  lemma MissingOperands(kind: NodeType, t: Tree, ctx: Context)
    requires kind.Logic? || kind.Compare?
    ensures Eval(Node(kind, []), ctx) == if kind in {Logic(AND), Logic(OR)} then Raised else Absent
    ensures kind != Logic(NOT) && !Eval(t, ctx).Raised? ==> Eval(Node(kind, [t]), ctx) == Absent
  {
    var one := Node(kind, [t]);
    assert one.children[0] == t && |one.children| == 1;
  }
}
