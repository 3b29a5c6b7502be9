/** The mutation operators of genome/strategy_genome.py, on `TreeNode` objects, and what each does to the typing of a
    rule. Point and node mutation write to one node anywhere in the tree; the other three rebuild the root or one of its
    children. What `random` draws is left open. */
module GenomeMutations {
  import opened RuleTrees
  import opened TreeNodes
  import opened TreeSurgery
  import Timestamps
  import Encoders = GenomeEncoders

  // ---------- on trees ----------

  /** The tree with the gene of its `k`-th node, each before its children, changed. */
  function SetGene(t: Tree, k: nat, g: Gene): Tree
    requires k < Size(t)
    decreases t
  {
    if k == 0 then t.(gene := g) else t.(children := SetGeneAll(t.children, k - 1, g))
  }

  function SetGeneAll(ts: seq<Tree>, k: nat, g: Gene): seq<Tree>
    requires k < SizeAll(ts)
    decreases ts
  {
    if k < Size(ts[0]) then [SetGene(ts[0], k, g)] + ts[1..]
    else [ts[0]] + SetGeneAll(ts[1..], k - Size(ts[0]), g)
  }

  predicate HasPeriod(kind: NodeType) {
    kind in {Indicator(RSI), Indicator(CCI), Indicator(WILLIAMS_R), Indicator(MFI), Indicator(EMA), Indicator(SMA),
             Indicator(ATR)}
  }

  /** The period of a gene; the moving averages have 20 where they name none, and the others 14. */
  function PeriodOf(g: Gene): Param {
    if "period" in g.params then g.params["period"]
    else if g.kind in {Indicator(EMA), Indicator(SMA)} then Whole(20)
    else Whole(14)
  }

  /** `x` is the whole number below `moved`, but never below two. */
  predicate WholePeriod(moved: real, x: int) {
    2 <= x && moved < x as real + 1.0 && (x > 2 ==> x as real <= moved)
  }

  /** Point mutation by the noise: a period moves by it, rounded down and kept at two or more; a constant moves by it;
      any other node stays. */
  predicate MovedBy(g: Gene, m: Gene, noise: real) {
    if HasPeriod(g.kind) then
      && "period" in m.params && m.params["period"].Whole? && !PeriodOf(g).Text?
      && WholePeriod((if PeriodOf(g).Whole? then PeriodOf(g).whole as real else PeriodOf(g).decimal) + noise,
                     m.params["period"].whole)
      && m == g.(params := g.params["period" := m.params["period"]])
    else if g.kind == CONSTANT then m == g.(value := g.value + noise)
    else m == g
  }

  /** What point mutation may make of a gene. */
  ghost predicate PointMutant(g: Gene, m: Gene) { exists noise :: MovedBy(g, m, noise) }

  /** `random.gauss` would be added to a period that is no number. */
  predicate BadPeriod(g: Gene) {
    HasPeriod(g.kind) && "period" in g.params && g.params["period"].Text?
  }

  const INEQUALITIES: set<NodeType> := {Compare(GT), Compare(LT), Compare(GTE), Compare(LTE)}

  const JUNCTIONS: set<NodeType> := {Logic(AND), Logic(OR)}

  predicate NodeMutant(g: Gene, m: Gene) {
    && m == g.(kind := m.kind)
    && (if g.kind in INEQUALITIES then m.kind in INEQUALITIES
        else if g.kind in JUNCTIONS then m.kind in JUNCTIONS
        else m.kind == g.kind)
  }

  /** The root takes over everything of its child but the id. */
  function Promoted(t: Tree, i: nat): Tree
    requires i < |t.children|
  {
    Tree(t.id, t.children[i].gene, t.children[i].children)
  }

  /** The root becomes `kind` over what it was and a new condition. */
  function Inserted(t: Tree, kind: NodeType, condition: Tree): Tree {
    Tree(t.id, t.gene.(kind := kind), [t, condition])
  }

  function Regrown(t: Tree, i: nat, g: Tree): Tree
    requires i < |t.children|
  {
    t.(children := t.children[i := g])
  }

  // ---------- typing ----------

  /** A change of label that keeps arity and sort. */
  predicate SameSort(a: NodeType, b: NodeType) {
    a == b || (a.Compare? && b.Compare?) || (a in JUNCTIONS && b in JUNCTIONS)
  }

  lemma {:induction false} SetGeneList(ts: seq<Tree>, k: nat, g: Gene)
    requires k < SizeAll(ts)
    ensures |ts| == 1 ==> k < Size(ts[0]) && SetGeneAll(ts, k, g) == [SetGene(ts[0], k, g)]
    ensures |ts| == 2 && k < Size(ts[0]) ==> SetGeneAll(ts, k, g) == [SetGene(ts[0], k, g), ts[1]]
    ensures |ts| == 2 && k >= Size(ts[0]) ==>
      && k - Size(ts[0]) < Size(ts[1])
      && SetGeneAll(ts, k, g) == [ts[0], SetGene(ts[1], k - Size(ts[0]), g)]
    decreases |ts|
  {
    hide Size, SetGene;
    if |ts| == 2 {
      var r := ts[1..];
      if k >= Size(ts[0]) {
        SetGeneList(r, k - Size(ts[0]), g);
      }
    } else if |ts| == 1 {
      var e := ts[1..];
      assert SizeAll(e) == 0;
    }
  }

  /** Changing the label of any node to one of the same sort keeps a rule correctly typed. */
  lemma {:induction false} RelabelTyping(t: Tree, k: nat, g: Gene)
    requires BoolTree(t) && k < Size(t) && k < |Collect(t)| && SameSort(Collect(t)[k].gene.kind, g.kind)
    ensures BoolTree(SetGene(t, k, g))
    decreases t
  {
    if k > 0 {
      SetGeneList(t.children, k - 1, g);
      CollectSize(t.children[0]);
      if |t.children| == 1 {
        CollectOne(t);
        RelabelTyping(t.children[0], k - 1, g);
      } else {
        CollectTwo(t);
        CollectSize(t.children[1]);
        var m := Size(t.children[0]);
        if t.gene.kind.Compare? {
          RelabelOperand(t, k, g);
        } else if k - 1 < m {
          RelabelTyping(t.children[0], k - 1, g);
        } else {
          RelabelTyping(t.children[1], k - 1 - m, g);
        }
      }
    }
  }

  lemma RelabelOperand(t: Tree, k: nat, g: Gene)
    requires BoolTree(t) && t.gene.kind.Compare? && 0 < k < Size(t)
    requires k < |Collect(t)| && SameSort(Collect(t)[k].gene.kind, g.kind)
    ensures BoolTree(SetGene(t, k, g))
  {
    CollectTwo(t);
    CollectLeaf(t.children[0]);
    CollectLeaf(t.children[1]);
    CollectSize(t.children[0]);
    CollectSize(t.children[1]);
    CollectSize(t);
    SetGeneList(t.children, k - 1, g);
    hide Collect, Size;
  }

  /** Which parts the other operators keep: insertion the id, value and parameters of the root, with all that was under
      the new junction and the condition beside it; deletion the id alone, over everything else of the child; and
      regrowth everything but that child. */
  lemma ShapesKept(t: Tree, kind: NodeType, condition: Tree, i: nat, rule: Tree)
    requires i < |t.children|
    ensures var u := Inserted(t, kind, condition);
            && u.id == t.id && u.gene.kind == kind && u.gene.value == t.gene.value && u.gene.params == t.gene.params
            && |u.children| == 2 && u.children[0] == t && u.children[1] == condition
    ensures var u := Promoted(t, i);
            u.id == t.id && u.gene == t.children[i].gene && u.children == t.children[i].children
    ensures var u := Regrown(t, i, rule);
            && u.id == t.id && u.gene == t.gene && |u.children| == |t.children| && u.children[i] == rule
            && forall j :: 0 <= j < |t.children| && j != i ==> u.children[j] == t.children[j]
  {
  }

  /** What neither touches: point mutation leaves the kind, every parameter but a period, and the value of all but a
      constant, and a new period is at least two; node mutation leaves value and parameters, and the kind within the
      inequalities, within the junctions, or as it is. */
  lemma MutantsKeep(g: Gene, m: Gene, name: string)
    ensures PointMutant(g, m) ==>
              && m.kind == g.kind && (g.kind != CONSTANT ==> m.value == g.value)
              && (name != "period" || !HasPeriod(g.kind) ==>
                    (name in m.params <==> name in g.params) && (name in g.params ==> m.params[name] == g.params[name]))
              && (HasPeriod(g.kind) ==>
                    "period" in m.params && m.params["period"].Whole? && 2 <= m.params["period"].whole)
    ensures NodeMutant(g, m) ==>
              && m.value == g.value && m.params == g.params
              && (g.kind in INEQUALITIES <==> m.kind in INEQUALITIES) && (g.kind in JUNCTIONS <==> m.kind in JUNCTIONS)
              && (g.kind !in INEQUALITIES && g.kind !in JUNCTIONS ==> m.kind == g.kind)
  {
  }

  /** A whole period moves by a whole noise, from two on; one that a gene lacks counts as 20 for the moving averages and
      as 14 for the others; and a constant moves by the noise. */
  lemma MutantMoves(g: Gene, m: Gene, shift: int)
    requires MovedBy(g, m, shift as real)
    ensures HasPeriod(g.kind) && "period" in g.params && g.params["period"].Whole? ==>
              var period := g.params["period"].whole + shift;
              m.params["period"] == Whole(if period < 2 then 2 else period)
    ensures HasPeriod(g.kind) && "period" !in g.params ==>
              var period := (if g.kind in {Indicator(EMA), Indicator(SMA)} then 20 else 14) + shift;
              m.params["period"] == Whole(if period < 2 then 2 else period)
    ensures g.kind == CONSTANT ==> m.value == g.value + shift as real
  {
  }

  /** Point and node mutation never break the typing of a rule. */
  lemma MutantsStayTyped(t: Tree, k: nat, g: Gene)
    requires BoolTree(t) && k < |Collect(t)| && k < Size(t)
    requires PointMutant(Collect(t)[k].gene, g) || NodeMutant(Collect(t)[k].gene, g)
    ensures BoolTree(SetGene(t, k, g))
  {
    RelabelTyping(t, k, g);
  }

  /** Insertion never does; the tree grows by one level and two ids become equal. */
  lemma InsertionTheorem(t: Tree, kind: NodeType, condition: Tree)
    requires BoolTree(t) && BoolTree(condition) && kind in JUNCTIONS
    ensures BoolTree(Inserted(t, kind, condition))
    ensures Depth(Inserted(t, kind, condition)) == 1 + Max(Depth(t), Depth(condition))
    ensures !UniqueIds(Inserted(t, kind, condition))
  {
    var u := Inserted(t, kind, condition);
    DepthOfTwo(t, condition);
    assert u.children[0] == t;
    assert t.id in Ids(t);
    assert IdsAll(u.children) == Ids(t) + IdsAll(u.children[1..]);
    assert Ids(u)[t.id] >= 2;
    hide IdsAll, Ids;
  }

  /** Promoting a child keeps the typing exactly at a logical root. */
  lemma DeletionIff(t: Tree, i: nat)
    requires BoolTree(t) && i < |t.children|
    ensures BoolTree(Promoted(t, i)) <==> t.gene.kind.Logic?
  {
    var c := t.children[i];
    SameTyping(c, Promoted(t, i));
    assert t.gene.kind.Logic? ==> BoolTree(c);
    assert t.gene.kind.Compare? ==> ValueTree(c);
  }

  /** What a deletion below a comparison leaves never evaluates to a boolean. */
  lemma DeletedComparison(t: Tree, i: nat, ctx: Encoders.Context)
    requires BoolTree(t) && t.gene.kind.Compare? && i < |t.children|
    ensures var v := Encoders.Eval(Promoted(t, i), ctx); v.Got? ==> v.value.Number?
  {
    assert ValueTree(t.children[i]);
    Encoders.LeafOutcome(Promoted(t, i), ctx);
  }

  lemma SameTyping(t: Tree, u: Tree)
    requires t.gene == u.gene && t.children == u.children
    ensures BoolTree(t) <==> BoolTree(u)
  {
  }

  /** So does growing a new rule in place of a child. */
  lemma SubtreeIff(t: Tree, i: nat, g: Tree)
    requires BoolTree(t) && i < |t.children| && BoolTree(g)
    ensures BoolTree(Regrown(t, i, g)) <==> t.gene.kind.Logic?
  {
  }

  // ---------- on objects ----------

  lemma {:induction false} RelabelStands(h: Skel, s: Store, k: nat, g: Gene)
    requires IsTree(h, s) && k < |Refs(h)| && k < Size(Abs(h, s)) && Refs(h)[k] in s
    ensures
      var n := Refs(h)[k];
      var u := s[n := Fields(g, s[n].children)];
      Fits(h, u) && Abs(h, u) == SetGene(Abs(h, s), k, g)
    decreases h
  {
    var n := Refs(h)[k];
    var u := s[n := Fields(g, s[n].children)];
    if k == 0 {
      assert Refs(h)[0] == h.node;
      NotAgain(h);
      FrameAll(h.kids, s, u);
    } else {
      DistinctTail(h);
      RelabelStandsAll(h.kids, s, k - 1, g);
    }
  }

  lemma NotAgain(h: Skel)
    requires Distinct(Refs(h))
    ensures h.node !in RefsAll(h.kids)
  {
    assert forall i :: 0 <= i < |RefsAll(h.kids)| ==> Refs(h)[i + 1] == RefsAll(h.kids)[i];
    assert Refs(h)[0] == h.node;
  }

  lemma DistinctTail(h: Skel)
    requires Distinct(Refs(h))
    ensures Distinct(RefsAll(h.kids)) && h.node !in RefsAll(h.kids)
  {
    NotAgain(h);
    assert forall i :: 0 <= i < |RefsAll(h.kids)| ==> Refs(h)[i + 1] == RefsAll(h.kids)[i];
  }

  lemma DistinctParts(a: seq<TreeNode>, b: seq<TreeNode>)
    requires Distinct(a + b)
    ensures Distinct(a) && Distinct(b) && forall i, j :: 0 <= i < |a| && 0 <= j < |b| ==> a[i] != b[j]
  {
    var c := a + b;
    assert forall i :: 0 <= i < |a| ==> c[i] == a[i];
    assert forall i :: 0 <= i < |b| ==> c[|a| + i] == b[i];
  }

  lemma {:induction false} RefsSize(h: Skel, s: Store)
    requires Fits(h, s)
    ensures |Refs(h)| == Size(Abs(h, s))
  {
    CollectedStands(h, s);
    CollectSize(Abs(h, s));
  }

  lemma {:induction false} RelabelStandsAll(hs: seq<Skel>, s: Store, k: nat, g: Gene)
    requires FitsAll(hs, s) && Distinct(RefsAll(hs)) && k < |RefsAll(hs)| && k < SizeAll(AbsAll(hs, s))
    requires RefsAll(hs)[k] in s
    ensures
      var n := RefsAll(hs)[k];
      var u := s[n := Fields(g, s[n].children)];
      FitsAll(hs, u) && AbsAll(hs, u) == SetGeneAll(AbsAll(hs, s), k, g)
    decreases hs
  {
    var n := RefsAll(hs)[k];
    var u := s[n := Fields(g, s[n].children)];
    DistinctParts(Refs(hs[0]), RefsAll(hs[1..]));
    RefsSize(hs[0], s);
    var m := |Refs(hs[0])|;
    if k < m {
      RelabelStands(hs[0], s, k, g);
      FrameAll(hs[1..], s, u);
    } else {
      Frame(hs[0], s, u);
      RelabelStandsAll(hs[1..], s, k - m, g);
    }
    hide Refs, Fits, Abs, Size, SetGene;
  }

  datatype Mutation =
    | Relabel(k: nat, gene: Gene)
    | Regrow(i: nat, rule: Tree)
    | Insert(kind: NodeType, condition: Tree)
    | Promote(i: nat)
    | Keep

  /** The mutations that the operators can come to on `t`. */
  ghost predicate Possible(t: Tree, m: Mutation) {
    match m
    case Relabel(k, g) =>
      && k < |Collect(t)| && k < Size(t)
      && (PointMutant(Collect(t)[k].gene, g) || NodeMutant(Collect(t)[k].gene, g))
    case Regrow(i, rule) => i < |t.children| && Grown(rule)
    case Insert(kind, condition) => kind in JUNCTIONS && Grown(condition) && Depth(condition) == 1
    case Promote(i) => i < |t.children|
    case Keep => t.children == []
  }

  function Applied(t: Tree, m: Mutation): Tree
    requires Possible(t, m)
  {
    match m
    case Relabel(k, g) => SetGene(t, k, g)
    case Regrow(i, rule) => Regrown(t, i, rule)
    case Insert(kind, condition) => Inserted(t, kind, condition)
    case Promote(i) => Promoted(t, i)
    case Keep => t
  }

  /** A mutation of a correctly typed rule gives a correctly typed rule, unless it deletes or regrows below a root that
      is a comparison: then never. */
  lemma MutationIff(t: Tree, m: Mutation)
    requires BoolTree(t) && Possible(t, m)
    ensures BoolTree(Applied(t, m)) <==> (m.Promote? || m.Regrow? ==> t.gene.kind.Logic?)
  {
    hide BoolTree, Collect, Grown, SetGene;
    match m {
      case Relabel(k, g) => MutantsStayTyped(t, k, g);
      case Regrow(i, rule) =>
        GrownIsTyped(rule);
        SubtreeIff(t, i, rule);
      case Insert(kind, condition) =>
        GrownIsTyped(condition);
        InsertionTheorem(t, kind, condition);
      case Promote(i) => DeletionIff(t, i);
      case Keep =>
    }
  }

  /** `max(2, int(period + gauss))`. */
  function NextPeriod(p: Param, noise: real): (x: int)
    requires !p.Text?
    ensures WholePeriod((if p.Whole? then p.whole as real else p.decimal) + noise, x)
  {
    var moved := Timestamps.Truncate((if p.Whole? then p.whole as real else p.decimal) + noise);
    if moved > 2 then moved else 2
  }

  lemma OneNode(h: Skel)
    ensures |Refs(h)| >= 1 && Refs(h)[0] == h.node
  {
  }

  lemma GeneOf(h: Skel, s: Store)
    requires Fits(h, s)
    ensures h.node in s && Abs(h, s).gene == s[h.node].gene && Abs(h, s).id == h.node.id
  {
  }

  lemma Choose(h: Skel, s: Store, k: nat)
    requires Fits(h, s) && k < |Refs(h)|
    ensures |Refs(h)| == Size(Abs(h, s)) == |Collect(Abs(h, s))|
    ensures Refs(h)[k] in s && Collect(Abs(h, s))[k].gene == s[Refs(h)[k]].gene && Refs(h)[k] in Objects(Refs(h))
  {
    hide Fits, Abs, Refs, Collect, Size, Skels;
    CollectedStands(h, s);
    CollectSize(Abs(h, s));
    GeneOf(Skels(h)[k], s);
  }

  /** `_point_mutate`: one node, whichever, gets another period or another value. */
  method PointMutate(tree: TreeNode, ghost h: Skel, ghost s: Store)
    returns (raised: bool, k: nat, g: Gene, noise: real, ghost u: Store)
    requires Current(s) && IsTree(h, s) && h.node == tree
    modifies Objects(Refs(h))
    ensures k < |Collect(Abs(h, s))| == Size(Abs(h, s))
    ensures raised <==> BadPeriod(Collect(Abs(h, s))[k].gene)
    ensures raised ==> Current(s)
    ensures !raised ==>
      && MovedBy(Collect(Abs(h, s))[k].gene, g, noise)
      && Current(u) && Fits(h, u) && Abs(h, u) == SetGene(Abs(h, s), k, g)
  {
    hide Fits, Abs, Refs, Collect, Size, SetGene, Distinct;
    var nodes := CollectNodes(tree, h, s);
    OneNode(h);
    k :| k < |nodes|;
    Choose(h, s, k);
    var node := nodes[k];
    noise := *;
    g := Gene(node.kind, node.value, node.params);
    if HasPeriod(g.kind) {
      var usual := if node.kind in {Indicator(EMA), Indicator(SMA)} then 20 else 14;
      var p := if "period" in node.params then node.params["period"] else Whole(usual);
      if p.Text? {
        return true, k, g, noise, s;
      }
      node.params := node.params["period" := Whole(NextPeriod(p, noise))];
    } else if g.kind == CONSTANT {
      node.value := node.value + noise;
    }
    raised, g := false, Gene(node.kind, node.value, node.params);
    RelabelStands(h, s, k, g);
    u := s[node := Fields(g, node.children)];
  }

  /** `_node_mutate`: one node, whichever, becomes another inequality or another junction if it was one. */
  method NodeMutate(tree: TreeNode, ghost h: Skel, ghost s: Store) returns (k: nat, g: Gene, ghost u: Store)
    requires Current(s) && IsTree(h, s) && h.node == tree
    modifies Objects(Refs(h))
    ensures k < |Collect(Abs(h, s))| == Size(Abs(h, s)) && NodeMutant(Collect(Abs(h, s))[k].gene, g)
    ensures Current(u) && Fits(h, u) && Abs(h, u) == SetGene(Abs(h, s), k, g)
  {
    hide Fits, Abs, Refs, Collect, Size, SetGene, Distinct;
    var nodes := CollectNodes(tree, h, s);
    OneNode(h);
    k :| k < |nodes|;
    Choose(h, s, k);
    var node := nodes[k];
    if node.kind in INEQUALITIES {
      assert Compare(GT) in INEQUALITIES;
      var kind :| kind in INEQUALITIES;
      node.kind := kind;
    } else if node.kind in JUNCTIONS {
      assert Logic(AND) in JUNCTIONS;
      var kind :| kind in JUNCTIONS;
      node.kind := kind;
    }
    g := Gene(node.kind, node.value, node.params);
    RelabelStands(h, s, k, g);
    u := s[node := Fields(g, node.children)];
  }

  lemma {:induction false} KidReplaced(hs: seq<Skel>, s: Store, i: nat, c: Skel)
    requires FitsAll(hs, s) && Fits(c, s) && i < |hs|
    ensures FitsAll(hs[i := c], s) && |Roots(hs)| == |hs| == |AbsAll(hs, s)|
    ensures Roots(hs[i := c]) == Roots(hs)[i := c.node] && AbsAll(hs[i := c], s) == AbsAll(hs, s)[i := Abs(c, s)]
    decreases |hs|
  {
    hide Fits, Abs;
    RootsAt(hs, i);
    KidAt(hs, s, i);
    var ks := hs[i := c];
    if i == 0 {
      assert ks[1..] == hs[1..];
    } else {
      assert ks[1..] == hs[1..][i - 1 := c];
      KidReplaced(hs[1..], s, i - 1, c);
    }
  }

  /** A new subtree in place of child `i` of the root. */
  lemma RegrowStands(h: Skel, s: Store, i: nat, c: Skel, sc: Store, f: Fields)
    requires IsTree(h, s) && s.Keys !! sc.Keys && Fits(c, sc) && i < |h.kids|
    requires |Roots(h.kids)| == |h.kids| && f == Fields(s[h.node].gene, Roots(h.kids)[i := c.node])
    ensures
      var k, u := Skel(h.node, h.kids[i := c]), (s + sc)[h.node := f];
      && i < |Abs(h, s).children|
      && Fits(k, u) && Abs(k, u) == Regrown(Abs(h, s), i, Abs(c, sc))
  {
    hide FitsAll, AbsAll, Roots;
    var u := (s + sc)[h.node := f];
    NotAgain(h);
    FrameAll(h.kids, s, u);
    RefsInStore(c, sc);
    Frame(c, sc, u);
    KidAt(h.kids, s, i);
    KidReplaced(h.kids, u, i, c);
  }

  /** `_subtree_mutate`: a random rule in place of some child of the root. */
  method SubtreeMutate(tree: TreeNode, strength: real, ghost h: Skel, ghost s: Store)
    returns (m: Mutation, ghost k: Skel, ghost u: Store)
    requires Current(s) && IsTree(h, s) && h.node == tree
    modifies tree
    ensures Possible(Abs(h, s), m) && (if Abs(h, s).children == [] then m.Keep? else m.Regrow?)
    ensures m.Regrow? ==> Depth(m.rule) <= 2 || (Depth(m.rule) - 1) as real <= 3.0 * strength
    ensures Current(u) && Fits(k, u) && k.node == tree && Abs(k, u) == Applied(Abs(h, s), m)
  {
    hide FitsAll, AbsAll, Roots, Depth, Grown, Distinct;
    Lengths(h, s);
    if tree.children == [] {
      return Keep, h, s;
    }
    var i: nat :| i < |tree.children|;
    var rule := RandomTree(AtLeastOne(3.0 * strength));
    var c, hc, sc := FromDict(rule);
    assert s.Keys !! sc.Keys by {
      assert forall n :: n in s ==> n !in sc;
    }
    tree.children := tree.children[i := c];
    RegrowStands(h, s, i, hc, sc, tree.State());
    m, k, u := Regrow(i, rule), Skel(tree, h.kids[i := hc]), (s + sc)[tree := tree.State()];
  }

  /** `max(1, int(x))`. */
  function AtLeastOne(x: real): (n: nat)
    ensures x < n as real + 1.0 && n >= 1 && (n == 1 || n as real <= x)
  {
    var n := Timestamps.Truncate(x);
    if n > 1 then n else 1
  }

  lemma Lengths(h: Skel, s: Store)
    requires Fits(h, s)
    ensures |s[h.node].children| == |h.kids| == |Abs(h, s).children|
    ensures forall i :: 0 <= i < |h.kids| ==> s[h.node].children[i] == h.kids[i].node
  {
    hide FitsAll, AbsAll, Roots;
    NoRoots(h.kids, s);
    if h.kids != [] {
      RootsAt(h.kids, 0);
      KidAt(h.kids, s, 0);
    }
    forall i | 0 <= i < |h.kids|
      ensures Roots(h.kids)[i] == h.kids[i].node && |Roots(h.kids)| == |h.kids|
    {
      RootsAt(h.kids, i);
    }
  }

  lemma InsertStands(n: TreeNode, a: Skel, s: Store, b: Skel, u: Store, f: Fields)
    requires Fits(a, s) && Fits(b, u) && s.Keys !! u.Keys && n !in s && n !in u
    requires f.children == [a.node, b.node]
    ensures
      var k, w := Skel(n, [a, b]), (s + u)[n := f];
      Fits(k, w) && Abs(k, w) == Tree(n.id, f.gene, [Abs(a, s), Abs(b, u)])
  {
    hide Fits, Abs;
    var w := (s + u)[n := f];
    RefsInStore(a, s);
    RefsInStore(b, u);
    Frame(a, s, w);
    Frame(b, u, w);
    TwoKids(n, a, b, w);
  }

  lemma TwoKids(n: TreeNode, a: Skel, b: Skel, w: Store)
    requires Fits(a, w) && Fits(b, w) && n in w && w[n].children == [a.node, b.node]
    ensures Fits(Skel(n, [a, b]), w) && Abs(Skel(n, [a, b]), w) == Tree(n.id, w[n].gene, [Abs(a, w), Abs(b, w)])
  {
    var two, one := [a, b], [b];
    var e := one[1..];
    assert two[1..] == one;
    assert Roots(one) == [b.node] && FitsAll(one, w) && AbsAll(one, w) == [Abs(b, w)];
    assert Roots(two) == [a.node, b.node] && FitsAll(two, w) && AbsAll(two, w) == [Abs(a, w), Abs(b, w)];
  }

  /** `_insertion_mutate`: the tree becomes a junction of a clone of itself and a new condition. */
  method InsertionMutate(tree: TreeNode, ghost h: Skel, ghost s: Store)
    returns (m: Mutation, ghost k: Skel, ghost u: Store)
    requires Current(s) && Fits(h, s) && h.node == tree
    modifies tree
    ensures Possible(Abs(h, s), m) && m.Insert?
    ensures Current(u) && Fits(k, u) && k.node == tree && Abs(k, u) == Applied(Abs(h, s), m)
  {
    hide Fits, Abs, Depth, Grown;
    GeneOf(h, s);
    assert Logic(AND) in JUNCTIONS;
    var kind :| kind in JUNCTIONS;
    var data := ToDict(tree, h, s);
    var clone, ha, sa := FromDict(data);
    var condition := RandomComparison();
    var node, hb, sb := FromDict(condition);
    assert sa.Keys !! sb.Keys by {
      assert forall n :: n in sa ==> n !in sb;
    }
    tree.kind := kind;
    tree.children := [clone, node];
    InsertStands(tree, ha, sa, hb, sb, tree.State());
    m, k, u := Insert(kind, condition), Skel(tree, [ha, hb]), (sa + sb)[tree := tree.State()];
  }

  lemma PromoteStands(h: Skel, s: Store, i: nat)
    requires IsTree(h, s) && i < |h.kids| && h.kids[i].node in s && i < |Abs(h, s).children|
    ensures
      var k, u := Skel(h.node, h.kids[i].kids), s[h.node := s[h.kids[i].node]];
      Fits(k, u) && Abs(k, u) == Promoted(Abs(h, s), i)
  {
    var u, c := s[h.node := s[h.kids[i].node]], h.kids[i];
    NotAgain(h);
    KidAt(h.kids, s, i);
    KidRefs(h.kids, i);
    FrameAll(c.kids, s, u);
    hide FitsAll, AbsAll, Roots, RefsAll;
  }

  lemma {:induction false} KidRefs(hs: seq<Skel>, i: nat)
    requires i < |hs|
    ensures forall n :: n in RefsAll(hs[i].kids) ==> n in RefsAll(hs)
    decreases |hs|
  {
    if i > 0 {
      KidRefs(hs[1..], i - 1);
    }
  }

  /** `_deletion_mutate`: the root takes over some child. */
  method DeletionMutate(tree: TreeNode, ghost h: Skel, ghost s: Store)
    returns (m: Mutation, ghost k: Skel, ghost u: Store)
    requires Current(s) && IsTree(h, s) && h.node == tree
    modifies tree
    ensures Possible(Abs(h, s), m) && (if Abs(h, s).children == [] then m.Keep? else m.Promote?)
    ensures Current(u) && Fits(k, u) && k.node == tree && Abs(k, u) == Applied(Abs(h, s), m)
  {
    hide FitsAll, AbsAll, Roots, Distinct;
    Lengths(h, s);
    if tree.children == [] {
      return Keep, h, s;
    }
    var i: nat :| i < |tree.children|;
    var child := tree.children[i];
    KidAt(h.kids, s, i);
    PromoteStands(h, s, i);
    tree.kind, tree.value, tree.params := child.kind, child.value, child.params;
    tree.children := child.children;
    m, k, u := Promote(i), Skel(tree, h.kids[i].kids), s[tree := tree.State()];
  }

  /** The tree part of `mutate_genome`: one operator, drawn with the source's odds. */
  method MutateTree(t: Tree, strength: real) returns (raised: bool, r: Tree, m: Mutation)
    ensures !raised ==> Possible(t, m) && r == Applied(t, m)
    ensures raised ==> exists i :: 0 <= i < |Collect(t)| && BadPeriod(Collect(t)[i].gene)
  {
    hide Fits, Abs, Refs, Possible, Applied, Collect, IsTree, BadPeriod;
    raised, r, m := false, t, Keep;
    var tree, h, s := FromDict(t);
    IsTreeFits(h, s);
    ghost var k, u := h, s;
    var choice := Random();
    if choice < 0.3 {
      var i, g;
      var noise;
      raised, i, g, noise, u := PointMutate(tree, h, s);
      assert !raised ==> MovedBy(Collect(Abs(h, s))[i].gene, g, noise);
      if raised {
        return;
      }
      m := Relabel(i, g);
      RelabelPossible(t, i, g);
    } else if choice < 0.5 {
      var i, g;
      i, g, u := NodeMutate(tree, h, s);
      m := Relabel(i, g);
      RelabelPossible(t, i, g);
    } else if choice < 0.7 {
      m, k, u := SubtreeMutate(tree, strength, h, s);
    } else if choice < 0.85 {
      m, k, u := InsertionMutate(tree, h, s);
    } else {
      m, k, u := DeletionMutate(tree, h, s);
    }
    r := ToDict(tree, k, u);
  }

  lemma IsTreeFits(h: Skel, s: Store)
    requires IsTree(h, s)
    ensures Fits(h, s) && h.node in s && (forall n :: n in Refs(h) ==> n in s)
  {
    RefsInStore(h, s);
  }

  lemma RelabelPossible(t: Tree, i: nat, g: Gene)
    requires i < |Collect(t)| == Size(t)
    requires PointMutant(Collect(t)[i].gene, g) || NodeMutant(Collect(t)[i].gene, g)
    ensures Possible(t, Relabel(i, g)) && Applied(t, Relabel(i, g)) == SetGene(t, i, g)
  {
  }
}
