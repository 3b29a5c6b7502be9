/** Subtree crossover on `TreeNode` objects in genome/strategy_genome.py. */
module StrategyGenomes {
  // One loop over a list of the nodes taken beforehand, which replaces children in place while it runs.

  import opened RuleTrees
  import opened TreeNodes
  import opened TreeSurgery

  predicate Hit(ns: seq<TreeNode>, id: Id) {
    exists i :: 0 <= i < |ns| && ns[i].id == id
  }

  /** The list with its first node of that id, if `open`, replaced by `c`. */
  function Edited(ns: seq<TreeNode>, id: Id, c: TreeNode, open: bool): seq<TreeNode> {
    if ns == [] then []
    else if open && ns[0].id == id then [c] + Edited(ns[1..], id, c, false)
    else [ns[0]] + Edited(ns[1..], id, c, open)
  }

  lemma {:induction false} EditedClosed(ns: seq<TreeNode>, id: Id, c: TreeNode)
    ensures Edited(ns, id, c, false) == ns
    decreases |ns|
  {
    if ns != [] {
      EditedClosed(ns[1..], id, c);
    }
  }

  lemma {:induction false} EditedAt(ns: seq<TreeNode>, id: Id, c: TreeNode, i: nat)
    requires i <= |ns| && forall j :: 0 <= j < i ==> ns[j].id != id
    requires i < |ns| ==> ns[i].id == id
    ensures Edited(ns, id, c, true) == if i < |ns| then ns[i := c] else ns
    decreases |ns|
  {
    if ns != [] {
      if i == 0 {
        EditedClosed(ns[1..], id, c);
      } else {
        EditedAt(ns[1..], id, c, i - 1);
      }
    }
  }

  /** Nodes of the clone that took the place of a child of `n`; `h` itself when none did. */
  ghost function CloneFor(clones: map<TreeNode, Skel>, h: Skel): Skel {
    if h.node in clones then clones[h.node] else h
  }

  ghost function Regraft(h: Skel, id: Id, clones: map<TreeNode, Skel>): Skel
    decreases h
  {
    Skel(h.node, RegraftAll(h.kids, id, clones, CloneFor(clones, h), true))
  }

  ghost function RegraftAll(hs: seq<Skel>, id: Id, clones: map<TreeNode, Skel>, c: Skel, open: bool): seq<Skel>
    decreases hs
  {
    if hs == [] then []
    else if open && hs[0].node.id == id then [c] + RegraftAll(hs[1..], id, clones, c, false)
    else [Regraft(hs[0], id, clones)] + RegraftAll(hs[1..], id, clones, c, open)
  }

  /** What the loop has done to `n` once it is past it. */
  ghost predicate Done(n: TreeNode, before: Fields, after: Fields, id: Id, clones: map<TreeNode, Skel>) {
    && after.gene == before.gene
    && (Hit(before.children, id) ==> n in clones)
    && after.children == Edited(before.children, id, if n in clones then clones[n].node else n, true)
  }

  ghost predicate AllDone(ns: seq<TreeNode>, s: Store, u: Store, id: Id, clones: map<TreeNode, Skel>) {
    forall i :: 0 <= i < |ns| ==> ns[i] in s && ns[i] in u && Done(ns[i], s[ns[i]], u[ns[i]], id, clones)
  }

  ghost predicate AreClones(clones: map<TreeNode, Skel>, u: Store, g: Tree) {
    forall n :: n in clones ==> Fits(clones[n], u) && Abs(clones[n], u) == g
  }

  lemma HitHead(n: TreeNode, ns: seq<TreeNode>, id: Id)
    ensures Hit([n] + ns, id) <==> n.id == id || Hit(ns, id)
  {
    var all := [n] + ns;
    if n.id == id {
      assert all[0].id == id;
    }
    if Hit(ns, id) {
      var i :| 0 <= i < |ns| && ns[i].id == id;
      assert all[i + 1].id == id;
    }
    if Hit(all, id) && n.id != id {
      var i :| 0 <= i < |all| && all[i].id == id;
      assert ns[i - 1].id == id;
    }
  }

  lemma AllDoneParts(a: seq<TreeNode>, b: seq<TreeNode>, s: Store, u: Store, id: Id, clones: map<TreeNode, Skel>)
    requires AllDone(a + b, s, u, id, clones)
    ensures AllDone(a, s, u, id, clones) && AllDone(b, s, u, id, clones)
  {
    hide Done;
    var c := a + b;
    assert forall i :: 0 <= i < |a| ==> c[i] == a[i];
    assert forall i :: 0 <= i < |b| ==> c[|a| + i] == b[i];
  }

  /** When the loop is done, the objects stand for the tree with every first hit grafted over. */
  lemma {:induction false} LoopGrafts(h: Skel, s: Store, u: Store, id: Id, clones: map<TreeNode, Skel>, g: Tree)
    requires Fits(h, s) && AllDone(Refs(h), s, u, id, clones) && AreClones(clones, u, g)
    ensures Fits(Regraft(h, id, clones), u) && Abs(Regraft(h, id, clones), u) == Graft(Abs(h, s), id, g)
    decreases h
  {
    hide Hit, Edited, Done, AreClones;
    AllDoneParts([h.node], RefsAll(h.kids), s, u, id, clones);
    DoneRoot(h, s, u, id, clones, g);
    LoopGraftsAll(h.kids, s, u, id, clones, CloneFor(clones, h), true, g);
  }

  lemma DoneRoot(h: Skel, s: Store, u: Store, id: Id, clones: map<TreeNode, Skel>, g: Tree)
    requires Fits(h, s) && AllDone([h.node], s, u, id, clones) && AreClones(clones, u, g)
    ensures h.node in u && u[h.node].gene == s[h.node].gene
    ensures u[h.node].children == Edited(Roots(h.kids), id, CloneFor(clones, h).node, true)
    ensures Hit(Roots(h.kids), id) ==> Fits(CloneFor(clones, h), u) && Abs(CloneFor(clones, h), u) == g
  {
    hide Hit, Edited, Abs, AbsAll;
    assert [h.node][0] == h.node;
  }

  lemma {:induction false} LoopGraftsAll(hs: seq<Skel>, s: Store, u: Store, id: Id, clones: map<TreeNode, Skel>,
                                         c: Skel, open: bool, g: Tree)
    requires FitsAll(hs, s) && AllDone(RefsAll(hs), s, u, id, clones) && AreClones(clones, u, g)
    requires open && Hit(Roots(hs), id) ==> Fits(c, u) && Abs(c, u) == g
    ensures FitsAll(RegraftAll(hs, id, clones, c, open), u)
    ensures AbsAll(RegraftAll(hs, id, clones, c, open), u) == GraftAll(AbsAll(hs, s), id, g, open)
    ensures Roots(RegraftAll(hs, id, clones, c, open)) == Edited(Roots(hs), id, c.node, open)
    decreases hs
  {
    hide Hit, Done, AllDone, AreClones, Graft, Regraft;
    if hs != [] {
      AllDoneParts(Refs(hs[0]), RefsAll(hs[1..]), s, u, id, clones);
      HitHead(hs[0].node, Roots(hs[1..]), id);
      var hit := open && hs[0].node.id == id;
      LoopGraftsAll(hs[1..], s, u, id, clones, c, open && !hit, g);
      if !hit {
        LoopGrafts(hs[0], s, u, id, clones, g);
      }
      ConsAll(hs, s, u, id, clones, c, open, g);
    }
  }

  lemma ConsAll(hs: seq<Skel>, s: Store, u: Store, id: Id, clones: map<TreeNode, Skel>, c: Skel, open: bool, g: Tree)
    requires FitsAll(hs, s) && hs != []
    requires
      var hit := open && hs[0].node.id == id;
      var rest := RegraftAll(hs[1..], id, clones, c, open && !hit);
      && FitsAll(rest, u) && AbsAll(rest, u) == GraftAll(AbsAll(hs[1..], s), id, g, open && !hit)
      && Roots(rest) == Edited(Roots(hs[1..]), id, c.node, open && !hit)
      && (hit ==> Fits(c, u) && Abs(c, u) == g)
      && (!hit ==> Fits(Regraft(hs[0], id, clones), u)
                   && Abs(Regraft(hs[0], id, clones), u) == Graft(Abs(hs[0], s), id, g))
    ensures FitsAll(RegraftAll(hs, id, clones, c, open), u)
    ensures AbsAll(RegraftAll(hs, id, clones, c, open), u) == GraftAll(AbsAll(hs, s), id, g, open)
    ensures Roots(RegraftAll(hs, id, clones, c, open)) == Edited(Roots(hs), id, c.node, open)
  {
    hide Graft, Fits;
    var hit := open && hs[0].node.id == id;
    var rest := RegraftAll(hs[1..], id, clones, c, open && !hit);
    var x := if hit then c else Regraft(hs[0], id, clones);
    assert RegraftAll(hs, id, clones, c, open) == [x] + rest;
    assert ([x] + rest)[1..] == rest;
    assert AbsAll(hs, s) == [Abs(hs[0], s)] + AbsAll(hs[1..], s);
    GraftAllStep(AbsAll(hs, s), id, g, open);
  }

  lemma ClonesFrame(clones: map<TreeNode, Skel>, s: Store, u: Store, g: Tree)
    requires AreClones(clones, s, g) && forall n :: n in s ==> n in u && u[n] == s[n]
    ensures AreClones(clones, u, g)
  {
    forall n | n in clones
      ensures Fits(clones[n], u) && Abs(clones[n], u) == g
    {
      Frame(clones[n], s, u);
    }
  }

  lemma OneMoreClone(clones: map<TreeNode, Skel>, s: Store, n: TreeNode, c: Skel, u: Store, g: Tree)
    requires AreClones(clones, s, g) && Fits(c, u) && Abs(c, u) == g && s.Keys !! u.Keys
    ensures AreClones(clones[n := c], s + u, g)
  {
    ClonesFrame(clones, s, s + u, g);
    Frame(c, u, s + u);
    hide Fits, Abs;
  }

  /** The body of the loop: the first child of that id, if there is one, becomes a clone of `point`. */
  method ReplaceChild(node: TreeNode, id: Id, point: TreeNode, ghost hp: Skel, ghost sp: Store)
    returns (ghost c: Skel, ghost u: Store)
    requires Current(sp) && Fits(hp, sp) && hp.node == point
    modifies node
    ensures node.State().gene == old(node.State().gene)
    ensures Hit(old(node.children), id) ==>
      && fresh(u.Keys) && Current(u) && Fits(c, u) && Abs(c, u) == Abs(hp, sp)
      && node.children == Edited(old(node.children), id, c.node, true)
    ensures !Hit(old(node.children), id) ==> node.children == old(node.children) && u == map[]
  {
    hide Edited, Fits, Abs;
    c, u := hp, map[];
    var i := 0;
    while i < |node.children|
      invariant i <= |node.children| && node.State() == old(node.State())
      invariant forall j :: 0 <= j < i ==> node.children[j].id != id
    {
      if node.children[i].id == id {
        var data := ToDict(point, hp, sp);
        var clone, hc, sc := FromDict(data);
        EditedAt(node.children, id, clone, i);
        assert Hit(node.children, id);
        node.children := node.children[i := clone];
        c, u := hc, sc;
        return;
      }
      i := i + 1;
    }
  }

  /** The first `i` nodes are done, the others are as they were. */
  ghost predicate Progress(nodes: seq<TreeNode>, i: nat, s: Store, now: Store, id: Id, clones: map<TreeNode, Skel>)
    requires i <= |nodes|
  {
    && s.Keys == now.Keys == Objects(nodes)
    && AllDone(nodes[..i], s, now, id, clones)
    && forall k :: i <= k < |nodes| ==> nodes[k] in s && now[nodes[k]] == s[nodes[k]] && nodes[k] !in clones
  }

  lemma NoProgress(nodes: seq<TreeNode>, s: Store, id: Id, clones: map<TreeNode, Skel>)
    requires clones == map[] && s.Keys == Objects(nodes)
    ensures Progress(nodes, 0, s, s, id, clones)
  {
    assert forall k :: 0 <= k < |nodes| ==> nodes[k] in Objects(nodes);
  }

  lemma NextNode(nodes: seq<TreeNode>, i: nat, s: Store, now: Store, id: Id, clones: map<TreeNode, Skel>)
    requires i < |nodes| && Progress(nodes, i, s, now, id, clones)
    ensures nodes[i] in s && now[nodes[i]] == s[nodes[i]] && nodes[i] !in clones
  {
  }

  /** One round of the loop. */
  lemma OneRound(nodes: seq<TreeNode>, i: nat, s: Store, now: Store, after: Fields, id: Id, clones: map<TreeNode, Skel>,
                 c: Skel)
    requires i < |nodes| && Distinct(nodes) && Progress(nodes, i, s, now, id, clones)
    requires nodes[i] in s && after.gene == s[nodes[i]].gene
    requires
      var ns := s[nodes[i]].children;
      after.children == if Hit(ns, id) then Edited(ns, id, c.node, true) else ns
    ensures
      var cs := if Hit(s[nodes[i]].children, id) then clones[nodes[i] := c] else clones;
      Progress(nodes, i + 1, s, now[nodes[i] := after], id, cs)
  {
    hide Edited, Hit, Done;
    var n := nodes[i];
    var cs := if Hit(s[n].children, id) then clones[n := c] else clones;
    StepDone(n, s[n], after, id, clones, c);
    forall k | 0 <= k < i
      ensures Done(nodes[k], s[nodes[k]], now[n := after][nodes[k]], id, cs)
    {
      assert nodes[..i][k] == nodes[k] && nodes[k] != n;
      OthersDone(nodes[k], n, s[nodes[k]], now[nodes[k]], id, clones, c);
    }
  }

  /** The loop over the nodes collected beforehand. Whatever it does to them, `clones` tells. */
  method ReplaceHits(nodes: seq<TreeNode>, id: Id, point: TreeNode, ghost s: Store, ghost hp: Skel, ghost sp: Store)
    returns (ghost clones: map<TreeNode, Skel>, ghost u: Store)
    requires Current(s) && Distinct(nodes) && s.Keys == Objects(nodes)
    requires Current(sp) && Fits(hp, sp) && hp.node == point && s.Keys !! sp.Keys
    modifies s.Keys
    ensures AllDone(nodes, s, u, id, clones) && AreClones(clones, u, Abs(hp, sp)) && Current(u)
  {
    hide Fits, Abs, AreClones, AllDone, Progress;
    clones := map[];
    ghost var made: Store, now := map[], s;
    NoClones(clones, made, Abs(hp, sp));
    NoProgress(nodes, s, id, clones);
    for i := 0 to |nodes|
      invariant Progress(nodes, i, s, now, id, clones) && now.Keys == s.Keys && Current(now)
      invariant Current(made) && fresh(made.Keys) && AreClones(clones, made, Abs(hp, sp))
      invariant Current(sp)
    {
      NextNode(nodes, i, s, now, id, clones);
      now, clones, made := Round(nodes, i, id, point, s, now, clones, made, hp, sp);
    }
    u := now + made;
    Finished(nodes, s, now, u, id, clones);
    ClonesFrame(clones, made, u, Abs(hp, sp));
  }

  /** One round of it. */
  method Round(nodes: seq<TreeNode>, i: nat, id: Id, point: TreeNode, ghost s: Store, ghost now: Store,
               ghost clones: map<TreeNode, Skel>, ghost made: Store, ghost hp: Skel, ghost sp: Store)
    returns (ghost next: Store, ghost cs: map<TreeNode, Skel>, ghost more: Store)
    requires i < |nodes| && Distinct(nodes) && Progress(nodes, i, s, now, id, clones) && nodes[i] in s
    requires Current(now) && now.Keys == s.Keys && now.Keys !! made.Keys && now.Keys !! sp.Keys
    requires Current(sp) && Fits(hp, sp) && hp.node == point
    requires Current(made) && AreClones(clones, made, Abs(hp, sp))
    modifies nodes[i]
    ensures Progress(nodes, i + 1, s, next, id, cs) && next.Keys == s.Keys && Current(next)
    ensures Current(more) && fresh(more.Keys - made.Keys) && AreClones(cs, more, Abs(hp, sp))
  {
    hide Edited, Fits, Abs, AreClones, Progress, Distinct;
    NextNode(nodes, i, s, now, id, clones);
    var node := nodes[i];
    ghost var c, u := ReplaceChild(node, id, point, hp, sp);
    OneRound(nodes, i, s, now, node.State(), id, clones, c);
    next, cs, more := now[node := node.State()], clones, made;
    if Hit(s[node].children, id) {
      OneMoreClone(clones, made, node, c, u, Abs(hp, sp));
      cs, more := clones[node := c], made + u;
    }
  }

  lemma Finished(nodes: seq<TreeNode>, s: Store, now: Store, u: Store, id: Id, clones: map<TreeNode, Skel>)
    requires Progress(nodes, |nodes|, s, now, id, clones)
    requires forall n :: n in now ==> n in u && u[n] == now[n]
    ensures AllDone(nodes, s, u, id, clones)
  {
    hide Done;
    assert nodes[..|nodes|] == nodes;
  }

  lemma NoClones(clones: map<TreeNode, Skel>, s: Store, g: Tree)
    requires clones == map[]
    ensures AreClones(clones, s, g)
  {
  }

  lemma StepDone(n: TreeNode, before: Fields, after: Fields, id: Id, clones: map<TreeNode, Skel>, c: Skel)
    requires n !in clones && after.gene == before.gene
    requires Hit(before.children, id) ==> after.children == Edited(before.children, id, c.node, true)
    requires !Hit(before.children, id) ==> after.children == before.children
    ensures Done(n, before, after, id, if Hit(before.children, id) then clones[n := c] else clones)
  {
    if !Hit(before.children, id) {
      EditedAt(before.children, id, n, |before.children|);
    }
  }

  lemma OthersDone(n: TreeNode, m: TreeNode, before: Fields, after: Fields, id: Id, clones: map<TreeNode, Skel>,
                   c: Skel)
    requires Done(n, before, after, id, clones) && n != m
    ensures Done(n, before, after, id, clones[m := c])
  {
  }

  // ---------- the whole crossover ----------

  /** The trees of `crossover_genomes`: what comes out is the first parent with the chosen subtree exchanged for one of
      the second parent's, neither of them a root; or one of the parents if one has no subtree to give. */
  method CrossTrees(a: Tree, b: Tree) returns (child: Tree)
    ensures Size(a) > 1 && Size(b) > 1 ==>
      exists i, j :: 1 <= i < |Collect(a)| && 1 <= j < |Collect(b)|
                     && child == Graft(a, Collect(a)[i].id, Collect(b)[j])
    ensures !(Size(a) > 1 && Size(b) > 1) ==> child == a || child == b
  {
    hide Fits, Abs, Refs, Collect, Graft, Size, Skels, Regraft, AllDone, AreClones;
    var treeA, ha, sa := FromDict(a);
    var treeB, hb, sb := FromDict(b);
    var nodesA := CollectNodes(treeA, ha, sa);
    var nodesB := CollectNodes(treeB, hb, sb);
    CollectedStands(ha, sa);
    CollectedStands(hb, sb);
    CollectSize(a);
    CollectSize(b);
    if |nodesA| > 1 && |nodesB| > 1 {
      var i: nat :| 1 <= i < |nodesA|;
      var j: nat :| 1 <= j < |nodesB|;
      var pointA, pointB := nodesA[i], nodesB[j];
      var data := ToDict(treeA, ha, sa);
      var tree, h, s := FromDict(data);
      var nodes := CollectNodes(tree, h, s);
      ghost var clones, u := ReplaceHits(nodes, pointA.id, pointB, s, Skels(hb)[j], sb);
      LoopGrafts(h, s, u, pointA.id, clones, Collect(b)[j]);
      RegraftRoot(h, pointA.id, clones);
      child := ToDict(tree, Regraft(h, pointA.id, clones), u);
      IdOf(Skels(ha)[i], sa);
    } else {
      if * {
        child := a;
      } else {
        child := b;
      }
    }
  }

  lemma RegraftRoot(h: Skel, id: Id, clones: map<TreeNode, Skel>)
    ensures Regraft(h, id, clones).node == h.node
  {
  }

  lemma IdOf(h: Skel, s: Store)
    requires Fits(h, s)
    ensures Abs(h, s).id == h.node.id
  {
  }
}
