/** What subtree crossover does to rule trees, as values. */
module TreeSurgery {
  // In every node the first child with the chosen id gives way to a copy of the graft.

  import opened RuleTrees

  function Graft(t: Tree, id: Id, g: Tree): Tree
    decreases t
  {
    t.(children := GraftAll(t.children, id, g, true))
  }

  /** `open` until a child of this list has been replaced. */
  function GraftAll(ts: seq<Tree>, id: Id, g: Tree, open: bool): seq<Tree>
    decreases ts
  {
    if ts == [] then []
    else if open && ts[0].id == id then [g] + GraftAll(ts[1..], id, g, false)
    else [Graft(ts[0], id, g)] + GraftAll(ts[1..], id, g, open)
  }

  /** The subtrees that are cut out. */
  function Cuts(t: Tree, id: Id): seq<Tree>
    decreases t
  {
    CutsAll(t.children, id, true)
  }

  function CutsAll(ts: seq<Tree>, id: Id, open: bool): seq<Tree>
    decreases ts
  {
    if ts == [] then []
    else if open && ts[0].id == id then [ts[0]] + CutsAll(ts[1..], id, false)
    else Cuts(ts[0], id) + CutsAll(ts[1..], id, open)
  }

  function Ids(t: Tree): multiset<Id>
    decreases t
  {
    multiset{t.id} + IdsAll(t.children)
  }

  function IdsAll(ts: seq<Tree>): multiset<Id>
    decreases ts
  {
    if ts == [] then multiset{} else Ids(ts[0]) + IdsAll(ts[1..])
  }

  predicate Once(ids: multiset<Id>) {
    forall x :: x in ids ==> ids[x] == 1
  }

  predicate UniqueIds(t: Tree) { Once(Ids(t)) }

  function Copies(n: nat, ids: multiset<Id>): multiset<Id> {
    if n == 0 then multiset{} else ids + Copies(n - 1, ids)
  }

  lemma {:induction false} CopiesAdd(m: nat, n: nat, ids: multiset<Id>)
    ensures Copies(m + n, ids) == Copies(m, ids) + Copies(n, ids)
  {
    if m > 0 {
      CopiesAdd(m - 1, n, ids);
    }
  }

  lemma {:induction false} IdsCount(t: Tree)
    ensures |Ids(t)| == Size(t)
    decreases t
  {
    IdsCountAll(t.children);
  }

  lemma {:induction false} IdsCountAll(ts: seq<Tree>)
    ensures |IdsAll(ts)| == SizeAll(ts)
    decreases ts
  {
    if ts != [] {
      IdsCount(ts[0]);
      IdsCountAll(ts[1..]);
    }
  }

  lemma {:induction false} IdsAllAppend(a: seq<Tree>, b: seq<Tree>)
    ensures IdsAll(a + b) == IdsAll(a) + IdsAll(b)
    decreases |a|
  {
    if a == [] {
      assert a + b == b;
    } else {
      assert (a + b)[1..] == a[1..] + b;
      IdsAllAppend(a[1..], b);
    }
  }

  lemma AddBoth(a: multiset<Id>, b: multiset<Id>, c: multiset<Id>, d: multiset<Id>,
                e: multiset<Id>, f: multiset<Id>, g: multiset<Id>, h: multiset<Id>)
    requires a + b == c + d && e + f == g + h
    ensures (a + e) + (b + f) == (c + g) + (d + h)
  {
    assert (a + e) + (b + f) == (a + b) + (e + f);
    assert (c + g) + (d + h) == (c + d) + (g + h);
  }

  lemma GraftAllNext(ts: seq<Tree>, id: Id, g: Tree, open: bool)
    requires ts != []
    ensures IdsAll(ts) == Ids(ts[0]) + IdsAll(ts[1..])
    ensures
      var hit := open && ts[0].id == id;
      IdsAll(GraftAll(ts, id, g, open))
      == Ids(if hit then g else Graft(ts[0], id, g)) + IdsAll(GraftAll(ts[1..], id, g, open && !hit))
    ensures
      var hit := open && ts[0].id == id;
      CutsAll(ts, id, open) == (if hit then [ts[0]] else Cuts(ts[0], id)) + CutsAll(ts[1..], id, open && !hit)
    ensures
      var hit := open && ts[0].id == id;
      IdsAll(CutsAll(ts, id, open))
      == (if hit then Ids(ts[0]) else IdsAll(Cuts(ts[0], id))) + IdsAll(CutsAll(ts[1..], id, open && !hit))
  {
    hide Ids, Graft, Cuts, IdsAll;
    var hit := open && ts[0].id == id;
    var rest, cut := GraftAll(ts[1..], id, g, open && !hit), CutsAll(ts[1..], id, open && !hit);
    IdsAllAppend([ts[0]], ts[1..]);
    assert [ts[0]] + ts[1..] == ts;
    IdsOfOne(ts[0]);
    if hit {
      IdsAllAppend([g], rest);
      IdsAllAppend([ts[0]], cut);
      IdsOfOne(g);
    } else {
      IdsAllAppend([Graft(ts[0], id, g)], rest);
      IdsAllAppend(Cuts(ts[0], id), cut);
      IdsOfOne(Graft(ts[0], id, g));
    }
  }

  /** No id is lost or made up: what the grafting leaves and what it cuts out is what was there and one copy of the
      graft for every cut. */
  lemma {:induction false} GraftIds(t: Tree, id: Id, g: Tree)
    ensures Ids(Graft(t, id, g)) + IdsAll(Cuts(t, id)) == Ids(t) + Copies(|Cuts(t, id)|, Ids(g))
    decreases t
  {
    hide IdsAll, Copies;
    GraftIdsAll(t.children, id, g, true);
    var none: multiset<Id> := multiset{};
    assert none + IdsAll(Cuts(t, id)) == IdsAll(Cuts(t, id));
    assert none + Copies(|Cuts(t, id)|, Ids(g)) == Copies(|Cuts(t, id)|, Ids(g));
    AddBoth(multiset{t.id}, none, multiset{t.id}, none, IdsAll(GraftAll(t.children, id, g, true)), IdsAll(Cuts(t, id)),
            IdsAll(t.children), Copies(|Cuts(t, id)|, Ids(g)));
  }

  lemma {:induction false} GraftIdsAll(ts: seq<Tree>, id: Id, g: Tree, open: bool)
    ensures IdsAll(GraftAll(ts, id, g, open)) + IdsAll(CutsAll(ts, id, open))
         == IdsAll(ts) + Copies(|CutsAll(ts, id, open)|, Ids(g))
    decreases ts
  {
    hide Ids, IdsAll, Copies, GraftAll, CutsAll, Graft, Cuts;
    if ts == [] {
      NothingToGraft(ts, id, g, open);
    } else {
      var hit := open && ts[0].id == id;
      var rest := ts[1..];
      GraftIdsAll(rest, id, g, open && !hit);
      GraftAllNext(ts, id, g, open);
      var n := |CutsAll(rest, id, open && !hit)|;
      if hit {
        OneCopy(Ids(g));
        CopiesAdd(1, n, Ids(g));
        AddBoth(Ids(g), Ids(ts[0]), Ids(ts[0]), Ids(g), IdsAll(GraftAll(rest, id, g, false)),
                IdsAll(CutsAll(rest, id, false)), IdsAll(rest), Copies(n, Ids(g)));
      } else {
        GraftIds(ts[0], id, g);
        var m := |Cuts(ts[0], id)|;
        CopiesAdd(m, n, Ids(g));
        AddBoth(Ids(Graft(ts[0], id, g)), IdsAll(Cuts(ts[0], id)), Ids(ts[0]), Copies(m, Ids(g)),
                IdsAll(GraftAll(rest, id, g, open)), IdsAll(CutsAll(rest, id, open)), IdsAll(rest), Copies(n, Ids(g)));
      }
    }
  }

  lemma OneCopy(ids: multiset<Id>)
    ensures Copies(1, ids) == ids
  {
  }

  lemma NothingToGraft(ts: seq<Tree>, id: Id, g: Tree, open: bool)
    requires ts == []
    ensures IdsAll(GraftAll(ts, id, g, open)) + IdsAll(CutsAll(ts, id, open))
         == IdsAll(ts) + Copies(|CutsAll(ts, id, open)|, Ids(g))
  {
  }

  lemma IdsOfOne(t: Tree)
    ensures IdsAll([t]) == Ids(t)
  {
    var e := [t][1..];
    assert IdsAll(e) == multiset{};
  }

  // ---------- with unique ids ----------

  /** What is cut from a list of trees has the id and is one of their nodes. */
  predicate CutFrom(cuts: seq<Tree>, id: Id, nodes: seq<Tree>) {
    forall i :: 0 <= i < |cuts| ==> cuts[i].id == id && cuts[i] in nodes
  }

  lemma {:induction false} CutsHaveId(ts: seq<Tree>, id: Id, open: bool)
    ensures CutFrom(CutsAll(ts, id, open), id, CollectAll(ts))
    decreases ts
  {
    if ts != [] {
      hide CutFrom;
      var hit := open && ts[0].id == id;
      CutsHaveId(ts[1..], id, open && !hit);
      CutsHaveId(ts[0].children, id, true);
      var first := if hit then [ts[0]] else Cuts(ts[0], id);
    }
  }

  /** At most as many cuts as nodes with the id; and at least one if there is such a node below the root. */
  lemma {:induction false} CutsCounted(ts: seq<Tree>, id: Id, open: bool)
    ensures |CutsAll(ts, id, open)| <= IdsAll(ts)[id]
    ensures open && id in IdsAll(ts) ==> |CutsAll(ts, id, open)| >= 1
    decreases ts
  {
    if ts != [] {
      var hit := open && ts[0].id == id;
      CutsCounted(ts[1..], id, open && !hit);
      CutsCounted(ts[0].children, id, true);
    }
  }

  /** A node below the root whose id no other node below the root has is cut exactly where it stands, and nothing else
      is. The root's own id does not matter. */
  lemma CutOnce(t: Tree, id: Id)
    requires IdsAll(t.children)[id] == 1
    ensures |Cuts(t, id)| == 1 && Cuts(t, id)[0].id == id && Cuts(t, id)[0] in CollectAll(t.children)
  {
    hide CutsAll, CollectAll, IdsAll;
    CutsCounted(t.children, id, true);
    CutsHaveId(t.children, id, true);
  }

  /** Ids and size of the child. */
  lemma GraftTheorem(t: Tree, id: Id, g: Tree)
    requires IdsAll(t.children)[id] == 1
    ensures |Cuts(t, id)| == 1
    ensures
      var child, cut := Graft(t, id, g), Cuts(t, id)[0];
      && Ids(cut) <= Ids(t)
      && Ids(child) == Ids(t) - Ids(cut) + Ids(g)
      && Size(child) == Size(t) - Size(cut) + Size(g)
  {
    hide Ids, IdsAll, Cuts, Graft, Copies, Size;
    CutOnce(t, id);
    var child, cut := Graft(t, id, g), Cuts(t, id)[0];
    GraftIds(t, id, g);
    assert Cuts(t, id) == [cut];
    IdsOfOne(cut);
    OneCopy(Ids(g));
    CutInside(t, id);
    Exchange(Ids(child), Ids(cut), Ids(t), Ids(g));
    IdsCount(child);
    IdsCount(cut);
    IdsCount(t);
    IdsCount(g);
  }

  /** The ids stay unique exactly when those of the graft are and none of them remains in the first parent. */
  lemma UniqueIff(t: Tree, id: Id, g: Tree)
    requires UniqueIds(t) && id in IdsAll(t.children)
    ensures |Cuts(t, id)| == 1
    ensures UniqueIds(Graft(t, id, g)) <==> UniqueIds(g) && (Ids(t) - Ids(Cuts(t, id)[0])) !! Ids(g)
  {
    OnceBelow(t, id);
    hide Ids, IdsAll, Cuts, Graft;
    GraftTheorem(t, id, g);
    OnceJoined(Ids(t) - Ids(Cuts(t, id)[0]), Ids(g));
  }

  lemma OnceBelow(t: Tree, id: Id)
    requires UniqueIds(t) && id in IdsAll(t.children)
    ensures IdsAll(t.children)[id] == 1
  {
    OnceParts(multiset{t.id}, IdsAll(t.children));
  }

  lemma Exchange(c: multiset<Id>, k: multiset<Id>, t: multiset<Id>, g: multiset<Id>)
    requires c + k == t + g && k <= t
    ensures c == t - k + g
  {
    forall x: Id
      ensures c[x] == (t - k + g)[x]
    {
      assert (c + k)[x] == c[x] + k[x];
      assert (t + g)[x] == t[x] + g[x];
      assert k[x] <= t[x];
    }
    assert c == t - k + g;
  }

  lemma OnceJoined(a: multiset<Id>, b: multiset<Id>)
    requires Once(a)
    ensures Once(a + b) <==> Once(b) && a !! b
  {
    if Once(a + b) {
      forall x | x in b
        ensures b[x] == 1 && x !in a
      {
        assert x in a + b;
        assert (a + b)[x] == a[x] + b[x];
      }
      assert forall x :: (a * b)[x] == 0;
      assert a * b == multiset{};
      assert Once(b);
      assert a !! b;
    }
    if Once(b) && a !! b {
      forall x | x in a + b
        ensures (a + b)[x] == 1
      {
        assert (a + b)[x] == a[x] + b[x];
        assert !(x in a && x in b);
      }
      assert Once(a + b);
    }
  }

  lemma {:induction false} IdsOfPart(ts: seq<Tree>, s: Tree)
    requires s in CollectAll(ts)
    ensures Ids(s) <= IdsAll(ts)
    decreases ts
  {
    if s in CollectAll(ts[1..]) {
      IdsOfPart(ts[1..], s);
    } else if s != ts[0] {
      IdsOfPart(ts[0].children, s);
    }
  }

  lemma CutInside(t: Tree, id: Id)
    requires |Cuts(t, id)| == 1
    ensures Ids(Cuts(t, id)[0]) <= Ids(t)
  {
    CutsHaveId(t.children, id, true);
    IdsOfPart(t.children, Cuts(t, id)[0]);
    hide IdsAll, Cuts;
  }

  // ---------- one place ----------

  /** `path` leads from child to child to a node of `t`. */
  predicate IsPath(t: Tree, path: seq<nat>)
    decreases path
  {
    path == [] || (path[0] < |t.children| && IsPath(t.children[path[0]], path[1..]))
  }

  function NodeAt(t: Tree, path: seq<nat>): Tree
    requires IsPath(t, path)
    decreases path
  {
    if path == [] then t else NodeAt(t.children[path[0]], path[1..])
  }

  function ReplaceAt(t: Tree, path: seq<nat>, g: Tree): Tree
    requires IsPath(t, path)
    decreases path
  {
    if path == [] then g
    else t.(children := t.children[path[0] := ReplaceAt(t.children[path[0]], path[1..], g)])
  }

  lemma {:induction false} NothingHit(ts: seq<Tree>, id: Id, g: Tree, open: bool)
    requires open ==> id !in IdsAll(ts)
    requires !open ==> forall i :: 0 <= i < |ts| ==> id !in IdsAll(ts[i].children)
    ensures GraftAll(ts, id, g, open) == ts && CutsAll(ts, id, open) == []
    decreases ts
  {
    if ts != [] {
      assert Ids(ts[0]) == multiset{ts[0].id} + IdsAll(ts[0].children);
      NothingHit(ts[0].children, id, g, true);
      NothingHit(ts[1..], id, g, open);
      assert ts == [ts[0]] + ts[1..];
    }
  }

  lemma {:induction false} GraftAllLength(ts: seq<Tree>, id: Id, g: Tree, open: bool)
    ensures |GraftAll(ts, id, g, open)| == |ts|
    decreases |ts|
  {
    if ts != [] {
      GraftAllLength(ts[1..], id, g, open && ts[0].id != id);
    }
  }

  /** The child of the list under which an id stands that occurs once. */
  lemma {:induction false} Holder(ts: seq<Tree>, id: Id) returns (i: nat)
    requires IdsAll(ts)[id] == 1
    ensures i < |ts| && Ids(ts[i])[id] == 1
    ensures forall j :: 0 <= j < |ts| && j != i ==> id !in Ids(ts[j])
    decreases |ts|
  {
    hide Ids;
    var h, r := Ids(ts[0]), IdsAll(ts[1..]);
    assert IdsAll(ts) == h + r;
    assert h[id] + r[id] == 1;
    if id in h {
      i := 0;
      forall j | 0 < j < |ts|
        ensures id !in Ids(ts[j])
      {
        IdsOfElement(ts[1..], j - 1);
      }
    } else {
      var k := Holder(ts[1..], id);
      i := k + 1;
      assert forall j :: 0 < j < |ts| ==> ts[j] == ts[1..][j - 1];
    }
  }

  lemma OnceParts(a: multiset<Id>, b: multiset<Id>)
    requires Once(a + b)
    ensures Once(a) && Once(b) && a !! b
  {
    forall x | x in a
      ensures a[x] == 1 && x !in b
    {
      assert x in a + b;
      assert (a + b)[x] == a[x] + b[x];
    }
    forall x | x in b
      ensures b[x] == 1
    {
      assert x in a + b;
      assert (a + b)[x] == a[x] + b[x];
    }
    assert forall x :: (a * b)[x] == 0;
    assert a * b == multiset{};
  }

  lemma {:induction false} IdsOfElement(ts: seq<Tree>, i: nat)
    requires i < |ts|
    ensures Ids(ts[i]) <= IdsAll(ts)
    decreases |ts|
  {
    hide Ids;
    if i > 0 {
      IdsOfElement(ts[1..], i - 1);
    }
  }

  lemma Untouched(t: Tree, id: Id, g: Tree)
    requires id !in Ids(t)
    ensures t.id != id && Graft(t, id, g) == t
  {
    assert Ids(t) == multiset{t.id} + IdsAll(t.children);
    NothingHit(t.children, id, g, true);
  }

  lemma GraftAllStep(ts: seq<Tree>, id: Id, g: Tree, open: bool)
    requires ts != []
    ensures
      var hit := open && ts[0].id == id;
      GraftAll(ts, id, g, open) == [if hit then g else Graft(ts[0], id, g)] + GraftAll(ts[1..], id, g, open && !hit)
  {
  }

  /** Grafting into a list where only element `i` holds the id. */
  lemma {:induction false} GraftOne(ts: seq<Tree>, id: Id, g: Tree, i: nat)
    requires i < |ts| && forall j :: 0 <= j < |ts| && j != i ==> id !in Ids(ts[j])
    ensures GraftAll(ts, id, g, true) == ts[i := if ts[i].id == id then g else Graft(ts[i], id, g)]
    decreases |ts|
  {
    hide Ids, Graft, GraftAll;
    var r := ts[1..];
    assert forall j :: 0 <= j < |r| ==> r[j] == ts[j + 1];
    GraftAllStep(ts, id, g, true);
    if i == 0 {
      NoneHolds(r, id, g, ts[0].id != id);
    } else {
      Untouched(ts[0], id, g);
      GraftOne(r, id, g, i - 1);
    }
  }

  lemma {:induction false} NoneHolds(ts: seq<Tree>, id: Id, g: Tree, open: bool)
    requires forall j :: 0 <= j < |ts| ==> id !in Ids(ts[j])
    ensures GraftAll(ts, id, g, open) == ts
    decreases |ts|
  {
    hide Ids, Graft;
    if ts != [] {
      Untouched(ts[0], id, g);
      var r := ts[1..];
      assert forall j :: 0 <= j < |r| ==> r[j] == ts[j + 1];
      NoneHolds(r, id, g, open);
      assert ts == [ts[0]] + r;
    }
  }

  /** Then grafting is replacing the one node that has the id. */
  lemma {:induction false} GraftIsReplace(t: Tree, id: Id, g: Tree) returns (path: seq<nat>)
    requires IdsAll(t.children)[id] == 1
    ensures path != [] && IsPath(t, path) && NodeAt(t, path).id == id
    ensures Graft(t, id, g) == ReplaceAt(t, path, g)
    decreases t
  {
    var i := Holder(t.children, id);
    var c := t.children[i];
    GraftOne(t.children, id, g, i);
    if c.id == id {
      path := [i];
    } else {
      assert Ids(c)[id] == IdsAll(c.children)[id];
      var rest := GraftIsReplace(c, id, g);
      path := [i] + rest;
      assert path[1..] == rest;
    }
  }

  // ---------- depth ----------

  lemma {:induction false} GraftDepthAll(ts: seq<Tree>, id: Id, g: Tree, open: bool)
    ensures DepthAll(GraftAll(ts, id, g, open)) <= DepthAll(ts) + Depth(g)
    decreases ts
  {
    if ts != [] {
      var hit := open && ts[0].id == id;
      GraftDepthAll(ts[1..], id, g, open && !hit);
      GraftAllStep(ts, id, g, open);
      if !hit {
        GraftDepth(ts[0], id, g);
      }
      hide Graft, GraftAll;
    }
  }

  /** Wherever the graft goes, it goes no deeper than the tree is. */
  lemma {:induction false} GraftDepth(t: Tree, id: Id, g: Tree)
    ensures Depth(Graft(t, id, g)) <= Depth(t) + Depth(g)
    decreases t
  {
    GraftDepthAll(t.children, id, g, true);
    GraftAllLength(t.children, id, g, true);
  }

  lemma {:induction false} PartDepth(ts: seq<Tree>, s: Tree)
    requires s in CollectAll(ts)
    ensures Depth(s) <= DepthAll(ts)
    decreases ts
  {
    if s in CollectAll(ts[1..]) {
      PartDepth(ts[1..], s);
    } else if s != ts[0] {
      PartDepth(ts[0].children, s);
    }
  }

  /** A child of `a` and `b` is at most one level short of both together, ids unique or not. */
  lemma CrossoverDepth(a: Tree, b: Tree, id: Id, g: Tree)
    requires g in CollectAll(b.children)
    ensures Depth(Graft(a, id, g)) <= Depth(a) + Depth(b) - 1
  {
    GraftDepth(a, id, g);
    PartDepth(b.children, g);
    hide Graft, DepthAll;
  }

  // ---------- types ----------

  /** Exchanging a part of a correctly typed rule keeps it correctly typed exactly when a value comes for a value and a
      rule for a rule. */
  lemma {:induction false} TypingIff(t: Tree, path: seq<nat>, g: Tree)
    requires BoolTree(t) && IsPath(t, path)
    ensures BoolTree(NodeAt(t, path)) != ValueTree(NodeAt(t, path))
    ensures BoolTree(ReplaceAt(t, path, g)) <==> if BoolTree(NodeAt(t, path)) then BoolTree(g) else ValueTree(g)
    decreases path
  {
    if path != [] {
      var c := t.children[path[0]];
      if t.gene.kind.Logic? {
        TypingIff(c, path[1..], g);
      } else {
        assert path[1..] == [] by {
          assert IsPath(c, path[1..]);
        }
      }
    }
  }

  // ---------- ids again ----------

  /** Crossing a tree with itself leaves unique ids exactly when the graft is taken from inside the part it replaces. */
  lemma SelfCrossIff(t: Tree, id: Id, g: Tree)
    requires UniqueIds(t) && id in IdsAll(t.children) && g in CollectAll(t.children)
    ensures |Cuts(t, id)| == 1
    ensures UniqueIds(Graft(t, id, g)) <==> Ids(g) <= Ids(Cuts(t, id)[0])
  {
    hide Ids, IdsAll, Cuts, CollectAll, Graft, Once;
    UniqueIff(t, id, g);
    var cut := Cuts(t, id)[0];
    CutInside(t, id);
    PartInside(t, g);
    PartsOnce(Ids(t), Ids(g));
    InsideIff(Ids(t), Ids(cut), Ids(g));
  }

  lemma PartInside(t: Tree, g: Tree)
    requires g in CollectAll(t.children)
    ensures Ids(g) <= Ids(t)
  {
    IdsOfPart(t.children, g);
    hide IdsAll;
  }

  lemma PartsOnce(t: multiset<Id>, g: multiset<Id>)
    requires Once(t) && g <= t
    ensures Once(g)
  {
  }

  lemma InsideIff(t: multiset<Id>, cut: multiset<Id>, g: multiset<Id>)
    requires Once(t) && cut <= t && g <= t
    ensures (t - cut) !! g <==> g <= cut
  {
    if g <= cut {
      assert forall x :: x in g ==> x in t && t[x] == 1 && cut[x] == 1;
      assert forall x :: ((t - cut) * g)[x] == 0;
    }
    if (t - cut) !! g {
      forall x | x in g
        ensures g[x] <= cut[x]
      {
        assert ((t - cut) * g)[x] == 0;
      }
    }
  }

  /** Once two nodes under different parents share an id, a crossover at it replaces both. */
  lemma DuplicateCuts(t: Tree, id: Id, g: Tree)
    requires |t.children| == 2 && t.children[0].id != id && t.children[1].id != id
    requires id in IdsAll(t.children[0].children) && id in IdsAll(t.children[1].children)
    ensures |Cuts(t, id)| >= 2
  {
    var r, e := t.children[1..], t.children[2..];
    assert r[1..] == e;
    CutsCounted(t.children[0].children, id, true);
    CutsCounted(t.children[1].children, id, true);
    assert CutsAll(r, id, true) == Cuts(r[0], id) + CutsAll(e, id, true);
    assert CutsAll(t.children, id, true) == Cuts(t.children[0], id) + CutsAll(r, id, true);
  }

  // ---------- the chosen nodes ----------

  lemma {:induction false} IdOfPart(ts: seq<Tree>, s: Tree)
    requires s in CollectAll(ts)
    ensures s.id in IdsAll(ts)
  {
    IdsOfPart(ts, s);
    assert s.id in Ids(s);
    hide IdsAll;
  }

  /** Nodes below the same list that share an id occurring once are one node. */
  lemma {:induction false} SameNode(ts: seq<Tree>, s: Tree, t: Tree)
    requires s in CollectAll(ts) && t in CollectAll(ts) && s.id == t.id && IdsAll(ts)[s.id] == 1
    ensures s == t
    decreases ts
  {
    var rest := ts[1..];
    assert CollectAll(ts) == Collect(ts[0]) + CollectAll(rest);
    assert IdsAll(ts)[s.id] == Ids(ts[0])[s.id] + IdsAll(rest)[s.id];
    if Ids(ts[0])[s.id] == 0 {
      NotIn(ts[0], s);
      NotIn(ts[0], t);
      SameNode(rest, s, t);
    } else {
      NotInAll(rest, s);
      NotInAll(rest, t);
      assert Ids(ts[0])[s.id] == (if ts[0].id == s.id then 1 else 0) + IdsAll(ts[0].children)[s.id];
      if ts[0].id == s.id {
        NotInAll(ts[0].children, s);
        NotInAll(ts[0].children, t);
      } else {
        SameNode(ts[0].children, s, t);
      }
    }
  }

  lemma NotInAll(ts: seq<Tree>, s: Tree)
    ensures s in CollectAll(ts) ==> IdsAll(ts)[s.id] > 0
  {
    if s in CollectAll(ts) {
      IdOfPart(ts, s);
    }
  }

  lemma NotIn(t: Tree, s: Tree)
    ensures s in Collect(t) ==> Ids(t)[s.id] > 0
  {
    NotInAll(t.children, s);
    assert Collect(t) == [t] + CollectAll(t.children);
  }

  lemma {:induction false} CollectBelow(t: Tree, i: nat)
    requires 1 <= i < |Collect(t)|
    ensures Collect(t)[i] in CollectAll(t.children)
  {
    assert Collect(t)[i] == CollectAll(t.children)[i - 1];
  }

  /** All of it for a child of `a` and `b` with unique ids in `a`: exactly the chosen subtree is exchanged, where it
      stands; size, depth and ids come out as they must. */
  lemma CrossoverTheorem(a: Tree, b: Tree, i: nat, j: nat) returns (path: seq<nat>)
    requires 1 <= i < |Collect(a)| && 1 <= j < |Collect(b)| && UniqueIds(a)
    ensures
      var cut, graft := Collect(a)[i], Collect(b)[j];
      var child := Graft(a, cut.id, graft);
      && path != [] && IsPath(a, path) && NodeAt(a, path) == cut && child == ReplaceAt(a, path, graft)
      && Size(child) == Size(a) - Size(cut) + Size(graft)
      && Depth(child) <= Depth(a) + Depth(b) - 1
      && (UniqueIds(child) <==> UniqueIds(graft) && (Ids(a) - Ids(cut)) !! Ids(graft))
  {
    hide Collect, CollectAll, Ids, IdsAll, Cuts, Graft, Size, Depth, Once;
    var cut, graft := Collect(a)[i], Collect(b)[j];
    CollectBelow(a, i);
    CollectBelow(b, j);
    IdOfPart(a.children, cut);
    OnceBelow(a, cut.id);
    CutOnce(a, cut.id);
    SameNode(a.children, cut, Cuts(a, cut.id)[0]);
    GraftTheorem(a, cut.id, graft);
    UniqueIff(a, cut.id, graft);
    CrossoverDepth(a, b, cut.id, graft);
    path := GraftIsReplace(a, cut.id, graft);
    NodeAtBelow(a, path);
    SameNode(a.children, cut, NodeAt(a, path));
  }

  lemma {:induction false} NodeAtBelow(t: Tree, path: seq<nat>)
    requires IsPath(t, path) && path != []
    ensures NodeAt(t, path) in CollectAll(t.children)
    decreases path
  {
    var c := t.children[path[0]];
    if path[1..] != [] {
      NodeAtBelow(c, path[1..]);
    }
    assert NodeAt(t, path) in Collect(c);
    ChildIn(t.children, path[0], NodeAt(t, path));
  }

  lemma {:induction false} ChildIn(ts: seq<Tree>, i: nat, s: Tree)
    requires i < |ts| && s in Collect(ts[i])
    ensures s in CollectAll(ts)
    decreases |ts|
  {
    if i > 0 {
      ChildIn(ts[1..], i - 1, s);
    }
  }

  /** Every node of a correctly typed rule is a rule or a value, and not both. */
  lemma {:induction false} NodeSort(t: Tree, s: Tree)
    requires BoolTree(t) && s in Collect(t)
    ensures BoolTree(s) != ValueTree(s)
    decreases t
  {
    if s != t {
      if |t.children| == 1 {
        CollectOne(t);
        NodeSort(t.children[0], s);
      } else {
        CollectTwo(t);
        if t.gene.kind.Compare? {
          CollectLeaf(t.children[0]);
          CollectLeaf(t.children[1]);
        } else if s in Collect(t.children[0]) {
          NodeSort(t.children[0], s);
        } else {
          NodeSort(t.children[1], s);
        }
      }
    }
  }

  /** Crossover does not look at types: the child of two correctly typed rules is correctly typed exactly when a rule
      came for a rule or a value for a value. */
  lemma CrossoverTypingIff(a: Tree, b: Tree, i: nat, j: nat)
    requires 1 <= i < |Collect(a)| && 1 <= j < |Collect(b)| && UniqueIds(a) && BoolTree(a) && BoolTree(b)
    ensures
      var cut, graft := Collect(a)[i], Collect(b)[j];
      BoolTree(Graft(a, cut.id, graft)) <==> (BoolTree(cut) <==> BoolTree(graft))
  {
    hide Collect, Graft, UniqueIds, BoolTree, ReplaceAt, NodeAt, Size, Depth;
    var cut, graft := Collect(a)[i], Collect(b)[j];
    var path := CrossoverTheorem(a, b, i, j);
    TypingIff(a, path, graft);
    NodeSort(b, graft);
  }
}
