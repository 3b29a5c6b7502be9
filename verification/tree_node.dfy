/** `TreeNode` objects (genome/rule_tree.py) and how they stand for rule trees. A skeleton says which objects make up
    a tree, and a store is a snapshot of their fields; whether the snapshot is still current is the only question about
    the heap. So most reasoning is about plain values: what a skeleton stands for in a store, and that changing other
    objects does not matter. A tree is proper if no object occurs in it twice. */
module TreeNodes {
  import opened RuleTrees

  class TreeNode {
    const id: Id
    var kind: NodeType
    var value: real
    var params: map<string, Param>
    var children: seq<TreeNode>

    constructor (id: Id, gene: Gene, children: seq<TreeNode>)
      ensures this.id == id && State() == Fields(gene, children)
    {
      this.id := id;
      kind, value, params := gene.kind, gene.value, gene.params;
      this.children := children;
    }

    function State(): Fields
      reads this
    {
      Fields(Gene(kind, value, params), children)
    }
  }

  datatype Fields = Fields(gene: Gene, children: seq<TreeNode>)

  type Store = map<TreeNode, Fields>

  datatype Skel = Skel(node: TreeNode, kids: seq<Skel>)

  /** The snapshot is what the objects hold now. */
  ghost predicate Current(s: Store)
    reads s.Keys
  {
    forall n :: n in s ==> n.State() == s[n]
  }

  /** The objects of a tree, each before its children. */
  ghost function Refs(h: Skel): seq<TreeNode>
    decreases h
  {
    [h.node] + RefsAll(h.kids)
  }

  ghost function RefsAll(hs: seq<Skel>): seq<TreeNode>
    decreases hs
  {
    if hs == [] then [] else Refs(hs[0]) + RefsAll(hs[1..])
  }

  ghost function Roots(hs: seq<Skel>): seq<TreeNode>
    decreases |hs|
  {
    if hs == [] then [] else [hs[0].node] + Roots(hs[1..])
  }

  /** The children lists in `s` are those of the skeleton. */
  ghost predicate Fits(h: Skel, s: Store)
    decreases h
  {
    h.node in s && s[h.node].children == Roots(h.kids) && FitsAll(h.kids, s)
  }

  ghost predicate FitsAll(hs: seq<Skel>, s: Store)
    decreases hs
  {
    hs == [] || (Fits(hs[0], s) && FitsAll(hs[1..], s))
  }

  /** The tree the objects stand for: what `to_dict` returns. */
  ghost function Abs(h: Skel, s: Store): Tree
    requires Fits(h, s)
    decreases h
  {
    Tree(h.node.id, s[h.node].gene, AbsAll(h.kids, s))
  }

  ghost function AbsAll(hs: seq<Skel>, s: Store): seq<Tree>
    requires FitsAll(hs, s)
    decreases hs
  {
    if hs == [] then [] else [Abs(hs[0], s)] + AbsAll(hs[1..], s)
  }

  predicate Distinct(ns: seq<TreeNode>) {
    forall i, j :: 0 <= i < j < |ns| ==> ns[i] != ns[j]
  }

  function Objects(ns: seq<TreeNode>): set<TreeNode> {
    set n | n in ns
  }

  /** `h` is the skeleton of a proper tree: every object occurs in it once. */
  ghost predicate IsTree(h: Skel, s: Store) {
    Fits(h, s) && Distinct(Refs(h))
  }

  /** `s` and `u` hold the same for these objects. */
  predicate SameOn(ns: seq<TreeNode>, s: Store, u: Store) {
    forall n :: n in ns && n in s ==> n in u && u[n] == s[n]
  }

  lemma {:induction false} Frame(h: Skel, s: Store, u: Store)
    requires Fits(h, s) && SameOn(Refs(h), s, u)
    ensures Fits(h, u) && Abs(h, u) == Abs(h, s)
    decreases h
  {
    FrameAll(h.kids, s, u);
  }

  lemma {:induction false} FrameAll(hs: seq<Skel>, s: Store, u: Store)
    requires FitsAll(hs, s) && SameOn(RefsAll(hs), s, u)
    ensures FitsAll(hs, u) && AbsAll(hs, u) == AbsAll(hs, s)
    decreases hs
  {
    if hs != [] {
      Frame(hs[0], s, u);
      FrameAll(hs[1..], s, u);
    }
  }

  lemma {:induction false} RefsInStore(h: Skel, s: Store)
    requires Fits(h, s)
    ensures forall n :: n in Refs(h) ==> n in s
    decreases h
  {
    RefsInStoreAll(h.kids, s);
  }

  lemma {:induction false} RefsInStoreAll(hs: seq<Skel>, s: Store)
    requires FitsAll(hs, s)
    ensures forall n :: n in RefsAll(hs) ==> n in s
    decreases hs
  {
    if hs != [] {
      RefsInStore(hs[0], s);
      RefsInStoreAll(hs[1..], s);
    }
  }

  lemma {:induction false} Snoc(hs: seq<Skel>, k: Skel, s: Store)
    requires FitsAll(hs, s) && Fits(k, s)
    ensures FitsAll(hs + [k], s)
    ensures AbsAll(hs + [k], s) == AbsAll(hs, s) + [Abs(k, s)]
    ensures RefsAll(hs + [k]) == RefsAll(hs) + Refs(k)
    ensures Roots(hs + [k]) == Roots(hs) + [k.node]
    decreases |hs|
  {
    hide Refs, RefsAll, Abs, AbsAll, Fits, FitsAll, Roots;
    var all := hs + [k];
    if hs == [] {
      assert all == [k];
      SnocFirst(hs, k, s);
    } else {
      assert all[1..] == hs[1..] + [k];
      Uncons(hs, s);
      Snoc(hs[1..], k, s);
      Cons(all, s);
    }
  }

  lemma Uncons(hs: seq<Skel>, s: Store)
    requires FitsAll(hs, s) && hs != []
    ensures Fits(hs[0], s) && FitsAll(hs[1..], s) && AbsAll(hs, s) == [Abs(hs[0], s)] + AbsAll(hs[1..], s)
    ensures RefsAll(hs) == Refs(hs[0]) + RefsAll(hs[1..]) && Roots(hs) == [hs[0].node] + Roots(hs[1..])
  {
    hide Refs, Abs, Fits;
  }

  lemma Cons(hs: seq<Skel>, s: Store)
    requires hs != [] && Fits(hs[0], s) && FitsAll(hs[1..], s)
    ensures FitsAll(hs, s) && AbsAll(hs, s) == [Abs(hs[0], s)] + AbsAll(hs[1..], s)
    ensures RefsAll(hs) == Refs(hs[0]) + RefsAll(hs[1..]) && Roots(hs) == [hs[0].node] + Roots(hs[1..])
  {
    hide Refs, Abs, Fits;
  }

  lemma SnocFirst(hs: seq<Skel>, k: Skel, s: Store)
    requires hs == [] && Fits(k, s)
    ensures FitsAll([k], s) && AbsAll([k], s) == AbsAll(hs, s) + [Abs(k, s)]
    ensures RefsAll([k]) == RefsAll(hs) + Refs(k) && Roots([k]) == Roots(hs) + [k.node]
  {
    hide Refs, Abs, Fits;
    var all := [k];
    var e := all[1..];
    assert e == hs;
    assert FitsAll(e, s) && AbsAll(e, s) == [] && RefsAll(e) == [] && Roots(e) == [];
  }

  /** A tree made of `hs` so far gets another child, built in a store of its own. */
  lemma AddKid(hs: seq<Skel>, k: Skel, s: Store, u: Store)
    requires FitsAll(hs, s) && Distinct(RefsAll(hs)) && s.Keys == Objects(RefsAll(hs))
    requires IsTree(k, u) && u.Keys == Objects(Refs(k))
    requires s.Keys !! u.Keys
    ensures FitsAll(hs + [k], s + u) && Distinct(RefsAll(hs + [k]))
    ensures (s + u).Keys == Objects(RefsAll(hs + [k]))
    ensures AbsAll(hs + [k], s + u) == AbsAll(hs, s) + [Abs(k, u)]
    ensures Roots(hs + [k]) == Roots(hs) + [k.node]
  {
    hide Refs, RefsAll, Fits, FitsAll, Abs, AbsAll, Roots;
    FrameAll(hs, s, s + u);
    Frame(k, u, s + u);
    Snoc(hs, k, s + u);
    DistinctJoin(RefsAll(hs), Refs(k));
  }

  lemma DistinctJoin(a: seq<TreeNode>, b: seq<TreeNode>)
    requires Distinct(a) && Distinct(b) && Objects(a) !! Objects(b)
    ensures Distinct(a + b)
  {
    forall i, j | 0 <= i < |a| && 0 <= j < |b|
      ensures a[i] != b[j]
    {
      assert a[i] in Objects(a) && b[j] in Objects(b);
    }
  }

  /** A root over finished children. */
  lemma AddRoot(n: TreeNode, hs: seq<Skel>, s: Store, f: Fields)
    requires FitsAll(hs, s) && Distinct(RefsAll(hs)) && s.Keys == Objects(RefsAll(hs))
    requires n !in s && f.children == Roots(hs)
    ensures IsTree(Skel(n, hs), s[n := f])
    ensures s[n := f].Keys == Objects(Refs(Skel(n, hs)))
    ensures Abs(Skel(n, hs), s[n := f]) == Tree(n.id, f.gene, AbsAll(hs, s))
  {
    hide RefsAll, FitsAll, AbsAll, Roots;
    FrameAll(hs, s, s[n := f]);
  }

  lemma NoKids(hs: seq<Skel>, s: Store)
    requires hs == [] && s == map[]
    ensures FitsAll(hs, s) && AbsAll(hs, s) == [] && RefsAll(hs) == [] && Roots(hs) == []
  {
  }

  /** `from_dict`: new objects for every node, with the ids kept. */
  method FromDict(t: Tree) returns (n: TreeNode, ghost h: Skel, ghost s: Store)
    ensures h.node == n && IsTree(h, s) && Abs(h, s) == t
    ensures fresh(s.Keys) && Current(s) && s.Keys == Objects(Refs(h))
    decreases t
  {
    hide Refs, RefsAll, Fits, FitsAll, Abs, AbsAll, Roots, Distinct;
    var kids: seq<TreeNode> := [];
    ghost var hs: seq<Skel> := [];
    s := map[];
    NoKids(hs, s);
    DistinctNone(RefsAll(hs));
    for i := 0 to |t.children|
      invariant kids == Roots(hs) && FitsAll(hs, s) && Distinct(RefsAll(hs))
      invariant s.Keys == Objects(RefsAll(hs))
      invariant AbsAll(hs, s) == t.children[..i]
      invariant fresh(s.Keys) && Current(s)
    {
      var k, hk, sk := FromDict(t.children[i]);
      assert s.Keys !! sk.Keys by {
        assert forall m :: m in s ==> m !in sk;
      }
      AddKid(hs, hk, s, sk);
      kids, hs, s := kids + [k], hs + [hk], s + sk;
    }
    n := new TreeNode(t.id, t.gene, kids);
    assert forall m :: m in s ==> m != n;
    AddRoot(n, hs, s, Fields(t.gene, kids));
    h, s := Skel(n, hs), s[n := Fields(t.gene, kids)];
  }

  lemma DistinctNone(ns: seq<TreeNode>)
    requires ns == []
    ensures Distinct(ns)
  {
  }

  lemma {:induction false} RootsAt(hs: seq<Skel>, i: nat)
    requires i < |hs|
    ensures |Roots(hs)| == |hs| && Roots(hs)[i] == hs[i].node
    decreases |hs|
  {
    if |hs| > 1 {
      RootsAt(hs[1..], if i > 0 then i - 1 else 0);
    } else {
      var e := hs[1..];
      assert Roots(e) == [];
    }
  }

  lemma {:induction false} KidAt(hs: seq<Skel>, s: Store, i: nat)
    requires FitsAll(hs, s) && i < |hs|
    ensures |AbsAll(hs, s)| == |hs| && Fits(hs[i], s) && AbsAll(hs, s)[i] == Abs(hs[i], s)
    decreases |hs|
  {
    hide Fits, Abs;
    if |hs| > 1 {
      KidAt(hs[1..], s, if i > 0 then i - 1 else 0);
    } else {
      var e := hs[1..];
      assert AbsAll(e, s) == [];
    }
  }

  lemma NoRoots(hs: seq<Skel>, s: Store)
    requires FitsAll(hs, s)
    ensures hs == [] ==> Roots(hs) == [] && AbsAll(hs, s) == []
  {
  }

  /** `to_dict`. */
  method ToDict(n: TreeNode, ghost h: Skel, ghost s: Store) returns (t: Tree)
    requires Current(s) && Fits(h, s) && h.node == n
    ensures t == Abs(h, s)
    decreases h
  {
    hide FitsAll, AbsAll, Roots;
    NoRoots(h.kids, s);
    if h.kids != [] {
      RootsAt(h.kids, 0);
      KidAt(h.kids, s, 0);
    }
    var dicts: seq<Tree> := [];
    for i := 0 to |n.children|
      invariant |dicts| == i && forall j :: 0 <= j < i ==> dicts[j] == AbsAll(h.kids, s)[j]
    {
      RootsAt(h.kids, i);
      KidAt(h.kids, s, i);
      var d := ToDict(n.children[i], h.kids[i], s);
      dicts := dicts + [d];
    }
    return Tree(n.id, Gene(n.kind, n.value, n.params), dicts);
  }

  lemma {:induction false} RefsSplit(hs: seq<Skel>, i: nat)
    requires i < |hs|
    ensures RefsAll(hs[..i + 1]) == RefsAll(hs[..i]) + Refs(hs[i])
    decreases |hs|
  {
    hide Refs;
    if i == 0 {
      var one, e := hs[..1], hs[..0];
      assert one[1..] == e && RefsAll(e) == [];
    } else {
      assert hs[..i + 1][1..] == hs[1..][..i];
      assert hs[..i][1..] == hs[1..][..i - 1];
      RefsSplit(hs[1..], i - 1);
    }
  }

  /** `collect_nodes`: the objects of the tree, each before its children. */
  method CollectNodes(n: TreeNode, ghost h: Skel, ghost s: Store) returns (nodes: seq<TreeNode>)
    requires Current(s) && Fits(h, s) && h.node == n
    ensures nodes == Refs(h)
    decreases h
  {
    hide FitsAll, RefsAll, Roots;
    NoRoots(h.kids, s);
    if h.kids != [] {
      RootsAt(h.kids, 0);
    }
    nodes := [n];
    NoRefs(h.kids[..0]);
    for i := 0 to |n.children|
      invariant |n.children| == |h.kids|
      invariant nodes == [n] + RefsAll(h.kids[..i])
    {
      RootsAt(h.kids, i);
      KidAt(h.kids, s, i);
      var more := CollectNodes(n.children[i], h.kids[i], s);
      nodes := nodes + more;
      RefsSplit(h.kids, i);
    }
    assert h.kids[..|h.kids|] == h.kids;
  }

  lemma NoRefs(hs: seq<Skel>)
    requires hs == []
    ensures RefsAll(hs) == []
  {
  }

  ghost function Skels(h: Skel): seq<Skel>
    decreases h
  {
    [h] + SkelsAll(h.kids)
  }

  ghost function SkelsAll(hs: seq<Skel>): seq<Skel>
    decreases hs
  {
    if hs == [] then [] else Skels(hs[0]) + SkelsAll(hs[1..])
  }

  /** The `k`-th object collected stands for the `k`-th node of the tree. */
  lemma {:induction false} CollectedStands(h: Skel, s: Store)
    requires Fits(h, s)
    ensures |Skels(h)| == |Refs(h)| == |Collect(Abs(h, s))|
    ensures forall k :: 0 <= k < |Skels(h)| ==>
              Skels(h)[k].node == Refs(h)[k] && Fits(Skels(h)[k], s) && Abs(Skels(h)[k], s) == Collect(Abs(h, s))[k]
    decreases h
  {
    CollectedStandAll(h.kids, s);
  }

  lemma {:induction false} CollectedStandAll(hs: seq<Skel>, s: Store)
    requires FitsAll(hs, s)
    ensures |SkelsAll(hs)| == |RefsAll(hs)| == |CollectAll(AbsAll(hs, s))|
    ensures forall k :: 0 <= k < |SkelsAll(hs)| ==>
              SkelsAll(hs)[k].node == RefsAll(hs)[k] && Fits(SkelsAll(hs)[k], s)
              && Abs(SkelsAll(hs)[k], s) == CollectAll(AbsAll(hs, s))[k]
    decreases hs
  {
    if hs != [] {
      CollectedStands(hs[0], s);
      CollectedStandAll(hs[1..], s);
      hide Abs, Fits, Collect, AbsAll, Skels, Refs;
    }
  }
}
