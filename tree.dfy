/**
 * `Tree.parse_data` (citelang/main/result.py): mirror a credit graph as
 * nested dicts and add up the credit of every node.
 *
 * The graph is the arena of `CreditGraph`; the mirror of a node is a
 * `TreeDict` (the dict with keys name, credit, weight, round_by and
 * children), and the running total threaded through `add` is returned with
 * the children it built.  `str(min_credit)` is a parameter (`show`).
 */
module CreditTree {
  import opened CreditGraph
  import opened CreditEngine

  /** One dict of the tree: name, credit, weight, round_by and the children dicts. */
  datatype TreeDict = TreeDict(name: string, credit: real, weight: real, roundBy: nat, children: seq<TreeDict>)

  /** `Tree.data`: the root dict together with its "total" entry. */
  datatype TreeData = TreeData(data: TreeDict, total: real)

  /** f applied to every node, in arena order. */
  function Values(nodes: seq<Node>, f: Node -> real): (r: seq<real>)
    ensures |r| == |nodes| && forall i :: 0 <= i < |nodes| ==> r[i] == f(nodes[i])
  {
    seq(|nodes|, i requires 0 <= i < |nodes| => f(nodes[i]))
  }

  // ---------------------------------------------------------------------
  // Sums over subtrees.
  // ---------------------------------------------------------------------

  /** The sum of f over the subtree of node i. */
  function SubW(nodes: seq<Node>, f: Node -> real, i: nat): real
    requires ChildrenAfter(nodes) && i < |nodes|
    decreases |nodes| - i, |nodes[i].children| + 1
  {
    f(nodes[i]) + KidsW(nodes, f, i, |nodes[i].children|)
  }

  /** The sum of SubW over the first k children of node i. */
  function KidsW(nodes: seq<Node>, f: Node -> real, i: nat, k: nat): real
    requires ChildrenAfter(nodes) && i < |nodes| && k <= |nodes[i].children|
    decreases |nodes| - i, k
  {
    if k == 0 then 0.0
    else
      assert i < nodes[i].children[k - 1];
      KidsW(nodes, f, i, k - 1) + SubW(nodes, f, nodes[i].children[k - 1])
  }

  /** The sum of SubW over the nodes lo .. hi - 1. */
  function RangeW(nodes: seq<Node>, f: Node -> real, lo: nat, hi: nat): real
    requires ChildrenAfter(nodes) && lo <= hi <= |nodes|
    decreases hi
  {
    if lo == hi then 0.0 else RangeW(nodes, f, lo, hi - 1) + SubW(nodes, f, hi - 1)
  }

  lemma {:induction false} RangeWSplit(nodes: seq<Node>, f: Node -> real, lo: nat, mid: nat, hi: nat)
    requires ChildrenAfter(nodes) && lo <= mid <= hi <= |nodes|
    ensures RangeW(nodes, f, lo, mid) + RangeW(nodes, f, mid, hi) == RangeW(nodes, f, lo, hi)
    decreases hi
  {
    if mid < hi {
      RangeWSplit(nodes, f, lo, mid, hi - 1);
    }
  }

  /** In a breadth-first arena the children of node i are the block that starts at ChildStart. */
  lemma {:induction false} KidsBlock(nodes: seq<Node>, f: Node -> real, i: nat, k: nat)
    requires BfsLayout(nodes) == true && ChildrenAfter(nodes) == true && i < |nodes| && k <= |nodes[i].children|
    ensures ChildStart(nodes, i) + k <= |nodes|
    ensures KidsW(nodes, f, i, k) == RangeW(nodes, f, ChildStart(nodes, i), ChildStart(nodes, i) + k)
  {
    ChildStartMono(nodes, i + 1, |nodes|);
    if k > 0 {
      KidsBlock(nodes, f, i, k - 1);
      assert nodes[i].children[k - 1] == ChildStart(nodes, i) + k - 1;
    }
  }

  /** The sum of xs[k..] is xs[k] plus the sum of xs[k + 1..]. */
  lemma SumFront(xs: seq<real>, k: nat)
    requires k < |xs|
    ensures Sum(xs[k..]) == xs[k] + Sum(xs[k + 1..])
  {
    assert xs[k..] == [xs[k]] + xs[k + 1..];
    SumAppend([xs[k]], xs[k + 1..]);
    assert [xs[k]][..0] == [];
  }

  /** A range of one node is that node's subtree. */
  lemma RangeOne(nodes: seq<Node>, f: Node -> real, k: nat)
    requires ChildrenAfter(nodes) && k < |nodes|
    ensures RangeW(nodes, f, k, k + 1) == f(nodes[k]) + KidsW(nodes, f, k, |nodes[k].children|)
  {
    assert RangeW(nodes, f, k, k + 1) == RangeW(nodes, f, k, k) + SubW(nodes, f, k);
  }

  /**
   * The breadth-first window: the nodes from k on are exactly the subtrees
   * of the nodes k .. ChildStart(k) - 1, the ones queued when node k is
   * popped.
   */
  lemma {:induction false} Window(nodes: seq<Node>, f: Node -> real, k: nat)
    requires BfsLayout(nodes) == true && ChildrenAfter(nodes) == true && k <= |nodes|
    ensures k <= ChildStart(nodes, k) <= |nodes|
    ensures Sum(Values(nodes, f)[k..]) == RangeW(nodes, f, k, ChildStart(nodes, k))
    decreases |nodes| - k
  {
    ChildStartMono(nodes, k, |nodes|);
    var xs := Values(nodes, f);
    if k == |nodes| {
      assert xs[k..] == [];
    } else {
      Window(nodes, f, k + 1);
      var s, t := ChildStart(nodes, k), ChildStart(nodes, k + 1);
      KidsWindow(nodes, f, k);
      RangeOne(nodes, f, k);
      assert xs[k] == f(nodes[k]);
      SumFront(xs, k);
      RangeWSplit(nodes, f, k, k + 1, s);
      RangeWSplit(nodes, f, k + 1, s, t);
      Shift(Sum(xs[k..]), Sum(xs[k + 1..]), xs[k], RangeW(nodes, f, k, k + 1), RangeW(nodes, f, k + 1, s),
            RangeW(nodes, f, s, t), RangeW(nodes, f, k, s), RangeW(nodes, f, k + 1, t));
    }
  }

  /** The children of node k are the window from ChildStart(k) to ChildStart(k + 1), all after k. */
  lemma KidsWindow(nodes: seq<Node>, f: Node -> real, k: nat)
    requires BfsLayout(nodes) == true && ChildrenAfter(nodes) == true && k < |nodes|
    ensures k < ChildStart(nodes, k) <= ChildStart(nodes, k + 1) <= |nodes|
    ensures KidsW(nodes, f, k, |nodes[k].children|) == RangeW(nodes, f, ChildStart(nodes, k), ChildStart(nodes, k + 1))
  {
    ChildStartMono(nodes, k + 1, |nodes|);
    assert k < ChildStart(nodes, k);
    assert ChildStart(nodes, k + 1) == ChildStart(nodes, k) + |nodes[k].children|;
    KidsBlock(nodes, f, k, |nodes[k].children|);
  }

  /** The arithmetic of one step of the window. */
  lemma Shift(whole: real, rest: real, x: real, one: real, front: real, block: real, window: real, next: real)
    requires whole == x + rest && rest == next && one == x + block
    requires window == one + front && front + block == next
    ensures whole == window
  {
  }

  /** Over a breadth-first arena the subtree of the root is the whole arena. */
  lemma RootIsAll(nodes: seq<Node>, f: Node -> real)
    requires BfsLayout(nodes)
    ensures ChildrenAfter(nodes)
    ensures SubW(nodes, f, 0) == Sum(Values(nodes, f))
  {
    LayoutIsForest(nodes);
    Window(nodes, f, 0);
    assert Values(nodes, f)[0..] == Values(nodes, f);
  }

  // ---------------------------------------------------------------------
  // The mirrored dicts.
  // ---------------------------------------------------------------------

  /** The dict `add` builds for node i. */
  function Mirror(nodes: seq<Node>, show: real -> string, i: nat): TreeDict
    requires ChildrenAfter(nodes) && i < |nodes|
    decreases |nodes| - i, |nodes[i].children| + 1
  {
    var n := nodes[i];
    TreeDict(n.name, Credit(n), n.weight, RoundBy(show(n.minCredit)), MirrorKids(nodes, show, i, |n.children|))
  }

  /** The dicts of the first k children of node i, in order. */
  function MirrorKids(nodes: seq<Node>, show: real -> string, i: nat, k: nat): (r: seq<TreeDict>)
    requires ChildrenAfter(nodes) && i < |nodes| && k <= |nodes[i].children|
    decreases |nodes| - i, k
  {
    if k == 0 then []
    else
      assert i < nodes[i].children[k - 1];
      MirrorKids(nodes, show, i, k - 1) + [Mirror(nodes, show, nodes[i].children[k - 1])]
  }

  /** The sum of the "credit" entries of a tree of dicts. */
  function DictTotal(d: TreeDict): real
    decreases d, 1
  {
    d.credit + KidsTotal(d.children)
  }

  function KidsTotal(ds: seq<TreeDict>): real
    decreases ds, 0
  {
    if ds == [] then 0.0 else KidsTotal(ds[..|ds| - 1]) + DictTotal(ds[|ds| - 1])
  }

  /** The number of dicts in a tree of dicts. */
  function DictCount(d: TreeDict): nat
    decreases d, 1
  {
    1 + KidsCount(d.children)
  }

  function KidsCount(ds: seq<TreeDict>): nat
    decreases ds, 0
  {
    if ds == [] then 0 else KidsCount(ds[..|ds| - 1]) + DictCount(ds[|ds| - 1])
  }

  lemma KidsSnoc(ds: seq<TreeDict>, d: TreeDict)
    ensures KidsTotal(ds + [d]) == KidsTotal(ds) + DictTotal(d)
    ensures KidsCount(ds + [d]) == KidsCount(ds) + DictCount(d)
  {
    assert (ds + [d])[..|ds|] == ds;
  }

  function One(n: Node): real {
    1.0
  }

  /** The credits written into the mirror of node i add up to the credit of its subtree. */
  lemma {:induction false} MirrorTotal(nodes: seq<Node>, show: real -> string, i: nat)
    requires ChildrenAfter(nodes) && i < |nodes|
    ensures DictTotal(Mirror(nodes, show, i)) == SubW(nodes, Credit, i)
    decreases |nodes| - i, |nodes[i].children| + 1
  {
    MirrorKidsTotal(nodes, show, i, |nodes[i].children|);
  }

  lemma {:induction false} MirrorKidsTotal(nodes: seq<Node>, show: real -> string, i: nat, k: nat)
    requires ChildrenAfter(nodes) && i < |nodes| && k <= |nodes[i].children|
    ensures KidsTotal(MirrorKids(nodes, show, i, k)) == KidsW(nodes, Credit, i, k)
    decreases |nodes| - i, k
  {
    if k > 0 {
      var c := nodes[i].children[k - 1];
      assert i < c;
      KidsSnoc(MirrorKids(nodes, show, i, k - 1), Mirror(nodes, show, c));
      MirrorKidsTotal(nodes, show, i, k - 1);
      MirrorTotal(nodes, show, c);
    }
  }

  /** The mirror of node i has one dict per node of its subtree. */
  lemma {:induction false} MirrorCount(nodes: seq<Node>, show: real -> string, i: nat)
    requires ChildrenAfter(nodes) && i < |nodes|
    ensures DictCount(Mirror(nodes, show, i)) as real == SubW(nodes, One, i)
    decreases |nodes| - i, |nodes[i].children| + 1
  {
    MirrorKidsCount(nodes, show, i, |nodes[i].children|);
  }

  lemma {:induction false} MirrorKidsCount(nodes: seq<Node>, show: real -> string, i: nat, k: nat)
    requires ChildrenAfter(nodes) && i < |nodes| && k <= |nodes[i].children|
    ensures KidsCount(MirrorKids(nodes, show, i, k)) as real == KidsW(nodes, One, i, k)
    decreases |nodes| - i, k
  {
    if k > 0 {
      var c := nodes[i].children[k - 1];
      assert i < c;
      var ds, d := MirrorKids(nodes, show, i, k - 1), Mirror(nodes, show, c);
      KidsSnoc(ds, d);
      MirrorKidsCount(nodes, show, i, k - 1);
      MirrorCount(nodes, show, c);
      assert KidsCount(ds + [d]) as real == KidsCount(ds) as real + DictCount(d) as real;
    }
  }

  lemma SumOnes(nodes: seq<Node>)
    ensures Sum(Values(nodes, One)) == |nodes| as real
  {
    assert Values(nodes, One) == Repeat(1.0, |nodes|);
    SumConst(|nodes|, 1.0, |nodes| as real);
  }

  // ---------------------------------------------------------------------
  // parse_data.
  // ---------------------------------------------------------------------

  /**
   * The inner function `add(data, children, total)`: add the credit of
   * node i to the total, then for each child build its dict, fill that
   * dict's children recursively and append it.
   */
  method Add(nodes: seq<Node>, show: real -> string, i: nat, total: real)
    returns (children: seq<TreeDict>, t: real)
    requires ChildrenAfter(nodes) && i < |nodes|
    ensures children == Mirror(nodes, show, i).children
    ensures t == total + SubW(nodes, Credit, i)
    decreases |nodes| - i
  {
    t := total + Credit(nodes[i]);
    children := [];
    var kids := nodes[i].children;
    for k := 0 to |kids|
      invariant children == MirrorKids(nodes, show, i, k)
      invariant t == total + Credit(nodes[i]) + KidsW(nodes, Credit, i, k)
    {
      var c := kids[k];
      assert i < c;
      var n := nodes[c];
      var grand, t' := Add(nodes, show, c, t);
      children := children + [TreeDict(n.name, Credit(n), n.weight, RoundBy(show(n.minCredit)), grand)];
      t := t';
    }
  }

  /**
   * `parse_data` on the root, node 0: the data mirrors the tree and its
   * total is the sum of the credit entries in it, which is the credit of
   * every node of the tree.  Over a breadth-first arena, as `_graph`
   * builds, the mirror holds every node once and the total is the sum of
   * all credits.
   */
  method ParseData(nodes: seq<Node>, show: real -> string) returns (p: TreeData)
    requires ChildrenAfter(nodes) && 0 < |nodes|
    ensures p.data == Mirror(nodes, show, 0)
    ensures p.total == DictTotal(p.data) == SubW(nodes, Credit, 0)
    ensures BfsLayout(nodes) ==> p.total == Sum(Credits(nodes)) && DictCount(p.data) == |nodes|
  {
    var n := nodes[0];
    var children, total := Add(nodes, show, 0, 0.0);
    p := TreeData(TreeDict(n.name, Credit(n), n.weight, RoundBy(show(n.minCredit)), children), total);
    MirrorTotal(nodes, show, 0);
    if BfsLayout(nodes) {
      MirrorCount(nodes, show, 0);
      RootIsAll(nodes, Credit);
      RootIsAll(nodes, One);
      SumOnes(nodes);
      assert Values(nodes, Credit) == Credits(nodes);
    }
  }

  /**
   * When `_graph` ends with the redistribution and no dependency entry was
   * skipped, the total that `parse_data` reports is the root's weight, 1.0.
   */
  lemma TreeTotalIsOne(cfg: Config, rootName: string, g: Graph, popped: nat, expanded: nat)
    requires Finished(cfg, rootName, g, popped, expanded, Redistributed)
    requires forall i :: 0 <= i < expanded ==> NoSkips(Deps(cfg, g.nodes[i].name))
    ensures ChildrenAfter(g.nodes) && SubW(g.nodes, Credit, 0) == 1.0
  {
    RedistributedConserves(cfg, rootName, g, popped, expanded);
    RootIsAll(g.nodes, Credit);
    assert Values(g.nodes, Credit) == Credits(g.nodes);
  }
}
