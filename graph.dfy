/**
 * The credit graph of citelang (citelang/main/graph/graph.py).
 *
 * A `Node` object is a record in an arena: `children` holds arena indices
 * instead of object references, so `add_child` becomes an update of the
 * arena.  The arenas that the credit engine builds are laid out
 * breadth-first: node 0 is the root and the children of each node are the
 * next unused block of indices, in the order they were added.
 */
module CreditGraph {
  import opened Wrappers
  import opened PyStr

  /** A `graph.Node`; `name` stands for `obj.name`. */
  datatype Node = Node(
    name: string,
    weight: real,
    creditSplit: real,
    depth: nat,
    minCredit: real,
    isRoot: bool,
    children: seq<nat>,
    totalCredit: Option<real>)

  /** `Node.__init__`: a fresh node has no children and no total credit yet. */
  function NewNode(name: string, weight: real, creditSplit: real, depth: nat,
                   minCredit: real, isRoot: bool): (n: Node)
    ensures n.children == [] && n.totalCredit == None
    ensures n.name == name && n.weight == weight && n.depth == depth && n.isRoot == isRoot
    ensures n.creditSplit == creditSplit && n.minCredit == minCredit
  {
    Node(name, weight, creditSplit, depth, minCredit, isRoot, [], None)
  }

  /** The indices lo, lo + 1, ..., hi - 1. */
  function Range(lo: nat, hi: nat): (r: seq<nat>)
    requires lo <= hi
    ensures |r| == hi - lo
    ensures forall k :: 0 <= k < |r| ==> r[k] == lo + k
  {
    seq(hi - lo, k requires 0 <= k < hi - lo => lo + k)
  }

  lemma RangeConcat(a: nat, b: nat, c: nat)
    requires a <= b <= c
    ensures Range(a, b) + Range(b, c) == Range(a, c)
  {
  }

  /** Popping the front of a range. */
  lemma RangeTail(lo: nat, hi: nat)
    requires lo < hi
    ensures Range(lo, hi)[0] == lo && Range(lo, hi)[1..] == Range(lo + 1, hi)
  {
  }

  /** Every child index points forward in the arena: the arena is a forest. */
  predicate ChildrenAfter(nodes: seq<Node>) {
    forall i, t :: 0 <= i < |nodes| && 0 <= t < |nodes[i].children| ==>
      i < nodes[i].children[t] < |nodes|
  }

  /**
   * `add_child`: the child gets depth parent.depth + 1 and is appended, as a
   * new arena entry, at the end of the parent's children.
   */
  function AddChild(nodes: seq<Node>, p: nat, child: Node): (r: seq<Node>)
    requires p < |nodes|
    ensures |r| == |nodes| + 1
    ensures r[|nodes|] == child.(depth := nodes[p].depth + 1)
    ensures r[p] == nodes[p].(children := nodes[p].children + [|nodes|])
    ensures forall i :: 0 <= i < |nodes| && i != p ==> r[i] == nodes[i]
  {
    var parent := nodes[p].(children := nodes[p].children + [|nodes|]);
    nodes[p := parent] + [child.(depth := nodes[p].depth + 1)]
  }

  /** Adding a child keeps every child index pointing forward. */
  lemma AddChildKeepsForest(nodes: seq<Node>, p: nat, child: Node)
    requires p < |nodes| && ChildrenAfter(nodes)
    requires child.children == []
    ensures ChildrenAfter(AddChild(nodes, p, child))
  {
    var r := AddChild(nodes, p, child);
    forall i, t | 0 <= i < |r| && 0 <= t < |r[i].children|
      ensures i < r[i].children[t] < |r|
    {
      if i == p && t == |nodes[p].children| {
        assert r[i].children[t] == |nodes|;
      } else {
        assert i < |nodes|;
        assert r[i].children[t] == nodes[i].children[t];
      }
    }
  }

  /**
   * The `credit` property: total_credit when it is set and non-zero (Python
   * truthiness of a float), otherwise credit_split * weight.
   */
  function Credit(n: Node): (c: real)
    ensures n.totalCredit.Some? && n.totalCredit.value != 0.0 ==> c == n.totalCredit.value
    ensures n.totalCredit == None || n.totalCredit == Some(0.0) ==> c == n.creditSplit * n.weight
  {
    match n.totalCredit
    case Some(t) => if t != 0.0 then t else n.creditSplit * n.weight
    case None => n.creditSplit * n.weight
  }

  /**
   * The `round_by` property, given `text` = str(min_credit): the length of
   * the text after the first ".", or of the whole text when it has no ".",
   * and 3 when that text is empty.
   */
  function RoundBy(text: string): (r: nat)
    ensures Contains(text, ".") ==> Find(text, ".").value < |text| - 1 ==> r == |text| - Find(text, ".").value - 1
    ensures Contains(text, ".") && Find(text, ".").value == |text| - 1 ==> r == 3
    ensures !Contains(text, ".") ==> r == if text == "" then 3 else |text|
    ensures r > 0
  {
    match Find(text, ".")
    case None => if text == "" then 3 else |text|
    case Some(i) => if i == |text| - 1 then 3 else |text| - i - 1
  }

  /**
   * The start of every node's children block in a breadth-first arena:
   * block 0 starts at 1 (right after the root) and each block starts where
   * the one before it ends.
   */
  function Starts(nodes: seq<Node>): (s: seq<nat>)
    ensures |s| == |nodes| + 1 && s[0] == 1
    ensures forall i {:trigger nodes[i]} :: 0 <= i < |nodes| ==> s[i + 1] == s[i] + |nodes[i].children|
  {
    if nodes == [] then [1]
    else
      var init := nodes[..|nodes| - 1];
      var s := Starts(init);
      assert forall i :: 0 <= i < |init| ==> init[i] == nodes[i];
      s + [s[|s| - 1] + |nodes[|nodes| - 1].children|]
  }

  /** Where the children of node i start: 1 + the children of the nodes before i. */
  function ChildStart(nodes: seq<Node>, i: nat): (s: nat)
    requires i <= |nodes|
  {
    Starts(nodes)[i]
  }

  lemma {:induction false} ChildStartMono(nodes: seq<Node>, i: nat, j: nat)
    requires i <= j <= |nodes|
    ensures ChildStart(nodes, i) <= ChildStart(nodes, j)
    decreases j - i
  {
    if i < j {
      ChildStartMono(nodes, i, j - 1);
      assert ChildStart(nodes, j) == ChildStart(nodes, j - 1) + |nodes[j - 1].children|;
    }
  }

  /** ChildStart only depends on the children of the nodes before i. */
  lemma {:induction false} ChildStartPrefix(a: seq<Node>, b: seq<Node>, i: nat)
    requires i <= |a| && i <= |b|
    requires forall j :: 0 <= j < i ==> a[j].children == b[j].children
    ensures ChildStart(a, i) == ChildStart(b, i)
  {
    if i > 0 {
      ChildStartPrefix(a, b, i - 1);
      assert ChildStart(a, i) == ChildStart(a, i - 1) + |a[i - 1].children|;
      assert ChildStart(b, i) == ChildStart(b, i - 1) + |b[i - 1].children|;
    }
  }

  /** Nodes without children do not move the next block. */
  lemma {:induction false} ChildStartFlat(nodes: seq<Node>, lo: nat, hi: nat)
    requires lo <= hi <= |nodes|
    requires forall j :: lo <= j < hi ==> nodes[j].children == []
    ensures ChildStart(nodes, lo) == ChildStart(nodes, hi)
  {
    if lo < hi {
      ChildStartFlat(nodes, lo, hi - 1);
      assert ChildStart(nodes, hi) == ChildStart(nodes, hi - 1) + |nodes[hi - 1].children|;
    }
  }

  /**
   * The arena is laid out breadth-first from node 0: each node's children
   * are the block starting at ChildStart, every node was created before it
   * is expanded, and the children blocks exactly fill indices 1 .. |nodes| - 1.
   */
  predicate BfsLayout(nodes: seq<Node>) {
    && |nodes| >= 1
    && (forall i :: 0 <= i < |nodes| ==>
          nodes[i].children == Range(ChildStart(nodes, i), ChildStart(nodes, i) + |nodes[i].children|))
    && (forall k :: 0 <= k < |nodes| ==> k < ChildStart(nodes, k))
    && ChildStart(nodes, |nodes|) == |nodes|
  }

  /** A breadth-first arena is a forest with children after their parents. */
  lemma LayoutIsForest(nodes: seq<Node>)
    requires BfsLayout(nodes)
    ensures ChildrenAfter(nodes)
  {
    forall i, t | 0 <= i < |nodes| && 0 <= t < |nodes[i].children|
      ensures i < nodes[i].children[t] < |nodes|
    {
      ChildStartMono(nodes, i + 1, |nodes|);
      assert nodes[i].children[t] == ChildStart(nodes, i) + t;
    }
  }

  /**
   * `iternodes` on the root of a breadth-first arena: a worklist that pops
   * from the front and appends each popped node's children.  It visits
   * every node exactly once, in index order, starting with the root.
   */
  method IterNodes(nodes: seq<Node>) returns (order: seq<nat>)
    requires BfsLayout(nodes)
    ensures order == Range(0, |nodes|)
  {
    var work: seq<nat> := [0];
    order := [];
    while work != []
      invariant |order| <= |nodes| && |order| <= ChildStart(nodes, |order|) <= |nodes|
      invariant order == Range(0, |order|)
      invariant work == Range(|order|, ChildStart(nodes, |order|))
      decreases |nodes| - |order|
    {
      IterStep(nodes, |order|);
      var node := work[0];
      work := work[1..] + nodes[node].children;
      order := order + [node];
    }
  }

  /** One step of `iternodes`: popping node k and appending its children moves the window by one. */
  lemma IterStep(nodes: seq<Node>, k: nat)
    requires BfsLayout(nodes) && k <= |nodes| && k < ChildStart(nodes, k)
    ensures k < |nodes| && ChildStart(nodes, k + 1) <= |nodes|
    ensures Range(k, ChildStart(nodes, k))[0] == k
    ensures Range(k, ChildStart(nodes, k))[1..] + nodes[k].children == Range(k + 1, ChildStart(nodes, k + 1))
    ensures Range(0, k) + [k] == Range(0, k + 1)
  {
    ChildStartMono(nodes, k, |nodes|);
    ChildStartMono(nodes, k + 1, |nodes|);
    RangeConcat(0, k, k + 1);
    RangeConcat(k + 1, ChildStart(nodes, k), ChildStart(nodes, k + 1));
  }

  /** The finished graph: the arena and the root's `children_names`. */
  datatype Graph = Graph(nodes: seq<Node>, childrenNames: set<string>)

  /** `total_nodes`: the number of distinct names recorded on the root. */
  function TotalNodes(g: Graph): (n: nat)
    ensures n == 0 <==> g.childrenNames == {}
    ensures forall x :: x in g.childrenNames ==> 1 <= n
  {
    |g.childrenNames|
  }
}
