/**
 * The sunburst badge's data (citelang/main/badge/__init__.py): the credit
 * tree flattened into the parallel lists plotly's `Sunburst` takes, one
 * entry per node in preorder, and the node ids those lists are keyed by.
 * The drawing itself is not part of this model.
 */
module Badge {
  import opened Wrappers
  import opened PyStr
  import CreditTree

  /** A dict of the credit tree: its name, weight and children are what the badge reads. */
  type TreeDict = CreditTree.TreeDict

  // ---------------------------------------------------------------------
  // What `unwrap_tree` lists, node by node.
  // ---------------------------------------------------------------------

  /** The names of the tree in preorder. */
  function Labels(t: TreeDict): seq<string>
    decreases t
  {
    [t.name] + LabelsFrom(t, |t.children|)
  }

  /** The names of the subtrees of the first n children of t. */
  function LabelsFrom(t: TreeDict, n: nat): seq<string>
    requires n <= |t.children|
    decreases t, n
  {
    if n == 0 then [] else LabelsFrom(t, n - 1) + Labels(t.children[n - 1])
  }

  /** The weights of the tree in preorder. */
  function Values(t: TreeDict): seq<real>
    decreases t
  {
    [t.weight] + ValuesFrom(t, |t.children|)
  }

  function ValuesFrom(t: TreeDict, n: nat): seq<real>
    requires n <= |t.children|
    decreases t, n
  {
    if n == 0 then [] else ValuesFrom(t, n - 1) + Values(t.children[n - 1])
  }

  /** The parent names `unwrap_tree` appends for the nodes below t: before each child's subtree, t's name. */
  function Parents(t: TreeDict): seq<string>
    decreases t
  {
    ParentsFrom(t, |t.children|)
  }

  function ParentsFrom(t: TreeDict, n: nat): seq<string>
    requires n <= |t.children|
    decreases t, n
  {
    if n == 0 then [] else ParentsFrom(t, n - 1) + [t.name] + Parents(t.children[n - 1])
  }

  /** Every node of the tree in preorder, paired with the name of its parent (p for the root). */
  function Tagged(t: TreeDict, p: string): seq<(string, string)>
    decreases t
  {
    [(p, t.name)] + TaggedFrom(t, |t.children|)
  }

  function TaggedFrom(t: TreeDict, n: nat): seq<(string, string)>
    requires n <= |t.children|
    decreases t, n
  {
    if n == 0 then [] else TaggedFrom(t, n - 1) + Tagged(t.children[n - 1], t.name)
  }

  function Firsts(ps: seq<(string, string)>): (r: seq<string>)
    ensures |r| == |ps| && forall i :: 0 <= i < |ps| ==> r[i] == ps[i].0
  {
    seq(|ps|, i requires 0 <= i < |ps| => ps[i].0)
  }

  function Seconds(ps: seq<(string, string)>): (r: seq<string>)
    ensures |r| == |ps| && forall i :: 0 <= i < |ps| ==> r[i] == ps[i].1
  {
    seq(|ps|, i requires 0 <= i < |ps| => ps[i].1)
  }

  lemma Pairwise(a: seq<(string, string)>, b: seq<(string, string)>)
    ensures Firsts(a + b) == Firsts(a) + Firsts(b) && Seconds(a + b) == Seconds(a) + Seconds(b)
  {
  }

  /**
   * The lists say which node hangs below which: label i is the name of the
   * i-th node in preorder and parent i the name of that node's parent, ""
   * for the root; there is one weight per node.
   */
  lemma {:induction false} UnwrapMeans(t: TreeDict, p: string)
    ensures Labels(t) == Seconds(Tagged(t, p))
    ensures [p] + Parents(t) == Firsts(Tagged(t, p))
    ensures |Values(t)| == |Labels(t)|
    decreases t
  {
    UnwrapFromMeans(t, |t.children|);
    Pairwise([(p, t.name)], TaggedFrom(t, |t.children|));
  }

  lemma {:induction false} UnwrapFromMeans(t: TreeDict, n: nat)
    requires n <= |t.children|
    ensures LabelsFrom(t, n) == Seconds(TaggedFrom(t, n))
    ensures ParentsFrom(t, n) == Firsts(TaggedFrom(t, n))
    ensures |ValuesFrom(t, n)| == |LabelsFrom(t, n)|
    decreases t, n
  {
    if n > 0 {
      UnwrapFromMeans(t, n - 1);
      UnwrapMeans(t.children[n - 1], t.name);
      Pairwise(TaggedFrom(t, n - 1), Tagged(t.children[n - 1], t.name));
    }
  }

  /** Every parent name is the name of a node of the tree. */
  lemma {:induction false} ParentsNamed(t: TreeDict)
    ensures forall x :: x in Parents(t) ==> x in Labels(t)
    decreases t
  {
    ParentsFromNamed(t, |t.children|);
  }

  lemma {:induction false} ParentsFromNamed(t: TreeDict, n: nat)
    requires n <= |t.children|
    ensures forall x :: x in ParentsFrom(t, n) ==> x == t.name || x in LabelsFrom(t, n)
    decreases t, n
  {
    if n > 0 {
      ParentsFromNamed(t, n - 1);
      ParentsNamed(t.children[n - 1]);
    }
  }

  /** The three lists `unwrap_tree` fills, shared by all its recursive calls. */
  class Sunburst {
    var labels: seq<string>
    var parents: seq<string>
    var values: seq<real>

    /** `labels or []`, `parents or [""]`, `values or []` of the outermost call. */
    constructor()
      ensures labels == [] && parents == [""] && values == []
    {
      labels, parents, values := [], [""], [];
    }

    /** `unwrap_tree(tree_dict, labels, parents, values)` on the lists so far. */
    method Unwrap(t: TreeDict)
      modifies this
      ensures labels == old(labels) + Labels(t)
      ensures parents == old(parents) + Parents(t)
      ensures values == old(values) + Values(t)
      decreases t
    {
      labels := labels + [t.name];
      values := values + [t.weight];
      var lastNode := t.name;
      for i := 0 to |t.children|
        invariant labels == old(labels) + [t.name] + LabelsFrom(t, i)
        invariant parents == old(parents) + ParentsFrom(t, i)
        invariant values == old(values) + [t.weight] + ValuesFrom(t, i)
      {
        parents := parents + [lastNode];
        Unwrap(t.children[i]);
      }
    }
  }

  /** `unwrap_tree(tree_dict)`: the hoisted lists of the whole tree. */
  method UnwrapTree(t: TreeDict) returns (labels: seq<string>, parents: seq<string>, values: seq<real>)
    ensures labels == Labels(t) && parents == [""] + Parents(t) && values == Values(t)
    ensures |labels| == |parents| == |values|
  {
    var s := new Sunburst();
    s.Unwrap(t);
    labels, parents, values := s.labels, s.parents, s.values;
    UnwrapMeans(t, "");
  }

  // ---------------------------------------------------------------------
  // `get_ids`
  // ---------------------------------------------------------------------

  /** `[str(id) for id in range(n)]` */
  function Ids(n: nat): (r: seq<string>)
    ensures |r| == n && forall i :: 0 <= i < n ==> r[i] == NatToString(i)
  {
    seq(n, i requires 0 <= i < n => NatToString(i))
  }

  /** i is the last position of x in labels. */
  predicate LastPosition(labels: seq<string>, i: nat, x: string) {
    i < |labels| && labels[i] == x && forall j :: i < j < |labels| ==> labels[j] != x
  }

  /** `{label: idx for label, idx in zip(labels, ids)}`, with the index for the id: a later label overwrites an earlier one. */
  function Positions(labels: seq<string>): (d: map<string, nat>)
    ensures forall x :: x in d <==> x in labels
    ensures forall x :: x in d ==> LastPosition(labels, d[x], x)
  {
    if labels == [] then map[]
    else
      var n := |labels| - 1;
      var d := Positions(labels[..n]);
      assert labels == labels[..n] + [labels[n]];
      d[labels[n] := n]
  }

  /** `[dlabels[label] for label in ps]`: a label that names no node raises KeyError. */
  function Lookups(d: map<string, nat>, ps: seq<string>): (r: Result<seq<string>>)
    ensures r.Ok? ==> |r.value| == |ps|
  {
    if ps == [] then Ok([])
    else if ps[0] !in d then Err(KeyError(ps[0]))
    else
      var rest :- Lookups(d, ps[1..]);
      Ok([NatToString(d[ps[0]])] + rest)
  }

  /** `get_ids(labels, parents)` */
  function GetIds(labels: seq<string>, parents: seq<string>): (r: Result<(seq<string>, seq<string>)>)
    ensures |labels| != |parents| ==> r == Err(Exit("The list of labels should have the same length like the list of parents"))
  {
    if |labels| != |parents| then Err(Exit("The list of labels should have the same length like the list of parents"))
    else
      var parentIds :- Lookups(Positions(labels), if parents == [] then [] else parents[1..]);
      Ok((Ids(|labels|), [""] + parentIds))
  }

  /** The lookups succeed exactly when every label is known; each gives the id of the label's last position. */
  lemma {:induction false} LookupsMeans(d: map<string, nat>, ps: seq<string>)
    ensures Lookups(d, ps).Ok? <==> forall k :: 0 <= k < |ps| ==> ps[k] in d
    ensures Lookups(d, ps).Ok? ==> forall k :: 0 <= k < |ps| ==> Lookups(d, ps).value[k] == NatToString(d[ps[k]])
    ensures Lookups(d, ps).Err? ==> exists k :: 0 <= k < |ps| && ps[k] !in d && Lookups(d, ps).error == KeyError(ps[k])
  {
    if ps != [] {
      LookupsMeans(d, ps[1..]);
      if ps[0] in d && Lookups(d, ps[1..]).Err? {
        var k :| 0 <= k < |ps[1..]| && ps[1..][k] !in d && Lookups(d, ps[1..]).error == KeyError(ps[1..][k]);
        assert ps[k + 1] == ps[1..][k];
      }
    }
  }

  /**
   * Ids are "0".."n-1"; the root's parent id is "" and every other node's
   * parent id is the id of the last node carrying its parent's label; the
   * call fails only for lists of different lengths or an unknown label.
   */
  lemma GetIdsMeans(labels: seq<string>, parents: seq<string>)
    requires |labels| == |parents|
    ensures GetIds(labels, parents).Ok? <==> forall k :: 1 <= k < |parents| ==> parents[k] in labels
    ensures GetIds(labels, parents).Ok? ==>
      var (ids, parentIds) := GetIds(labels, parents).value;
      && |ids| == |labels| && |parentIds| == |parents| + (if parents == [] then 1 else 0)
      && (forall i :: 0 <= i < |labels| ==> ids[i] == NatToString(i))
      && parentIds[0] == ""
      && forall k :: 1 <= k < |parents| ==> exists i: nat :: LastPosition(labels, i, parents[k]) && parentIds[k] == ids[i]
  {
    var d := Positions(labels);
    var ps := if parents == [] then [] else parents[1..];
    LookupsMeans(d, ps);
    KnownShifted(labels, parents, d, ps);
    if Lookups(d, ps).Ok? {
      var ids := Ids(|labels|);
      var found := Lookups(d, ps).value;
      var parentIds := [""] + found;
      assert GetIds(labels, parents) == Ok((ids, parentIds));
      forall k | 1 <= k < |parents|
        ensures exists i: nat :: LastPosition(labels, i, parents[k]) && parentIds[k] == ids[i]
      {
        assert ps[k - 1] == parents[k];
        var i := d[parents[k]];
        assert LastPosition(labels, i, parents[k]);
        assert parentIds[k] == found[k - 1] == NatToString(i);
      }
    }
  }

  /** The parents after the root's are all labels exactly when they are all keys of the positions. */
  lemma KnownShifted(labels: seq<string>, parents: seq<string>, d: map<string, nat>, ps: seq<string>)
    requires d == Positions(labels) && ps == if parents == [] then [] else parents[1..]
    ensures (forall k :: 0 <= k < |ps| ==> ps[k] in d) <==> (forall k :: 1 <= k < |parents| ==> parents[k] in labels)
  {
    if parents != [] {
      forall k | 1 <= k < |parents| ensures parents[k] == ps[k - 1] {}
    }
  }

  /** The lists `unwrap_tree` makes always have ids: every parent label is a node's label. */
  lemma UnwrapHasIds(t: TreeDict)
    ensures GetIds(Labels(t), [""] + Parents(t)).Ok?
  {
    UnwrapMeans(t, "");
    ParentsNamed(t);
    var parents := [""] + Parents(t);
    forall k | 1 <= k < |parents| ensures parents[k] in Labels(t) {
      assert parents[k] == Parents(t)[k - 1];
    }
    GetIdsMeans(Labels(t), parents);
  }
}
