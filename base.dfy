/**
 * `BaseClient._graph` (citelang/main/base.py): the breadth-first builder of
 * the credit tree.
 *
 * The root gets weight 1.0.  Each popped node keeps credit_split * weight for
 * itself and splits (1 - credit_split) * weight equally among its dependency
 * entries; the loop stops on a depth limit, a limit on distinct names, or a
 * per-dependency share below min_credit, and then rewrites the total credit
 * of the nodes created so far.
 *
 * The package lookups are parameters: `lookup` gives a node's dependency
 * entries (None for a lookup that raised) and `resolve` gives the name of
 * the package that `package.get_package` returns for a dependency name.
 */
module CreditEngine {
  import opened Wrappers
  import opened PyStr
  import opened CreditGraph

  /** One entry of `dependencies(return_data=True)`; None is a missing key. */
  datatype DepRecord = DepRecord(name: Option<string>, projectName: Option<string>)

  /** The arguments of `_graph`; a max_depth or max_deps of None is 0 here. */
  datatype Config = Config(
    lookup: string -> Option<seq<DepRecord>>,
    resolve: string -> string,
    creditSplit: real,
    minCredit: real,
    maxDepth: int,
    maxDeps: int)

  /** How the loop ended. */
  datatype Outcome = QueueEmptied | StoppedOnLeaf | Redistributed | Failed

  const DefaultCreditSplit: real := 0.01
  const DefaultMinCredit: real := 0.01

  /** The dependencies of a node; a lookup that raised gives none. */
  function Deps(cfg: Config, name: string): seq<DepRecord> {
    match cfg.lookup(name)
    case Some(ds) => ds
    case None => []
  }

  /** The names that the `node_names` comprehension records for a list of entries. */
  function Recorded(ds: seq<DepRecord>): set<string> {
    set d | d in ds && d.name.Some? && !StartsWith(d.name.value, "__") :: d.name.value
  }

  /**
   * `dep["name"] or dep["project_name"]`, then the skip test: Ok(None) for an
   * entry that produces no child, a KeyError for a missing key.
   */
  function DepName(d: DepRecord): (r: Result<Option<string>>)
    ensures d.name.None? ==> r == Err(KeyError("name"))
    ensures d.name.Some? && d.name.value == "" && d.projectName.None? ==> r == Err(KeyError("project_name"))
    ensures d.name.Some? && d.name.value != "" ==>
      r == Ok(if StartsWith(d.name.value, "__") then None else d.name)
    ensures d.name == Some("") && d.projectName.Some? ==>
      r == Ok(if d.projectName.value == "" || StartsWith(d.projectName.value, "__") then None else d.projectName)
  {
    match d.name
    case None => Err(KeyError("name"))
    case Some(n) =>
      if n != "" then Ok(if StartsWith(n, "__") then None else Some(n))
      else match d.projectName
        case None => Err(KeyError("project_name"))
        case Some(pn) => Ok(if pn == "" || StartsWith(pn, "__") then None else Some(pn))
  }

  /**
   * The dependency names that get a child, in entry order, or the first
   * KeyError.
   */
  function KeptNames(ds: seq<DepRecord>): (r: Result<seq<string>>)
    ensures r.Ok? ==> |r.value| <= |ds|
    ensures r.Err? ==> r.error.KeyError?
  {
    if ds == [] then Ok([])
    else
      var init := ds[..|ds| - 1];
      var last := ds[|ds| - 1];
      match KeptNames(init)
      case Err(e) => Err(e)
      case Ok(ks) =>
        match DepName(last)
        case Err(e) => Err(e)
        case Ok(None) => Ok(ks)
        case Ok(Some(x)) => Ok(ks + [x])
  }

  /**
   * What KeptNames keeps: it fails exactly when some entry raises, each kept
   * name is non-empty and does not start with "__", and when nothing was
   * skipped the t-th kept name is the name of entry t.
   */
  lemma {:induction false} KeptNamesSpec(ds: seq<DepRecord>)
    ensures var r := KeptNames(ds);
      && (r.Ok? <==> forall k :: 0 <= k < |ds| ==> DepName(ds[k]).Ok?)
      && (r.Ok? ==> forall k :: 0 <= k < |r.value| ==> r.value[k] != "" && !StartsWith(r.value[k], "__"))
      && (r.Ok? && |r.value| == |ds| ==> forall k :: 0 <= k < |ds| ==> DepName(ds[k]) == Ok(Some(r.value[k])))
  {
    if ds != [] {
      var init := ds[..|ds| - 1];
      KeptNamesSpec(init);
      assert forall k :: 0 <= k < |init| ==> init[k] == ds[k];
    }
  }

  /** No entry of the list was skipped. */
  predicate NoSkips(ds: seq<DepRecord>) {
    KeptNames(ds).Ok? && |KeptNames(ds).value| == |ds|
  }

  /** `dep_credit`: (1 - credit_split) * weight, split equally among k entries. */
  function ChildWeight(w: real, cs: real, k: nat): real
    requires k > 0
  {
    ((1.0 - cs) * w) / (k as real)
  }

  /** The depth and distinct-name limits; 0 means no limit. */
  predicate LimitHit(cfg: Config, depth: nat, seenCount: nat) {
    (cfg.maxDepth != 0 && depth > cfg.maxDepth) || (cfg.maxDeps != 0 && seenCount + 1 > cfg.maxDeps)
  }

  /** The share limit, tested only when there are dependencies. */
  predicate ShareTooSmall(cfg: Config, w: real, ds: seq<DepRecord>) {
    ds != [] && ChildWeight(w, cfg.creditSplit, |ds|) < cfg.minCredit
  }

  /** The `seen` set when node k is popped: the names of the nodes before it. */
  function NamesBefore(nodes: seq<Node>, k: nat): set<string>
    requires k <= |nodes|
  {
    set i | 0 <= i < k :: nodes[i].name
  }

  /** One of the three stop rules fires when node i is popped. */
  predicate Triggered(cfg: Config, nodes: seq<Node>, i: nat)
    requires i < |nodes|
  {
    LimitHit(cfg, nodes[i].depth, |NamesBefore(nodes, i)|)
    || ShareTooSmall(cfg, nodes[i].weight, Deps(cfg, nodes[i].name))
  }

  /** The `node_names` set after k nodes were popped. */
  function NodeNames(cfg: Config, nodes: seq<Node>, k: nat): set<string>
    requires k <= |nodes|
  {
    if k == 0 then {}
    else NodeNames(cfg, nodes, k - 1) + Recorded(Deps(cfg, nodes[k - 1].name)) + {nodes[k - 1].name}
  }

  /** The fields a child node is created with. */
  predicate IsChild(cfg: Config, nd: Node, name: string, weight: real, depth: nat) {
    && nd.name == name && nd.weight == weight && nd.depth == depth
    && nd.creditSplit == cfg.creditSplit && nd.minCredit == cfg.minCredit && !nd.isRoot
  }

  /** cfg.resolve applied to each kept dependency name. */
  function Resolved(cfg: Config, ks: seq<string>): (r: seq<string>)
    ensures |r| == |ks| && forall t :: 0 <= t < |ks| ==> r[t] == cfg.resolve(ks[t])
  {
    seq(|ks|, t requires 0 <= t < |ks| => cfg.resolve(ks[t]))
  }

  /**
   * Node i was expanded: no children when it has no dependencies, and
   * otherwise one child per kept entry, in entry order, with depth + 1 and
   * the equal share of (1 - credit_split) * weight.
   */
  predicate ExpandedOk(cfg: Config, nodes: seq<Node>, i: nat)
    requires i < |nodes|
  {
    var ds := Deps(cfg, nodes[i].name);
    var ch := nodes[i].children;
    if ds == [] then ch == []
    else
      && KeptNames(ds).Ok?
      && |ch| == |KeptNames(ds).value|
      && forall t :: 0 <= t < |ch| ==>
           ch[t] < |nodes|
           && IsChild(cfg, nodes[ch[t]], cfg.resolve(KeptNames(ds).value[t]),
                      ChildWeight(nodes[i].weight, cfg.creditSplit, |ds|), nodes[i].depth + 1)
  }

  /** The fields every node is created with: the root's, and those of a child. */
  predicate Fields(cfg: Config, rootName: string, nodes: seq<Node>)
    requires 1 <= |nodes|
  {
    && nodes[0].name == rootName && nodes[0].weight == 1.0 && nodes[0].depth == 0 && nodes[0].isRoot
    && nodes[0].creditSplit == cfg.creditSplit && nodes[0].minCredit == cfg.minCredit
    && (forall i :: 1 <= i < |nodes| ==>
          !nodes[i].isRoot && nodes[i].weight >= cfg.minCredit
          && nodes[i].creditSplit == cfg.creditSplit && nodes[i].minCredit == cfg.minCredit)
  }

  /**
   * The breadth-first layout while the first `expanded` nodes have been
   * expanded: each children block starts at ChildStart, the blocks of the
   * expanded nodes exactly fill indices 1 .. |nodes| - 1, and the other
   * nodes have no children yet.
   */
  predicate Layout(nodes: seq<Node>, expanded: nat)
    requires expanded <= |nodes|
  {
    && (forall i :: 0 <= i < |nodes| ==>
          nodes[i].children == Range(ChildStart(nodes, i), ChildStart(nodes, i) + |nodes[i].children|))
    && (forall k :: 0 <= k < expanded ==> k < ChildStart(nodes, k))
    && ChildStart(nodes, expanded) == |nodes|
    && (forall i :: expanded <= i < |nodes| ==> nodes[i].children == [])
    && (|nodes| > 1 ==> nodes[0].children != [])
  }

  /**
   * The arena after `expanded` nodes were expanded: the fields, the layout,
   * and what each expansion created.
   */
  predicate Built(cfg: Config, rootName: string, nodes: seq<Node>, expanded: nat) {
    && 1 <= |nodes| && expanded <= |nodes|
    && Fields(cfg, rootName, nodes)
    && Layout(nodes, expanded)
    && (forall i :: 0 <= i < expanded ==> ExpandedOk(cfg, nodes, i))
  }

  // ---------------------------------------------------------------------
  // Credit mass: the share each node keeps, summed over the arena.
  // ---------------------------------------------------------------------

  /** The credit a node ends with after redistribution: credit_split * weight once it has children, else its weight. */
  function Share(cs: real, nd: Node): real {
    if nd.children != [] then cs * nd.weight else nd.weight
  }

  function Shares(cs: real, nodes: seq<Node>): (r: seq<real>)
    ensures |r| == |nodes| && forall i :: 0 <= i < |nodes| ==> r[i] == Share(cs, nodes[i])
  {
    seq(|nodes|, i requires 0 <= i < |nodes| => Share(cs, nodes[i]))
  }

  /** The `credit` of every node, in arena order. */
  function Credits(nodes: seq<Node>): (r: seq<real>)
    ensures |r| == |nodes| && forall i :: 0 <= i < |nodes| ==> r[i] == Credit(nodes[i])
  {
    seq(|nodes|, i requires 0 <= i < |nodes| => Credit(nodes[i]))
  }

  function Sum(xs: seq<real>): real {
    if xs == [] then 0.0 else Sum(xs[..|xs| - 1]) + xs[|xs| - 1]
  }

  lemma {:induction false} SumAppend(xs: seq<real>, ys: seq<real>)
    ensures Sum(xs + ys) == Sum(xs) + Sum(ys)
    decreases |ys|
  {
    if ys != [] {
      assert (xs + ys)[..|xs + ys| - 1] == xs + ys[..|ys| - 1];
      SumAppend(xs, ys[..|ys| - 1]);
    } else {
      assert xs + ys == xs;
    }
  }

  lemma {:induction false} SumUpdate(xs: seq<real>, i: nat, x: real)
    requires i < |xs|
    ensures Sum(xs[i := x]) == Sum(xs) - xs[i] + x
  {
    assert xs == xs[..i] + [xs[i]] + xs[i + 1..];
    assert xs[i := x] == xs[..i] + [x] + xs[i + 1..];
    SumAppend(xs[..i] + [xs[i]], xs[i + 1..]);
    SumAppend(xs[..i] + [x], xs[i + 1..]);
    SumAppend(xs[..i], [xs[i]]);
    SumAppend(xs[..i], [x]);
  }

  /** n copies of c. */
  function Repeat(c: real, n: nat): (r: seq<real>)
    ensures |r| == n && forall i :: 0 <= i < n ==> r[i] == c
  {
    seq(n, _ => c)
  }

  lemma {:induction false} SumConst(n: nat, c: real, t: real)
    requires t == (n as real) * c
    ensures Sum(Repeat(c, n)) == t
  {
    if n > 0 {
      assert Repeat(c, n)[..n - 1] == Repeat(c, n - 1);
      SumConst(n - 1, c, ((n - 1) as real) * c);
    }
  }

  lemma {:induction false} SumLower(xs: seq<real>, m: real)
    requires forall i :: 0 <= i < |xs| ==> xs[i] >= m
    ensures Sum(xs) >= (|xs| as real) * m
  {
    if xs != [] {
      SumLower(xs[..|xs| - 1], m);
    }
  }

  /** A positive lower bound on every share: min(cs, 1) * min(mc, 1). */
  function MinShare(cfg: Config): real {
    (if cfg.creditSplit < 1.0 then cfg.creditSplit else 1.0) * (if cfg.minCredit < 1.0 then cfg.minCredit else 1.0)
  }

  /**
   * The shares never exceed the root's weight 1.0 and add up to exactly 1.0
   * while no entry has been skipped; every share is at least MinShare.
   */
  predicate Mass(cfg: Config, nodes: seq<Node>, expanded: nat)
    requires expanded <= |nodes|
  {
    && Sum(Shares(cfg.creditSplit, nodes)) <= 1.0
    && ((forall i :: 0 <= i < expanded ==> NoSkips(Deps(cfg, nodes[i].name)))
          ==> Sum(Shares(cfg.creditSplit, nodes)) == 1.0)
    && Floor(Shares(cfg.creditSplit, nodes), MinShare(cfg))
  }

  /** Every entry of xs is at least m. */
  predicate Floor(xs: seq<real>, m: real) {
    forall i :: 0 <= i < |xs| ==> xs[i] >= m
  }

  // ---------------------------------------------------------------------
  // Expanding one node.
  // ---------------------------------------------------------------------

  /** The new nodes for the names, each a fresh child of weight w at the given depth. */
  function Fresh(cfg: Config, names: seq<string>, w: real, depth: nat): (r: seq<Node>)
    ensures |r| == |names|
    ensures forall t :: 0 <= t < |names| ==>
      r[t] == NewNode(names[t], w, cfg.creditSplit, depth, cfg.minCredit, false)
  {
    seq(|names|, t requires 0 <= t < |names| => NewNode(names[t], w, cfg.creditSplit, depth, cfg.minCredit, false))
  }

  /**
   * The arena after node p got one child per name, each with weight w: the
   * new nodes go at the end and their indices at the end of p's children.
   */
  function Attach(cfg: Config, nodes: seq<Node>, p: nat, names: seq<string>, w: real): (r: seq<Node>)
    requires p < |nodes|
    ensures |r| == |nodes| + |names|
  {
    var parent := nodes[p].(children := nodes[p].children + Range(|nodes|, |nodes| + |names|));
    nodes[p := parent] + Fresh(cfg, names, w, nodes[p].depth + 1)
  }

  /**
   * What Attach does: the parent's children grow by the new block of
   * indices, every other existing node is untouched, and the new nodes are
   * fresh children with the parent's depth + 1.
   */
  lemma AttachShape(cfg: Config, nodes: seq<Node>, p: nat, names: seq<string>, w: real)
    requires p < |nodes|
    ensures var r := Attach(cfg, nodes, p, names, w);
      && r[p] == nodes[p].(children := nodes[p].children + Range(|nodes|, |r|))
      && (forall i :: 0 <= i < |nodes| && i != p ==> r[i] == nodes[i])
      && (forall t :: 0 <= t < |names| ==>
            r[|nodes| + t] == NewNode(names[t], w, cfg.creditSplit, nodes[p].depth + 1, cfg.minCredit, false))
      && (forall i :: |nodes| <= i < |r| ==>
            r[i].children == [] && r[i].weight == w && r[i].totalCredit == None
            && !r[i].isRoot && r[i].creditSplit == cfg.creditSplit && r[i].minCredit == cfg.minCredit)
  {
    var r := Attach(cfg, nodes, p, names, w);
    var born := Fresh(cfg, names, w, nodes[p].depth + 1);
    assert forall i :: |nodes| <= i < |r| ==> r[i] == born[i - |nodes|];
  }

  /** Attaching no names changes nothing. */
  lemma AttachNone(cfg: Config, nodes: seq<Node>, p: nat, w: real)
    requires p < |nodes|
    ensures Attach(cfg, nodes, p, [], w) == nodes
  {
    var r := Attach(cfg, nodes, p, [], w);
    assert Range(|nodes|, |nodes|) == [];
    assert nodes[p].children + [] == nodes[p].children;
    assert r[p] == nodes[p];
    assert forall i :: 0 <= i < |r| ==> r[i] == nodes[i];
  }

  /** The source's loop of `add_child` calls: one more name is one more `add_child`. */
  lemma AttachSnoc(cfg: Config, nodes: seq<Node>, p: nat, names: seq<string>, x: string, w: real)
    requires p < |nodes|
    ensures Attach(cfg, nodes, p, names + [x], w)
      == AddChild(Attach(cfg, nodes, p, names, w), p,
                  NewNode(x, w, cfg.creditSplit, nodes[p].depth + 1, cfg.minCredit, false))
  {
    var a := Attach(cfg, nodes, p, names + [x], w);
    var b := AddChild(Attach(cfg, nodes, p, names, w), p,
                      NewNode(x, w, cfg.creditSplit, nodes[p].depth + 1, cfg.minCredit, false));
    AttachShape(cfg, nodes, p, names + [x], w);
    AttachShape(cfg, nodes, p, names, w);
    RangeConcat(|nodes|, |nodes| + |names|, |nodes| + |names| + 1);
    assert Range(|nodes| + |names|, |nodes| + |names| + 1) == [|nodes| + |names|];
    forall i | 0 <= i < |a| ensures a[i] == b[i] {
      if |nodes| <= i < |a| - 1 {
        assert (names + [x])[i - |nodes|] == names[i - |nodes|];
      }
    }
  }

  lemma {:induction false} KeptNamesPrefixErr(ds: seq<DepRecord>, k: nat)
    requires k <= |ds| && KeptNames(ds[..k]).Err?
    ensures KeptNames(ds) == KeptNames(ds[..k])
    decreases |ds| - k
  {
    if k < |ds| {
      assert ds[..k + 1][..k] == ds[..k];
      KeptNamesPrefixErr(ds, k + 1);
    } else {
      assert ds[..k] == ds;
    }
  }

  /** One more kept name adds one child at the end of the arena. */
  lemma AttachStep(cfg: Config, nodes: seq<Node>, p: nat, ks: seq<string>, x: string, w: real)
    requires p < |nodes|
    ensures var cur := Attach(cfg, nodes, p, Resolved(cfg, ks), w);
      && AddChild(cur, p, NewNode(cfg.resolve(x), w, cfg.creditSplit, nodes[p].depth + 1, cfg.minCredit, false))
           == Attach(cfg, nodes, p, Resolved(cfg, ks + [x]), w)
  {
    assert Resolved(cfg, ks + [x]) == Resolved(cfg, ks) + [cfg.resolve(x)];
    AttachSnoc(cfg, nodes, p, Resolved(cfg, ks), cfg.resolve(x), w);
  }

  /** Appending index m to a queue that ends with the block n .. m - 1. */
  lemma QueueStep(q: seq<nat>, n: nat, m: nat)
    requires n <= m
    ensures q + Range(n, m) + [m] == q + Range(n, m + 1)
  {
    RangeConcat(n, m, m + 1);
  }

  /** KeptNames of a prefix grows one entry at a time. */
  lemma KeptNamesSnoc(ds: seq<DepRecord>, k: nat)
    requires k < |ds| && KeptNames(ds[..k]).Ok?
    ensures DepName(ds[k]).Err? ==> KeptNames(ds[..k + 1]) == Err(DepName(ds[k]).error)
    ensures DepName(ds[k]) == Ok(None) ==> KeptNames(ds[..k + 1]) == KeptNames(ds[..k])
    ensures DepName(ds[k]).Ok? && DepName(ds[k]).value.Some? ==>
      KeptNames(ds[..k + 1]) == Ok(KeptNames(ds[..k]).value + [DepName(ds[k]).value.value])
  {
    assert ds[..k + 1][..k] == ds[..k];
  }

  /**
   * `next_node.add_child(child)`, `next_nodes.append(child)` and
   * `previous.append(child)`: the new node's index goes at the back of both
   * lists, which therefore keep ending with the block of new indices.
   */
  method Adopt(cur: seq<Node>, p: nat, child: Node, queue: seq<nat>, previous: seq<nat>,
               ghost queue0: seq<nat>, ghost previous0: seq<nat>, ghost n: nat)
    returns (cur': seq<Node>, queue': seq<nat>, previous': seq<nat>)
    requires p < |cur| && n <= |cur|
    requires queue == queue0 + Range(n, |cur|) && previous == previous0 + Range(n, |cur|)
    ensures cur' == AddChild(cur, p, child)
    ensures queue' == queue0 + Range(n, |cur'|) && previous' == previous0 + Range(n, |cur'|)
  {
    var index := |cur|;
    cur' := AddChild(cur, p, child);
    QueueStep(queue0, n, index);
    QueueStep(previous0, n, index);
    queue' := queue + [index];
    previous' := previous + [index];
  }

  /**
   * The inner loop over `deps`: one child per entry that is not skipped,
   * appended to the parent, the queue and `previous`.  An entry without a
   * "name" key, or with an empty name and no "project_name" key, raises.
   */
  method Expand(cfg: Config, nodes: seq<Node>, p: nat, deps: seq<DepRecord>, depCredit: real,
                queue: seq<nat>, previous: seq<nat>)
    returns (r: Result<seq<Node>>, queue': seq<nat>, previous': seq<nat>)
    requires p < |nodes|
    ensures r.Ok? <==> KeptNames(deps).Ok?
    ensures r.Err? ==> r == Err(KeptNames(deps).error)
    ensures r.Ok? ==> r.value == Attach(cfg, nodes, p, Resolved(cfg, KeptNames(deps).value), depCredit)
    ensures r.Ok? ==> queue' == queue + Range(|nodes|, |r.value|)
    ensures r.Ok? ==> previous' == previous + Range(|nodes|, |r.value|)
  {
    var cur := nodes;
    queue' := queue;
    previous' := previous;
    ghost var ks: seq<string> := [];
    var k := 0;
    AttachNone(cfg, nodes, p, depCredit);
    while k < |deps|
      invariant 0 <= k <= |deps|
      invariant KeptNames(deps[..k]) == Ok(ks)
      invariant cur == Attach(cfg, nodes, p, Resolved(cfg, ks), depCredit)
      invariant queue' == queue + Range(|nodes|, |cur|)
      invariant previous' == previous + Range(|nodes|, |cur|)
    {
      KeptNamesSnoc(deps, k);
      var dep := DepName(deps[k]);
      if dep.Err? {
        KeptNamesPrefixErr(deps, k + 1);
        return Err(dep.error), queue', previous';
      }
      if dep.value.Some? {
        var depName := dep.value.value;
        var child := NewNode(cfg.resolve(depName), depCredit, cfg.creditSplit, nodes[p].depth + 1, cfg.minCredit, false);
        AttachStep(cfg, nodes, p, ks, depName, depCredit);
        cur, queue', previous' := Adopt(cur, p, child, queue', previous', queue, previous, |nodes|);
        ks := ks + [depName];
      }
      k := k + 1;
    }
    assert deps[..k] == deps;
    r := Ok(cur);
  }

  // ---------------------------------------------------------------------
  // Redistribution after a stop.
  // ---------------------------------------------------------------------

  lemma DivMul(x: real, k: real)
    requires k != 0.0
    ensures (x / k) * k == x
  {
  }

  /**
   * The redistribution branch: the stopping node p gets its weight, then
   * every node of `previous` in order gives each of its k children
   * ((1 - credit_split) * weight) / k and keeps the rest, or keeps its whole
   * weight when it has no children.  Since children come after their parent
   * in `previous`, each node ends with the value of its own pass.
   */
  method Redistribute(nodes: seq<Node>, p: nat, previous: seq<nat>, cs: real) returns (r: seq<Node>)
    requires p < |nodes| && nodes[p].children == []
    requires previous == Range(1, |nodes|)
    requires ChildrenAfter(nodes)
    ensures |r| == |nodes|
    ensures forall i :: 0 <= i < |nodes| ==> r[i] == nodes[i].(totalCredit := r[i].totalCredit)
    ensures r[0].totalCredit == if p == 0 then Some(nodes[0].weight) else nodes[0].totalCredit
    ensures forall i :: 1 <= i < |nodes| ==> r[i].totalCredit == Some(Share(cs, nodes[i]))
  {
    r := nodes[p := nodes[p].(totalCredit := Some(nodes[p].weight))];
    var t := 0;
    while t < |previous|
      invariant 0 <= t <= |previous| && |r| == |nodes|
      invariant forall i :: 0 <= i < |nodes| ==> r[i] == nodes[i].(totalCredit := r[i].totalCredit)
      invariant r[0].totalCredit == if p == 0 then Some(nodes[0].weight) else nodes[0].totalCredit
      invariant forall i :: 1 <= i < t + 1 ==> r[i].totalCredit == Some(Share(cs, nodes[i]))
    {
      var node := previous[t];
      assert node == t + 1;
      if r[node].children != [] {
        var k := |r[node].children|;
        var depCredit := ((1.0 - cs) * r[node].weight) / (k as real);
        var j := 0;
        while j < k
          invariant 0 <= j <= k && |r| == |nodes|
          invariant forall i :: 0 <= i < |nodes| ==> r[i] == nodes[i].(totalCredit := r[i].totalCredit)
          invariant r[0].totalCredit == if p == 0 then Some(nodes[0].weight) else nodes[0].totalCredit
          invariant forall i :: 1 <= i < t + 1 ==> r[i].totalCredit == Some(Share(cs, nodes[i]))
        {
          var child := r[node].children[j];
          assert node < child < |nodes| by {
            assert r[node].children[j] == nodes[node].children[j];
          }
          r := r[child := r[child].(totalCredit := Some(depCredit))];
          j := j + 1;
        }
        DivMul((1.0 - cs) * r[node].weight, k as real);
        assert r[node].weight - depCredit * (k as real) == Share(cs, nodes[node]);
        r := r[node := r[node].(totalCredit := Some(r[node].weight - depCredit * (k as real)))];
      } else {
        assert r[node].weight == Share(cs, nodes[node]);
        r := r[node := r[node].(totalCredit := Some(r[node].weight))];
      }
      t := t + 1;
    }
  }

  // ---------------------------------------------------------------------
  // Facts that only depend on some fields of the nodes.
  // ---------------------------------------------------------------------

  /** Everything but children and totals. */
  predicate SameFields(a: Node, b: Node) {
    a.name == b.name && a.weight == b.weight && a.depth == b.depth && a.isRoot == b.isRoot
    && a.creditSplit == b.creditSplit && a.minCredit == b.minCredit
  }

  lemma NamesBeforeSame(a: seq<Node>, b: seq<Node>, k: nat)
    requires k <= |a| && k <= |b|
    requires forall i :: 0 <= i < k ==> a[i].name == b[i].name
    ensures NamesBefore(a, k) == NamesBefore(b, k)
  {
    forall x | x in NamesBefore(a, k) ensures x in NamesBefore(b, k) {
      var i :| 0 <= i < k && a[i].name == x;
      assert b[i].name == x;
    }
    forall x | x in NamesBefore(b, k) ensures x in NamesBefore(a, k) {
      var i :| 0 <= i < k && b[i].name == x;
      assert a[i].name == x;
    }
  }

  lemma {:induction false} NodeNamesSame(cfg: Config, a: seq<Node>, b: seq<Node>, k: nat)
    requires k <= |a| && k <= |b|
    requires forall i :: 0 <= i < k ==> a[i].name == b[i].name
    ensures NodeNames(cfg, a, k) == NodeNames(cfg, b, k)
  {
    if k > 0 {
      NodeNamesSame(cfg, a, b, k - 1);
    }
  }

  lemma NamesBeforeStep(nodes: seq<Node>, k: nat)
    requires k < |nodes|
    ensures NamesBefore(nodes, k + 1) == NamesBefore(nodes, k) + {nodes[k].name}
  {
  }

  /** The fields that the stop rules, the name sets and the weights read agree on a prefix. */
  lemma PrefixSame(cfg: Config, a: seq<Node>, b: seq<Node>, n: nat)
    requires n <= |a| && n <= |b|
    requires forall i :: 0 <= i < n ==> SameFields(a[i], b[i])
    ensures forall k :: 0 <= k <= n ==> NamesBefore(a, k) == NamesBefore(b, k)
    ensures forall k :: 0 <= k <= n ==> NodeNames(cfg, a, k) == NodeNames(cfg, b, k)
    ensures forall i :: 0 <= i < n ==> Triggered(cfg, a, i) == Triggered(cfg, b, i)
  {
    forall k | 0 <= k <= n ensures NamesBefore(a, k) == NamesBefore(b, k) {
      NamesBeforeSame(a, b, k);
    }
    forall k | 0 <= k <= n ensures NodeNames(cfg, a, k) == NodeNames(cfg, b, k) {
      NodeNamesSame(cfg, a, b, k);
    }
  }

  /** Two arenas that differ only in the totals have the same children layout. */
  lemma ChildStartSame(a: seq<Node>, b: seq<Node>)
    requires |a| == |b|
    requires forall i :: 0 <= i < |a| ==> a[i].children == b[i].children
    ensures forall k :: 0 <= k <= |a| ==> ChildStart(a, k) == ChildStart(b, k)
  {
    forall k | 0 <= k <= |a| ensures ChildStart(a, k) == ChildStart(b, k) {
      ChildStartPrefix(a, b, k);
    }
  }

  /** What an expansion created survives any change that keeps the fields and the node's own children. */
  lemma ExpandedOkGrow(cfg: Config, a: seq<Node>, b: seq<Node>, i: nat)
    requires |a| <= |b| && i < |a|
    requires forall j :: 0 <= j < |a| ==> SameFields(a[j], b[j])
    requires a[i].children == b[i].children
    requires ExpandedOk(cfg, a, i)
    ensures ExpandedOk(cfg, b, i)
  {
    var ch := a[i].children;
    var ds := Deps(cfg, a[i].name);
    assert SameFields(a[i], b[i]);
    if ds != [] {
      forall t | 0 <= t < |ch| ensures ch[t] < |b| && SameFields(a[ch[t]], b[ch[t]]) {
      }
    }
  }

  lemma FieldsSame(cfg: Config, rootName: string, a: seq<Node>, b: seq<Node>)
    requires 1 <= |a| == |b|
    requires forall i :: 0 <= i < |a| ==> SameFields(a[i], b[i])
    requires Fields(cfg, rootName, a)
    ensures Fields(cfg, rootName, b)
  {
    assert SameFields(a[0], b[0]);
    forall i | 1 <= i < |b|
      ensures !b[i].isRoot && b[i].weight >= cfg.minCredit
      ensures b[i].creditSplit == cfg.creditSplit && b[i].minCredit == cfg.minCredit
    {
      assert SameFields(a[i], b[i]);
    }
  }

  lemma LayoutSame(a: seq<Node>, b: seq<Node>, e: nat)
    requires |a| == |b| && e <= |a|
    requires forall i :: 0 <= i < |a| ==> a[i].children == b[i].children
    requires Layout(a, e)
    ensures Layout(b, e)
  {
    ChildStartSame(a, b);
  }

  lemma SharesSame(cs: real, a: seq<Node>, b: seq<Node>)
    requires |a| == |b|
    requires forall i :: 0 <= i < |a| ==> a[i].weight == b[i].weight && a[i].children == b[i].children
    ensures Shares(cs, a) == Shares(cs, b)
  {
    forall i | 0 <= i < |a| ensures Shares(cs, a)[i] == Shares(cs, b)[i] {
      assert Share(cs, a[i]) == Share(cs, b[i]);
    }
  }

  /** Changing only the totals preserves the built structure and the shares. */
  lemma TotalsOnly(cfg: Config, rootName: string, a: seq<Node>, b: seq<Node>, e: nat)
    requires |a| == |b| && e <= |a|
    requires forall i :: 0 <= i < |a| ==> SameFields(a[i], b[i]) && a[i].children == b[i].children
    requires Built(cfg, rootName, a, e)
    ensures Built(cfg, rootName, b, e)
    ensures Shares(cfg.creditSplit, a) == Shares(cfg.creditSplit, b)
  {
    FieldsSame(cfg, rootName, a, b);
    LayoutSame(a, b, e);
    forall i | 0 <= i < e ensures ExpandedOk(cfg, b, i) {
      ExpandedOkGrow(cfg, a, b, i);
    }
    SharesSame(cfg.creditSplit, a, b);
  }

  // ---------------------------------------------------------------------
  // One step of the main loop.
  // ---------------------------------------------------------------------

  /** A built arena is a breadth-first arena. */
  lemma BuiltIsBfs(cfg: Config, rootName: string, nodes: seq<Node>, e: nat)
    requires Built(cfg, rootName, nodes, e)
    ensures BfsLayout(nodes)
  {
    forall k | e <= k < |nodes| ensures k < ChildStart(nodes, k) {
      ChildStartFlat(nodes, e, k);
    }
    ChildStartFlat(nodes, e, |nodes|);
  }

  /** Popping a node without dependencies expands it to nothing. */
  lemma BuiltLeaf(cfg: Config, rootName: string, nodes: seq<Node>, e: nat)
    requires Built(cfg, rootName, nodes, e) && e < |nodes|
    requires Deps(cfg, nodes[e].name) == []
    ensures Built(cfg, rootName, nodes, e + 1)
  {
    assert ChildStart(nodes, e + 1) == ChildStart(nodes, e) + |nodes[e].children|;
  }

  lemma MassLeaf(cfg: Config, nodes: seq<Node>, e: nat)
    requires e < |nodes| && Mass(cfg, nodes, e)
    requires Deps(cfg, nodes[e].name) == []
    ensures Mass(cfg, nodes, e + 1)
  {
    assert NoSkips(Deps(cfg, nodes[e].name));
  }

  /** Expanding node e keeps the fields: the new nodes are children with weight c >= min_credit. */
  lemma ExpandFields(cfg: Config, rootName: string, nodes: seq<Node>, e: nat, names: seq<string>, c: real)
    requires 1 <= |nodes| && e < |nodes| && Fields(cfg, rootName, nodes) && c >= cfg.minCredit
    ensures Fields(cfg, rootName, Attach(cfg, nodes, e, names, c))
    ensures var r := Attach(cfg, nodes, e, names, c);
      forall i :: 0 <= i < |nodes| ==> SameFields(nodes[i], r[i])
  {
    AttachShape(cfg, nodes, e, names, c);
  }

  /** Where the blocks start once node e got the block |nodes| .. |r| - 1. */
  lemma GrowStarts(nodes: seq<Node>, r: seq<Node>, e: nat)
    requires e < |nodes| <= |r| && ChildStart(nodes, e) == |nodes|
    requires forall j :: 0 <= j < |nodes| && j != e ==> r[j].children == nodes[j].children
    requires forall j :: e < j < |r| ==> r[j].children == []
    requires |r[e].children| == |r| - |nodes|
    ensures forall i :: 0 <= i <= e ==> ChildStart(r, i) == ChildStart(nodes, i)
    ensures forall i :: e < i <= |r| ==> ChildStart(r, i) == |r|
  {
    forall i | 0 <= i <= e ensures ChildStart(r, i) == ChildStart(nodes, i) {
      ChildStartPrefix(nodes, r, i);
    }
    assert ChildStart(r, e + 1) == ChildStart(r, e) + |r[e].children|;
    forall i | e + 1 <= i <= |r| ensures ChildStart(r, i) == |r| {
      ChildStartFlat(r, e + 1, i);
    }
  }

  /** The layout after node e, the first unexpanded node, got the block |nodes| .. |r| - 1. */
  lemma GrowLayout(nodes: seq<Node>, r: seq<Node>, e: nat)
    requires e < |nodes| <= |r| && Layout(nodes, e)
    requires forall j :: 0 <= j < |nodes| && j != e ==> r[j].children == nodes[j].children
    requires forall j :: |nodes| <= j < |r| ==> r[j].children == []
    requires r[e].children == Range(|nodes|, |r|)
    ensures Layout(r, e + 1)
  {
    assert forall j :: e < j < |nodes| ==> r[j].children == nodes[j].children == [];
    GrowStarts(nodes, r, e);
    forall i | 0 <= i < |r|
      ensures r[i].children == Range(ChildStart(r, i), ChildStart(r, i) + |r[i].children|)
    {
      var lo := ChildStart(r, i);
      if i < e {
        assert lo == ChildStart(nodes, i);
        assert nodes[i].children == Range(lo, lo + |nodes[i].children|);
        assert r[i].children == nodes[i].children;
      } else if i == e {
        assert lo == |nodes|;
      } else {
        assert r[i].children == [] == Range(lo, lo);
      }
    }
  }

  /** Expanding node e, the first unexpanded node, extends the layout by its block. */
  lemma ExpandLayout(cfg: Config, nodes: seq<Node>, e: nat, names: seq<string>, c: real)
    requires e < |nodes| && Layout(nodes, e)
    ensures Layout(Attach(cfg, nodes, e, names, c), e + 1)
  {
    var r := Attach(cfg, nodes, e, names, c);
    AttachShape(cfg, nodes, e, names, c);
    GrowLayout(nodes, r, e);
  }

  /** The record of node e once it got one child per kept name, with weight c. */
  lemma NewRecord(cfg: Config, r: seq<Node>, e: nat, n: nat, ks: seq<string>, c: real)
    requires e < n && |r| == n + |ks|
    requires r[e].children == Range(n, |r|)
    requires Deps(cfg, r[e].name) != [] && KeptNames(Deps(cfg, r[e].name)) == Ok(ks)
    requires c == ChildWeight(r[e].weight, cfg.creditSplit, |Deps(cfg, r[e].name)|)
    requires forall t :: 0 <= t < |ks| ==>
      IsChild(cfg, r[n + t], cfg.resolve(ks[t]), c, r[e].depth + 1)
    ensures ExpandedOk(cfg, r, e)
  {
    var ch := r[e].children;
    forall t | 0 <= t < |ch|
      ensures ch[t] < |r| && IsChild(cfg, r[ch[t]], cfg.resolve(ks[t]), c, r[e].depth + 1)
    {
      assert ch[t] == n + t;
    }
  }

  /** Expanding node e records, for e, one child per kept name, and keeps the earlier records. */
  lemma ExpandRecords(cfg: Config, nodes: seq<Node>, e: nat, ks: seq<string>, c: real)
    requires e < |nodes| && nodes[e].children == []
    requires forall i :: 0 <= i < e ==> ExpandedOk(cfg, nodes, i)
    requires Deps(cfg, nodes[e].name) != [] && KeptNames(Deps(cfg, nodes[e].name)) == Ok(ks)
    requires c == ChildWeight(nodes[e].weight, cfg.creditSplit, |Deps(cfg, nodes[e].name)|)
    ensures var r := Attach(cfg, nodes, e, Resolved(cfg, ks), c);
      forall i :: 0 <= i < e + 1 ==> ExpandedOk(cfg, r, i)
  {
    var names := Resolved(cfg, ks);
    var r := Attach(cfg, nodes, e, names, c);
    forall i | 0 <= i < e ensures ExpandedOk(cfg, r, i) {
      AttachShape(cfg, nodes, e, names, c);
      ExpandedOkGrow(cfg, nodes, r, i);
    }
    assert ExpandedOk(cfg, r, e) by {
      AttachShape(cfg, nodes, e, names, c);
      forall t | 0 <= t < |ks| ensures IsChild(cfg, r[|nodes| + t], cfg.resolve(ks[t]), c, r[e].depth + 1) {
        assert r[|nodes| + t] == NewNode(names[t], c, cfg.creditSplit, nodes[e].depth + 1, cfg.minCredit, false);
      }
      NewRecord(cfg, r, e, |nodes|, ks, c);
    }
  }

  /** Expanding the first unexpanded node of a built arena gives a built arena. */
  lemma BuiltExpand(cfg: Config, rootName: string, nodes: seq<Node>, e: nat, ks: seq<string>, c: real)
    requires Built(cfg, rootName, nodes, e) && e < |nodes|
    requires Deps(cfg, nodes[e].name) != [] && KeptNames(Deps(cfg, nodes[e].name)) == Ok(ks)
    requires c == ChildWeight(nodes[e].weight, cfg.creditSplit, |Deps(cfg, nodes[e].name)|)
    requires c >= cfg.minCredit
    ensures Built(cfg, rootName, Attach(cfg, nodes, e, Resolved(cfg, ks), c), e + 1)
  {
    ExpandFields(cfg, rootName, nodes, e, Resolved(cfg, ks), c);
    ExpandLayout(cfg, nodes, e, Resolved(cfg, ks), c);
    ExpandRecords(cfg, nodes, e, ks, c);
  }

  // ---------------------------------------------------------------------
  // The credit mass through one step, and the size bound it gives.
  // ---------------------------------------------------------------------

  /** The shares xs after node e changed its share to kept and k new shares c were appended. */
  function Grown(xs: seq<real>, e: nat, kept: real, c: real, k: nat): (r: seq<real>)
    requires e < |xs|
    ensures |r| == |xs| + k
  {
    xs[e := kept] + Repeat(c, k)
  }

  /** The shares once node e got children and the new nodes, all childless, have weight c. */
  lemma SharesGrow(cs: real, nodes: seq<Node>, r: seq<Node>, e: nat, kept: real, c: real, k: nat)
    requires e < |nodes| && |r| == |nodes| + k
    requires forall i :: 0 <= i < |nodes| && i != e ==> r[i] == nodes[i]
    requires r[e].weight == nodes[e].weight && r[e].children != [] && kept == cs * nodes[e].weight
    requires forall i :: |nodes| <= i < |r| ==> r[i].children == [] && r[i].weight == c
    ensures Shares(cs, r) == Grown(Shares(cs, nodes), e, kept, c, k)
  {
    var rhs := Grown(Shares(cs, nodes), e, kept, c, k);
    forall i | 0 <= i < |r| ensures Shares(cs, r)[i] == rhs[i] {
      if i >= |nodes| {
        assert rhs[i] == Repeat(c, k)[i - |nodes|];
      }
    }
  }

  /** Expanding node e with at least one child: e now keeps cs * weight and each child its weight c. */
  lemma SharesAfterExpand(cfg: Config, nodes: seq<Node>, e: nat, names: seq<string>, c: real, kept: real)
    requires e < |nodes| && nodes[e].children == [] && names != []
    requires kept == cfg.creditSplit * nodes[e].weight
    ensures Shares(cfg.creditSplit, Attach(cfg, nodes, e, names, c))
      == Grown(Shares(cfg.creditSplit, nodes), e, kept, c, |names|)
  {
    var r := Attach(cfg, nodes, e, names, c);
    AttachShape(cfg, nodes, e, names, c);
    assert r[e].children == Range(|nodes|, |r|);
    SharesGrow(cfg.creditSplit, nodes, r, e, kept, c, |names|);
  }

  lemma MulMono(a: real, b: real, x: real, y: real)
    requires 0.0 <= a <= x && 0.0 <= b <= y
    ensures a * b <= x * y
  {
    assert a * b <= x * b;
    assert x * b <= x * y;
  }

  /** An equal split of (1 - cs) * w over d entries, k of them kept, never adds credit. */
  lemma SplitArith(total: real, w: real, cs: real, c: real, d: real, k: real, kept: real, gain: real)
    requires d > 0.0 && c == ((1.0 - cs) * w) / d && c > 0.0 && 0.0 <= k <= d
    requires kept == cs * w && gain == k * c
    ensures total - w + kept + gain <= total
    ensures k == d ==> total - w + kept + gain == total
  {
    DivMul((1.0 - cs) * w, d);
    MulMono(k, c, d, c);
  }

  /** MinShare is below cs * w and w once w >= min(mc, 1). */
  lemma ShareFloor(cfg: Config, w: real, kept: real)
    requires 0.0 < cfg.creditSplit && 0.0 < cfg.minCredit
    requires w >= (if cfg.minCredit < 1.0 then cfg.minCredit else 1.0) && kept == cfg.creditSplit * w
    ensures kept >= MinShare(cfg)
    ensures w >= MinShare(cfg)
  {
    var a := if cfg.creditSplit < 1.0 then cfg.creditSplit else 1.0;
    var b := if cfg.minCredit < 1.0 then cfg.minCredit else 1.0;
    MulMono(a, b, cfg.creditSplit, w);
    MulMono(a, b, 1.0, w);
  }

  /** The weight of a node of a built arena is at least min(min_credit, 1). */
  lemma WeightFloor(cfg: Config, rootName: string, nodes: seq<Node>, i: nat)
    requires 1 <= |nodes| && i < |nodes| && Fields(cfg, rootName, nodes)
    ensures nodes[i].weight >= (if cfg.minCredit < 1.0 then cfg.minCredit else 1.0)
  {
  }

  /** The sum of the shares once entry e became kept and k entries c were appended. */
  lemma SumGrown(xs: seq<real>, e: nat, kept: real, c: real, k: nat, gain: real)
    requires e < |xs| && gain == (k as real) * c
    ensures Sum(Grown(xs, e, kept, c, k)) == Sum(xs) - xs[e] + kept + gain
  {
    var ys := xs[e := kept];
    var zs := Repeat(c, k);
    SumAppend(ys, zs);
    SumUpdate(xs, e, kept);
    SumConst(k, c, gain);
    Combine(Sum(ys + zs), Sum(ys), Sum(zs), Sum(xs), xs[e], kept, gain);
  }

  lemma Combine(s1: real, s2: real, s3: real, s0: real, w: real, p: real, q: real)
    requires s1 == s2 + s3 && s2 == s0 - w + p && s3 == q
    ensures s1 == s0 - w + p + q
  {
  }

  /** The floor m survives replacing entry e by kept and appending copies of c, both at least m. */
  lemma FloorGrown(xs: seq<real>, e: nat, kept: real, c: real, k: nat, m: real)
    requires e < |xs| && Floor(xs, m) && kept >= m && c >= m
    ensures Floor(Grown(xs, e, kept, c, k), m)
  {
    var ys := Grown(xs, e, kept, c, k);
    forall i | 0 <= i < |ys| ensures ys[i] >= m {
      if i >= |xs| {
        assert ys[i] == Repeat(c, k)[i - |xs|];
      }
    }
  }

  /**
   * The mass through one split of entry e of weight w: keeping cs * w and
   * handing c = (1 - cs) * w / d to k <= d children never adds to the sum,
   * keeps it when k == d, and keeps the floor.
   */
  lemma GrownMass(xs: seq<real>, e: nat, w: real, cs: real, c: real, d: nat, k: nat, m: real, kept: real)
    requires e < |xs| && xs[e] == w && 0 < d && k <= d
    requires c == ChildWeight(w, cs, d) && c > 0.0 && kept == cs * w
    requires Floor(xs, m) && kept >= m && c >= m
    ensures Sum(Grown(xs, e, kept, c, k)) <= Sum(xs)
    ensures k == d ==> Sum(Grown(xs, e, kept, c, k)) == Sum(xs)
    ensures Floor(Grown(xs, e, kept, c, k), m)
  {
    var gain := (k as real) * c;
    SumGrown(xs, e, kept, c, k, gain);
    SplitBound(Sum(xs), Sum(Grown(xs, e, kept, c, k)), w, cs, c, d, k, kept, gain);
    FloorGrown(xs, e, kept, c, k, m);
  }

  /** SplitArith on the sums before and after a split. */
  lemma SplitBound(s0: real, s1: real, w: real, cs: real, c: real, d: nat, k: nat, kept: real, gain: real)
    requires 0 < d && k <= d
    requires c == ChildWeight(w, cs, d) && c > 0.0 && kept == cs * w
    requires gain == (k as real) * c && s1 == s0 - w + kept + gain
    ensures s1 <= s0
    ensures k == d ==> s1 == s0
  {
    SplitArith(s0, w, cs, c, d as real, k as real, kept, gain);
  }

  /** Attach leaves the names of the existing nodes alone. */
  lemma AttachNames(cfg: Config, nodes: seq<Node>, e: nat, names: seq<string>, c: real)
    requires e < |nodes|
    ensures var r := Attach(cfg, nodes, e, names, c);
      forall i :: 0 <= i < |nodes| ==> r[i].name == nodes[i].name
  {
    AttachShape(cfg, nodes, e, names, c);
  }

  /**
   * Mass after an expansion, from the shares ys of the new arena: no larger
   * sum, equal when node e skipped nothing, and the floor.
   */
  lemma MassFrom(cfg: Config, nodes: seq<Node>, r: seq<Node>, e: nat, ys: seq<real>)
    requires e < |nodes| <= |r| && Mass(cfg, nodes, e) && Shares(cfg.creditSplit, r) == ys
    requires forall i :: 0 <= i <= e ==> r[i].name == nodes[i].name
    requires Sum(ys) <= Sum(Shares(cfg.creditSplit, nodes)) && Floor(ys, MinShare(cfg))
    requires NoSkips(Deps(cfg, nodes[e].name)) ==> Sum(ys) == Sum(Shares(cfg.creditSplit, nodes))
    ensures Mass(cfg, r, e + 1)
  {
    if forall i :: 0 <= i < e + 1 ==> NoSkips(Deps(cfg, r[i].name)) {
      assert NoSkips(Deps(cfg, r[e].name));
      assert forall i :: 0 <= i < e ==> NoSkips(Deps(cfg, nodes[i].name)) by {
        forall i | 0 <= i < e ensures NoSkips(Deps(cfg, nodes[i].name)) {
          assert r[i].name == nodes[i].name;
        }
      }
    }
  }

  /** GrownMass for the shares of a configuration: both new shares are above the floor. */
  lemma SplitShares(cfg: Config, xs: seq<real>, e: nat, w: real, c: real, d: nat, k: nat, kept: real)
    requires 0.0 < cfg.creditSplit && 0.0 < cfg.minCredit
    requires e < |xs| && xs[e] == w && Floor(xs, MinShare(cfg))
    requires w >= (if cfg.minCredit < 1.0 then cfg.minCredit else 1.0)
    requires 0 < d && k <= d && c == ChildWeight(w, cfg.creditSplit, d) && c >= cfg.minCredit
    requires kept == cfg.creditSplit * w
    ensures Sum(Grown(xs, e, kept, c, k)) <= Sum(xs)
    ensures k == d ==> Sum(Grown(xs, e, kept, c, k)) == Sum(xs)
    ensures Floor(Grown(xs, e, kept, c, k), MinShare(cfg))
  {
    ShareFloor(cfg, w, kept);
    ShareFloor(cfg, c, cfg.creditSplit * c);
    GrownMass(xs, e, w, cfg.creditSplit, c, d, k, MinShare(cfg), kept);
  }

  /** The mass after node e, of weight w, kept cs * w and gave c to each of k of its d entries. */
  lemma MassSplit(cfg: Config, nodes: seq<Node>, r: seq<Node>, e: nat, w: real, c: real, d: nat, k: nat, kept: real)
    requires 0.0 < cfg.creditSplit && 0.0 < cfg.minCredit
    requires e < |nodes| <= |r| && Mass(cfg, nodes, e) == true && nodes[e].children == [] && nodes[e].weight == w
    requires w >= (if cfg.minCredit < 1.0 then cfg.minCredit else 1.0)
    requires 0 < d && k <= d && c == ChildWeight(w, cfg.creditSplit, d) && c >= cfg.minCredit
    requires kept == cfg.creditSplit * w
    requires Shares(cfg.creditSplit, r) == Grown(Shares(cfg.creditSplit, nodes), e, kept, c, k)
    requires forall i :: 0 <= i <= e ==> r[i].name == nodes[i].name
    requires NoSkips(Deps(cfg, nodes[e].name)) ==> k == d
    ensures Mass(cfg, r, e + 1)
  {
    var cs := cfg.creditSplit;
    var xs := Shares(cs, nodes);
    var ys := Grown(xs, e, kept, c, k);
    SplitShares(cfg, xs, e, w, c, d, k, kept);
    MassFrom(cfg, nodes, r, e, ys);
  }

  /** Expanding node e keeps the mass: it can drop when entries are skipped, never grow. */
  lemma MassExpand(cfg: Config, rootName: string, nodes: seq<Node>, e: nat, ks: seq<string>, c: real)
    requires 0.0 < cfg.creditSplit && 0.0 < cfg.minCredit
    requires 1 <= |nodes| && e < |nodes| && nodes[e].children == [] && Fields(cfg, rootName, nodes)
    requires Mass(cfg, nodes, e)
    requires Deps(cfg, nodes[e].name) != [] && KeptNames(Deps(cfg, nodes[e].name)) == Ok(ks)
    requires c == ChildWeight(nodes[e].weight, cfg.creditSplit, |Deps(cfg, nodes[e].name)|)
    requires c >= cfg.minCredit
    ensures Mass(cfg, Attach(cfg, nodes, e, Resolved(cfg, ks), c), e + 1)
  {
    WeightFloor(cfg, rootName, nodes, e);
    MassAttach(cfg, nodes, e, Resolved(cfg, ks), c, |Deps(cfg, nodes[e].name)|);
  }

  /** MassExpand for the names of the k <= d kept entries out of d. */
  lemma MassAttach(cfg: Config, nodes: seq<Node>, e: nat, names: seq<string>, c: real, d: nat)
    requires 0.0 < cfg.creditSplit && 0.0 < cfg.minCredit
    requires e < |nodes| && nodes[e].children == [] && Mass(cfg, nodes, e)
    requires nodes[e].weight >= (if cfg.minCredit < 1.0 then cfg.minCredit else 1.0)
    requires 0 < d && |names| <= d && (NoSkips(Deps(cfg, nodes[e].name)) ==> |names| == d)
    requires c == ChildWeight(nodes[e].weight, cfg.creditSplit, d) && c >= cfg.minCredit
    ensures Mass(cfg, Attach(cfg, nodes, e, names, c), e + 1)
  {
    if names == [] {
      AttachNone(cfg, nodes, e, c);
      MassFrom(cfg, nodes, nodes, e, Shares(cfg.creditSplit, nodes));
    } else {
      MassAttachNames(cfg, nodes, e, names, c, d);
    }
  }

  /** MassAttach when at least one entry was kept: node e kept cs * w and gave c to each of them. */
  lemma MassAttachNames(cfg: Config, nodes: seq<Node>, e: nat, names: seq<string>, c: real, d: nat)
    requires 0.0 < cfg.creditSplit && 0.0 < cfg.minCredit
    requires e < |nodes| && nodes[e].children == [] && Mass(cfg, nodes, e)
    requires nodes[e].weight >= (if cfg.minCredit < 1.0 then cfg.minCredit else 1.0)
    requires 0 < |names| <= d && (NoSkips(Deps(cfg, nodes[e].name)) ==> |names| == d)
    requires c == ChildWeight(nodes[e].weight, cfg.creditSplit, d) && c >= cfg.minCredit
    ensures Mass(cfg, Attach(cfg, nodes, e, names, c), e + 1) == true
  {
    var r := Attach(cfg, nodes, e, names, c);
    var kept := cfg.creditSplit * nodes[e].weight;
    AttachNames(cfg, nodes, e, names, c);
    SharesAfterExpand(cfg, nodes, e, names, c, kept);
    MassSplit(cfg, nodes, r, e, nodes[e].weight, c, d, |names|, kept);
  }

  lemma MinSharePositive(cfg: Config)
    requires 0.0 < cfg.creditSplit && 0.0 < cfg.minCredit
    ensures MinShare(cfg) > 0.0
  {
    var a := if cfg.creditSplit < 1.0 then cfg.creditSplit else 1.0;
    var b := if cfg.minCredit < 1.0 then cfg.minCredit else 1.0;
    assert a > 0.0 && b > 0.0;
    assert a * b > 0.0;
  }

  lemma MulStrict(x: real, y: real, m: real)
    requires x < y && m > 0.0
    ensures x * m < y * m
  {
  }

  lemma InverseExact(m: real)
    requires m > 0.0
    ensures (1.0 / m) * m == 1.0 && 1.0 / m > 0.0
  {
  }

  lemma FloorAbove(x: real)
    requires x > 0.0
    ensures x.Floor >= 0 && x < (x.Floor + 1) as real
  {
  }

  lemma Above(p: real, r: real)
    requires p == 1.0 && p < r
    ensures 1.0 < r
  {
  }

  /** A count of nodes that no arena of shares at least m and mass at most 1 can reach. */
  lemma SizeBound(m: real) returns (b: nat)
    requires m > 0.0
    ensures (b as real) * m > 1.0
  {
    var q := 1.0 / m;
    InverseExact(m);
    FloorAbove(q);
    b := q.Floor + 1;
    MulStrict(q, b as real, m);
    Above(q * m, (b as real) * m);
  }

  /** n shares of at least m, with n * m within a mass s <= 1, leave fewer than b of them. */
  lemma FewerThan(n: nat, b: nat, m: real, s: real, bm: real, nm: real)
    requires m > 0.0 && bm == (b as real) * m && nm == (n as real) * m
    requires bm > 1.0 && nm <= s && s <= 1.0
    ensures n < b
  {
    if n >= b {
      MulMono(b as real, m, n as real, m);
    }
  }

  /** Every share is at least m = MinShare and they add up to at most 1, so there are fewer than b nodes. */
  lemma CountBound(cfg: Config, nodes: seq<Node>, e: nat, b: nat, m: real)
    requires 0.0 < cfg.creditSplit && 0.0 < cfg.minCredit
    requires e <= |nodes| && Mass(cfg, nodes, e)
    requires m == MinShare(cfg) && (b as real) * m > 1.0
    ensures |nodes| < b
  {
    var xs := Shares(cfg.creditSplit, nodes);
    var n := |xs|;
    assert n == |nodes|;
    assert Floor(xs, m) && Sum(xs) <= 1.0;
    SumLower(xs, m);
    var nm := (n as real) * m;
    assert nm <= Sum(xs);
    MinSharePositive(cfg);
    FewerThan(n, b, m, Sum(xs), (b as real) * m, nm);
  }

  // ---------------------------------------------------------------------
  // The loop of `_graph`, one step at a time.
  // ---------------------------------------------------------------------

  /** The arena that `_graph` starts with: the root alone, weight 1.0. */
  function Start(cfg: Config, rootName: string): (nodes: seq<Node>)
    ensures |nodes| == 1 && nodes[0].name == rootName && nodes[0].weight == 1.0 && nodes[0].isRoot
  {
    [NewNode(rootName, 1.0, cfg.creditSplit, 0, cfg.minCredit, true)]
  }

  lemma StartBuilt(cfg: Config, rootName: string)
    requires 0.0 < cfg.creditSplit && 0.0 < cfg.minCredit
    ensures Built(cfg, rootName, Start(cfg, rootName), 0)
    ensures Mass(cfg, Start(cfg, rootName), 0)
  {
    var nodes := Start(cfg, rootName);
    var xs := Shares(cfg.creditSplit, nodes);
    assert xs == [1.0];
    assert Sum(xs) == Sum([]) + 1.0;
    assert ChildStart(nodes, 0) == 1;
    var a := if cfg.creditSplit < 1.0 then cfg.creditSplit else 1.0;
    var b := if cfg.minCredit < 1.0 then cfg.minCredit else 1.0;
    MulMono(a, b, 1.0, 1.0);
  }

  /**
   * Expanding node e: the new arena is built and keeps the mass, stays
   * under the size bound.
   */
  lemma ExpandStep(cfg: Config, rootName: string, nodes: seq<Node>, e: nat, ks: seq<string>, c: real,
                    bound: nat, m: real)
    requires 0.0 < cfg.creditSplit && 0.0 < cfg.minCredit
    requires m == MinShare(cfg) && (bound as real) * m > 1.0
    requires Built(cfg, rootName, nodes, e) && Mass(cfg, nodes, e) && e < |nodes|
    requires forall i :: 0 <= i < |nodes| ==> nodes[i].totalCredit == None
    requires Deps(cfg, nodes[e].name) != [] && KeptNames(Deps(cfg, nodes[e].name)) == Ok(ks)
    requires c == ChildWeight(nodes[e].weight, cfg.creditSplit, |Deps(cfg, nodes[e].name)|)
    requires c >= cfg.minCredit
    ensures var r := Attach(cfg, nodes, e, Resolved(cfg, ks), c);
      && Built(cfg, rootName, r, e + 1) && Mass(cfg, r, e + 1) && |r| < bound
  {
    var names := Resolved(cfg, ks);
    var r := Attach(cfg, nodes, e, names, c);
    assert nodes[e].children == [];
    BuiltExpand(cfg, rootName, nodes, e, ks, c);
    MassExpand(cfg, rootName, nodes, e, ks, c);
    CountBound(cfg, r, e + 1, bound, m);
  }

  /**
   * Expanding node e keeps the names and the stop rules of the nodes popped
   * so far, and leaves every total unset.
   */
  lemma ExpandNames(cfg: Config, nodes: seq<Node>, e: nat, names: seq<string>, c: real)
    requires e < |nodes|
    requires forall i :: 0 <= i < |nodes| ==> nodes[i].totalCredit == None
    ensures var r := Attach(cfg, nodes, e, names, c);
      && (forall i :: 0 <= i < |r| ==> r[i].totalCredit == None)
      && NamesBefore(r, e + 1) == NamesBefore(nodes, e) + {nodes[e].name}
      && NodeNames(cfg, r, e + 1) == NodeNames(cfg, nodes, e) + Recorded(Deps(cfg, nodes[e].name)) + {nodes[e].name}
      && (forall i :: 0 <= i <= e ==> Triggered(cfg, r, i) == Triggered(cfg, nodes, i))
  {
    var r := Attach(cfg, nodes, e, names, c);
    AttachShape(cfg, nodes, e, names, c);
    assert forall i :: 0 <= i < |nodes| ==> SameFields(nodes[i], r[i]);
    PrefixSame(cfg, nodes, r, |nodes|);
    NamesBeforeStep(r, e);
  }

  /** A popped node without dependencies: the arena is unchanged and counts one more expanded node. */
  lemma LeafStep(cfg: Config, rootName: string, nodes: seq<Node>, e: nat)
    requires Built(cfg, rootName, nodes, e) && Mass(cfg, nodes, e) && e < |nodes|
    requires Deps(cfg, nodes[e].name) == []
    ensures Built(cfg, rootName, nodes, e + 1) && Mass(cfg, nodes, e + 1)
    ensures NamesBefore(nodes, e + 1) == NamesBefore(nodes, e) + {nodes[e].name}
    ensures NodeNames(cfg, nodes, e + 1) == NodeNames(cfg, nodes, e) + Recorded(Deps(cfg, nodes[e].name)) + {nodes[e].name}
  {
    BuiltLeaf(cfg, rootName, nodes, e);
    MassLeaf(cfg, nodes, e);
    NamesBeforeStep(nodes, e);
  }

  /**
   * After the redistribution every node's credit is its share: what it keeps
   * when it has children, its whole weight when it has none.
   */
  lemma CreditsAfterStop(cfg: Config, rootName: string, nodes: seq<Node>, r: seq<Node>, e: nat)
    requires 0.0 < cfg.creditSplit && 0.0 < cfg.minCredit
    requires Built(cfg, rootName, nodes, e) && Mass(cfg, nodes, e) && e < |nodes|
    requires |r| == |nodes|
    requires forall i :: 0 <= i < |nodes| ==> r[i] == nodes[i].(totalCredit := r[i].totalCredit)
    requires r[0].totalCredit == if e == 0 then Some(nodes[0].weight) else None
    requires forall i :: 1 <= i < |nodes| ==> r[i].totalCredit == Some(Share(cfg.creditSplit, nodes[i]))
    ensures Credits(r) == Shares(cfg.creditSplit, r)
  {
    var cs := cfg.creditSplit;
    forall i | 0 <= i < |r| ensures Credit(r[i]) == Share(cs, r[i]) {
      if i == 0 && e == 0 {
        assert nodes[0].children == [];
      } else if i == 0 {
        assert nodes[0].children != [];
      }
      CreditOfShare(cs, nodes[i], r[i]);
    }
  }

  /**
   * A node whose total was set to its share, or that kept no total and has
   * children, has its share as its credit (a zero total falls back to
   * credit_split * weight, which is then zero too).
   */
  lemma CreditOfShare(cs: real, a: Node, b: Node)
    requires b == a.(totalCredit := b.totalCredit) && a.creditSplit == cs
    requires b.totalCredit == Some(Share(cs, a)) || (b.totalCredit == None && a.children != [])
    ensures Credit(b) == Share(cs, b)
  {
    if b.totalCredit == Some(0.0) && a.children == [] {
      assert a.weight == 0.0;
      assert cs * a.weight == 0.0;
    }
  }

  /** Rewriting only the totals keeps the fields, the layout, the shares, the names and the stop rules. */
  lemma TotalsKeepShape(cfg: Config, rootName: string, nodes: seq<Node>, r: seq<Node>, e: nat)
    requires Built(cfg, rootName, nodes, e) && e < |nodes| && |r| == |nodes|
    requires forall i :: 0 <= i < |nodes| ==> r[i] == nodes[i].(totalCredit := r[i].totalCredit)
    ensures Built(cfg, rootName, r, e) && BfsLayout(r)
    ensures Shares(cfg.creditSplit, r) == Shares(cfg.creditSplit, nodes)
    ensures NodeNames(cfg, r, e + 1) == NodeNames(cfg, nodes, e + 1)
    ensures forall i :: 0 <= i < e + 1 ==> Triggered(cfg, r, i) == Triggered(cfg, nodes, i)
  {
    assert forall i :: 0 <= i < |nodes| ==> SameFields(nodes[i], r[i]) && nodes[i].children == r[i].children;
    TotalsOnly(cfg, rootName, nodes, r, e);
    BuiltIsBfs(cfg, rootName, r, e);
    PrefixSame(cfg, nodes, r, |nodes|);
  }

  /**
   * The redistribution after node e stopped the loop: the arena keeps its
   * fields and layout, the credits are the shares, and the mass is that of
   * the arena before.
   */
  lemma StopStep(cfg: Config, rootName: string, nodes: seq<Node>, r: seq<Node>, e: nat)
    requires 0.0 < cfg.creditSplit && 0.0 < cfg.minCredit
    requires Built(cfg, rootName, nodes, e) && Mass(cfg, nodes, e) && e < |nodes|
    requires forall i :: 0 <= i < |nodes| ==> nodes[i].totalCredit == None
    requires |r| == |nodes|
    requires forall i :: 0 <= i < |nodes| ==> r[i] == nodes[i].(totalCredit := r[i].totalCredit)
    requires r[0].totalCredit == if e == 0 then Some(nodes[0].weight) else nodes[0].totalCredit
    requires forall i :: 1 <= i < |nodes| ==> r[i].totalCredit == Some(Share(cfg.creditSplit, nodes[i]))
    ensures Built(cfg, rootName, r, e) && BfsLayout(r) && Mass(cfg, r, e)
    ensures Credits(r) == Shares(cfg.creditSplit, r) && Shares(cfg.creditSplit, r) == Shares(cfg.creditSplit, nodes)
    ensures NodeNames(cfg, r, e + 1) == NodeNames(cfg, nodes, e + 1)
    ensures forall i :: 0 <= i < e + 1 ==> Triggered(cfg, r, i) == Triggered(cfg, nodes, i)
  {
    TotalsKeepShape(cfg, rootName, nodes, r, e);
    CreditsAfterStop(cfg, rootName, nodes, r, e);
    MassSameShares(cfg, nodes, r, e);
  }

  /** Mass only depends on the shares and on the names of the expanded nodes. */
  lemma MassSameShares(cfg: Config, a: seq<Node>, b: seq<Node>, e: nat)
    requires e <= |a| && |a| == |b| && Mass(cfg, a, e)
    requires Shares(cfg.creditSplit, b) == Shares(cfg.creditSplit, a)
    requires forall i :: 0 <= i < |a| ==> b[i] == a[i].(totalCredit := b[i].totalCredit)
    ensures Mass(cfg, b, e)
  {
    assert forall i :: 0 <= i < e ==> b[i].name == a[i].name;
  }

  /**
   * The state of `_graph` after `popped` nodes left the queue without a
   * stop: the arena is built up to `popped` and keeps the mass, the totals
   * are unset, the queue holds the nodes not yet popped, `previous` every
   * node but the root, `seen` the names popped so far and `nodeNames` what
   * the comprehension and the loop recorded.
   */
  predicate Progress(cfg: Config, rootName: string, nodes: seq<Node>, popped: nat,
                     queue: seq<nat>, previous: seq<nat>, seen: set<string>, nodeNames: set<string>)
  {
    && 1 <= |nodes| && popped <= |nodes|
    && Built(cfg, rootName, nodes, popped) && Mass(cfg, nodes, popped)
    && (forall i :: 0 <= i < |nodes| ==> nodes[i].totalCredit == None)
    && queue == Range(popped, |nodes|) && previous == Range(1, |nodes|)
    && seen == NamesBefore(nodes, popped) && nodeNames == NodeNames(cfg, nodes, popped)
  }

  lemma StartProgress(cfg: Config, rootName: string)
    requires 0.0 < cfg.creditSplit && 0.0 < cfg.minCredit
    ensures Progress(cfg, rootName, Start(cfg, rootName), 0, [0], [], {}, {})
  {
    StartBuilt(cfg, rootName);
    assert Range(0, 1) == [0];
    assert Range(1, 1) == [];
    assert NamesBefore(Start(cfg, rootName), 0) == {};
  }

  /** Popping a node without dependencies. */
  lemma LeafProgress(cfg: Config, rootName: string, nodes: seq<Node>, popped: nat,
                     queue: seq<nat>, previous: seq<nat>, seen: set<string>, nodeNames: set<string>)
    requires Progress(cfg, rootName, nodes, popped, queue, previous, seen, nodeNames)
    requires popped < |nodes| && Deps(cfg, nodes[popped].name) == []
    ensures Progress(cfg, rootName, nodes, popped + 1, queue[1..], previous,
                     seen + {nodes[popped].name},
                     nodeNames + Recorded(Deps(cfg, nodes[popped].name)) + {nodes[popped].name})
  {
    LeafStep(cfg, rootName, nodes, popped);
    RangeTail(popped, |nodes|);
  }

  /** Popping and expanding a node whose entries all have their keys. */
  lemma ExpandProgress(cfg: Config, rootName: string, nodes: seq<Node>, popped: nat,
                       queue: seq<nat>, previous: seq<nat>, seen: set<string>, nodeNames: set<string>,
                       ks: seq<string>, c: real, bound: nat, m: real, r: seq<Node>, queue': seq<nat>, previous': seq<nat>)
    requires 0.0 < cfg.creditSplit && 0.0 < cfg.minCredit
    requires m == MinShare(cfg) && (bound as real) * m > 1.0
    requires Progress(cfg, rootName, nodes, popped, queue, previous, seen, nodeNames)
    requires popped < |nodes| && Deps(cfg, nodes[popped].name) != [] && KeptNames(Deps(cfg, nodes[popped].name)) == Ok(ks)
    requires c == ChildWeight(nodes[popped].weight, cfg.creditSplit, |Deps(cfg, nodes[popped].name)|)
    requires c >= cfg.minCredit
    requires r == Attach(cfg, nodes, popped, Resolved(cfg, ks), c)
    requires queue' == queue[1..] + Range(|nodes|, |r|) && previous' == previous + Range(|nodes|, |r|)
    ensures Progress(cfg, rootName, r, popped + 1, queue', previous',
                     seen + {nodes[popped].name},
                     nodeNames + Recorded(Deps(cfg, nodes[popped].name)) + {nodes[popped].name})
    ensures |r| < bound
    ensures forall i :: 0 <= i <= popped ==> Triggered(cfg, r, i) == Triggered(cfg, nodes, i)
  {
    ExpandStep(cfg, rootName, nodes, popped, ks, c, bound, m);
    ExpandNames(cfg, nodes, popped, Resolved(cfg, ks), c);
    RangeTail(popped, |nodes|);
    RangeConcat(popped + 1, |nodes|, |r|);
    RangeConcat(1, |nodes|, |r|);
  }

  /** The end of the loop on a stop with dependencies: the arena after the redistribution. */
  lemma StopProgress(cfg: Config, rootName: string, nodes: seq<Node>, popped: nat,
                     queue: seq<nat>, previous: seq<nat>, seen: set<string>, nodeNames: set<string>, r: seq<Node>)
    requires 0.0 < cfg.creditSplit && 0.0 < cfg.minCredit
    requires Progress(cfg, rootName, nodes, popped, queue, previous, seen, nodeNames)
    requires popped < |nodes| && |r| == |nodes|
    requires forall i :: 0 <= i < |nodes| ==> r[i] == nodes[i].(totalCredit := r[i].totalCredit)
    requires r[0].totalCredit == if popped == 0 then Some(nodes[0].weight) else nodes[0].totalCredit
    requires forall i :: 1 <= i < |nodes| ==> r[i].totalCredit == Some(Share(cfg.creditSplit, nodes[i]))
    ensures Built(cfg, rootName, r, popped) && BfsLayout(r) && Mass(cfg, r, popped)
    ensures Credits(r) == Shares(cfg.creditSplit, r)
    ensures r[0].totalCredit == (if popped == 0 then Some(1.0) else None)
    ensures forall i :: 1 <= i < |r| ==> r[i].totalCredit == Some(Share(cfg.creditSplit, r[i]))
    ensures NodeNames(cfg, r, popped + 1) == nodeNames + Recorded(Deps(cfg, nodes[popped].name)) + {nodes[popped].name}
    ensures forall i :: 0 <= i < popped + 1 ==> Triggered(cfg, r, i) == Triggered(cfg, nodes, i)
    ensures r[popped].name == nodes[popped].name
  {
    StopStep(cfg, rootName, nodes, r, popped);
    forall i | 1 <= i < |r| ensures Share(cfg.creditSplit, r[i]) == Share(cfg.creditSplit, nodes[i]) {
      assert Shares(cfg.creditSplit, r)[i] == Shares(cfg.creditSplit, nodes)[i];
    }
  }

  /** Where the redistribution starts: the stopping node has no children and children follow parents. */
  lemma StopReady(cfg: Config, rootName: string, nodes: seq<Node>, popped: nat,
                  queue: seq<nat>, previous: seq<nat>, seen: set<string>, nodeNames: set<string>)
    requires Progress(cfg, rootName, nodes, popped, queue, previous, seen, nodeNames) && popped < |nodes|
    ensures nodes[popped].children == [] && ChildrenAfter(nodes)
  {
    BuiltIsBfs(cfg, rootName, nodes, popped);
    LayoutIsForest(nodes);
  }

  /**
   * The invariant of the loop of `_graph`: Progress, the size bound, and the
   * stop rules of the popped nodes, none of which fired unless `stop` was
   * just set by a depth or deps limit on a node without dependencies.
   */
  predicate Looping(cfg: Config, rootName: string, nodes: seq<Node>, popped: nat, queue: seq<nat>,
                    previous: seq<nat>, seen: set<string>, nodeNames: set<string>, stop: bool, bound: nat)
  {
    && Progress(cfg, rootName, nodes, popped, queue, previous, seen, nodeNames)
    && |nodes| < bound
    && (!stop ==> forall i :: 0 <= i < popped ==> !Triggered(cfg, nodes, i))
    && (stop ==>
          && 0 < popped && (forall i :: 0 <= i < popped - 1 ==> !Triggered(cfg, nodes, i))
          && LimitHit(cfg, nodes[popped - 1].depth, |NamesBefore(nodes, popped - 1)|)
          && Deps(cfg, nodes[popped - 1].name) == [])
  }

  lemma StartLooping(cfg: Config, rootName: string, bound: nat, m: real)
    requires 0.0 < cfg.creditSplit && 0.0 < cfg.minCredit
    requires m == MinShare(cfg) && (bound as real) * m > 1.0
    ensures Looping(cfg, rootName, Start(cfg, rootName), 0, [0], [], {}, {}, false, bound)
  {
    StartProgress(cfg, rootName);
    CountBound(cfg, Start(cfg, rootName), 0, bound, m);
  }

  /**
   * Popping node `next` (the `popped`-th), which has no dependencies; `stop`
   * is whether a limit fired on it.
   */
  lemma LeafLooping(cfg: Config, rootName: string, nodes: seq<Node>, next: nat, popped: nat, queue: seq<nat>,
                    previous: seq<nat>, seen: set<string>, nodeNames: set<string>, bound: nat, stop: bool)
    requires Looping(cfg, rootName, nodes, popped, queue, previous, seen, nodeNames, false, bound)
    requires next == popped < |nodes| && Deps(cfg, nodes[next].name) == []
    requires stop == LimitHit(cfg, nodes[next].depth, |seen|)
    ensures Looping(cfg, rootName, nodes, popped + 1, queue[1..], previous, seen + {nodes[next].name},
                    nodeNames + Recorded(Deps(cfg, nodes[next].name)) + {nodes[next].name}, stop, bound)
  {
    LeafProgress(cfg, rootName, nodes, popped, queue, previous, seen, nodeNames);
  }

  /**
   * The inner loop of `_graph` as the outer loop sees it: on success the
   * state has moved past node `next` (the `popped`-th), and no stop rule
   * fired so far.
   */
  method ExpandNode(cfg: Config, rootName: string, nodes: seq<Node>, deps: seq<DepRecord>, depCredit: real,
                    queue: seq<nat>, previous: seq<nat>, next: nat,
                    ghost popped: nat, ghost q0: seq<nat>, ghost seen: set<string>, ghost nodeNames: set<string>,
                    ghost bound: nat, ghost m: real, ghost stop: bool)
    returns (r: Result<seq<Node>>, queue': seq<nat>, previous': seq<nat>)
    requires 0.0 < cfg.creditSplit && 0.0 < cfg.minCredit
    requires m == MinShare(cfg) && (bound as real) * m > 1.0
    requires Looping(cfg, rootName, nodes, popped, q0, previous, seen, nodeNames, false, bound)
    requires next == popped < |nodes| && queue == q0[1..]
    requires deps == Deps(cfg, nodes[next].name) && deps != []
    requires depCredit == ChildWeight(nodes[next].weight, cfg.creditSplit, |deps|) && depCredit >= cfg.minCredit
    requires !LimitHit(cfg, nodes[next].depth, |seen|) && !stop
    ensures r.Err? ==> r.error.KeyError?
    ensures r.Ok? ==> popped < |r.value| < bound
    ensures r.Ok? ==> Looping(cfg, rootName, r.value, popped + 1, queue', previous',
                              seen + {nodes[next].name}, nodeNames + Recorded(deps) + {nodes[next].name},
                              stop, bound)
  {
    r, queue', previous' := Expand(cfg, nodes, next, deps, depCredit, queue, previous);
    if r.Ok? {
      ExpandProgress(cfg, rootName, nodes, popped, q0, previous, seen, nodeNames,
                     KeptNames(deps).value, depCredit, bound, m, r.value, queue', previous');
      assert !Triggered(cfg, nodes, popped);
    }
  }

  /** What `_graph` returns, by how its loop ended. */
  predicate Finished(cfg: Config, rootName: string, g: Graph, popped: nat, expanded: nat, outcome: Outcome) {
    var n := g.nodes;
    && Built(cfg, rootName, n, expanded) && BfsLayout(n) && Mass(cfg, n, expanded)
    && popped <= |n| && g.childrenNames == NodeNames(cfg, n, popped)
    && outcome != Failed
    && (outcome == QueueEmptied ==>
          popped == |n| && expanded == popped && forall i :: 0 <= i < popped ==> !Triggered(cfg, n, i))
    && (outcome == StoppedOnLeaf ==>
          && 0 < popped && expanded == popped
          && (forall i :: 0 <= i < popped - 1 ==> !Triggered(cfg, n, i))
          && LimitHit(cfg, n[popped - 1].depth, |NamesBefore(n, popped - 1)|)
          && Deps(cfg, n[popped - 1].name) == [])
    && (outcome == Redistributed ==>
          && 0 < popped && expanded == popped - 1
          && (forall i :: 0 <= i < popped - 1 ==> !Triggered(cfg, n, i))
          && Triggered(cfg, n, popped - 1) && Deps(cfg, n[popped - 1].name) != [])
    && (outcome != Redistributed ==> forall i :: 0 <= i < |n| ==> n[i].totalCredit == None)
    && (outcome == Redistributed ==>
          && n[0].totalCredit == (if popped == 1 then Some(1.0) else None)
          && (forall i :: 1 <= i < |n| ==> n[i].totalCredit == Some(Share(cfg.creditSplit, n[i])))
          && Credits(n) == Shares(cfg.creditSplit, n))
  }

  /** Every popped node's name is among the recorded names. */
  lemma {:induction false} NodeNamesHold(cfg: Config, nodes: seq<Node>, k: nat)
    requires k <= |nodes|
    ensures forall i :: 0 <= i < k ==> nodes[i].name in NodeNames(cfg, nodes, k)
  {
    if k > 0 {
      NodeNamesHold(cfg, nodes, k - 1);
    }
  }

  /**
   * `total_nodes` of the finished graph counts at least the root: the
   * root's recorded names hold the name of every node the loop popped,
   * the root's own first.
   */
  lemma TotalNodesCounts(cfg: Config, rootName: string, g: Graph, popped: nat, expanded: nat, outcome: Outcome)
    requires Finished(cfg, rootName, g, popped, expanded, outcome)
    ensures 0 < popped && rootName in g.childrenNames && TotalNodes(g) >= 1
    ensures forall i :: 0 <= i < popped ==> g.nodes[i].name in g.childrenNames
  {
    NodeNamesHold(cfg, g.nodes, popped);
  }

  /**
   * Conservation: when the loop ends with the redistribution and no
   * dependency entry was skipped, the credits of all nodes add up to the
   * root's weight, 1.0.
   */
  lemma RedistributedConserves(cfg: Config, rootName: string, g: Graph, popped: nat, expanded: nat)
    requires Finished(cfg, rootName, g, popped, expanded, Redistributed)
    requires forall i :: 0 <= i < expanded ==> NoSkips(Deps(cfg, g.nodes[i].name))
    ensures Sum(Credits(g.nodes)) == 1.0
  {
  }

  /** A stop rule fired on node `popped`, which has dependencies: the redistribution ends the loop. */
  lemma FinishStop(cfg: Config, rootName: string, nodes: seq<Node>, popped: nat,
                   queue: seq<nat>, previous: seq<nat>, seen: set<string>, nodeNames: set<string>, r: seq<Node>)
    requires 0.0 < cfg.creditSplit && 0.0 < cfg.minCredit
    requires Progress(cfg, rootName, nodes, popped, queue, previous, seen, nodeNames)
    requires popped < |nodes| && Deps(cfg, nodes[popped].name) != []
    requires (forall i :: 0 <= i < popped ==> !Triggered(cfg, nodes, i)) && Triggered(cfg, nodes, popped)
    requires |r| == |nodes|
    requires forall i :: 0 <= i < |nodes| ==> r[i] == nodes[i].(totalCredit := r[i].totalCredit)
    requires r[0].totalCredit == if popped == 0 then Some(nodes[0].weight) else nodes[0].totalCredit
    requires forall i :: 1 <= i < |nodes| ==> r[i].totalCredit == Some(Share(cfg.creditSplit, nodes[i]))
    ensures Finished(cfg, rootName,
                     Graph(r, nodeNames + Recorded(Deps(cfg, nodes[popped].name)) + {nodes[popped].name}),
                     popped + 1, popped, Redistributed)
  {
    StopProgress(cfg, rootName, nodes, popped, queue, previous, seen, nodeNames, r);
  }

  /** The loop ended: the queue ran empty, or a limit fired on a node without dependencies. */
  lemma FinishLoop(cfg: Config, rootName: string, nodes: seq<Node>, popped: nat, queue: seq<nat>,
                   previous: seq<nat>, seen: set<string>, nodeNames: set<string>, stop: bool, bound: nat)
    requires Looping(cfg, rootName, nodes, popped, queue, previous, seen, nodeNames, stop, bound) == true
    requires queue == [] || stop
    ensures Finished(cfg, rootName, Graph(nodes, nodeNames), popped, popped,
                     if stop then StoppedOnLeaf else QueueEmptied)
  {
    BuiltIsBfs(cfg, rootName, nodes, popped);
  }

  /**
   * The stop branch of `_graph` for a node with dependencies: a limit fired
   * or the share is too small.  The branch ends with `break`, so the model
   * runs it after the loop, on the state the pass started from: record the
   * names of node `next`, rewrite the totals and return the graph.
   */
  method StopNode(cfg: Config, rootName: string, nodes: seq<Node>, next: nat, previous: seq<nat>,
                  nodeNames: set<string>, ghost popped: nat, ghost queue: seq<nat>, ghost seen: set<string>,
                  ghost bound: nat)
    returns (g: Graph)
    requires 0.0 < cfg.creditSplit && 0.0 < cfg.minCredit
    requires Looping(cfg, rootName, nodes, popped, queue, previous, seen, nodeNames, false, bound) == true
    requires next == popped < |nodes| && Deps(cfg, nodes[next].name) != []
    requires LimitHit(cfg, nodes[next].depth, |seen|)
             || ChildWeight(nodes[next].weight, cfg.creditSplit, |Deps(cfg, nodes[next].name)|) < cfg.minCredit
    ensures Finished(cfg, rootName, g, popped + 1, popped, Redistributed)
  {
    var names := nodeNames + Recorded(Deps(cfg, nodes[next].name)) + {nodes[next].name};
    StopReady(cfg, rootName, nodes, popped, queue, previous, seen, nodeNames);
    var r := Redistribute(nodes, next, previous, cfg.creditSplit);
    assert Triggered(cfg, nodes, popped);
    FinishStop(cfg, rootName, nodes, popped, queue, previous, seen, nodeNames, r);
    g := Graph(r, names);
  }

  /** How a pass of the loop body ends: on to the loop test, `break` to the stop branch, or an exception. */
  datatype Exit = Continue | Break | Raise(error: Error)

  /**
   * One pass of the loop body of `_graph` on a non-empty queue: pop the
   * front node, record its names, test the limits, and then either go on
   * with the next state, which keeps the loop invariant, or `break` to the
   * stop branch (the state is left as it was), or raise the KeyError of an
   * entry.
   */
  method PopNode(cfg: Config, rootName: string, nodes: seq<Node>, queue: seq<nat>, previous: seq<nat>,
                 seen: set<string>, nodeNames: set<string>, ghost stopped: bool,
                 ghost popped: nat, ghost bound: nat, ghost m: real)
    returns (nodes': seq<Node>, queue': seq<nat>, previous': seq<nat>, seen': set<string>,
             nodeNames': set<string>, stop: bool, exit: Exit)
    requires 0.0 < cfg.creditSplit && 0.0 < cfg.minCredit
    requires m == MinShare(cfg) && (bound as real) * m > 1.0
    requires queue != [] && !stopped
    requires Looping(cfg, rootName, nodes, popped, queue, previous, seen, nodeNames, stopped, bound)
    ensures exit == Continue ==>
      popped + 1 < bound && Looping(cfg, rootName, nodes', popped + 1, queue', previous', seen', nodeNames', stop, bound)
    ensures exit == Break ==>
      && popped < |nodes| && queue[0] == popped && Deps(cfg, nodes[popped].name) != []
      && (LimitHit(cfg, nodes[popped].depth, |seen|)
          || ChildWeight(nodes[popped].weight, cfg.creditSplit, |Deps(cfg, nodes[popped].name)|) < cfg.minCredit)
    ensures exit.Raise? ==> exit.error.KeyError?
  {
    assert popped < |nodes| && queue[0] == popped by {
      RangeTail(popped, |nodes|);
    }
    var next := queue[0];
    queue' := queue[1..];
    var deps := Deps(cfg, nodes[next].name);
    nodeNames' := nodeNames + Recorded(deps);
    stop := LimitHit(cfg, nodes[next].depth, |seen|);
    seen' := seen + {nodes[next].name};
    nodeNames' := nodeNames' + {nodes[next].name};
    nodes', previous', exit := nodes, previous, Continue;
    if deps == [] {
      LeafLooping(cfg, rootName, nodes, next, popped, queue, previous, seen, nodeNames, bound, stop);
      return;
    }
    var depCredit := ChildWeight(nodes[next].weight, cfg.creditSplit, |deps|);
    stop := stop || depCredit < cfg.minCredit;
    if stop {
      exit := Break;
      return;
    }
    var res;
    res, queue', previous' := ExpandNode(cfg, rootName, nodes, deps, depCredit, queue', previous,
                                         next, popped, queue, seen, nodeNames, bound, m, stop);
    if res.Err? {
      exit := Raise(res.error);
      return;
    }
    nodes' := res.value;
  }

  /**
   * The `while next_nodes and not stop_looking` loop of `_graph`, from a
   * state that keeps the loop invariant with nothing popped yet.  It ends
   * when the loop test fails, on a `break` (with the state the breaking
   * pass started from) or on an exception; `popped` counts the passes that
   * went on.
   */
  method Drive(cfg: Config, rootName: string, ghost bound: nat, ghost m: real)
    returns (nodes: seq<Node>, queue: seq<nat>, previous: seq<nat>, seen: set<string>, nodeNames: set<string>,
             stop: bool, exit: Exit, ghost popped: nat)
    requires 0.0 < cfg.creditSplit && 0.0 < cfg.minCredit
    requires m == MinShare(cfg) && (bound as real) * m > 1.0
    ensures !exit.Raise? ==> Looping(cfg, rootName, nodes, popped, queue, previous, seen, nodeNames, stop, bound) == true
    ensures exit == Continue ==> queue == [] || stop
    ensures exit == Break ==>
      && !stop && popped < |nodes| && queue != [] && queue[0] == popped && Deps(cfg, nodes[popped].name) != []
      && (LimitHit(cfg, nodes[popped].depth, |seen|)
          || ChildWeight(nodes[popped].weight, cfg.creditSplit, |Deps(cfg, nodes[popped].name)|) < cfg.minCredit)
    ensures exit.Raise? ==> exit.error.KeyError?
  {
    nodes, queue, previous, seen, nodeNames := Start(cfg, rootName), [0], [], {}, {};
    stop, exit, popped := false, Continue, 0;
    StartLooping(cfg, rootName, bound, m);
    while queue != [] && !stop
      invariant Looping(cfg, rootName, nodes, popped, queue, previous, seen, nodeNames, stop, bound) == true
      invariant popped < bound
      decreases bound - popped
    {
      var nodes', queue', previous', seen', nodeNames', stop', exit' :=
        PopNode(cfg, rootName, nodes, queue, previous, seen, nodeNames, stop, popped, bound, m);
      if exit' != Continue {
        exit := exit';
        return;
      }
      nodes, queue, previous, seen, nodeNames, stop := nodes', queue', previous', seen', nodeNames', stop';
      popped := popped + 1;
    }
  }

  /**
   * The end of `_graph` after the loop: the stop branch for a `break`, or
   * the plain return of the graph when the loop test failed.
   */
  method Conclude(cfg: Config, rootName: string, nodes: seq<Node>, queue: seq<nat>, previous: seq<nat>,
                  seen: set<string>, nodeNames: set<string>, stop: bool, exit: Exit,
                  ghost passes: nat, ghost bound: nat)
    returns (g: Graph, ghost popped: nat, ghost expanded: nat, ghost outcome: Outcome)
    requires 0.0 < cfg.creditSplit && 0.0 < cfg.minCredit
    requires Looping(cfg, rootName, nodes, passes, queue, previous, seen, nodeNames, stop, bound)
    requires exit == Continue ==> queue == [] || stop
    requires exit == Break ==>
      && !stop && passes < |nodes| && queue != [] && queue[0] == passes && Deps(cfg, nodes[passes].name) != []
      && (LimitHit(cfg, nodes[passes].depth, |seen|)
          || ChildWeight(nodes[passes].weight, cfg.creditSplit, |Deps(cfg, nodes[passes].name)|) < cfg.minCredit)
    requires !exit.Raise?
    ensures outcome != Failed
    ensures Finished(cfg, rootName, g, popped, expanded, outcome) == true
  {
    if exit == Break {
      g := StopNode(cfg, rootName, nodes, queue[0], previous, nodeNames, passes, queue, seen, bound);
      popped, expanded, outcome := passes + 1, passes, Redistributed;
    } else {
      FinishLoop(cfg, rootName, nodes, passes, queue, previous, seen, nodeNames, stop, bound);
      g, popped, expanded := Graph(nodes, nodeNames), passes, passes;
      outcome := if stop then StoppedOnLeaf else QueueEmptied;
    }
  }

  /**
   * `_graph`: pop nodes in breadth-first order, record the names of their
   * dependencies, and expand them until the queue is empty or a stop rule
   * fires.  `popped` counts the popped nodes and `expanded` those that were
   * expanded; on a stop with dependencies the node that stopped is popped
   * but not expanded, and the totals are rewritten.
   */
  method BuildGraph(cfg: Config, rootName: string)
    returns (r: Result<Graph>, ghost popped: nat, ghost expanded: nat, ghost outcome: Outcome)
    requires 0.0 < cfg.creditSplit && 0.0 < cfg.minCredit
    ensures r.Err? <==> outcome == Failed
    ensures r.Err? ==> r.error.KeyError?
    ensures r.Ok? ==> Finished(cfg, rootName, r.value, popped, expanded, outcome)
  {
    MinSharePositive(cfg);
    ghost var m := MinShare(cfg);
    ghost var bound := SizeBound(m);
    var nodes, queue, previous, seen, nodeNames, stop, exit, passes := Drive(cfg, rootName, bound, m);
    if exit.Raise? {
      r, popped, expanded, outcome := Err(exit.error), passes + 1, passes, Failed;
    } else {
      var g;
      g, popped, expanded, outcome := Conclude(cfg, rootName, nodes, queue, previous, seen, nodeNames,
                                               stop, exit, passes, bound);
      r := Ok(g);
    }
  }

  // ---------------------------------------------------------------------
  // Without a positive split and share floor the loop need not end.
  // ---------------------------------------------------------------------

  /** A package "A" whose only dependency is itself, credit_split 0, no depth limit and the given limit on names. */
  function SelfLoop(maxDeps: int): (cfg: Config)
    ensures Deps(cfg, "A") == [DepRecord(Some("A"), None)] && cfg.resolve("A") == "A"
  {
    Config(n => Some([DepRecord(Some("A"), None)]), n => n, 0.0, DefaultMinCredit, 0, maxDeps)
  }

  /**
   * With credit_split 0 and no max_depth, a package that depends on itself
   * is never stopped: whatever its depth, and with only its own name seen,
   * each popped "A" of weight 1.0 passes every stop rule and creates
   * exactly one child, "A" again, of weight 1.0, so the queue never
   * empties.  A max_deps other than 1 does not help, since `seen` holds
   * popped names only.
   */
  lemma SelfLoopNeverStops(maxDeps: int, depth: nat, seen: set<string>)
    requires maxDeps == 0 || maxDeps >= 2
    requires seen <= {"A"}
    ensures var cfg := SelfLoop(maxDeps); var ds := Deps(cfg, "A");
      && !LimitHit(cfg, depth, |seen|)
      && !ShareTooSmall(cfg, 1.0, ds)
      && KeptNames(ds) == Ok(["A"])
      && ChildWeight(1.0, cfg.creditSplit, |ds|) == 1.0
  {
    if seen != {} {
      assert seen == {"A"};
    }
    assert |seen| <= 1;
    var ds := Deps(SelfLoop(maxDeps), "A");
    assert ds[..|ds| - 1] == [];
    assert !StartsWith("A", "__");
    assert DepName(ds[0]) == Ok(Some("A"));
    assert KeptNames(ds[..|ds| - 1]) == Ok([]);
    assert ds[|ds| - 1] == ds[0];
    var one: seq<string> := [] + ["A"];
    assert one == ["A"];
    assert ChildWeight(1.0, 0.0, 1) == 1.0;
  }
}
