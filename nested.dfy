/**
 * `update_nested` (citelang/utils/string.py): merge the dict `update` into
 * the dict `data`, key by key in update's order.  A dict value is merged
 * recursively into `data.get(k, {})`, a key that `data` lacks receives
 * update's value, and two numbers at the same key are combined.
 *
 * As written, the numeric case computes `data[k] + data[v]`: it indexes
 * `data` by update's value, which is a number, while every key of the
 * dicts it merges is a string, so the lookup raises KeyError.  The
 * evidently intended rule is `data[k] + update[k]`.  `Rule` selects one of
 * the two; everything else is shared.
 */
module NestedUpdate {
  import opened Wrappers
  import opened Json

  datatype Rule = AsWritten | Intended

  /** The numeric case: `data[k] + data[v]` as written, `data[k] + update[k]` as intended. */
  function Collide(rule: Rule, prev: Value, v: Value): (r: Result<Value>)
    requires IsNumber(prev) && IsNumber(v)
    ensures rule == AsWritten ==> r == Err(KeyError("data[v]"))
    ensures rule == Intended ==> r == Ok(Add(prev, v))
  {
    match rule
    case AsWritten => Err(KeyError("data[v]"))
    case Intended => Ok(Add(prev, v))
  }

  /**
   * What one entry (k, v) of `update` leaves at key k, given what `data`
   * held there: a dict is merged into the old value (or into {}), a new key
   * takes v, two numbers collide, and anything else keeps the old value.
   */
  function Entry(rule: Rule, prev: Option<Value>, v: Value): (r: Result<Value>)
    decreases v, 1
  {
    if v.Dict? then Merge(rule, prev.GetOr(Dict([])), v.fields, 0)
    else if prev.None? then Ok(v)
    else if IsNumber(prev.value) && IsNumber(v) then Collide(rule, prev.value, v)
    else Ok(prev.value)
  }

  /**
   * The error an entry raises on data that is not a dict: a dict value
   * first calls `data.get`, which only dicts have; any other value
   * reaches `data[k]`, which raises TypeError.
   */
  function NonDictError(data: Value, v: Value): Error {
    if v.Dict? then AttributeError("'" + TypeName(data) + "' object has no attribute 'get'")
    else TypeError("'" + TypeName(data) + "' object does not support item assignment")
  }

  /**
   * The loop of `update_nested` from entry i on.  Any entry on a value that
   * is not a dict fails (`in`, `.get` and item assignment do not apply), and
   * an error stops the merge.
   */
  function Merge(rule: Rule, data: Value, update: Fields, i: nat): (r: Result<Value>)
    requires i <= |update|
    decreases Dict(update), 0, |update| - i
  {
    if i == |update| then Ok(data)
    else if !data.Dict? then Err(NonDictError(data, update[i].1))
    else
      var k := update[i].0;
      var e := Entry(rule, Get(data.fields, k), update[i].1);
      if e.Err? then Err(e.error)
      else Merge(rule, Dict(Put(data.fields, k, e.value)), update, i + 1)
  }

  /** `update_nested(data, update)`: the loop over update's items, writing into `data`. */
  method UpdateNested(rule: Rule, data: Value, update: Fields) returns (r: Result<Value>)
    ensures r == Merge(rule, data, update, 0)
    decreases Dict(update)
  {
    var cur := data;
    var i := 0;
    while i < |update|
      invariant i <= |update|
      invariant Merge(rule, data, update, 0) == Merge(rule, cur, update, i)
    {
      if !cur.Dict? {
        return Err(NonDictError(cur, update[i].1));
      }
      var k, v := update[i].0, update[i].1;
      var prev := Get(cur.fields, k);
      var e: Result<Value>;
      if v.Dict? {
        e := UpdateNested(rule, prev.GetOr(Dict([])), v.fields);
      } else if prev.None? {
        e := Ok(v);
      } else if IsNumber(prev.value) && IsNumber(v) {
        e := Collide(rule, prev.value, v);
      } else {
        e := Ok(prev.value);
      }
      if e.Err? {
        return Err(e.error);
      }
      cur := Dict(Put(cur.fields, k, e.value));
      i := i + 1;
    }
    return Ok(cur);
  }

  // ---------------------------------------------------------------------
  // What the merge leaves at each key.
  // ---------------------------------------------------------------------

  /** What entry j of update computes from data's old value at its key. */
  function EntryAt(rule: Rule, data: Value, update: Fields, j: nat): Result<Value>
    requires data.Dict? && j < |update|
  {
    Entry(rule, Get(data.fields, update[j].0), update[j].1)
  }

  /** Entry j of update sees the same old value after an entry with another key was applied. */
  lemma EntryAtPut(rule: Rule, data: Value, update: Fields, i: nat, v: Value)
    requires data.Dict? && i < |update| && Distinct(update)
    ensures forall j :: i < j < |update| ==>
      EntryAt(rule, Dict(Put(data.fields, update[i].0, v)), update, j) == EntryAt(rule, data, update, j)
  {
    forall j | i < j < |update|
      ensures EntryAt(rule, Dict(Put(data.fields, update[i].0, v)), update, j) == EntryAt(rule, data, update, j)
    {
      assert update[j].0 != update[i].0;
    }
  }

  /**
   * The merge succeeds when every entry of update does (MergeSets gives the
   * converse): the entries do not see each other because a dict has no key
   * twice.
   */
  lemma {:induction false} MergeAllOk(rule: Rule, data: Value, update: Fields, i: nat)
    requires i <= |update| && data.Dict? && Distinct(update)
    requires forall j :: i <= j < |update| ==> EntryAt(rule, data, update, j).Ok?
    ensures Merge(rule, data, update, i).Ok?
    decreases |update| - i
  {
    if i < |update| {
      var e := EntryAt(rule, data, update, i);
      var d := Dict(Put(data.fields, update[i].0, e.value));
      assert Merge(rule, data, update, i) == Merge(rule, d, update, i + 1);
      EntryAtPut(rule, data, update, i, e.value);
      MergeAllOk(rule, d, update, i + 1);
    }
  }

  /** Every key that no entry of update names keeps its value. */
  lemma {:induction false} MergeKeeps(rule: Rule, data: Value, update: Fields, i: nat, k: string)
    requires i <= |update| && data.Dict? && Merge(rule, data, update, i).Ok?
    requires forall j :: i <= j < |update| ==> update[j].0 != k
    ensures Merge(rule, data, update, i).value.Dict?
    ensures Get(Merge(rule, data, update, i).value.fields, k) == Get(data.fields, k)
    decreases |update| - i
  {
    if i < |update| {
      var e := EntryAt(rule, data, update, i);
      MergeKeeps(rule, Dict(Put(data.fields, update[i].0, e.value)), update, i + 1, k);
    }
  }

  /** Each key of update ends with what its entry computes from data's old value. */
  lemma {:induction false} MergeSets(rule: Rule, data: Value, update: Fields, i: nat, j: nat)
    requires i <= j < |update| && data.Dict? && Distinct(update) && Merge(rule, data, update, i).Ok?
    ensures EntryAt(rule, data, update, j).Ok?
    ensures Merge(rule, data, update, i).value.Dict?
    ensures Get(Merge(rule, data, update, i).value.fields, update[j].0) == Some(EntryAt(rule, data, update, j).value)
    decreases |update| - i
  {
    var e := EntryAt(rule, data, update, i);
    var d := Dict(Put(data.fields, update[i].0, e.value));
    if j == i {
      MergeKeeps(rule, d, update, i + 1, update[i].0);
    } else {
      MergeSets(rule, d, update, i + 1, j);
      EntryAtPut(rule, data, update, i, e.value);
    }
  }

  /** As written, a number under a key that data holds as a number makes the whole merge fail. */
  lemma AsWrittenCollisionFails(data: Value, update: Fields, j: nat)
    requires data.Dict? && Distinct(update) && j < |update|
    requires Get(data.fields, update[j].0).Some? && IsNumber(Get(data.fields, update[j].0).value)
    requires IsNumber(update[j].1)
    ensures Merge(AsWritten, data, update, 0).Err?
  {
    assert EntryAt(AsWritten, data, update, j).Err?;
    if Merge(AsWritten, data, update, 0).Ok? {
      MergeSets(AsWritten, data, update, 0, j);
      assert false;
    }
  }

  /** The smallest input that shows it: {"t": 1} updated with {"t": 2}. */
  lemma AsWrittenExample()
    ensures Merge(AsWritten, Dict([("t", Int(1))]), [("t", Int(2))], 0) == Err(KeyError("data[v]"))
    ensures Merge(Intended, Dict([("t", Int(1))]), [("t", Int(2))], 0) == Ok(Dict([("t", Int(3))]))
  {
    var d := [("t", Int(1))];
    assert Lookup(d, "t") == Some(0);
    assert Entry(Intended, Get(d, "t"), Int(2)) == Ok(Int(3));
    assert Put(d, "t", Int(3)) == [("t", Int(3))];
  }

  // ---------------------------------------------------------------------
  // Merging into an empty dict copies update.
  // ---------------------------------------------------------------------

  /** A dict with no key twice, at every level. */
  predicate DeepDistinct(fs: Fields)
    decreases Dict(fs)
  {
    Distinct(fs) && forall j :: 0 <= j < |fs| ==> fs[j].1.Dict? ==> DeepDistinct(fs[j].1.fields)
  }

  /** `update_nested({}, update)` is a copy of update, under either rule. */
  lemma {:induction false} MergeIntoEmpty(rule: Rule, update: Fields)
    requires DeepDistinct(update)
    ensures Merge(rule, Dict([]), update, 0) == Ok(Dict(update))
    decreases Dict(update), 1
  {
    CopyFrom(rule, update, 0);
    assert update[..0] == [];
  }

  lemma {:induction false} CopyFrom(rule: Rule, update: Fields, i: nat)
    requires DeepDistinct(update) && i <= |update|
    ensures Merge(rule, Dict(update[..i]), update, i) == Ok(Dict(update))
    decreases Dict(update), 0, |update| - i
  {
    if i == |update| {
      assert update[..i] == update;
    } else {
      var k, v := update[i].0, update[i].1;
      assert !Has(update[..i], k) by {
        assert forall j :: 0 <= j < i ==> update[j].0 != k;
      }
      if v.Dict? {
        MergeIntoEmpty(rule, v.fields);
      }
      assert Entry(rule, Get(update[..i], k), v) == Ok(v);
      assert Put(update[..i], k, v) == update[..i + 1];
      CopyFrom(rule, update, i + 1);
    }
  }

  // ---------------------------------------------------------------------
  // As intended, merging two trees of counts adds them up.
  // ---------------------------------------------------------------------

  /** A tree of counts: nested dicts whose leaves are ints, as the blame summaries are. */
  predicate Counts(fs: Fields)
    decreases Dict(fs)
  {
    Distinct(fs) && forall j :: 0 <= j < |fs| ==> fs[j].1.Int? || (fs[j].1.Dict? && Counts(fs[j].1.fields))
  }

  /** From entry i on, update has the same shape as data wherever both have a key: ints on ints, dicts on dicts. */
  predicate Fits(data: Fields, update: Fields, i: nat)
    decreases Dict(update)
  {
    forall j :: i <= j < |update| && Has(data, update[j].0) ==>
      var x := Get(data, update[j].0).value;
      (x.Int? && update[j].1.Int?)
      || (x.Dict? && update[j].1.Dict? && Fits(x.fields, update[j].1.fields, 0))
  }

  /** The sum of the counts of a value. */
  function Weight(v: Value): int
    decreases v, 1
  {
    match v
    case Int(n) => n
    case Dict(fs) => Total(fs, 0)
    case _ => 0
  }

  /** The sum of the weights of the entries of a dict from entry i on. */
  function Total(fs: Fields, i: nat): int
    requires i <= |fs|
    decreases Dict(fs), 0, |fs| - i
  {
    if i == |fs| then 0 else Weight(fs[i].1) + Total(fs, i + 1)
  }

  lemma {:induction false} TotalAppend(fs: Fields, x: (string, Value), i: nat)
    requires i <= |fs|
    ensures Total(fs + [x], i) == Total(fs, i) + Weight(x.1)
    decreases |fs| - i
  {
    if i < |fs| {
      TotalAppend(fs, x, i + 1);
    }
  }

  lemma {:induction false} TotalReplace(fs: Fields, p: nat, x: (string, Value), i: nat)
    requires i <= p < |fs|
    ensures Total(fs[p := x], i) == Total(fs, i) - Weight(fs[p].1) + Weight(x.1)
    decreases |fs| - i
  {
    if i < p {
      TotalReplace(fs, p, x, i + 1);
    } else {
      TotalSame(fs, fs[p := x], i + 1);
    }
  }

  lemma {:induction false} TotalSame(a: Fields, b: Fields, i: nat)
    requires i <= |a| == |b| && forall j :: i <= j < |a| ==> a[j] == b[j]
    ensures Total(a, i) == Total(b, i)
    decreases |a| - i
  {
    if i < |a| {
      TotalSame(a, b, i + 1);
    }
  }

  /** Putting a value replaces the weight of the old one, if any. */
  lemma TotalPut(fs: Fields, k: string, v: Value)
    ensures Total(Put(fs, k, v), 0) ==
      Total(fs, 0) - (if Has(fs, k) then Weight(Get(fs, k).value) else 0) + Weight(v)
  {
    match Lookup(fs, k)
    case None => TotalAppend(fs, (k, v), 0);
    case Some(p) => TotalReplace(fs, p, (k, v), 0);
  }

  /** Putting an int or a tree of counts into a tree of counts gives a tree of counts. */
  lemma CountsPut(fs: Fields, k: string, v: Value)
    requires Counts(fs) && (v.Int? || (v.Dict? && Counts(v.fields)))
    ensures Counts(Put(fs, k, v))
  {
    var r := Put(fs, k, v);
    match Lookup(fs, k)
    case None =>
      assert forall j :: 0 <= j < |r| ==> r[j] == (if j < |fs| then fs[j] else (k, v));
    case Some(p) =>
      assert forall j :: 0 <= j < |r| ==> r[j] == (if j == p then (k, v) else fs[j]);
  }

  /** An int, or a tree of counts. */
  predicate CountValue(v: Value) {
    v.Int? || (v.Dict? && Counts(v.fields))
  }

  /** An old value that a count value can be merged into: an int on an int, a tree on a tree that fits it. */
  predicate Matches(x: Value, v: Value) {
    (x.Int? && v.Int?) || (x.Dict? && v.Dict? && Counts(x.fields) && Fits(x.fields, v.fields, 0))
  }

  /** The weight of the old value at a key, 0 when there was none. */
  function Before(prev: Option<Value>): int {
    if prev.Some? then Weight(prev.value) else 0
  }

  /** What one entry adds: an int adds its count, a tree of counts merges into an old tree of the same shape. */
  lemma {:induction false} EntryAddsCounts(prev: Option<Value>, v: Value)
    requires CountValue(v) && (prev.Some? ==> Matches(prev.value, v))
    ensures Entry(Intended, prev, v).Ok? && CountValue(Entry(Intended, prev, v).value)
    ensures Weight(Entry(Intended, prev, v).value) == Before(prev) + Weight(v)
    decreases v, 2
  {
    if v.Dict? {
      EntryMergesCounts(prev, v);
    } else if prev.Some? {
      assert Entry(Intended, prev, v) == Ok(Int(prev.value.i + v.i));
    }
  }

  /** A tree of counts entry: merged into the old tree, or into {} for a new key. */
  lemma {:induction false} EntryMergesCounts(prev: Option<Value>, v: Value)
    requires v.Dict? && Counts(v.fields) && (prev.Some? ==> Matches(prev.value, v))
    ensures Entry(Intended, prev, v).Ok? && CountValue(Entry(Intended, prev, v).value)
    ensures Weight(Entry(Intended, prev, v).value) == Before(prev) + Weight(v)
    decreases v, 1
  {
    var inner := if prev.Some? then prev.value.fields else [];
    EntryIsMerge(prev, v, inner);
    if prev.Some? {
      MergeSums(inner, v.fields);
    } else {
      MergeSums([], v.fields);
    }
  }

  /** Merge of a whole tree of counts into one it fits, in terms of weights. */
  lemma MergeSums(x: Fields, u: Fields)
    requires Counts(x) && Counts(u) && Fits(x, u, 0)
    ensures var r := Merge(Intended, Dict(x), u, 0);
      r.Ok? && CountValue(r.value) && Weight(r.value) == Weight(Dict(x)) + Weight(Dict(u))
    decreases Dict(u), 0, |u| + 1
  {
    MergeAddsCounts(x, u, 0);
  }

  lemma EntryIsMerge(prev: Option<Value>, v: Value, inner: Fields)
    requires v.Dict? && (prev.Some? ==> prev.value.Dict?)
    requires inner == if prev.Some? then prev.value.fields else []
    ensures Entry(Intended, prev, v) == Merge(Intended, Dict(inner), v.fields, 0)
  {
  }

  /**
   * Merging a tree of counts into one of the same shape, as intended,
   * succeeds and gives a tree of counts whose total is the sum of the two:
   * no count is lost or counted twice.
   */
  lemma {:induction false} MergeAddsCounts(data: Fields, update: Fields, i: nat)
    requires i <= |update| && Counts(data) && Counts(update) && Fits(data, update, i)
    ensures var r := Merge(Intended, Dict(data), update, i);
      r.Ok? && r.value.Dict? && Counts(r.value.fields)
      && Total(r.value.fields, 0) == Total(data, 0) + Total(update, i)
    decreases Dict(update), 0, |update| - i
  {
    if i < |update| {
      var k, v := update[i].0, update[i].1;
      var prev := Get(data, k);
      if prev.Some? {
        var p :| 0 <= p < |data| && data[p] == (k, prev.value);
        assert prev.value == data[p].1;
      }
      EntryAddsCounts(prev, v);
      var e := Entry(Intended, prev, v);
      var d := Put(data, k, e.value);
      TotalPut(data, k, e.value);
      CountsPut(data, k, e.value);
      assert Fits(d, update, i + 1) by {
        forall j | i < j < |update| ensures Get(d, update[j].0) == Get(data, update[j].0) {
          assert update[j].0 != k;
        }
      }
      MergeAddsCounts(d, update, i + 1);
    }
  }
}
