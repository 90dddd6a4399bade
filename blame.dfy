/**
 * `parse_blame_output` (citelang/main/contrib.py): read the output of
 * `git blame --line-porcelain` line by line, capture a commit, an author,
 * a text line and a committer time, and once all four are captured count
 * one line of that author, path, commit and time, unless the text is
 * blank.  The counts are nested dicts author -> path -> commit -> time ->
 * int, the shape `update_nested` later merges.
 */
module Blame {
  import opened Wrappers
  import opened Json
  import opened PyStr
  import NestedUpdate

  /** The fields captured so far for the record being read. */
  datatype Partial = Partial(commit: Option<string>, author: Option<string>, text: Option<string>, time: Option<string>)

  /** A completed record. */
  datatype Line = Line(commit: string, author: string, text: string, time: string)

  const Empty := Partial(None, None, None, None)

  predicate IsLowerHex(c: char) {
    ('0' <= c <= '9') || ('a' <= c <= 'f')
  }

  /** Forty lower-case hex digits: a commit id as blame prints it. */
  predicate IsCommit(s: string) {
    |s| == 40 && forall k :: 0 <= k < 40 ==> IsLowerHex(s[k])
  }

  /** `^([0-9a-f]{40})`: the forty hex digits a commit line starts with. */
  function CommitMatch(line: string): (r: Option<string>)
    ensures r.Some? <==> |line| >= 40 && forall k :: 0 <= k < 40 ==> IsLowerHex(line[k])
    ensures r.Some? ==> r.value == line[..40] && IsCommit(r.value)
  {
    if |line| >= 40 && forall k :: 0 <= k < 40 ==> IsLowerHex(line[k]) then Some(line[..40]) else None
  }

  /** `^<prefix>(.*)$` on a line without a newline: the rest of a line that starts with prefix. */
  function PrefixMatch(line: string, prefix: string): (r: Option<string>)
    ensures r.Some? <==> StartsWith(line, prefix)
    ensures r.Some? ==> prefix + r.value == line
  {
    if StartsWith(line, prefix) then
      assert line == line[..|prefix|] + line[|prefix|..];
      Some(line[|prefix|..])
    else None
  }

  const AuthorPrefix := "author "
  const TextPrefix := "\t"
  const TimePrefix := "committer-time "

  /** A field is replaced when its pattern matches the line and kept otherwise. */
  function Override(prev: Option<string>, m: Option<string>): Option<string> {
    if m.Some? then m else prev
  }

  /** The four patterns tried in turn on one line: a match overwrites what was captured before. */
  function Capture(p: Partial, line: string): (r: Partial)
    ensures r.commit == Override(p.commit, CommitMatch(line))
    ensures r.author == Override(p.author, PrefixMatch(line, AuthorPrefix))
    ensures r.text == Override(p.text, PrefixMatch(line, TextPrefix))
    ensures r.time == Override(p.time, PrefixMatch(line, TimePrefix))
  {
    Partial(Override(p.commit, CommitMatch(line)), Override(p.author, PrefixMatch(line, AuthorPrefix)),
            Override(p.text, PrefixMatch(line, TextPrefix)), Override(p.time, PrefixMatch(line, TimePrefix)))
  }

  predicate Complete(p: Partial) {
    p.commit.Some? && p.author.Some? && p.text.Some? && p.time.Some?
  }

  function Finish(p: Partial): Line
    requires Complete(p)
  {
    Line(p.commit.value, p.author.value, p.text.value, p.time.value)
  }

  /**
   * The records the lines produce, with the record still being read: a
   * complete record is kept unless its text is blank, and either way the
   * capture starts again.
   */
  function Scan(lines: seq<string>): (r: (Partial, seq<Line>))
    ensures forall j :: 0 <= j < |r.1| ==> Strip(r.1[j].text) != "" && IsCommit(r.1[j].commit)
    ensures r.0.commit.Some? ==> IsCommit(r.0.commit.value)
    ensures !Complete(r.0)
    ensures |r.1| <= |lines|
  {
    if lines == [] then (Empty, [])
    else
      var prev := Scan(lines[..|lines| - 1]);
      var p := Capture(prev.0, lines[|lines| - 1]);
      if !Complete(p) then (p, prev.1)
      else if Strip(p.text.value) == "" then (Empty, prev.1)
      else (Empty, prev.1 + [Finish(p)])
  }

  /** The value at depth d of a tree of counts: an int at the bottom, a tree above it. */
  ghost predicate Level(v: Value, d: nat)
    decreases d, 0
  {
    if d <= 1 then v.Int? else v.Dict? && Tree(v.fields, d - 1)
  }

  /** The counts nest to depth d: dicts with distinct keys, ints at the bottom. */
  ghost predicate Tree(fs: Fields, d: nat)
    decreases d, 1
  {
    Distinct(fs) && forall k :: Has(fs, k) ==> Level(Get(fs, k).value, d)
  }

  /** The count stored under the path of keys, 0 where the path is missing. */
  function CountAt(fs: Fields, keys: seq<string>): int
    decreases |keys|
  {
    if keys == [] then 0
    else
      match Get(fs, keys[0])
      case None => 0
      case Some(v) =>
        if |keys| == 1 then (if v.Int? then v.i else 0)
        else if v.Dict? then CountAt(v.fields, keys[1..]) else 0
  }

  /** What a tree holds at a key. */
  lemma TreeAt(fs: Fields, d: nat, k: string)
    requires Tree(fs, d)
    ensures Has(fs, k) ==> if d <= 1 then Get(fs, k).value.Int?
      else Get(fs, k).value.Dict? && Tree(Get(fs, k).value.fields, d - 1)
  {
    if Has(fs, k) {
      assert Level(Get(fs, k).value, d);
    }
  }

  /** `current[time]` before `+= 1`: the int held there, 0 for a new key. */
  function CountOf(prev: Option<Value>): int {
    if prev.Some? && prev.value.Int? then prev.value.i else 0
  }

  /** `current.setdefault(key, {})`: the dict held there, {} for a new key. */
  function InnerOf(prev: Option<Value>): Fields {
    if prev.Some? && prev.value.Dict? then prev.value.fields else []
  }

  /** `current[time] += 1`, starting from 0. */
  function Leaf(fs: Fields, k: string): Fields {
    Put(fs, k, Int(CountOf(Get(fs, k)) + 1))
  }

  /**
   * The walk `current = current.setdefault(key, {})` down the keys, then
   * `current[time] += 1`: one more line at that path.  On the trees of
   * counts the parse builds (BumpTree) an inner value is always a dict above
   * the bottom and an int at it, so the defaults of InnerOf and CountOf for
   * other values are never used there.
   */
  function Bump(fs: Fields, keys: seq<string>): Fields
    requires |keys| >= 1
    decreases |keys|
  {
    if |keys| == 1 then Leaf(fs, keys[0])
    else Put(fs, keys[0], Dict(Bump(InnerOf(Get(fs, keys[0])), keys[1..])))
  }

  /** Putting a value of the right depth into a tree keeps it a tree. */
  lemma TreePut(fs: Fields, d: nat, k: string, v: Value)
    requires Tree(fs, d) && Level(v, d)
    ensures Tree(Put(fs, k, v), d)
  {
    var r := Put(fs, k, v);
    forall k' | Has(r, k') ensures Level(Get(r, k').value, d) {
      if k' != k {
        assert Get(r, k') == Get(fs, k');
      }
    }
  }

  /** Counting one more line keeps a tree of counts of depth |keys|. */
  lemma {:induction false} BumpTree(fs: Fields, keys: seq<string>)
    requires |keys| >= 1 && Tree(fs, |keys|)
    ensures Tree(Bump(fs, keys), |keys|)
    decreases |keys|
  {
    var k := keys[0];
    TreeAt(fs, |keys|, k);
    if |keys| == 1 {
      TreePut(fs, 1, k, Int(CountOf(Get(fs, k)) + 1));
    } else {
      var inner := InnerOf(Get(fs, k));
      BumpTree(inner, keys[1..]);
      TreePut(fs, |keys|, k, Dict(Bump(inner, keys[1..])));
    }
  }

  /** One more line at a path adds one at that path and nothing elsewhere. */
  lemma {:induction false} BumpCount(fs: Fields, keys: seq<string>, other: seq<string>)
    requires |keys| >= 1 && |other| == |keys|
    ensures CountAt(Bump(fs, keys), other) == CountAt(fs, other) + (if other == keys then 1 else 0)
    decreases |keys|
  {
    var k := keys[0];
    var r := Bump(fs, keys);
    ConsEqual(keys, other);
    if other[0] != k {
      assert Get(r, other[0]) == Get(fs, other[0]);
    } else if |keys| > 1 {
      var inner := InnerOf(Get(fs, k));
      assert Get(r, k) == Some(Dict(Bump(inner, keys[1..])));
      assert CountAt(r, other) == CountAt(Bump(inner, keys[1..]), other[1..]);
      assert CountAt(fs, other) == CountAt(inner, other[1..]) by {
        if !(Get(fs, k).Some? && Get(fs, k).value.Dict?) {
          CountAtEmpty(other[1..]);
        }
      }
      BumpCount(inner, keys[1..], other[1..]);
    }
  }

  /** Two non-empty sequences with the same first element are equal exactly when their tails are. */
  lemma ConsEqual(a: seq<string>, b: seq<string>)
    requires |a| == |b| >= 1
    ensures a[0] == b[0] ==> (a == b <==> a[1..] == b[1..])
  {
    if a[0] == b[0] && a[1..] == b[1..] {
      assert a == [a[0]] + a[1..] && b == [b[0]] + b[1..];
    }
  }

  /** Nothing is counted in an empty dict. */
  lemma CountAtEmpty(keys: seq<string>)
    ensures CountAt([], keys) == 0
  {
    if keys != [] {
      assert Get([], keys[0]) == None;
    }
  }

  /** One more line adds one to the sum of all counts. */
  lemma {:induction false} BumpTotal(fs: Fields, keys: seq<string>)
    requires |keys| >= 1 && Tree(fs, |keys|)
    ensures NestedUpdate.Total(Bump(fs, keys), 0) == NestedUpdate.Total(fs, 0) + 1
    decreases |keys|
  {
    var k := keys[0];
    TreeAt(fs, |keys|, k);
    if |keys| == 1 {
      LeafTotal(fs, k);
    } else {
      var inner := InnerOf(Get(fs, k));
      BumpTotal(inner, keys[1..]);
      InnerTotal(fs, k, inner, Bump(inner, keys[1..]));
    }
  }

  /** At the bottom an int n becomes n + 1. */
  lemma LeafTotal(fs: Fields, k: string)
    requires Get(fs, k).Some? ==> Get(fs, k).value.Int?
    ensures NestedUpdate.Total(Leaf(fs, k), 0) == NestedUpdate.Total(fs, 0) + 1
  {
    PutIntTotal(fs, k, Int(CountOf(Get(fs, k)) + 1));
  }

  /** Putting n + 1 where n was (or 1 where nothing was) adds one to the total. */
  lemma PutIntTotal(fs: Fields, k: string, v: Value)
    requires v.Int?
    requires Has(fs, k) ==> Get(fs, k).value.Int? && v.i == Get(fs, k).value.i + 1
    requires !Has(fs, k) ==> v.i == 1
    ensures NestedUpdate.Total(Put(fs, k, v), 0) == NestedUpdate.Total(fs, 0) + 1
  {
    NestedUpdate.TotalPut(fs, k, v);
  }

  /** Above the bottom the inner dict is replaced by a bumped copy. */
  lemma InnerTotal(fs: Fields, k: string, inner: Fields, bumped: Fields)
    requires Get(fs, k).Some? ==> Get(fs, k).value == Dict(inner)
    requires Get(fs, k).None? ==> inner == []
    requires NestedUpdate.Total(bumped, 0) == NestedUpdate.Total(inner, 0) + 1
    ensures NestedUpdate.Total(Put(fs, k, Dict(bumped)), 0) == NestedUpdate.Total(fs, 0) + 1
  {
    assert NestedUpdate.Weight(Dict(bumped)) == NestedUpdate.Total(bumped, 0);
    assert Has(fs, k) ==> NestedUpdate.Weight(Get(fs, k).value) == NestedUpdate.Total(inner, 0);
    assert !Has(fs, k) ==> NestedUpdate.Total(inner, 0) == 0;
    NestedUpdate.TotalPut(fs, k, Dict(bumped));
  }

  /** The path a record is counted under: author, path, commit, time. */
  function PathOf(l: Line, path: string): (keys: seq<string>)
    ensures |keys| == 4
  {
    [l.author, path, l.commit, l.time]
  }

  /** The counts of the records, one bump per record in order. */
  function Tally(records: seq<Line>, path: string): Fields
  {
    if records == [] then []
    else Bump(Tally(records[..|records| - 1], path), PathOf(records[|records| - 1], path))
  }

  /** The counts the records give are a tree of depth four. */
  lemma {:induction false} TallyTree(records: seq<Line>, path: string)
    ensures Tree(Tally(records, path), 4)
  {
    if records != [] {
      var front := records[..|records| - 1];
      TallyTree(front, path);
      BumpTree(Tally(front, path), PathOf(records[|records| - 1], path));
    }
  }

  /** The number of records counted under keys. */
  function Matching(records: seq<Line>, path: string, keys: seq<string>): (n: nat)
    ensures n <= |records|
  {
    if records == [] then 0
    else Matching(records[..|records| - 1], path, keys) + (if PathOf(records[|records| - 1], path) == keys then 1 else 0)
  }

  /** The count at author, path, commit, time is the number of records with those four. */
  lemma {:induction false} TallyCount(records: seq<Line>, path: string, keys: seq<string>)
    requires |keys| == 4
    ensures CountAt(Tally(records, path), keys) == Matching(records, path, keys)
  {
    if records != [] {
      var front := records[..|records| - 1];
      TallyCount(front, path, keys);
      BumpCount(Tally(front, path), PathOf(records[|records| - 1], path), keys);
    }
  }

  /** The counts sum to the number of records. */
  lemma {:induction false} TallyTotal(records: seq<Line>, path: string)
    ensures NestedUpdate.Total(Tally(records, path), 0) == |records|
  {
    if records != [] {
      var front := records[..|records| - 1];
      TallyTotal(front, path);
      TallyTree(front, path);
      BumpTotal(Tally(front, path), PathOf(records[|records| - 1], path));
    }
  }

  /** A tree of counts of any depth is one in the sense of update_nested's counting lemmas. */
  lemma {:induction false} TreeCounts(fs: Fields, d: nat)
    requires d >= 1 && Tree(fs, d)
    ensures NestedUpdate.Counts(fs)
    decreases d
  {
    forall j | 0 <= j < |fs|
      ensures fs[j].1.Int? || (fs[j].1.Dict? && NestedUpdate.Counts(fs[j].1.fields))
    {
      GetEntry(fs, j);
      TreeAt(fs, d, fs[j].0);
      if d > 1 {
        TreeCounts(fs[j].1.fields, d - 1);
      }
    }
  }

  /** Two trees of the same depth have the same shape wherever both have a key. */
  lemma {:induction false} TreesFit(x: Fields, u: Fields, d: nat)
    requires Tree(x, d) && Tree(u, d)
    ensures NestedUpdate.Fits(x, u, 0)
    decreases d
  {
    forall j | 0 <= j < |u| && Has(x, u[j].0)
      ensures var a := Get(x, u[j].0).value;
        (a.Int? && u[j].1.Int?) || (a.Dict? && u[j].1.Dict? && NestedUpdate.Fits(a.fields, u[j].1.fields, 0))
    {
      GetEntry(u, j);
      TreeAt(u, d, u[j].0);
      TreeAt(x, d, u[j].0);
      if d > 1 {
        TreesFit(Get(x, u[j].0).value.fields, u[j].1.fields, d - 1);
      }
    }
  }

  /**
   * Merging one file's counts into another's with update_nested as
   * intended succeeds and keeps every line: the merged counts sum to the
   * lines of both.
   */
  lemma MergeTallies(x: Fields, u: Fields)
    requires Tree(x, 4) && Tree(u, 4)
    ensures var r := NestedUpdate.Merge(NestedUpdate.Intended, Dict(x), u, 0);
      r.Ok? && r.value.Dict? && NestedUpdate.Total(r.value.fields, 0) == NestedUpdate.Total(x, 0) + NestedUpdate.Total(u, 0)
  {
    TreeCounts(x, 4);
    TreeCounts(u, 4);
    TreesFit(x, u, 4);
    NestedUpdate.MergeAddsCounts(x, u, 0);
  }

  /**
   * `parse_blame_output(output, path)`: read the lines of output, capture
   * fields and count each completed record with non-blank text under
   * author, path, commit and time.
   */
  method ParseBlameOutput(output: string, path: string) returns (items: Fields)
    ensures items == Tally(Scan(Split(output, "\n")).1, path)
    ensures Tree(items, 4)
    ensures NestedUpdate.Total(items, 0) == |Scan(Split(output, "\n")).1|
    ensures forall keys :: |keys| == 4 ==> CountAt(items, keys) == Matching(Scan(Split(output, "\n")).1, path, keys)
  {
    var lines := Split(output, "\n");
    items := [];
    var item := Empty;
    ghost var records: seq<Line> := [];
    for i := 0 to |lines|
      invariant (item, records) == Scan(lines[..i])
      invariant items == Tally(records, path)
    {
      assert lines[..i + 1][..i] == lines[..i];
      item := Capture(item, lines[i]);
      if Complete(item) {
        if Strip(item.text.value) == "" {
          item := Empty;
        } else {
          var line := Finish(item);
          items := Bump(items, PathOf(line, path));
          records := records + [line];
          item := Empty;
        }
      }
    }
    assert lines[..|lines|] == lines;
    TallyTree(records, path);
    TallyTotal(records, path);
    forall keys | |keys| == 4 ensures CountAt(items, keys) == Matching(records, path, keys) {
      TallyCount(records, path, keys);
    }
  }
}
