/**
 * `ContributionSummary.iter_items` (citelang/main/contrib.py): walk a blame
 * history commit -> author -> path -> commit -> time -> count and yield
 * each (commit, author, path, time, count) once, after the path, time and
 * author filters.
 *
 * A contribution is identified by (commit, author, path, time) and marked
 * seen before the time and author filters run, so a filtered one is never
 * yielded later.  As written, the author alias is assigned to the loop
 * variable `author`, so it carries over to the later records of the same
 * author entry: those are identified, aliased again and tested against the
 * ignored users under the alias rather than under the entry's own name.
 * `Rule` selects that reading or the evidently intended one, where every
 * record starts again from the entry's author.
 */
module Contrib {
  import opened Wrappers
  import opened Json
  import opened PyStr

  datatype Rule = AsWritten | Intended

  /** The filters file: author aliases, ignored paths, basenames and users, and whether to drop bots. */
  datatype Filters = Filters(
    authors: map<string, string>,
    ignoreFiles: seq<string>,
    ignoreBasename: seq<string>,
    ignoreUsers: seq<string>,
    ignoreBots: bool)

  /** No filters file: `filters = {}`. */
  const NoFilters := Filters(map[], [], [], [], false)

  /** A history of blame counts with the optional time window of the summary. */
  datatype Summary = Summary(history: Value, start: Option<int>, end: Option<int>)

  /** `self.start_timestamp and ...`: a bound applies when it is given and not 0. */
  predicate Bound(b: Option<int>) {
    b.Some? && b.value != 0
  }

  /** What identifies a contribution in the `seen` set. */
  datatype Uid = Uid(commit: string, author: string, path: string, time: int)

  /** What `iter_items` yields. */
  datatype Item = Item(commit: string, author: string, path: string, time: int, count: Value)

  /** One (path, commit, time, count) of an author entry, in iteration order. */
  datatype Raw = Raw(path: string, commit: string, time: int, count: Value)

  /** `os.path.basename(p)`: the text after the last '/'. */
  function Basename(p: string): (r: string)
    ensures |r| <= |p| && r == p[|p| - |r|..]
    ensures forall k :: 0 <= k < |r| ==> r[k] != '/'
    ensures |r| < |p| ==> p[|p| - |r| - 1] == '/'
  {
    match RFindChar(p, '/')
    case None => p
    case Some(i) => p[i + 1..]
  }

  /** `os.path.basename(path) in ignore_basename or path in ignore_files` */
  predicate PathIgnored(f: Filters, p: string) {
    Basename(p) in f.ignoreBasename || p in f.ignoreFiles
  }

  /** The AttributeError of `v.items()` on a value that is not a dict. */
  function NotADict(v: Value): Error {
    AttributeError("'" + TypeName(v) + "' object has no attribute 'items'")
  }

  // ---------------------------------------------------------------------
  // The records of one author entry, in the order of the nested loops.
  // ---------------------------------------------------------------------

  /**
   * What a loop of the generator got to before it stopped: the records it
   * read, in order, and the error that stopped it, if one did.
   */
  datatype Run<T> = Run(out: seq<T>, stop: Option<Error>)

  /** One loop and then the next, which runs only if the first did not stop. */
  function Then<T>(a: Run<T>, b: Run<T>): (r: Run<T>)
    ensures r.stop.None? <==> a.stop.None? && b.stop.None?
    ensures forall x :: x in r.out ==> x in a.out || x in b.out
  {
    if a.stop.Some? then a else Run(a.out + b.out, b.stop)
  }

  /** The loop over times of one commit: each time key goes through `int()`, and the first that fails stops the walk. */
  function TimesRaws(path: string, commit: string, times: Fields): (r: Run<Raw>)
    ensures |r.out| <= |times|
    ensures forall x :: x in r.out ==> x.path == path
  {
    if times == [] then Run([], None)
    else
      var t := ParseInt(times[0].0);
      if t.Err? then Run([], Some(t.error))
      else
        var rest := TimesRaws(path, commit, times[1..]);
        Run([Raw(path, commit, t.value, times[0].1)] + rest.out, rest.stop)
  }

  /** The times loop stops exactly when some time key fails `int()`, and otherwise reads one record per key. */
  lemma {:induction false} TimesRawsStop(path: string, commit: string, times: Fields)
    ensures var r := TimesRaws(path, commit, times);
      && (r.stop.None? <==> forall j :: 0 <= j < |times| ==> ParseInt(times[j].0).Ok?)
      && (r.stop.None? ==> |r.out| == |times|)
    decreases |times|
  {
    if times != [] && ParseInt(times[0].0).Ok? {
      TimesRawsStop(path, commit, times[1..]);
      assert forall j :: 1 <= j < |times| ==> times[j] == times[1..][j - 1];
    }
  }

  /** Each record the times loop reads comes from the key at its place, with the time `int()` parsed from it. */
  lemma {:induction false} TimesRawsRead(path: string, commit: string, times: Fields)
    ensures var r := TimesRaws(path, commit, times);
      forall j :: 0 <= j < |r.out| ==>
        ParseInt(times[j].0).Ok? && r.out[j] == Raw(path, commit, ParseInt(times[j].0).value, times[j].1)
    decreases |times|
  {
    if times != [] && ParseInt(times[0].0).Ok? {
      TimesRawsRead(path, commit, times[1..]);
      var r := TimesRaws(path, commit, times);
      var rest := TimesRaws(path, commit, times[1..]);
      assert r.out == [Raw(path, commit, ParseInt(times[0].0).value, times[0].1)] + rest.out;
      forall j | 1 <= j < |r.out|
        ensures ParseInt(times[j].0).Ok? && r.out[j] == Raw(path, commit, ParseInt(times[j].0).value, times[j].1)
      {
        assert r.out[j] == rest.out[j - 1] && times[j] == times[1..][j - 1];
      }
    }
  }

  /** The loop over commits of one path: every value must be a dict of times. */
  function CommitsRaws(path: string, commits: Fields): (r: Run<Raw>)
    ensures forall x :: x in r.out ==> x.path == path
  {
    if commits == [] then Run([], None)
    else if !commits[0].1.Dict? then Run([], Some(NotADict(commits[0].1)))
    else Then(TimesRaws(path, commits[0].0, commits[0].1.fields), CommitsRaws(path, commits[1..]))
  }

  /** The loop over the paths of one author entry, skipping ignored paths before their commits are read. */
  function PathsRaws(f: Filters, paths: Fields): (r: Run<Raw>)
    ensures forall x :: x in r.out ==> !PathIgnored(f, x.path) && x.path in Keys(paths)
  {
    if paths == [] then Run([], None)
    else
      var rest := PathsRaws(f, paths[1..]);
      assert forall k :: k in Keys(paths[1..]) ==> k in Keys(paths) by {
        forall k | k in Keys(paths[1..]) ensures k in Keys(paths) {
          var i :| 0 <= i < |paths[1..]| && Keys(paths[1..])[i] == k;
          assert Keys(paths)[i + 1] == k;
        }
      }
      if PathIgnored(f, paths[0].0) then rest
      else if !paths[0].1.Dict? then Run([], Some(NotADict(paths[0].1)))
      else
        assert Keys(paths)[0] == paths[0].0;
        Then(CommitsRaws(paths[0].0, paths[0].1.fields), rest)
  }

  /** The paths of an author entry: a value that is not a dict fails. */
  function EntryRaws(f: Filters, paths: Value): (r: Run<Raw>)
    ensures forall j :: 0 <= j < |r.out| ==> !PathIgnored(f, r.out[j].path)
  {
    if paths.Dict? then PathsRaws(f, paths.fields) else Run([], Some(NotADict(paths)))
  }

  // ---------------------------------------------------------------------
  // The body of the innermost loop.
  // ---------------------------------------------------------------------

  /** What the loop carries from one record to the next: the seen set and the variable `author`. */
  datatype State = State(seen: set<Uid>, author: string)

  /** `authors[author]` for an aliased author, the author otherwise. */
  function Alias(f: Filters, a: string): string {
    if a in f.authors then f.authors[a] else a
  }

  /** What marks a bot account. */
  const BotTag := "[bot]"

  /** `(ignore_bots and "[bot]" in author) or author in ignore_users or original_author in ignore_users` */
  predicate Ignored(f: Filters, author: string, original: string) {
    (f.ignoreBots && Contains(author, BotTag)) || author in f.ignoreUsers || original in f.ignoreUsers
  }

  /** What one record yields, if anything, with the uid it was marked under. */
  type Yield = (Uid, Item)

  /**
   * One record of the entry of author `entry`: mark its uid seen (or skip
   * it if it was), drop it outside the time window, alias the author and
   * drop ignored users and bots.
   */
  function Step(rule: Rule, f: Filters, s: Summary, entry: string, st: State, x: Raw): (r: (State, Option<Yield>))
  {
    var cur := if rule == AsWritten then st.author else entry;
    var uid := Uid(x.commit, cur, x.path, x.time);
    if uid in st.seen then (State(st.seen, cur), None)
    else
      var seen := st.seen + {uid};
      if (Bound(s.start) && x.time < s.start.value) || (Bound(s.end) && x.time > s.end.value) then
        (State(seen, cur), None)
      else
        var author := Alias(f, cur);
        if Ignored(f, author, cur) then (State(seen, author), None)
        else (State(seen, author), Some((uid, Item(x.commit, author, x.path, x.time, x.count))))
  }

  /** The records of one author entry, from state st: the state after them and what they yield. */
  function Scan(rule: Rule, f: Filters, s: Summary, entry: string, st: State, xs: seq<Raw>): (r: (State, seq<Yield>))
    ensures |r.1| <= |xs|
  {
    if xs == [] then (st, [])
    else
      var prev := Scan(rule, f, s, entry, st, xs[..|xs| - 1]);
      var step := Step(rule, f, s, entry, prev.0, xs[|xs| - 1]);
      (step.0, prev.1 + (if step.1.Some? then [step.1.value] else []))
  }

  // ---------------------------------------------------------------------
  // The outer loops.
  // ---------------------------------------------------------------------

  /** What the walk carries: the seen set and the yields so far. */
  type Acc = (set<Uid>, seq<Yield>)

  /** Where the walk is when a loop ends: what it carries, and the error that stopped it, if one did. */
  type Walked = (Acc, Option<Error>)

  /**
   * What the seen set and the yields become after one author entry: the
   * records read before an error are scanned, and yielded, before the
   * error is raised.
   */
  function EntryStep(rule: Rule, f: Filters, s: Summary, acc: Acc, entry: string, paths: Value): Walked {
    var xs := EntryRaws(f, paths);
    var scan := Scan(rule, f, s, entry, State(acc.0, entry), xs.out);
    ((scan.0.seen, acc.1 + scan.1), xs.stop)
  }

  /** The author entries of one commit from entry i on. */
  function Authors(rule: Rule, f: Filters, s: Summary, acc: Acc, authors: Fields, i: nat): Walked
    requires i <= |authors|
    decreases |authors| - i
  {
    if i == |authors| then (acc, None)
    else
      var next := EntryStep(rule, f, s, acc, authors[i].0, authors[i].1);
      if next.1.Some? then next else Authors(rule, f, s, next.0, authors, i + 1)
  }

  /** One commit of the history: its value must be a dict of author entries. */
  function CommitStep(rule: Rule, f: Filters, s: Summary, acc: Acc, items: Value): Walked {
    if items.Dict? then Authors(rule, f, s, acc, items.fields, 0) else (acc, Some(NotADict(items)))
  }

  /** The commits of the history from commit i on. */
  function History(rule: Rule, f: Filters, s: Summary, acc: Acc, history: Fields, i: nat): Walked
    requires i <= |history|
    decreases |history| - i
  {
    if i == |history| then (acc, None)
    else
      var next := CommitStep(rule, f, s, acc, history[i].1);
      if next.1.Some? then next else History(rule, f, s, next.0, history, i + 1)
  }

  /**
   * `self.history.items()`: everything the generator yields, with the uids
   * it marked them under, and the error it raises after them, if any.
   */
  function Yields(rule: Rule, f: Filters, s: Summary): Run<Yield> {
    if !s.history.Dict? then Run([], Some(NotADict(s.history)))
    else
      var r := History(rule, f, s, ({}, []), s.history.fields, 0);
      Run(r.0.1, r.1)
  }

  /** The items of the yields. */
  function Project(ys: seq<Yield>): (r: seq<Item>)
    ensures |r| == |ys| && forall j :: 0 <= j < |ys| ==> r[j] == ys[j].1
  {
    seq(|ys|, j requires 0 <= j < |ys| => ys[j].1)
  }

  /** The items `iter_items(filters)` yields before it stops, in order. */
  function Emitted(rule: Rule, f: Filters, s: Summary): seq<Item> {
    Project(Yields(rule, f, s).out)
  }

  /** `list(iter_items(filters))`, or the error the generator raises. */
  function IterItemsOf(rule: Rule, f: Filters, s: Summary): Result<seq<Item>> {
    var r := Yields(rule, f, s);
    if r.stop.Some? then Err(r.stop.value) else Ok(Project(r.out))
  }

  // ---------------------------------------------------------------------
  // No contribution is yielded twice.
  // ---------------------------------------------------------------------

  /** The yields were marked under uids that are new since `before`, in `after`, and pairwise distinct. */
  predicate Fresh(ys: seq<Yield>, before: set<Uid>, after: set<Uid>) {
    && before <= after
    && (forall j :: 0 <= j < |ys| ==> ys[j].0 in after && ys[j].0 !in before)
    && (forall i, j :: 0 <= i < j < |ys| ==> ys[i].0 != ys[j].0)
  }

  /** A walk, finished or stopped, has yielded under fresh, distinct uids. */
  predicate FreshResult(r: Walked, before: set<Uid>) {
    Fresh(r.0.1, before, r.0.0)
  }

  lemma FreshAppend(a: seq<Yield>, b: seq<Yield>, s0: set<Uid>, s1: set<Uid>, s2: set<Uid>)
    requires Fresh(a, s0, s1) && Fresh(b, s1, s2)
    ensures Fresh(a + b, s0, s2)
  {
    var ab := a + b;
    forall i, j | 0 <= i < j < |ab| ensures ab[i].0 != ab[j].0 {
      if i < |a| <= j {
        assert ab[i] == a[i] && ab[j] == b[j - |a|];
      }
    }
  }

  lemma {:induction false} ScanFresh(rule: Rule, f: Filters, s: Summary, entry: string, st: State, xs: seq<Raw>)
    ensures Fresh(Scan(rule, f, s, entry, st, xs).1, st.seen, Scan(rule, f, s, entry, st, xs).0.seen)
  {
    if xs != [] {
      var prev := Scan(rule, f, s, entry, st, xs[..|xs| - 1]);
      ScanFresh(rule, f, s, entry, st, xs[..|xs| - 1]);
      var step := Step(rule, f, s, entry, prev.0, xs[|xs| - 1]);
      FreshAppend(prev.1, if step.1.Some? then [step.1.value] else [], st.seen, prev.0.seen, step.0.seen);
    }
  }

  lemma EntryStepFresh(rule: Rule, f: Filters, s: Summary, seen0: set<Uid>, acc: Acc, entry: string, paths: Value)
    requires Fresh(acc.1, seen0, acc.0)
    ensures FreshResult(EntryStep(rule, f, s, acc, entry, paths), seen0)
  {
    var xs := EntryRaws(f, paths);
    ScanFresh(rule, f, s, entry, State(acc.0, entry), xs.out);
    var scan := Scan(rule, f, s, entry, State(acc.0, entry), xs.out);
    FreshAppend(acc.1, scan.1, seen0, acc.0, scan.0.seen);
  }

  lemma {:induction false} AuthorsFresh(rule: Rule, f: Filters, s: Summary, seen0: set<Uid>, acc: Acc, authors: Fields, i: nat)
    requires i <= |authors| && Fresh(acc.1, seen0, acc.0)
    ensures FreshResult(Authors(rule, f, s, acc, authors, i), seen0)
    decreases |authors| - i
  {
    if i < |authors| {
      EntryStepFresh(rule, f, s, seen0, acc, authors[i].0, authors[i].1);
      var next := EntryStep(rule, f, s, acc, authors[i].0, authors[i].1);
      if next.1.None? {
        AuthorsFresh(rule, f, s, seen0, next.0, authors, i + 1);
      }
    }
  }

  lemma {:induction false} HistoryFresh(rule: Rule, f: Filters, s: Summary, acc: Acc, history: Fields, i: nat)
    requires i <= |history| && Fresh(acc.1, {}, acc.0)
    ensures FreshResult(History(rule, f, s, acc, history, i), {})
    decreases |history| - i
  {
    if i < |history| {
      if history[i].1.Dict? {
        AuthorsFresh(rule, f, s, {}, acc, history[i].1.fields, 0);
      }
      var next := CommitStep(rule, f, s, acc, history[i].1);
      if next.1.None? {
        HistoryFresh(rule, f, s, next.0, history, i + 1);
      }
    }
  }

  /** Each contribution (commit, author, path, time) is yielded at most once, also before an error. */
  lemma YieldsDistinct(rule: Rule, f: Filters, s: Summary)
    ensures var r := Yields(rule, f, s);
      forall i, j :: 0 <= i < j < |r.out| ==> r.out[i].0 != r.out[j].0
  {
    if s.history.Dict? {
      HistoryFresh(rule, f, s, ({}, []), s.history.fields, 0);
    }
  }

  // ---------------------------------------------------------------------
  // Everything yielded passes the filters.
  // ---------------------------------------------------------------------

  /**
   * A yield passes: its item is the record it was marked under, inside the
   * time window, on a path that is not ignored, under the alias of the
   * uid's author, and neither name is an ignored user nor the alias a bot.
   */
  predicate Passes(f: Filters, s: Summary, y: Yield) {
    && y.0.commit == y.1.commit && y.0.path == y.1.path && y.0.time == y.1.time
    && !(Bound(s.start) && y.1.time < s.start.value)
    && !(Bound(s.end) && y.1.time > s.end.value)
    && !PathIgnored(f, y.1.path)
    && y.1.author == Alias(f, y.0.author)
    && !Ignored(f, y.1.author, y.0.author)
  }

  predicate AllPass(f: Filters, s: Summary, ys: seq<Yield>) {
    forall j :: 0 <= j < |ys| ==> Passes(f, s, ys[j])
  }

  predicate PassResult(f: Filters, s: Summary, r: Walked) {
    AllPass(f, s, r.0.1)
  }

  lemma {:induction false} ScanPasses(rule: Rule, f: Filters, s: Summary, entry: string, st: State, xs: seq<Raw>)
    requires forall j :: 0 <= j < |xs| ==> !PathIgnored(f, xs[j].path)
    ensures AllPass(f, s, Scan(rule, f, s, entry, st, xs).1)
  {
    if xs != [] {
      ScanPasses(rule, f, s, entry, st, xs[..|xs| - 1]);
    }
  }

  lemma EntryStepPasses(rule: Rule, f: Filters, s: Summary, acc: Acc, entry: string, paths: Value)
    requires AllPass(f, s, acc.1)
    ensures PassResult(f, s, EntryStep(rule, f, s, acc, entry, paths))
  {
    var xs := EntryRaws(f, paths);
    ScanPasses(rule, f, s, entry, State(acc.0, entry), xs.out);
  }

  lemma {:induction false} AuthorsPasses(rule: Rule, f: Filters, s: Summary, acc: Acc, authors: Fields, i: nat)
    requires i <= |authors| && AllPass(f, s, acc.1)
    ensures PassResult(f, s, Authors(rule, f, s, acc, authors, i))
    decreases |authors| - i
  {
    if i < |authors| {
      EntryStepPasses(rule, f, s, acc, authors[i].0, authors[i].1);
      var next := EntryStep(rule, f, s, acc, authors[i].0, authors[i].1);
      if next.1.None? {
        AuthorsPasses(rule, f, s, next.0, authors, i + 1);
      }
    }
  }

  lemma {:induction false} HistoryPasses(rule: Rule, f: Filters, s: Summary, acc: Acc, history: Fields, i: nat)
    requires i <= |history| && AllPass(f, s, acc.1)
    ensures PassResult(f, s, History(rule, f, s, acc, history, i))
    decreases |history| - i
  {
    if i < |history| {
      if history[i].1.Dict? {
        AuthorsPasses(rule, f, s, acc, history[i].1.fields, 0);
      }
      var next := CommitStep(rule, f, s, acc, history[i].1);
      if next.1.None? {
        HistoryPasses(rule, f, s, next.0, history, i + 1);
      }
    }
  }

  /** Every item yielded passes the path, time and author filters, under either rule, also before an error. */
  lemma YieldsPass(rule: Rule, f: Filters, s: Summary)
    ensures AllPass(f, s, Yields(rule, f, s).out)
  {
    if s.history.Dict? {
      HistoryPasses(rule, f, s, ({}, []), s.history.fields, 0);
    }
  }

  // ---------------------------------------------------------------------
  // The author alias, as written and as intended.
  // ---------------------------------------------------------------------

  /**
   * As intended, every record of an author entry is marked under the
   * entry's own name and yielded under its alias, so no record of an
   * ignored user is yielded.
   */
  lemma {:induction false} IntendedScan(f: Filters, s: Summary, entry: string, st: State, xs: seq<Raw>)
    ensures OwnName(f, entry, Scan(Intended, f, s, entry, st, xs).1)
  {
    if xs != [] {
      IntendedScan(f, s, entry, st, xs[..|xs| - 1]);
    }
  }

  /** Every yield is marked under the entry's author, yielded under its alias, and the author is not ignored. */
  predicate OwnName(f: Filters, entry: string, ys: seq<Yield>) {
    forall j :: 0 <= j < |ys| ==> ys[j].0.author == entry && ys[j].1.author == Alias(f, entry) && entry !in f.ignoreUsers
  }

  /**
   * As written, with `authors: {a: b}` and `ignore_users: [a]`, the first
   * record of author a is dropped but it turns the loop variable into b,
   * so the second record is yielded under b.
   */
  lemma AsWrittenLeak()
    ensures var f := Filters(map["a" := "b"], [], [], ["a"], false);
      var s := Summary(Null, None, None);
      var xs := [Raw("p", "x", 1, Int(1)), Raw("p", "x", 2, Int(1))];
      && Scan(AsWritten, f, s, "a", State({}, "a"), xs).1 == [(Uid("x", "b", "p", 2), Item("x", "b", "p", 2, Int(1)))]
      && Scan(Intended, f, s, "a", State({}, "a"), xs).1 == []
  {
    var f := Filters(map["a" := "b"], [], [], ["a"], false);
    var s := Summary(Null, None, None);
    var xs := [Raw("p", "x", 1, Int(1)), Raw("p", "x", 2, Int(1))];
    assert xs[..1] == [xs[0]] && [xs[0]][..0] == [];
    assert "b" != "a";
  }

  // ---------------------------------------------------------------------
  // The generator's loops.
  // ---------------------------------------------------------------------

  /** One more record of the entry: one more step. */
  lemma ScanSnoc(rule: Rule, f: Filters, s: Summary, entry: string, st0: State, xs: seq<Raw>, i: nat)
    requires i < |xs|
    ensures var prev := Scan(rule, f, s, entry, st0, xs[..i]);
      var step := Step(rule, f, s, entry, prev.0, xs[i]);
      Scan(rule, f, s, entry, st0, xs[..i + 1]) == (step.0, if step.1.Some? then prev.1 + [step.1.value] else prev.1)
  {
    assert xs[..i + 1][..i] == xs[..i];
    var prev := Scan(rule, f, s, entry, st0, xs[..i]);
    assert prev.1 + [] == prev.1;
  }

  /** The innermost loop over the records of the author entry `entry`. */
  method ScanEntry(rule: Rule, f: Filters, s: Summary, entry: string, st0: State, xs: seq<Raw>)
    returns (st: State, ys: seq<Yield>)
    ensures (st, ys) == Scan(rule, f, s, entry, st0, xs)
  {
    st, ys := st0, [];
    for i := 0 to |xs|
      invariant (st, ys) == Scan(rule, f, s, entry, st0, xs[..i])
    {
      var x := xs[i];
      ghost var step := Step(rule, f, s, entry, st, x);
      ScanSnoc(rule, f, s, entry, st0, xs, i);
      var author := if rule == AsWritten then st.author else entry;
      var uid := Uid(x.commit, author, x.path, x.time);
      if uid in st.seen {
        st := State(st.seen, author);
        assert st == step.0 && step.1 == None;
        continue;
      }
      var seen := st.seen + {uid};
      if (Bound(s.start) && x.time < s.start.value) || (Bound(s.end) && x.time > s.end.value) {
        st := State(seen, author);
        assert st == step.0 && step.1 == None;
        continue;
      }
      var original := author;
      if author in f.authors {
        author := f.authors[author];
      }
      st := State(seen, author);
      if (f.ignoreBots && Contains(author, BotTag)) || author in f.ignoreUsers || original in f.ignoreUsers {
        assert st == step.0 && step.1 == None;
        continue;
      }
      ys := ys + [(uid, Item(x.commit, author, x.path, x.time, x.count))];
      assert st == step.0 && step.1 == Some((uid, Item(x.commit, author, x.path, x.time, x.count)));
    }
    assert xs[..|xs|] == xs;
  }

  /** The loop over the author entries of one commit of the history. */
  method ScanAuthors(rule: Rule, f: Filters, s: Summary, acc0: Acc, authors: Fields) returns (acc: Acc, stop: Option<Error>)
    ensures (acc, stop) == Authors(rule, f, s, acc0, authors, 0)
  {
    acc := acc0;
    for i := 0 to |authors|
      invariant Authors(rule, f, s, acc0, authors, 0) == Authors(rule, f, s, acc, authors, i)
    {
      var xs := EntryRaws(f, authors[i].1);
      var st, more := ScanEntry(rule, f, s, authors[i].0, State(acc.0, authors[i].0), xs.out);
      acc := (st.seen, acc.1 + more);
      if xs.stop.Some? {
        return acc, xs.stop;
      }
    }
    return acc, None;
  }

  /**
   * `iter_items(filters)` driven to its end: the items it yields, in
   * order, and the error it raises after them, if any; `list()` of it is
   * `IterItemsOf`.
   */
  method IterItems(rule: Rule, s: Summary, f: Filters) returns (items: seq<Item>, stop: Option<Error>)
    ensures items == Emitted(rule, f, s) && stop == Yields(rule, f, s).stop
    ensures IterItemsOf(rule, f, s) == if stop.Some? then Err(stop.value) else Ok(items)
  {
    if !s.history.Dict? {
      return [], Some(NotADict(s.history));
    }
    var history := s.history.fields;
    var acc: Acc := ({}, []);
    for i := 0 to |history|
      invariant History(rule, f, s, ({}, []), history, 0) == History(rule, f, s, acc, history, i)
    {
      if !history[i].1.Dict? {
        return Project(acc.1), Some(NotADict(history[i].1));
      }
      var here, failed := ScanAuthors(rule, f, s, acc, history[i].1.fields);
      acc := here;
      if failed.Some? {
        return Project(acc.1), failed;
      }
    }
    return Project(acc.1), None;
  }
}
