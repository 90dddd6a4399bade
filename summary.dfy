/**
 * The summaries of citelang's contributions: `by_file` and `by_author`
 * total or detail the items `iter_items` yields, and `_to_list` turns the
 * result into rows sorted by count, largest first.
 */
module ContribSummary {
  import opened Wrappers
  import opened Json
  import opened Sorting
  import opened Contrib
  import PyStr

  /** `by_file` keys the summary by path and details it by author; `by_author` the other way round. */
  datatype By = ByFile | ByAuthor

  function KeyOf(mode: By, it: Item): string {
    if mode == ByFile then it.path else it.author
  }

  function DetailOf(mode: By, it: Item): string {
    if mode == ByFile then it.author else it.path
  }

  /** Every value of a dict is a number. */
  predicate Numbers(fs: Fields) {
    forall j :: 0 <= j < |fs| ==> IsNumber(fs[j].1)
  }

  /** The value at a key of a dict of numbers is a number. */
  lemma NumbersGet(fs: Fields, k: string)
    requires Numbers(fs) && Has(fs, k)
    ensures IsNumber(Get(fs, k).value)
  {
    var i :| 0 <= i < |fs| && fs[i] == (k, Get(fs, k).value);
  }

  /** Putting a number into a dict of numbers keeps it one. */
  lemma NumbersPut(fs: Fields, k: string, v: Value)
    requires Numbers(fs) && IsNumber(v)
    ensures Numbers(Put(fs, k, v))
  {
    var r := Put(fs, k, v);
    match Lookup(fs, k)
    case None =>
      assert forall j :: 0 <= j < |r| ==> r[j] == (if j < |fs| then fs[j] else (k, v));
    case Some(p) =>
      assert forall j :: 0 <= j < |r| ==> r[j] == (if j == p then (k, v) else fs[j]);
  }

  /** `totals[key]` before the `+=`: 0 for a key not seen yet. */
  function Prior(fs: Fields, k: string): Value {
    match Get(fs, k) case Some(v) => v case None => Int(0)
  }

  lemma PriorNumber(fs: Fields, k: string)
    requires Numbers(fs)
    ensures IsNumber(Prior(fs, k))
  {
    if Has(fs, k) {
      NumbersGet(fs, k);
    }
  }

  /** The TypeError of `+=` on a count that is not a number. */
  const AddError := TypeError("unsupported operand type(s) for +=")

  /**
   * The non-detail loop: `totals[key] = 0` for a new key, then
   * `totals[key] += count`; a count that is not a number raises TypeError.
   */
  function Totals(mode: By, items: seq<Item>): (r: Result<Fields>)
    ensures r.Ok? ==> Distinct(r.value) && Numbers(r.value)
    ensures r.Err? ==> r.error == AddError
  {
    if items == [] then Ok([])
    else
      var acc := Totals(mode, items[..|items| - 1]);
      var it := items[|items| - 1];
      if acc.Err? then acc
      else if !IsNumber(it.count) then Err(AddError)
      else
        var k := KeyOf(mode, it);
        PriorNumber(acc.value, k);
        NumbersPut(acc.value, k, Add(Prior(acc.value, k), it.count));
        Ok(Put(acc.value, k, Add(Prior(acc.value, k), it.count)))
  }

  /** Every count is a number: what the `+=` needs. */
  predicate Counted(items: seq<Item>) {
    forall j :: 0 <= j < |items| ==> IsNumber(items[j].count)
  }

  lemma CountedSnoc(items: seq<Item>)
    requires items != []
    ensures Counted(items) <==> Counted(items[..|items| - 1]) && IsNumber(items[|items| - 1].count)
  {
    var front := items[..|items| - 1];
    assert forall j :: 0 <= j < |front| ==> front[j] == items[j];
  }

  /** The sum of the counts of the items under key k. */
  function SumFor(mode: By, items: seq<Item>, k: string): real
    requires Counted(items)
  {
    if items == [] then 0.0
    else
      var it := items[|items| - 1];
      SumFor(mode, items[..|items| - 1], k) + (if KeyOf(mode, it) == k then Numeric(it.count) else 0.0)
  }

  /** Some item has key k. */
  predicate Mentions(mode: By, items: seq<Item>, k: string) {
    exists j :: 0 <= j < |items| && KeyOf(mode, items[j]) == k
  }

  /** An item mentions k when the earlier ones do or the last one has it. */
  lemma MentionsSnoc(mode: By, items: seq<Item>, k: string)
    requires items != []
    ensures Mentions(mode, items, k) <==>
      Mentions(mode, items[..|items| - 1], k) || KeyOf(mode, items[|items| - 1]) == k
  {
    var front := items[..|items| - 1];
    if Mentions(mode, items, k) && KeyOf(mode, items[|items| - 1]) != k {
      var j :| 0 <= j < |items| && KeyOf(mode, items[j]) == k;
      assert j < |front| && KeyOf(mode, front[j]) == k;
    }
    if Mentions(mode, front, k) {
      var j :| 0 <= j < |front| && KeyOf(mode, front[j]) == k;
      assert KeyOf(mode, items[j]) == k;
    }
  }

  /** The totals fail exactly when some count is not a number. */
  lemma {:induction false} TotalsOk(mode: By, items: seq<Item>)
    ensures Totals(mode, items).Ok? <==> Counted(items)
  {
    if items != [] {
      TotalsOk(mode, items[..|items| - 1]);
      CountedSnoc(items);
    }
  }

  /** When they succeed, the totals hold every key of the items and no other. */
  lemma {:induction false} TotalsKeys(mode: By, items: seq<Item>, k: string)
    requires Totals(mode, items).Ok?
    ensures Get(Totals(mode, items).value, k).Some? <==> Mentions(mode, items, k)
  {
    if items != [] {
      var front := items[..|items| - 1];
      TotalsKeys(mode, front, k);
      MentionsSnoc(mode, items, k);
      var acc := Totals(mode, front).value;
      var k' := KeyOf(mode, items[|items| - 1]);
      assert Totals(mode, items).value == Put(acc, k', Add(Prior(acc, k'), items[|items| - 1].count));
    }
  }

  /** The total under a key is the sum of its items' counts. */
  lemma {:induction false} TotalsSum(mode: By, items: seq<Item>, k: string)
    requires Totals(mode, items).Ok?
    ensures Counted(items)
    ensures Numeric(Prior(Totals(mode, items).value, k)) == SumFor(mode, items, k)
  {
    TotalsOk(mode, items);
    if items != [] {
      var front := items[..|items| - 1];
      CountedSnoc(items);
      TotalsSum(mode, front, k);
    }
  }

  /** The detail loop: `details[key][detail] = count`, the last count under the pair winning. */
  function Details(mode: By, items: seq<Item>): (r: Fields)
  {
    if items == [] then []
    else
      var acc := Details(mode, items[..|items| - 1]);
      var it := items[|items| - 1];
      var k := KeyOf(mode, it);
      Put(acc, k, Dict(Put(InnerAt(acc, k), DetailOf(mode, it), it.count)))
  }

  /** The count of the last item with key k and detail d, if any. */
  function LastCount(mode: By, items: seq<Item>, k: string, d: string): Option<Value> {
    if items == [] then None
    else
      var it := items[|items| - 1];
      if KeyOf(mode, it) == k && DetailOf(mode, it) == d then Some(it.count)
      else LastCount(mode, items[..|items| - 1], k, d)
  }

  /** The inner dict under key k of the details, {} when k is new. */
  function InnerAt(fs: Fields, k: string): Fields {
    match Get(fs, k) case Some(Dict(inner)) => inner case _ => []
  }

  /** The detail keys are exactly those of the items. */
  lemma {:induction false} DetailsKeys(mode: By, items: seq<Item>, k: string)
    ensures Get(Details(mode, items), k).Some? <==> Mentions(mode, items, k)
  {
    if items != [] {
      var front := items[..|items| - 1];
      DetailsKeys(mode, front, k);
      MentionsSnoc(mode, items, k);
      var it := items[|items| - 1];
      var acc := Details(mode, front);
      assert Details(mode, items) == Put(acc, KeyOf(mode, it), Dict(Put(InnerAt(acc, KeyOf(mode, it)), DetailOf(mode, it), it.count)));
    }
  }

  /** The inner count for a key and a detail is the count of the last item with both, not a sum. */
  lemma {:induction false} DetailsLast(mode: By, items: seq<Item>, k: string, d: string)
    ensures Get(InnerAt(Details(mode, items), k), d) == LastCount(mode, items, k, d)
  {
    if items != [] {
      var front := items[..|items| - 1];
      DetailsLast(mode, front, k, d);
      var it := items[|items| - 1];
      var acc := Details(mode, front);
      var inner := Put(InnerAt(acc, KeyOf(mode, it)), DetailOf(mode, it), it.count);
      assert Details(mode, items) == Put(acc, KeyOf(mode, it), Dict(inner));
      if KeyOf(mode, it) == k {
        assert InnerAt(Details(mode, items), k) == inner;
      } else {
        assert InnerAt(Details(mode, items), k) == InnerAt(acc, k);
      }
    }
  }

  /** The key `item[1]` of a count, as a real. */
  function CountKey(e: (string, Value)): real {
    if IsNumber(e.1) then Numeric(e.1) else 0.0
  }

  /** `reverse=True`: larger counts first; Python keeps equal keys in their order, as a stable sort under `>` does. */
  function Greater(a: real, b: real): bool { a > b }

  lemma GreaterStrictTotal()
    ensures StrictTotal(Greater)
  {
  }

  function SKey(e: (string, Value)): string {
    if e.1.Str? then e.1.s else ""
  }

  function StrGreater(a: string, b: string): bool { StrLt(b, a) }

  lemma StrGreaterStrictTotal()
    ensures StrictTotal(StrGreater)
  {
    StrLtStrictTotal();
  }

  /**
   * `sorted(d.items(), key=lambda item: item[1], reverse=True)`: numbers
   * compare as numbers and strings as strings; any two values of other
   * kinds, or a number and a string, raise TypeError the first time the
   * sort compares them.
   */
  function SortByCount(fs: Fields): (r: Result<Fields>)
    ensures r.Ok? ==> multiset(r.value) == multiset(fs)
    ensures Numbers(fs) ==> r.Ok?
  {
    if Numbers(fs) then Ok(SortBy(fs, CountKey, Greater))
    else if forall j :: 0 <= j < |fs| ==> fs[j].1.Str? then Ok(SortBy(fs, SKey, StrGreater))
    else if |fs| <= 1 then Ok(fs)
    else Err(TypeError("'<' not supported"))
  }

  function Fst(e: (string, Value)): string { e.0 }

  /** Sorting the totals keeps the entries, orders them by count from the largest, keeps ties in order and keys distinct. */
  lemma SortByCountMeans(fs: Fields)
    requires Numbers(fs) && Distinct(fs)
    ensures var t := SortByCount(fs).value;
      && multiset(t) == multiset(fs)
      && (forall i, j :: 0 <= i < j < |t| ==> CountKey(t[i]) >= CountKey(t[j]))
      && (forall c :: WithKey(t, CountKey, c) == WithKey(fs, CountKey, c))
      && DistinctBy(t, Fst)
  {
    GreaterStrictTotal();
    SortBySorted(fs, CountKey, Greater);
    forall c ensures WithKey(SortBy(fs, CountKey, Greater), CountKey, c) == WithKey(fs, CountKey, c) {
      SortByStable(fs, CountKey, Greater, c);
    }
    assert DistinctBy(fs, Fst);
    SortByDistinct(fs, CountKey, Greater, Fst);
  }

  /** `{"name": key, "count": count}` */
  function CountRow(e: (string, Value)): Value {
    Dict([("name", Str(e.0)), ("count", e.1)])
  }

  /** `{"name": key, "paths": sorted inner dict}` */
  function DetailRow(k: string, inner: Fields): Value {
    Dict([("name", Str(k)), ("paths", Dict(inner))])
  }

  /** The name/count rows of sorted entries, in their order. */
  function CountRows(t: Fields): (r: seq<Value>)
    ensures |r| == |t| && forall j :: 0 <= j < |t| ==> r[j] == CountRow(t[j])
  {
    if t == [] then [] else CountRows(t[..|t| - 1]) + [CountRow(t[|t| - 1])]
  }

  /** `_to_list(totals, False)`: the entries sorted by count from the largest, as name/count rows. */
  function TotalsList(fs: Fields): (r: Result<seq<Value>>)
    ensures Numbers(fs) ==> r.Ok? && |r.value| == |fs|
  {
    var t := SortByCount(fs);
    if t.Err? then Err(t.error)
    else
      assert |t.value| == |multiset(t.value)| == |multiset(fs)| == |fs|;
      Ok(CountRows(t.value))
  }

  /** The inner dict of one detail entry, sorted by count from the largest; a value that is not a dict has no `items`. */
  function SortedInner(v: Value): Result<Fields> {
    if v.Dict? then SortByCount(v.fields) else Err(NotADict(v))
  }

  /** `_to_list(details, True)`: per key in order, its inner dict sorted by count from the largest; the first failure is raised. */
  function DetailsList(fs: Fields): (r: Result<seq<Value>>)
    ensures r.Ok? ==> |r.value| == |fs|
  {
    if fs == [] then Ok([])
    else
      var rest := DetailsList(fs[..|fs| - 1]);
      var inner := SortedInner(fs[|fs| - 1].1);
      if rest.Err? then rest
      else if inner.Err? then Err(inner.error)
      else Ok(rest.value + [DetailRow(fs[|fs| - 1].0, inner.value)])
  }

  /** Once a prefix fails, the whole list fails with the same error. */
  lemma {:induction false} DetailsListErr(fs: Fields, i: nat)
    requires i <= |fs| && DetailsList(fs[..i]).Err?
    ensures DetailsList(fs) == DetailsList(fs[..i])
    decreases |fs|
  {
    if i < |fs| {
      var front := fs[..|fs| - 1];
      assert front[..i] == fs[..i];
      DetailsListErr(front, i);
    } else {
      assert fs[..i] == fs;
    }
  }

  /** `_to_list(original, detail)`. */
  function ToListOf(original: Fields, detail: bool): Result<seq<Value>> {
    if detail then DetailsList(original) else TotalsList(original)
  }

  /** `by_file(detail, filters)` or `by_author(detail, filters)` on the items iter_items yields. */
  function SummaryOf(mode: By, detail: bool, items: seq<Item>): Result<seq<Value>> {
    if detail then ToListOf(Details(mode, items), true)
    else
      var t := Totals(mode, items);
      if t.Err? then Err(t.error) else ToListOf(t.value, false)
  }

  /**
   * `by_file` or `by_author` over a generator that yielded `yielded` and
   * then raised `stop`, if it did: the loop body runs after each yield, so
   * a `+=` that fails on an item yielded before the generator's error
   * raises first; otherwise the generator's error ends the loop, and a
   * generator that runs to its end gives the summary of all it yielded.
   */
  function SummaryRunOf(mode: By, detail: bool, yielded: seq<Item>, stop: Option<Error>): Result<seq<Value>> {
    if !detail && Totals(mode, yielded).Err? then Err(Totals(mode, yielded).error)
    else if stop.Some? then Err(stop.value)
    else SummaryOf(mode, detail, yielded)
  }

  /** `by_file(detail, filters)` (ByFile) or `by_author(detail, filters)` (ByAuthor) over `iter_items(filters)`. */
  function ContributionsBy(mode: By, rule: Rule, f: Filters, s: Summary, detail: bool): Result<seq<Value>> {
    SummaryRunOf(mode, detail, Emitted(rule, f, s), Yields(rule, f, s).stop)
  }

  /**
   * What the summaries raise and return: without detail, a count that is
   * not a number among the items yielded before the generator stops raises
   * the TypeError of `+=`, whatever the generator raises later; otherwise
   * the generator's error is raised; and a generator that runs to its end
   * gives the summary of `list(iter_items(filters))`.
   */
  lemma ContributionsByMeans(mode: By, rule: Rule, f: Filters, s: Summary, detail: bool)
    ensures !detail && !Counted(Emitted(rule, f, s)) ==> ContributionsBy(mode, rule, f, s, detail) == Err(AddError)
    ensures var stop := Yields(rule, f, s).stop;
      (detail || Counted(Emitted(rule, f, s))) && stop.Some? ==> ContributionsBy(mode, rule, f, s, detail) == Err(stop.value)
    ensures IterItemsOf(rule, f, s).Ok? ==>
      ContributionsBy(mode, rule, f, s, detail) == SummaryOf(mode, detail, IterItemsOf(rule, f, s).value)
  {
    TotalsOk(mode, Emitted(rule, f, s));
  }

  /**
   * A history whose first record counts "n" lines and whose next path
   * holds a number instead of a dict of commits: `list(iter_items())`
   * raises the AttributeError of `commits.items()`, but `by_file` without
   * detail raises the TypeError of `+=` before the generator gets that far.
   */
  lemma SumFailsBeforeWalk(paths: Value, s: Summary)
    requires paths == Dict([("p", Dict([("x", Dict([("1", Str("n"))]))])), ("q", Int(5))])
    requires s == Summary(Dict([("c", Dict([("a", paths)]))]), None, None)
    ensures IterItemsOf(AsWritten, NoFilters, s) == Err(NotADict(Int(5)))
    ensures ContributionsBy(ByFile, AsWritten, NoFilters, s, false) == Err(AddError)
  {
    var it := Item("x", "a", "p", 1, Str("n"));
    WitnessWalk(paths, s);
    TotalsOfOne(ByFile, it);
  }

  /** A single item whose count is not a number makes the `+=` raise. */
  lemma TotalsOfOne(mode: By, it: Item)
    requires !IsNumber(it.count)
    ensures Totals(mode, [it]) == Err(AddError)
  {
    assert [it][..0] == [];
  }

  /** The witness's walk yields its one record, then stops on the second path. */
  lemma WitnessWalk(paths: Value, s: Summary)
    requires paths == Dict([("p", Dict([("x", Dict([("1", Str("n"))]))])), ("q", Int(5))])
    requires s == Summary(Dict([("c", Dict([("a", paths)]))]), None, None)
    ensures Emitted(AsWritten, NoFilters, s) == [Item("x", "a", "p", 1, Str("n"))]
    ensures Yields(AsWritten, NoFilters, s).stop == Some(NotADict(Int(5)))
  {
    var y := (Uid("x", "a", "p", 1), Item("x", "a", "p", 1, Str("n")));
    WitnessEntry(paths);
    WitnessScan(s);
    var walked := (({y.0}, [y]), Some(NotADict(Int(5))));
    assert EntryStep(AsWritten, NoFilters, s, ({}, []), "a", paths) == walked;
    assert Authors(AsWritten, NoFilters, s, ({}, []), [("a", paths)], 0) == walked;
    assert History(AsWritten, NoFilters, s, ({}, []), s.history.fields, 0) == walked;
  }

  /** The records of the witness's author entry: one, then the error of the second path. */
  lemma WitnessEntry(paths: Value)
    requires paths == Dict([("p", Dict([("x", Dict([("1", Str("n"))]))])), ("q", Int(5))])
    ensures EntryRaws(NoFilters, paths) == Run([Raw("p", "x", 1, Str("n"))], Some(NotADict(Int(5))))
  {
    WitnessPaths(paths.fields);
  }

  /** The same, over the entry's paths. */
  lemma WitnessPaths(paths: Fields)
    requires paths == [("p", Dict([("x", Dict([("1", Str("n"))]))])), ("q", Int(5))]
    ensures PathsRaws(NoFilters, paths) == Run([Raw("p", "x", 1, Str("n"))], Some(NotADict(Int(5))))
  {
    var x := Raw("p", "x", 1, Str("n"));
    WitnessCommits([("x", Dict([("1", Str("n"))]))]);
    WitnessSecondPath(paths[1..]);
    assert !PathIgnored(NoFilters, paths[0].0);
    assert [x] + [] == [x];
  }

  /** The witness's second path holds a number, not a dict of commits. */
  lemma WitnessSecondPath(paths: Fields)
    requires paths == [("q", Int(5))]
    ensures PathsRaws(NoFilters, paths) == Run([], Some(NotADict(Int(5))))
  {
    assert !PathIgnored(NoFilters, "q");
  }

  /** The witness's first path: one commit with one time. */
  lemma WitnessCommits(commits: Fields)
    requires commits == [("x", Dict([("1", Str("n"))]))]
    ensures CommitsRaws("p", commits) == Run([Raw("p", "x", 1, Str("n"))], None)
  {
    var times: Fields := [("1", Str("n"))];
    PyStr.ParseIntToString(1);
    assert PyStr.NatToString(1) == "1";
    assert TimesRaws("p", "x", times) == Run([Raw("p", "x", 1, Str("n"))], None);
  }

  /** The witness's one record is yielded under its own author. */
  lemma WitnessScan(s: Summary)
    requires s.start == None && s.end == None
    ensures var x := Raw("p", "x", 1, Str("n"));
      Scan(AsWritten, NoFilters, s, "a", State({}, "a"), [x]) ==
        (State({Uid("x", "a", "p", 1)}, "a"), [(Uid("x", "a", "p", 1), Item("x", "a", "p", 1, Str("n")))])
  {
    var x := Raw("p", "x", 1, Str("n"));
    assert !Bound(s.start) && !Bound(s.end);
    assert Alias(NoFilters, "a") == "a";
    assert !Ignored(NoFilters, "a", "a");
    assert [x][..0] == [];
    assert Scan(AsWritten, NoFilters, s, "a", State({}, "a"), []) == (State({}, "a"), []);
    var u := Uid("x", "a", "p", 1);
    assert u !in {};
    assert {} + {u} == {u};
    assert Step(AsWritten, NoFilters, s, "a", State({}, "a"), x) ==
      (State({Uid("x", "a", "p", 1)}, "a"), Some((Uid("x", "a", "p", 1), Item("x", "a", "p", 1, Str("n")))));
    var y := (u, Item("x", "a", "p", 1, Str("n")));
    assert [] + [y] == [y];
  }

  /** The totals of the items, sorted by count from the largest. */
  function Ranked(mode: By, items: seq<Item>): (t: Fields)
    requires Counted(items)
    ensures Totals(mode, items).Ok? && multiset(t) == multiset(Totals(mode, items).value)
  {
    TotalsOk(mode, items);
    SortByCount(Totals(mode, items).value).value
  }

  /** The entries of a distinct dict are what Get finds at their keys. */
  lemma EntryIsGet(fs: Fields, t: Fields, j: nat)
    requires Distinct(fs) && multiset(t) == multiset(fs) && j < |t|
    ensures Get(fs, t[j].0) == Some(t[j].1)
  {
    assert t[j] in multiset(fs);
    var i :| 0 <= i < |fs| && fs[i] == t[j];
    GetEntry(fs, i);
  }

  /**
   * `by_file(False)` and `by_author(False)` on items whose counts are
   * numbers: one row per key of the items, no key twice, each with the sum
   * of its counts, the rows ordered by that sum from the largest and equal
   * sums in the order their keys first appeared.
   */
  lemma TotalsSummary(mode: By, items: seq<Item>, k: string)
    requires Counted(items)
    ensures SummaryOf(mode, false, items) == Ok(CountRows(Ranked(mode, items)))
    ensures var t := Ranked(mode, items);
      && (forall i, j :: 0 <= i < j < |t| ==> CountKey(t[i]) >= CountKey(t[j]))
      && (forall c :: WithKey(t, CountKey, c) == WithKey(Totals(mode, items).value, CountKey, c))
      && DistinctBy(t, Fst)
      && ((exists j :: 0 <= j < |t| && t[j].0 == k) <==> Mentions(mode, items, k))
      && (forall j :: 0 <= j < |t| && t[j].0 == k ==> IsNumber(t[j].1) && Numeric(t[j].1) == SumFor(mode, items, k))
  {
    TotalsOk(mode, items);
    var fs := Totals(mode, items).value;
    var t := Ranked(mode, items);
    SortByCountMeans(fs);
    TotalsKeys(mode, items, k);
    TotalsSum(mode, items, k);
    forall j | 0 <= j < |t| && t[j].0 == k ensures IsNumber(t[j].1) && Numeric(t[j].1) == SumFor(mode, items, k) {
      EntryIsGet(fs, t, j);
      NumbersGet(fs, k);
    }
    if Mentions(mode, items, k) {
      var v := Get(fs, k).value;
      assert (k, v) in multiset(t);
      var j :| 0 <= j < |t| && t[j] == (k, v);
    }
    if exists j :: 0 <= j < |t| && t[j].0 == k {
      var j :| 0 <= j < |t| && t[j].0 == k;
      EntryIsGet(fs, t, j);
    }
  }

  /** Every value of the details is a dict of numbers with distinct keys. */
  predicate Shaped(fs: Fields) {
    forall j :: 0 <= j < |fs| ==> fs[j].1.Dict? && Numbers(fs[j].1.fields) && Distinct(fs[j].1.fields)
  }

  lemma InnerAtShaped(fs: Fields, k: string)
    requires Shaped(fs)
    ensures Numbers(InnerAt(fs, k)) && Distinct(InnerAt(fs, k))
  {
    if Has(fs, k) {
      var i :| 0 <= i < |fs| && fs[i] == (k, Get(fs, k).value);
    }
  }

  lemma ShapedPut(fs: Fields, k: string, v: Value)
    requires Shaped(fs) && v.Dict? && Numbers(v.fields) && Distinct(v.fields)
    ensures Shaped(Put(fs, k, v))
  {
    var r := Put(fs, k, v);
    match Lookup(fs, k)
    case None =>
      assert forall j :: 0 <= j < |r| ==> r[j] == (if j < |fs| then fs[j] else (k, v));
    case Some(p) =>
      assert forall j :: 0 <= j < |r| ==> r[j] == (if j == p then (k, v) else fs[j]);
  }

  /** With numeric counts, every detail entry is a dict of numbers keyed once each. */
  lemma {:induction false} DetailsShaped(mode: By, items: seq<Item>)
    requires Counted(items)
    ensures Shaped(Details(mode, items))
  {
    if items != [] {
      var front := items[..|items| - 1];
      var it := items[|items| - 1];
      CountedSnoc(items);
      DetailsShaped(mode, front);
      var acc := Details(mode, front);
      InnerAtShaped(acc, KeyOf(mode, it));
      NumbersPut(InnerAt(acc, KeyOf(mode, it)), DetailOf(mode, it), it.count);
      ShapedPut(acc, KeyOf(mode, it), Dict(Put(InnerAt(acc, KeyOf(mode, it)), DetailOf(mode, it), it.count)));
    }
  }

  /** The rows of a prefix, and the row of the last pair, are the rows of the whole. */
  lemma RowsSnoc(fs: Fields, rows: seq<Value>)
    requires fs != [] && |rows| == |fs| - 1
    requires forall j :: 0 <= j < |fs| ==> fs[j].1.Dict?
    requires forall j :: 0 <= j < |rows| ==>
      rows[j] == DetailRow(fs[..|fs| - 1][j].0, SortBy(fs[..|fs| - 1][j].1.fields, CountKey, Greater))
    ensures var last := fs[|fs| - 1];
      var all := rows + [DetailRow(last.0, SortBy(last.1.fields, CountKey, Greater))];
      forall j :: 0 <= j < |fs| ==> all[j] == DetailRow(fs[j].0, SortBy(fs[j].1.fields, CountKey, Greater))
  {
    var last := fs[|fs| - 1];
    var all := rows + [DetailRow(last.0, SortBy(last.1.fields, CountKey, Greater))];
    forall j | 0 <= j < |fs| ensures all[j] == DetailRow(fs[j].0, SortBy(fs[j].1.fields, CountKey, Greater)) {
      if j < |rows| {
        assert all[j] == rows[j] && fs[..|fs| - 1][j] == fs[j];
      }
    }
  }

  /** On shaped details, `_to_list` succeeds with one row per key, in order, its inner dict sorted by count. */
  lemma {:induction false} DetailsListRows(fs: Fields)
    requires Shaped(fs)
    ensures DetailsList(fs).Ok?
    ensures forall j :: 0 <= j < |fs| ==> DetailsList(fs).value[j] == DetailRow(fs[j].0, SortBy(fs[j].1.fields, CountKey, Greater))
  {
    if fs != [] {
      var front, last := fs[..|fs| - 1], fs[|fs| - 1];
      assert Shaped(front) by {
        forall j | 0 <= j < |front| ensures front[j] == fs[j] {}
      }
      DetailsListRows(front);
      var rows := DetailsList(front).value;
      assert SortedInner(last.1) == Ok(SortBy(last.1.fields, CountKey, Greater));
      assert DetailsList(fs) == Ok(rows + [DetailRow(last.0, SortBy(last.1.fields, CountKey, Greater))]);
      RowsSnoc(fs, rows);
    }
  }

  /**
   * `by_file(True)` and `by_author(True)` on items whose counts are
   * numbers: one row per key of the items in the order the keys first
   * appear, each holding, for every detail seen with the key, the count of
   * the last such item, the inner entries ordered by count from the largest.
   */
  lemma DetailsSummary(mode: By, items: seq<Item>, k: string, d: string)
    requires Counted(items)
    ensures Shaped(Details(mode, items)) && SummaryOf(mode, true, items).Ok?
    ensures var fs := Details(mode, items); var rows := SummaryOf(mode, true, items).value;
      && |rows| == |fs|
      && (forall j :: 0 <= j < |fs| ==> rows[j] == DetailRow(fs[j].0, SortBy(fs[j].1.fields, CountKey, Greater)))
      && (Has(fs, k) <==> Mentions(mode, items, k))
      && Get(InnerAt(fs, k), d) == LastCount(mode, items, k, d)
      && (forall j :: 0 <= j < |fs| ==> Sorted(SortBy(fs[j].1.fields, CountKey, Greater), CountKey, Greater))
  {
    var fs := Details(mode, items);
    DetailsShaped(mode, items);
    DetailsListRows(fs);
    DetailsKeys(mode, items, k);
    DetailsLast(mode, items, k, d);
    GreaterStrictTotal();
    forall j | 0 <= j < |fs| ensures Sorted(SortBy(fs[j].1.fields, CountKey, Greater), CountKey, Greater) {
      SortBySorted(fs[j].1.fields, CountKey, Greater);
    }
  }

  /** The loops of `_to_list`: one row per entry of `original`. */
  method ToList(original: Fields, detail: bool) returns (r: Result<seq<Value>>)
    ensures r == ToListOf(original, detail)
  {
    var items: seq<Value> := [];
    if detail {
      for i := 0 to |original|
        invariant DetailsList(original[..i]) == Ok(items)
      {
        assert original[..i + 1][..i] == original[..i];
        var sortedPaths := SortedInner(original[i].1);
        if sortedPaths.Err? {
          assert original[..i + 1][i] == original[i];
          DetailsListErr(original, i + 1);
          return Err(sortedPaths.error);
        }
        items := items + [DetailRow(original[i].0, sortedPaths.value)];
      }
    } else {
      var sorted := SortByCount(original);
      if sorted.Err? {
        return Err(sorted.error);
      }
      var t := sorted.value;
      for i := 0 to |t|
        invariant items == CountRows(t[..i])
      {
        assert t[..i + 1][..i] == t[..i];
        items := items + [CountRow(t[i])];
      }
      assert t[..|t|] == t;
    }
    assert original[..|original|] == original;
    return Ok(items);
  }

  /**
   * The loop of `by_file` and `by_author` over a generator that yielded
   * `yielded` and then raised `stop`, if it did, then `_to_list`.
   */
  method Summarize(mode: By, detail: bool, yielded: seq<Item>, stop: Option<Error>) returns (r: Result<seq<Value>>)
    ensures r == SummaryRunOf(mode, detail, yielded, stop)
  {
    if detail {
      var results := CollectDetails(mode, yielded);
      if stop.Some? {
        return Err(stop.value);
      }
      r := ToList(results, true);
    } else {
      var results := CollectTotals(mode, yielded);
      if results.Err? {
        return Err(results.error);
      }
      if stop.Some? {
        return Err(stop.value);
      }
      r := ToList(results.value, false);
    }
  }

  /** The loop with `detail`: each item's count stored under its key and detail. */
  method CollectDetails(mode: By, yielded: seq<Item>) returns (results: Fields)
    ensures results == Details(mode, yielded)
  {
    results := [];
    for i := 0 to |yielded|
      invariant results == Details(mode, yielded[..i])
    {
      assert yielded[..i + 1][..i] == yielded[..i];
      var it := yielded[i];
      var key := KeyOf(mode, it);
      results := Put(results, key, Dict(Put(InnerAt(results, key), DetailOf(mode, it), it.count)));
    }
    assert yielded[..|yielded|] == yielded;
  }

  /** The loop without `detail`: each item's count added to its key's total. */
  method CollectTotals(mode: By, yielded: seq<Item>) returns (r: Result<Fields>)
    ensures r == Totals(mode, yielded)
  {
    var results: Fields := [];
    for i := 0 to |yielded|
      invariant Totals(mode, yielded[..i]) == Ok(results)
    {
      assert yielded[..i + 1][..i] == yielded[..i];
      var it := yielded[i];
      var key := KeyOf(mode, it);
      if !IsNumber(it.count) {
        assert Totals(mode, yielded[..i + 1]).Err?;
        TotalsOk(mode, yielded[..i + 1]);
        TotalsOk(mode, yielded);
        assert yielded[..i + 1][i] == it;
        return Err(AddError);
      }
      PriorNumber(results, key);
      results := Put(results, key, Add(Prior(results, key), it.count));
    }
    assert yielded[..|yielded|] == yielded;
    return Ok(results);
  }

  /** `ContributionSummary.by_file(detail, filters)`. */
  method ByFileSummary(rule: Rule, s: Summary, f: Filters, detail: bool) returns (r: Result<seq<Value>>)
    ensures r == ContributionsBy(ByFile, rule, f, s, detail)
  {
    var items, stop := IterItems(rule, s, f);
    r := Summarize(ByFile, detail, items, stop);
  }

  /** `ContributionSummary.by_author(detail, filters)`. */
  method ByAuthorSummary(rule: Rule, s: Summary, f: Filters, detail: bool) returns (r: Result<seq<Value>>)
    ensures r == ContributionsBy(ByAuthor, rule, f, s, detail)
  {
    var items, stop := IterItems(rule, s, f);
    r := Summarize(ByAuthor, detail, items, stop);
  }
}
