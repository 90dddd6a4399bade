/**
 * The dependency scanner shared by the Python managers
 * (citelang/main/packages/python_base.py, `parse_python_deps`): each line
 * that is not a local install is cut at its first "#", blank lines and "git@" references
 * are skipped, a version operator splits the rest into a name and a
 * version, a variant such as `[extra]` leaves the name, and every package
 * the lookup finds becomes a "Pypi" record cached under its version.
 */
module PythonDeps {
  import opened Wrappers
  import opened Json
  import opened PyStr
  import opened PackageCache
  import opened Packages
  import opened Managers
  import opened Patterns

  /** `underlying_manager`, which is also the manager of the cache names written here. */
  const Underlying := "pypi"

  /** The pattern `(==|~=|<=|>=|<|>|!=)`. */
  const Ops: seq<string> := ["==", "~=", "<=", ">=", "<", ">", "!="]

  /** None of the operators is empty. */
  lemma Alternatives()
    ensures Literals(Ops)
  {
  }

  /** `re.search(pattern, line)` */
  predicate HasOp(line: string) {
    Alternatives();
    Matches(line, Ops)
  }

  /** `name, _, version = re.split(pattern, line)` */
  function SplitOp(line: string): Result<(string, string)> {
    Alternatives();
    SplitOnce(line, Ops)
  }

  // ---------------------------------------------------------------------
  // `re.sub("\[.+\]", "", name)`
  // ---------------------------------------------------------------------

  /** No newline at the indices `a` up to `k`: the stretch `.` can cross. */
  predicate Inline(s: string, a: nat, k: nat)
    requires k <= |s|
  {
    forall m :: a <= m < k ==> s[m] != '\n'
  }

  /** The last "]" at or after `i` before the next newline, or `best` when there is none. */
  function CloseFrom(s: string, i: nat, best: Option<nat>): (r: Option<nat>)
    requires best.Some? ==> best.value < i && best.value < |s| && s[best.value] == ']'
    ensures r.Some? ==> r.value < |s| && s[r.value] == ']' && (r == best || (i <= r.value && Inline(s, i, r.value)))
    ensures r.None? ==> best.None?
    ensures forall k :: i <= k < |s| && s[k] == ']' && Inline(s, i, k) ==> r.Some? && i <= k <= r.value
    decreases |s| - i
  {
    if i >= |s| || s[i] == '\n' then best
    else CloseFrom(s, i + 1, if s[i] == ']' then Some(i) else best)
  }

  /**
   * Where a match of `\[.+\]` that starts at `p` ends (the index of its
   * "]"): the match exists when a "]" at least two past the "[" is reached
   * before a newline, and greedy `.+` takes the last such "]".
   */
  function VariantEnd(s: string, p: nat): (r: Option<nat>)
    requires p < |s|
    ensures r.Some? ==> s[p] == '[' && p + 2 <= r.value < |s| && s[r.value] == ']' && Inline(s, p + 1, r.value)
    ensures s[p] == '[' ==>
      forall k :: p + 2 <= k < |s| && s[k] == ']' && Inline(s, p + 1, k) ==> r.Some? && k <= r.value
  {
    if s[p] == '[' && p + 1 < |s| && s[p + 1] != '\n' then CloseFrom(s, p + 2, None) else None
  }

  /** `re.sub` from index `p` on: each match, leftmost first, is deleted and the search goes on after it. */
  function SubFrom(s: string, p: nat): string
    decreases |s| - p
  {
    if p >= |s| then []
    else
      match VariantEnd(s, p)
      case Some(e) => SubFrom(s, e + 1)
      case None => [s[p]] + SubFrom(s, p + 1)
  }

  /** `re.sub("\[.+\]", "", name)` */
  function Variants(s: string): string {
    SubFrom(s, 0)
  }

  /** A character that opens no match is copied. */
  lemma CopyOne(s: string, p: nat)
    requires p < |s| && s[p] != '['
    ensures SubFrom(s, p) == [s[p]] + SubFrom(s, p + 1)
  {
  }

  /** Before the first "[", the text is copied. */
  lemma {:induction false} CopyUpTo(s: string, p: nat, i: nat)
    requires p <= i <= |s|
    requires forall k :: p <= k < i ==> s[k] != '['
    ensures SubFrom(s, p) == s[p..i] + SubFrom(s, i)
    decreases i - p
  {
    if p < i {
      CopyUpTo(s, p + 1, i);
      CopyOne(s, p);
      calc {
        SubFrom(s, p);
        [s[p]] + SubFrom(s, p + 1);
        [s[p]] + (s[p + 1..i] + SubFrom(s, i));
        ([s[p]] + s[p + 1..i]) + SubFrom(s, i);
        { assert [s[p]] + s[p + 1..i] == s[p..i]; }
        s[p..i] + SubFrom(s, i);
      }
    }
  }

  /** Without a "]" ahead, there is no match and the rest is copied. */
  lemma {:induction false} CopyRest(s: string, p: nat)
    requires p <= |s|
    requires forall k :: p <= k < |s| ==> s[k] != ']'
    ensures SubFrom(s, p) == s[p..]
    decreases |s| - p
  {
    if p < |s| {
      CopyRest(s, p + 1);
      assert s[p..] == [s[p]] + s[p + 1..];
    }
  }

  /**
   * On a one-line name, the first "[" and the last "]" at least two past
   * it delimit what is removed: the greedy match swallows every bracket
   * between them.
   */
  lemma VariantsGreedy(s: string, i: nat, j: nat)
    requires '\n' !in s
    requires i + 2 <= j < |s| && s[i] == '[' && s[j] == ']'
    requires forall k :: 0 <= k < i ==> s[k] != '['
    requires forall k :: j < k < |s| ==> s[k] != ']'
    ensures Variants(s) == s[..i] + s[j + 1..]
  {
    CopyUpTo(s, 0, i);
    assert Inline(s, i + 1, j) by {
      forall m | i + 1 <= m < j ensures s[m] != '\n' {
        assert s[m] in s;
      }
    }
    assert VariantEnd(s, i) == Some(j);
    CopyRest(s, j + 1);
  }

  /** A name in which no "]" follows a "[" by two or more places keeps every character. */
  lemma {:induction false} VariantsKeep(s: string, p: nat)
    requires p <= |s|
    requires forall i, j :: p <= i && i + 2 <= j < |s| ==> s[i] != '[' || s[j] != ']'
    ensures SubFrom(s, p) == s[p..]
    decreases |s| - p
  {
    if p < |s| {
      VariantsKeep(s, p + 1);
      assert s[p..] == [s[p]] + s[p + 1..];
    }
  }

  /** Removing the variants adds no character. */
  lemma {:induction false} VariantsKeepChar(s: string, p: nat, x: char)
    requires x in SubFrom(s, p)
    ensures x in s
    decreases |s| - p
  {
    if p < |s| {
      match VariantEnd(s, p)
      case Some(e) => VariantsKeepChar(s, e + 1, x);
      case None =>
        if x != s[p] {
          VariantsKeepChar(s, p + 1, x);
        }
    }
  }

  // ---------------------------------------------------------------------
  // One line.
  // ---------------------------------------------------------------------

  /** The stripped line split at its only operator into a name and a stripped version, or the line as a bare name. */
  function Pin(line: string): Result<(string, Option<string>)> {
    if HasOp(line) then
      var parts :- SplitOp(line);
      Ok((parts.0, Some(Strip(parts.1))))
    else Ok((line, None))
  }

  /**
   * What a line that passed the local-install test asks the lookup for:
   * nothing when the line is skipped, otherwise the name (variants removed)
   * and the version; a line with two operators fails the unpacking.
   */
  function Kept(line: string): Result<Option<(string, Option<string>)>> {
    var cut := Before(line, "#");
    if StartsWith(Strip(cut), "#") then Ok(None)
    else if cut == "" || Contains(cut, "git@") then Ok(None)
    else
      var nv :- Pin(Strip(cut));
      var name := Strip(nv.0);
      if name == "" then Ok(None) else Ok(Some((Variants(name), nv.1)))
  }

  /** One line as written: "-e" anywhere in it, as in the name python-engineio, skips the line. */
  function EntryAsWritten(line: string): Result<Option<(string, Option<string>)>> {
    if Contains(line, "-e") then Ok(None) else Kept(line)
  }

  /** A local install, `-e <path>`: the stripped line starts with "-e". */
  predicate LocalInstall(line: string) {
    StartsWith(Strip(line), "-e")
  }

  /** One line as intended: only a local install is skipped for "-e". */
  function Entry(line: string): Result<Option<(string, Option<string>)>> {
    if LocalInstall(line) then Ok(None) else Kept(line)
  }

  /**
   * The two tests differ only on lines that hold "-e" without starting
   * with it: as written those are skipped, whatever package they name.
   */
  lemma AsWrittenDiffers(line: string)
    ensures !Contains(line, "-e") ==> EntryAsWritten(line) == Entry(line)
    ensures LocalInstall(line) ==> EntryAsWritten(line) == Entry(line) == Ok(None)
    ensures EntryAsWritten(line) != Entry(line) ==>
      Contains(line, "-e") && !LocalInstall(line) && EntryAsWritten(line) == Ok(None) && Entry(line) == Kept(line)
  {
    if !Contains(line, "-e") {
      StripKeepsAbsent(line, "-e");
      assert !OccursAt(Strip(line), "-e", 0);
    }
  }

  /** As written, a requirement on python-engineio is dropped: its name holds "-e". */
  lemma AsWrittenDropsEngineio()
    ensures EntryAsWritten("python-engineio==4.3.1") == Ok(None)
    ensures !LocalInstall("python-engineio==4.3.1")
  {
    var line := "python-engineio==4.3.1";
    ContainsIff(line, "-e", 6);
    StripUnchanged(line);
  }

  /** Which test of a local install a line goes through: the one `parse_python_deps` runs, or the intended one. */
  datatype Rule = AsWritten | Intended

  /** One line under the chosen test. */
  function EntryBy(rule: Rule, line: string): Result<Option<(string, Option<string>)>> {
    if rule == AsWritten then EntryAsWritten(line) else Entry(line)
  }

  /** One turn of the loop: a skipped line or a package the lookup does not find adds nothing. */
  function Step(rule: Rule, s: Store, cfg: Config, line: string, fetch: Fetch): (Result<Option<Dep>>, Store) {
    Turn(EntryBy(rule, line), s, cfg, fetch)
  }

  /** The turn for what the line asked for: the lookup, then the record. */
  function Turn(e: Result<Option<(string, Option<string>)>>, s: Store, cfg: Config, fetch: Fetch): (Result<Option<Dep>>, Store) {
    if e.Err? then (Err(e.error), s)
    else if e.value.None? then (Ok(None), s)
    else
      var (name, version) := e.value.value;
      var got := GetPackageOf(s, Underlying, name, version, fetch);
      if got.0.Err? then (Err(got.0.error), got.1)
      else if got.0.value.None? then (Ok(None), got.1)
      else
        var rec := RecordOf(got.1, cfg, Underlying, "Pypi", name, version, got.0.value.value);
        if rec.0.Err? then (Err(rec.0.error), rec.1) else (Ok(Some(rec.0.value)), rec.1)
  }

  /** The loop of `parse_python_deps`, continuing from the records so far. */
  function Deps(rule: Rule, s: Store, cfg: Config, lines: seq<string>, fetch: Fetch, deps: seq<Dep>): (Result<seq<Dep>>, Store)
    decreases |lines|
  {
    if lines == [] then (Ok(deps), s)
    else
      var step := Step(rule, s, cfg, lines[0], fetch);
      if step.0.Err? then (Err(step.0.error), step.1)
      else Deps(rule, step.1, cfg, lines[1..], fetch, if step.0.value.Some? then deps + [step.0.value.value] else deps)
  }

  // ---------------------------------------------------------------------
  // What one line promises.
  // ---------------------------------------------------------------------

  /** Once the text after "#" is cut off, the stripped line cannot start with "#": the comment check never skips a line. */
  lemma CommentCheckDead(line: string)
    ensures !StartsWith(Strip(Before(line, "#")), "#")
  {
    var cut := Before(line, "#");
    StripKeepsAbsent(cut, "#");
  }

  /** Local installs, blank lines (after the cut at "#") and "git@" references are skipped. */
  lemma EntrySkips(line: string)
    ensures LocalInstall(line) ==> Entry(line) == Ok(None)
    ensures Before(line, "#") == "" ==> Entry(line) == Ok(None)
    ensures Contains(Before(line, "#"), "git@") ==> Entry(line) == Ok(None)
  {
  }

  /** A line without an operator is a bare name, looked up without a version. */
  lemma EntryBare(line: string)
    requires !LocalInstall(line)
    requires var cut := Before(line, "#"); cut != "" && !Contains(cut, "git@") && Strip(cut) != ""
    requires !HasOp(Strip(Before(line, "#")))
    ensures Entry(line) == Ok(Some((Variants(Strip(Before(line, "#"))), None)))
  {
    var cut := Before(line, "#");
    CommentCheckDead(line);
    StripIdempotent(cut);
  }

  /**
   * A line with an operator gives the stripped text before it as the name
   * and the stripped text after it as the version; neither holds an
   * operator, and neither holds a "#".
   */
  lemma EntryPinned(line: string)
    requires Entry(line).Ok? && Entry(line).value.Some? && Entry(line).value.value.1.Some?
    ensures var cut := Strip(Before(line, "#"));
      && SplitOp(cut).Ok?
      && var (a, b) := SplitOp(cut).value;
      && (exists o :: o in Ops && cut == a + o + b)
      && Entry(line).value.value == (Variants(Strip(a)), Some(Strip(b)))
      && (forall o :: o in Ops ==> !Contains(Strip(b), o))
      && !Contains(Strip(b), "#")
  {
    Alternatives();
    var cut := Strip(Before(line, "#"));
    var (a, b) := SplitOp(cut).value;
    SplitOnceParts(cut, Ops);
    forall o | o in Ops ensures !Contains(Strip(b), o) {
      StripKeepsAbsent(b, o);
    }
    StripKeepsAbsent(Before(line, "#"), "#");
    var o :| o in Ops && cut == a + o + b;
    TailKeepsAbsent(cut, a + o, b, "#");
  }

  /** What a text lacks, the stripped end of it lacks too. */
  lemma TailKeepsAbsent(s: string, front: string, b: string, t: string)
    requires s == front + b && !Contains(s, t)
    ensures !Contains(Strip(b), t)
  {
    assert b == s[|front|..];
    SuffixKeepsAbsent(s, |front|, t);
    StripKeepsAbsent(b, t);
  }

  /** Names and versions hold no "#": everything from the first "#" on is a comment. */
  lemma EntryUncommented(line: string)
    requires Entry(line).Ok? && Entry(line).value.Some?
    ensures '#' !in Entry(line).value.value.0
    ensures Entry(line).value.value.1.Some? ==> '#' !in Entry(line).value.value.1.value
  {
    KeptUncommented(line);
  }

  /** The same of the filters after the local-install test. */
  lemma KeptUncommented(line: string)
    requires Kept(line).Ok? && Kept(line).value.Some?
    ensures '#' !in Kept(line).value.value.0
    ensures Kept(line).value.value.1.Some? ==> '#' !in Kept(line).value.value.1.value
  {
    var cut := Before(line, "#");
    var nv := Pin(Strip(cut)).value;
    StripKeepsAbsent(cut, "#");
    PinUncommented(Strip(cut));
    if '#' in Kept(line).value.value.0 {
      VariantsKeepChar(Strip(nv.0), 0, '#');
      StripKeepsChar(nv.0, '#');
      assert false;
    }
  }

  /** A text without "#" splits into a name and a version without "#". */
  lemma PinUncommented(t: string)
    requires !Contains(t, "#") && Pin(t).Ok?
    ensures '#' !in Pin(t).value.0
    ensures Pin(t).value.1.Some? ==> '#' !in Pin(t).value.1.value
  {
    ContainsChar(t, '#');
    assert '#' !in t;
    if HasOp(t) {
      var parts := SplitOp(t).value;
      SplitOnceParts(t, Ops);
      var o :| o in Ops && t == parts.0 + o + parts.1;
      assert '#' !in parts.0 && '#' !in parts.1;
      if '#' in Strip(parts.1) {
        StripKeepsChar(parts.1, '#');
      }
    }
  }

  // ---------------------------------------------------------------------
  // What the loop promises.
  // ---------------------------------------------------------------------

  /** A turn adds a "Pypi" record of the line's name, cached under the name and version of the record. */
  lemma StepMeans(rule: Rule, s: Store, cfg: Config, line: string, fetch: Fetch)
    ensures var r := Step(rule, s, cfg, line, fetch);
      r.0.Ok? && r.0.value.Some? ==>
        && EntryBy(rule, line).Ok? && EntryBy(rule, line).value.Some?
        && var (name, version) := EntryBy(rule, line).value.value;
        && var got := GetPackageOf(s, Underlying, name, version, fetch);
        && got.0.Ok? && got.0.value.Some?
        && r.0.value.value.named == Some(name) && r.0.value.value.source == "Pypi"
        && (Given(version) ==> r.0.value.value.number == Str(version.value))
        && r.1 == SetStore(got.1, cfg, VersionKey(Underlying, name, Text(r.0.value.value.number, cfg.show)), got.0.value.value)
    ensures EntryBy(rule, line).Ok? && EntryBy(rule, line).value.None? ==> Step(rule, s, cfg, line, fetch) == (Ok(None), s)
  {
    var e := EntryBy(rule, line);
    if e.Ok? && e.value.Some? {
      var (name, version) := e.value.value;
      var got := GetPackageOf(s, Underlying, name, version, fetch);
      if got.0.Ok? && got.0.value.Some? && got.0.value.value.Dict? {
        RecordMeans(got.1, cfg, Underlying, "Pypi", name, version, got.0.value.value);
      }
    }
  }

  /** The name one line asks for, if it asks for one. */
  function AskedBy(rule: Rule, line: string): (r: seq<Option<string>>)
    ensures |r| <= 1
  {
    var e := EntryBy(rule, line);
    if e.Ok? && e.value.Some? then [Some(e.value.value.0)] else []
  }

  /** The names the lines ask for, in order. */
  function Asked(rule: Rule, lines: seq<string>): (r: seq<Option<string>>)
    ensures |r| <= |lines|
  {
    if lines == [] then [] else AskedBy(rule, lines[0]) + Asked(rule, lines[1..])
  }

  /** A record the turn adds is named after what the line asks for. */
  lemma StepNamed(rule: Rule, s: Store, cfg: Config, line: string, fetch: Fetch)
    ensures var r := Step(rule, s, cfg, line, fetch).0;
      r.Ok? && r.value.Some? ==> AskedBy(rule, line) == [r.value.value.named] && r.value.value.source == "Pypi"
  {
    StepMeans(rule, s, cfg, line, fetch);
  }

  /** `a` is `b` with some elements left out. */
  predicate Subsequence<T(==)>(a: seq<T>, b: seq<T>)
    decreases |b|
  {
    a == [] || (b != [] && (Subsequence(a, b[1..]) || (a[0] == b[0] && Subsequence(a[1..], b[1..]))))
  }

  /** Matching the same first element keeps a subsequence. */
  lemma SubsequenceCons<T>(x: T, a: seq<T>, b: seq<T>)
    requires Subsequence(a, b)
    ensures Subsequence([x] + a, [x] + b)
  {
    assert ([x] + a)[0] == x && ([x] + a)[1..] == a;
    assert ([x] + b)[1..] == b;
  }

  /** Leaving out one more element keeps a subsequence. */
  lemma SubsequenceSkip<T>(a: seq<T>, y: seq<T>, b: seq<T>)
    requires Subsequence(a, b) && |y| <= 1
    ensures Subsequence(a, y + b)
  {
    if y != [] {
      assert (y + b)[1..] == b;
    } else {
      assert y + b == b;
    }
  }

  /** The records found so far stay in front; the loop only appends. */
  lemma {:induction false} DepsShift(rule: Rule, s: Store, cfg: Config, lines: seq<string>, fetch: Fetch, pre: seq<Dep>, deps: seq<Dep>)
    ensures var r := Deps(rule, s, cfg, lines, fetch, deps);
      Deps(rule, s, cfg, lines, fetch, pre + deps) == (if r.0.Ok? then Ok(pre + r.0.value) else r.0, r.1)
    decreases |lines|
  {
    if lines != [] {
      var step := Step(rule, s, cfg, lines[0], fetch);
      if step.0.Ok? && step.0.value.Some? {
        DepsShift(rule, step.1, cfg, lines[1..], fetch, pre, deps + [step.0.value.value]);
        assert pre + deps + [step.0.value.value] == pre + (deps + [step.0.value.value]);
      } else if step.0.Ok? {
        DepsShift(rule, step.1, cfg, lines[1..], fetch, pre, deps);
      }
    }
  }

  /** The first turn of the loop and the rest. */
  lemma DepsCons(rule: Rule, s: Store, cfg: Config, lines: seq<string>, fetch: Fetch)
    requires lines != []
    ensures var step := Step(rule, s, cfg, lines[0], fetch);
      var rest := Deps(rule, step.1, cfg, lines[1..], fetch, []);
      Deps(rule, s, cfg, lines, fetch, []) ==
        if step.0.Err? then (Err(step.0.error), step.1)
        else if step.0.value.None? then rest
        else (if rest.0.Ok? then Ok([step.0.value.value] + rest.0.value) else rest.0, rest.1)
  {
    var step := Step(rule, s, cfg, lines[0], fetch);
    if step.0.Ok? && step.0.value.Some? {
      DepsShift(rule, step.1, cfg, lines[1..], fetch, [step.0.value.value], []);
      assert [] + [step.0.value.value] == [step.0.value.value] + [];
    }
  }

  /**
   * The output keeps the order of the lines: the names of the records are
   * the names the lines ask for, in the same order, with the missing
   * packages left out; every record is a "Pypi" record.
   */
  lemma {:induction false} DepsOrder(rule: Rule, s: Store, cfg: Config, lines: seq<string>, fetch: Fetch)
    ensures var r := Deps(rule, s, cfg, lines, fetch, []).0;
      r.Ok? ==>
        && |r.value| <= |lines|
        && Subsequence(Names(r.value), Asked(rule, lines))
        && forall d :: d in r.value ==> d.source == "Pypi"
    decreases |lines|
  {
    if lines != [] {
      var step := Step(rule, s, cfg, lines[0], fetch);
      StepNamed(rule, s, cfg, lines[0], fetch);
      DepsCons(rule, s, cfg, lines, fetch);
      if step.0.Ok? {
        DepsOrder(rule, step.1, cfg, lines[1..], fetch);
        var rest := Deps(rule, step.1, cfg, lines[1..], fetch, []).0;
        if rest.Ok? {
          if step.0.value.Some? {
            var d := step.0.value.value;
            assert Names([d] + rest.value) == [d.named] + Names(rest.value) by {
              assert ([d] + rest.value)[0] == d && ([d] + rest.value)[1..] == rest.value;
            }
            SubsequenceCons(d.named, Names(rest.value), Asked(rule, lines[1..]));
          } else {
            SubsequenceSkip(Names(rest.value), AskedBy(rule, lines[0]), Asked(rule, lines[1..]));
          }
        }
      }
    }
  }

  /** On a line without "-e" the two tests take the same turn. */
  lemma StepAgree(s: Store, cfg: Config, line: string, fetch: Fetch)
    requires !Contains(line, "-e")
    ensures Step(AsWritten, s, cfg, line, fetch) == Step(Intended, s, cfg, line, fetch)
  {
    AsWrittenDiffers(line);
  }

  /** The two tests run the same loop, store included, on lines none of which holds "-e". */
  lemma {:induction false} DepsAgree(s: Store, cfg: Config, lines: seq<string>, fetch: Fetch, deps: seq<Dep>)
    requires forall k :: 0 <= k < |lines| ==> !Contains(lines[k], "-e")
    ensures Deps(AsWritten, s, cfg, lines, fetch, deps) == Deps(Intended, s, cfg, lines, fetch, deps)
    decreases |lines|
  {
    if lines != [] {
      StepAgree(s, cfg, lines[0], fetch);
      var step := Step(AsWritten, s, cfg, lines[0], fetch);
      if step.0.Ok? {
        DepsAgree(step.1, cfg, lines[1..], fetch, if step.0.value.Some? then deps + [step.0.value.value] else deps);
      }
    }
  }

  // ---------------------------------------------------------------------
  // The manager.
  // ---------------------------------------------------------------------

  /** The filters and the split of the loop body for one line, "-e" anywhere skipping it. */
  method ReadLine(raw: string) returns (r: Result<Option<(string, Option<string>)>>)
    ensures r == EntryAsWritten(raw)
  {
    Alternatives();
    if Contains(raw, "-e") {
      return Ok(None);
    }
    var line := Before(raw, "#");
    if StartsWith(Strip(line), "#") {
      return Ok(None);
    }
    if line == "" || Contains(line, "git@") {
      return Ok(None);
    }
    var version: Option<string> := None;
    var name := Strip(line);
    if HasOp(name) {
      var parts := SplitOp(name);
      if parts.Err? {
        return Err(parts.error);
      }
      name := parts.value.0;
      version := Some(Strip(parts.value.1));
    }
    name := Strip(name);
    if name == "" {
      return Ok(None);
    }
    return Ok(Some((Variants(name), version)));
  }

  /** `parse_python_deps(lines)`: the records of the packages found, in line order. */
  method ParseDeps(m: FileManager, cfg: Config, lines: seq<string>, fetch: Fetch) returns (r: Result<seq<Dep>>)
    requires m.profile.underlying == Some(Underlying)
    modifies m.cache
    ensures (r, m.cache.State()) == Deps(AsWritten, old(m.cache.State()), cfg, lines, fetch, [])
  {
    var deps: seq<Dep> := [];
    for i := 0 to |lines|
      invariant Deps(AsWritten, old(m.cache.State()), cfg, lines, fetch, []) == Deps(AsWritten, m.cache.State(), cfg, lines[i..], fetch, deps)
    {
      assert lines[i..][0] == lines[i] && lines[i..][1..] == lines[i + 1..];
      var e := ReadLine(lines[i]);
      if e.Err? {
        return Err(e.error);
      }
      if e.value.None? {
        continue;
      }
      var (name, version) := e.value.value;
      var got := m.GetPackage(name, version, fetch);
      if got.Err? {
        return Err(got.error);
      }
      if got.value.None? {
        continue;
      }
      var record := m.Record(cfg, "Pypi", name, version, got.value.value);
      if record.Err? {
        return Err(record.error);
      }
      deps := deps + [record.value];
    }
    return Ok(deps);
  }
}
