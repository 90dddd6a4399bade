/**
 * The Gemfile manager (citelang/main/packages/ruby_gem.py): every
 * stripped line that starts with "gem" and does not mention "source" is
 * cleaned of the word "gem", quotes and commas, cut before its options,
 * and written `name@version` when it pins a version; every gem the lookup
 * finds becomes a "Rubygems" record.
 */
module Gemfile {
  import opened Wrappers
  import opened Json
  import opened PyStr
  import opened PackageCache
  import opened Packages
  import opened Managers
  import opened Patterns

  /** The class attributes of `GemfileManager`. */
  const Manager := Profile("Gemfile", Some("rubygems"), Null, Str("https://rubygems.org/"), Str("#e9573f"), Str("ruby"))

  /** `underlying_manager`, which is also the manager of the cache names written here. */
  const Underlying := "rubygems"

  /** The texts removed from a gem line, in this order. */
  const Subs: seq<string> := ["gem", "'", "\"", ","]

  /** The texts a gem line is cut before, in this order. */
  const Seps: seq<string> := [" if ", ":platforms", ":require"]

  /** The pattern `(~>|@|<=|>=)`. */
  const Ops: seq<string> := ["~>", "@", "<=", ">="]

  /** None of the fixed texts is empty. */
  lemma Alternatives()
    ensures Literals(Subs) && Literals(Seps) && Literals(Ops)
  {
  }

  /** A line the scan uses: it starts with "gem" and does not mention "source". */
  predicate Selected(line: string) {
    StartsWith(line, "gem") && !Contains(line, "source")
  }

  /** `for sub in subs: line = line.replace(sub, "").strip()` */
  function RemoveAll(line: string, subs: seq<string>): string
    requires Literals(subs)
    decreases |subs|
  {
    if subs == [] then line else RemoveAll(Strip(Replace(line, subs[0], "")), subs[1..])
  }

  /** `for sep in seps: line = line.split(sep)[0]` */
  function CutAll(line: string, seps: seq<string>): string
    requires Literals(seps)
    decreases |seps|
  {
    if seps == [] then line else CutAll(Before(line, seps[0]), seps[1..])
  }

  /** `name, _, version = re.split(...)` written back as `name@version`, both stripped; a line without an operator stays. */
  function Pinned(line: string): Result<string> {
    Alternatives();
    if Matches(line, Ops) then
      var parts :- SplitOnce(line, Ops);
      Ok(Strip(parts.0) + "@" + Strip(parts.1))
    else Ok(line)
  }

  /** What one line of the file adds to the entries: nothing, or its cleaned and pinned text. */
  function Entry(line: string): Result<Option<string>> {
    var t := Strip(line);
    Alternatives();
    if !Selected(t) then Ok(None)
    else
      var e :- Pinned(CutAll(RemoveAll(t, Subs), Seps));
      Ok(Some(e))
  }

  /** The first loop of `parse`, continuing from the entries so far. */
  function Collect(lines: seq<string>, libs: seq<string>): Result<seq<string>>
    decreases |lines|
  {
    if lines == [] then Ok(libs)
    else
      var e :- Entry(lines[0]);
      Collect(lines[1..], if e.Some? then libs + [e.value] else libs)
  }

  /** The name and version of an entry: split at the first "@", otherwise at the first space. */
  function NameVersion(lib: string): (string, Option<string>) {
    if Contains(lib, "@") then
      var parts := Split1(lib, "@");
      (parts[0], Some(parts[1]))
    else if Contains(lib, " ") then
      var parts := Split1(lib, " ");
      (parts[0], Some(parts[1]))
    else (lib, None)
  }

  /** One turn of the second loop: a gem the lookup does not find adds nothing; the lookup's own errors end the parse. */
  function Step(s: Store, cfg: Config, lib: string, fetch: Fetch): (Result<Option<Dep>>, Store) {
    var (name, version) := NameVersion(lib);
    var got := GetPackageOf(s, Underlying, name, version, fetch);
    if got.0.Err? then (Err(got.0.error), got.1)
    else if got.0.value.None? then (Ok(None), got.1)
    else
      var rec := RecordOf(got.1, cfg, Underlying, "Rubygems", name, version, got.0.value.value);
      if rec.0.Err? then (Err(rec.0.error), rec.1) else (Ok(Some(rec.0.value)), rec.1)
  }

  /** The second loop, continuing from the records so far. */
  function Deps(s: Store, cfg: Config, libs: seq<string>, fetch: Fetch, deps: seq<Dep>): (Result<seq<Dep>>, Store)
    decreases |libs|
  {
    if libs == [] then (Ok(deps), s)
    else
      var step := Step(s, cfg, libs[0], fetch);
      if step.0.Err? then (Err(step.0.error), step.1)
      else Deps(step.1, cfg, libs[1..], fetch, if step.0.value.Some? then deps + [step.0.value.value] else deps)
  }

  /** `parse(content)`, starting from the record `get_repo()` returned. */
  function ParseOf(s: Store, cfg: Config, content: string, start: Repo, fetch: Fetch): (Result<Repo>, Store) {
    var libs := Collect(Split(content, "\n"), []);
    if libs.Err? then (Err(libs.error), s)
    else
      var found := Deps(s, cfg, libs.value, fetch, []);
      if found.0.Err? then (Err(found.0.error), found.1)
      else (Ok(start.(dependencies := found.0.value)), found.1)
  }

  // ---------------------------------------------------------------------
  // What the cleaning promises.
  // ---------------------------------------------------------------------

  /** No quote, double quote or comma. */
  predicate Clean(e: string) {
    '\'' !in e && '"' !in e && ',' !in e
  }

  /** Stripping keeps a text clean. */
  lemma CleanStrip(s: string)
    requires Clean(s)
    ensures Clean(Strip(s))
  {
    if '\'' in Strip(s) { StripKeepsChar(s, '\''); }
    if '"' in Strip(s) { StripKeepsChar(s, '"'); }
    if ',' in Strip(s) { StripKeepsChar(s, ','); }
  }

  /** Removing one character keeps the others out and takes that one out. */
  lemma DropStrip(s: string, c: char, x: char)
    requires x !in s || x == c
    ensures x !in Strip(Replace(s, [c], ""))
  {
    ReplaceCharIsDrop(s, c);
    if x in Strip(Replace(s, [c], "")) {
      StripKeepsChar(Replace(s, [c], ""), x);
      DropCharKeeps(s, c, x);
    }
  }

  /** The removals add no character. */
  lemma {:induction false} RemoveAllKeepsAbsent(t: string, subs: seq<string>, x: char)
    requires Literals(subs) && x !in t
    ensures x !in RemoveAll(t, subs)
    decreases |subs|
  {
    if subs != [] {
      var t1 := Strip(Replace(t, subs[0], ""));
      if x in t1 {
        StripKeepsChar(Replace(t, subs[0], ""), x);
      }
      RemoveAllKeepsAbsent(t1, subs[1..], x);
    }
  }

  /** A character removed by one of the removals is absent after all of them. */
  lemma {:induction false} RemoveAllTakesOut(t: string, subs: seq<string>, x: char)
    requires Literals(subs) && [x] in subs
    ensures x !in RemoveAll(t, subs)
    decreases |subs|
  {
    var t1 := Strip(Replace(t, subs[0], ""));
    if subs[0] == [x] {
      DropStrip(t, x, x);
      RemoveAllKeepsAbsent(t1, subs[1..], x);
    } else {
      RemoveAllTakesOut(t1, subs[1..], x);
    }
  }

  /** After the removals, no quote, double quote or comma is left. */
  lemma RemoveAllClean(t: string)
    ensures Clean(RemoveAll(t, Subs))
  {
    Alternatives();
    assert Subs[1] == ['\''] && Subs[2] == ['"'] && Subs[3] == [','];
    RemoveAllTakesOut(t, Subs, '\'');
    RemoveAllTakesOut(t, Subs, '"');
    RemoveAllTakesOut(t, Subs, ',');
  }

  /** A prefix of a clean text is clean. */
  lemma CleanPrefix(s: string, p: string)
    requires StartsWith(s, p) && Clean(s)
    ensures Clean(p)
  {
    forall x | x in p ensures x in s {
      var k :| 0 <= k < |p| && p[k] == x;
      assert s[k] == x;
    }
  }

  /** The cut keeps a prefix of the line and leaves none of the option markers in it. */
  lemma CutAllMeans(s: string)
    ensures StartsWith(s, CutAll(s, Seps))
    ensures forall sep :: sep in Seps ==> !Contains(CutAll(s, Seps), sep)
  {
    Alternatives();
    var c1 := Before(s, " if ");
    var c2 := Before(c1, ":platforms");
    var c3 := Before(c2, ":require");
    assert Seps[1..][1..][1..] == [];
    assert CutAll(s, Seps) == c3;
    PrefixKeepsAbsent(c1, c2, " if ");
    PrefixKeepsAbsent(c2, c3, " if ");
    PrefixKeepsAbsent(c2, c3, ":platforms");
    assert s[..|c3|] == c1[..|c3|];
  }

  /** An entry holds no quote, double quote or comma and no option marker. */
  lemma EntryClean(line: string)
    requires Entry(line).Ok? && Entry(line).value.Some?
    ensures Clean(Entry(line).value.value)
  {
    Alternatives();
    var t := Strip(line);
    var removed := RemoveAll(t, Subs);
    var cut := CutAll(removed, Seps);
    RemoveAllClean(t);
    CutAllMeans(removed);
    CleanPrefix(removed, cut);
    if Matches(cut, Ops) {
      var parts := SplitOnce(cut, Ops).value;
      SplitOnceParts(cut, Ops);
      var o :| o in Ops && cut == parts.0 + o + parts.1;
      forall x | x in parts.0 + parts.1 ensures x in cut {
      }
      CleanStrip(parts.0);
      CleanStrip(parts.1);
    }
  }

  /** A line is used exactly when, stripped, it starts with "gem" and does not mention "source". */
  lemma EntryUsed(line: string)
    ensures !Selected(Strip(line)) ==> Entry(line) == Ok(None)
    ensures Selected(Strip(line)) && Entry(line).Ok? ==> Entry(line).value.Some?
  {
  }

  /** A pinned version is the version looked up: the name and version around the operator come back out of the entry. */
  lemma PinRoundTrip(line: string)
    requires Matches(line, Ops) && Pinned(line).Ok?
    ensures var parts := SplitOnce(line, Ops).value;
      NameVersion(Pinned(line).value) == (Strip(parts.0), Some(Strip(parts.1)))
  {
    Alternatives();
    var parts := SplitOnce(line, Ops).value;
    SplitOnceParts(line, Ops);
    assert !Contains(parts.0, "@");
    StripKeepsAbsent(parts.0, "@");
    ContainsChar(Strip(parts.0), '@');
    SplitAtFirst(Strip(parts.0), '@', Strip(parts.1));
    var e := Strip(parts.0) + "@" + Strip(parts.1);
    assert e == Strip(parts.0) + ['@'] + Strip(parts.1);
    assert e[|Strip(parts.0)|..|Strip(parts.0)| + 1] == "@";
    ContainsIff(e, "@", |Strip(parts.0)|);
  }

  /** Every entry of the scan is clean. */
  lemma {:induction false} CollectClean(lines: seq<string>, libs: seq<string>)
    requires forall x :: x in libs ==> Clean(x)
    ensures Collect(lines, libs).Ok? ==> forall x :: x in Collect(lines, libs).value ==> Clean(x)
    decreases |lines|
  {
    if lines != [] {
      var e := Entry(lines[0]);
      if e.Err? {
        assert Collect(lines, libs).Err?;
      } else if e.value.None? {
        assert Collect(lines, libs) == Collect(lines[1..], libs);
        CollectClean(lines[1..], libs);
      } else {
        var more := libs + [e.value.value];
        EntryClean(lines[0]);
        assert Collect(lines, libs) == Collect(lines[1..], more);
        CollectClean(lines[1..], more);
      }
    }
  }

  // ---------------------------------------------------------------------
  // What the second loop promises.
  // ---------------------------------------------------------------------

  /** An entry with "@" is cut at its first "@", whatever spaces it holds. */
  lemma NameVersionMeans(lib: string)
    ensures Contains(lib, "@") ==>
      var (name, version) := NameVersion(lib);
      version.Some? && lib == name + "@" + version.value
    ensures !Contains(lib, "@") && Contains(lib, " ") ==>
      var (name, version) := NameVersion(lib);
      version.Some? && lib == name + " " + version.value
    ensures !Contains(lib, "@") && !Contains(lib, " ") ==> NameVersion(lib) == (lib, None)
  {
  }

  /** A turn adds a "Rubygems" record of the entry's name. */
  lemma StepMeans(s: Store, cfg: Config, lib: string, fetch: Fetch)
    ensures var r := Step(s, cfg, lib, fetch).0;
      r.Ok? && r.value.Some? ==>
        r.value.value.named == Some(NameVersion(lib).0) && r.value.value.source == "Rubygems"
  {
    var (name, version) := NameVersion(lib);
    var got := GetPackageOf(s, Underlying, name, version, fetch);
    if got.0.Ok? && got.0.value.Some? && got.0.value.value.Dict? {
      RecordMeans(got.1, cfg, Underlying, "Rubygems", name, version, got.0.value.value);
    }
  }

  /** The loop adds at most one record per entry, each a "Rubygems" record. */
  lemma {:induction false} DepsMeans(s: Store, cfg: Config, libs: seq<string>, fetch: Fetch, deps: seq<Dep>)
    ensures var r := Deps(s, cfg, libs, fetch, deps).0;
      r.Ok? ==>
        && |r.value| <= |deps| + |libs|
        && forall d :: d in r.value ==> d in deps || (d.source == "Rubygems" && d.named.Some?)
    decreases |libs|
  {
    if libs != [] {
      var step := Step(s, cfg, libs[0], fetch);
      StepMeans(s, cfg, libs[0], fetch);
      if step.0.Ok? {
        DepsMeans(step.1, cfg, libs[1..], fetch, if step.0.value.Some? then deps + [step.0.value.value] else deps);
      }
    }
  }

  // ---------------------------------------------------------------------
  // The manager.
  // ---------------------------------------------------------------------

  /** `for sub in subs: line = line.replace(sub, "").strip()` */
  method RemoveEach(t: string, subs: seq<string>) returns (line: string)
    requires Literals(subs)
    ensures line == RemoveAll(t, subs)
  {
    line := t;
    for k := 0 to |subs|
      invariant RemoveAll(t, subs) == RemoveAll(line, subs[k..])
    {
      assert subs[k..][0] == subs[k] && subs[k..][1..] == subs[k + 1..];
      line := Strip(Replace(line, subs[k], ""));
    }
  }

  /** `for sep in seps: line = line.split(sep)[0]` */
  method CutEach(t: string, seps: seq<string>) returns (line: string)
    requires Literals(seps)
    ensures line == CutAll(t, seps)
  {
    line := t;
    for k := 0 to |seps|
      invariant CutAll(t, seps) == CutAll(line, seps[k..])
    {
      assert seps[k..][0] == seps[k] && seps[k..][1..] == seps[k + 1..];
      line := Before(line, seps[k]);
    }
  }

  /** The body of the first loop for one line. */
  method EntryLine(raw: string) returns (r: Result<Option<string>>)
    ensures r == Entry(raw)
  {
    Alternatives();
    var line := Strip(raw);
    if !Selected(line) {
      return Ok(None);
    }
    line := RemoveEach(line, Subs);
    line := CutEach(line, Seps);
    if Matches(line, Ops) {
      var parts := SplitOnce(line, Ops);
      if parts.Err? {
        return Err(parts.error);
      }
      line := Strip(parts.value.0) + "@" + Strip(parts.value.1);
    }
    return Ok(Some(line));
  }

  /** The first loop of `parse`. */
  method CollectLines(lines: seq<string>) returns (r: Result<seq<string>>)
    ensures r == Collect(lines, [])
  {
    var libs: seq<string> := [];
    for i := 0 to |lines|
      invariant Collect(lines, []) == Collect(lines[i..], libs)
    {
      assert lines[i..][0] == lines[i] && lines[i..][1..] == lines[i + 1..];
      var e := EntryLine(lines[i]);
      if e.Err? {
        return Err(e.error);
      }
      if e.value.Some? {
        libs := libs + [e.value.value];
      }
    }
    return Ok(libs);
  }

  /** `GemfileManager.parse(content)`: the repository record, also stored as the manager's package data. */
  method Parse(m: FileManager, cfg: Config, content: string, now: string, fetch: Fetch) returns (r: Result<Repo>)
    requires m.profile == Manager
    modifies m, m.cache
    ensures (r, m.cache.State()) == ParseOf(old(m.cache.State()), cfg, content, old(m.GetRepo(now)), fetch)
    ensures m.parsed == (if r.Ok? then Some(r.value) else old(m.parsed))
    ensures m.packageName == old(m.packageName) && m.version == old(m.version)
  {
    var start := m.GetRepo(now);
    var collected := CollectLines(Split(content, "\n"));
    if collected.Err? {
      return Err(collected.error);
    }
    var libs := collected.value;
    var deps: seq<Dep> := [];
    var j := 0;
    while j < |libs|
      invariant 0 <= j <= |libs|
      invariant m.packageName == old(m.packageName) && m.version == old(m.version) && m.parsed == old(m.parsed)
      invariant Deps(old(m.cache.State()), cfg, libs, fetch, []) == Deps(m.cache.State(), cfg, libs[j..], fetch, deps)
    {
      assert libs[j..][0] == libs[j] && libs[j..][1..] == libs[j + 1..];
      var (name, version) := NameVersion(libs[j]);
      var got := m.GetPackage(name, version, fetch);
      if got.Err? {
        return Err(got.error);
      }
      if got.value.Some? {
        var record := m.Record(cfg, "Rubygems", name, version, got.value.value);
        if record.Err? {
          return Err(record.error);
        }
        deps := deps + [record.value];
      }
      j := j + 1;
    }
    var repo := start.(dependencies := deps);
    m.parsed := Some(repo);
    return Ok(repo);
  }
}
