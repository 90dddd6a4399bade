/**
 * The go.mod manager (citelang/main/packages/go_mod.py): the lines of
 * the `require (` block, without their `//` comments, are the required
 * modules; each is looked up, and a module the lookup does not know is
 * still recorded, with the source "Unknown".
 *
 * As written, the record of a module the lookup does find reads `dep.data`
 * where the package is `pkg`: `dep` is unbound for the first record and a
 * plain dictionary afterwards, so such a module always raises.  Both the
 * code as written (`DepsAsWritten`) and the intended record (`Deps`, built
 * from the package's own data) are modelled; `Parse` follows the intended
 * one.
 */
module GoMod {
  import opened Wrappers
  import opened Json
  import opened PyStr
  import opened PackageCache
  import opened Packages
  import opened Managers

  /** The class attributes of `GoModuleManager`. */
  const Manager := Profile("go.mod", Some("go"), Null, Str("https://go.dev/"), Str("#007d9c"), Str("Go"))

  /** `underlying_manager`, which is also the manager of the cache names written here. */
  const Underlying := "go"

  /** `line.strip().split("//")[0].strip()`: a module line without its comment. */
  function Entry(line: string): string {
    Strip(Before(Strip(line), "//"))
  }

  /**
   * The first loop of `parse`, continuing with the flag `parsing` and the
   * entries so far: a line with "require (" opens the block, the next
   * line with ")" inside it ends the loop, and the lines in between are
   * collected.
   */
  function Collect(lines: seq<string>, parsing: bool, libs: seq<string>): seq<string>
    decreases |lines|
  {
    if lines == [] then libs
    else if Contains(lines[0], "require (") then Collect(lines[1..], true, libs)
    else if parsing && Contains(lines[0], ")") then libs
    else if parsing then Collect(lines[1..], true, libs + [Entry(lines[0])])
    else Collect(lines[1..], false, libs)
  }

  /** The entries of a block of lines. */
  function Entries(lines: seq<string>): (r: seq<string>)
    ensures |r| == |lines|
    ensures forall k :: 0 <= k < |lines| ==> r[k] == Entry(lines[k])
  {
    if lines == [] then [] else [Entry(lines[0])] + Entries(lines[1..])
  }

  /** `package_name.split(" ", 1)` when the entry holds a space: the module and its version. */
  function NameVersion(lib: string): (r: (string, Option<string>))
    ensures Contains(lib, " ") ==> r.1.Some? && lib == r.0 + " " + r.1.value && !Contains(r.0, " ")
    ensures !Contains(lib, " ") ==> r == (lib, None)
  {
    if Contains(lib, " ") then
      var name := Before(lib, " ");
      assert lib == lib[..|name|] + lib[|name|..|name| + 1] + lib[|name| + 1..];
      (name, Some(lib[|name| + 1..]))
    else (lib, None)
  }

  /** The record of a module the lookup does not know. */
  function Unknown(name: string, version: Option<string>): Dep {
    Dep(Some(name), if version.Some? then Str(version.value) else Null, Null, Null, "Unknown")
  }

  /**
   * The lookup inside `try: ... except: pass`: the bare `except` swallows
   * every error, `SystemExit` included, and leaves the package missing;
   * what the lookup did to the cache stays.
   */
  function Lookup(s: Store, name: string, version: Option<string>, fetch: Fetch): (r: (Option<Value>, Store))
    ensures r.1 == GetPackageOf(s, Underlying, name, version, fetch).1
    ensures r.0.Some? ==> GetPackageOf(s, Underlying, name, version, fetch).0 == Ok(r.0)
    ensures r.0.None? ==> !GetPackageOf(s, Underlying, name, version, fetch).0.Ok? || GetPackageOf(s, Underlying, name, version, fetch).0.value.None?
  {
    var got := GetPackageOf(s, Underlying, name, version, fetch);
    if got.0.Err? then (None, got.1) else (got.0.value, got.1)
  }

  /** The intended turn of the second loop for one entry: an unknown module, or the record of the package found. */
  function Step(s: Store, cfg: Config, lib: string, fetch: Fetch): (r: (Result<Dep>, Store))
  {
    var (name, version) := NameVersion(lib);
    var got := Lookup(s, name, version, fetch);
    if got.0.None? then (Ok(Unknown(name, version)), got.1)
    else RecordOf(got.1, cfg, Underlying, "Go", name, version, got.0.value)
  }

  /** The second loop, continuing from the records so far. */
  function Deps(s: Store, cfg: Config, libs: seq<string>, fetch: Fetch, deps: seq<Dep>): (Result<seq<Dep>>, Store)
    decreases |libs|
  {
    if libs == [] then (Ok(deps), s)
    else
      var step := Step(s, cfg, libs[0], fetch);
      if step.0.Err? then (Err(step.0.error), step.1)
      else Deps(step.1, cfg, libs[1..], fetch, deps + [step.0.value])
  }

  /** `parse(content)`, starting from the record `get_repo()` returned. */
  function ParseOf(s: Store, cfg: Config, content: string, start: Repo, fetch: Fetch): (Result<Repo>, Store) {
    var found := Deps(s, cfg, Collect(Split(content, "\n"), false, []), fetch, []);
    if found.0.Err? then (Err(found.0.error), found.1)
    else (Ok(start.(dependencies := found.0.value)), found.1)
  }

  // ---------------------------------------------------------------------
  // The code as written: `dep.data` in place of `pkg.data`.
  // ---------------------------------------------------------------------

  /**
   * One turn as written, with `bound` whether an earlier turn assigned
   * `dep`: a found package is cached first when the version is given, and
   * then reading `dep.data` fails.
   */
  function StepAsWritten(s: Store, cfg: Config, lib: string, fetch: Fetch, bound: bool): (r: (Result<Dep>, Store))
  {
    var (name, version) := NameVersion(lib);
    var got := Lookup(s, name, version, fetch);
    if got.0.None? then (Ok(Unknown(name, version)), got.1)
    else
      var cached := if Given(version) then SetStore(got.1, cfg, VersionKey(Underlying, name, version.value), got.0.value) else got.1;
      (Err(if bound then AttributeError("'dict' object has no attribute 'data'") else NameError("dep")), cached)
  }

  /** The second loop as written; `dep` is bound once a record was appended. */
  function DepsAsWritten(s: Store, cfg: Config, libs: seq<string>, fetch: Fetch, deps: seq<Dep>): (Result<seq<Dep>>, Store)
    decreases |libs|
  {
    if libs == [] then (Ok(deps), s)
    else
      var step := StepAsWritten(s, cfg, libs[0], fetch, deps != []);
      if step.0.Err? then (Err(step.0.error), step.1)
      else DepsAsWritten(step.1, cfg, libs[1..], fetch, deps + [step.0.value])
  }

  /** `parse(content)` as written, starting from the record `get_repo()` returned. */
  function ParseAsWrittenOf(s: Store, cfg: Config, content: string, start: Repo, fetch: Fetch): (Result<Repo>, Store) {
    var found := DepsAsWritten(s, cfg, Collect(Split(content, "\n"), false, []), fetch, []);
    if found.0.Err? then (Err(found.0.error), found.1)
    else (Ok(start.(dependencies := found.0.value)), found.1)
  }

  // ---------------------------------------------------------------------
  // What the first loop promises.
  // ---------------------------------------------------------------------

  /** Outside a block, lines without "require (" are skipped. */
  lemma {:induction false} CollectOutside(pre: seq<string>, rest: seq<string>, libs: seq<string>)
    requires forall k :: 0 <= k < |pre| ==> !Contains(pre[k], "require (")
    ensures Collect(pre + rest, false, libs) == Collect(rest, false, libs)
    decreases |pre|
  {
    if pre == [] {
      assert pre + rest == rest;
    } else {
      assert (pre + rest)[0] == pre[0] && (pre + rest)[1..] == pre[1..] + rest;
      CollectOutside(pre[1..], rest, libs);
    }
  }

  /** Inside a block, a line that neither opens nor closes one is collected. */
  lemma CollectTakes(line: string, rest: seq<string>, libs: seq<string>)
    requires !Contains(line, "require (") && !Contains(line, ")")
    ensures Collect([line] + rest, true, libs) == Collect(rest, true, libs + [Entry(line)])
  {
    assert ([line] + rest)[0] == line && ([line] + rest)[1..] == rest;
  }

  /** Inside a block, a line with ")" ends the loop. */
  lemma CollectEnds(close: string, post: seq<string>, libs: seq<string>)
    requires Contains(close, ")") && !Contains(close, "require (")
    ensures Collect([close] + post, true, libs) == libs
  {
    assert ([close] + post)[0] == close;
  }

  /** Inside a block, every line up to the closing ")" is collected, and nothing after it. */
  lemma {:induction false} CollectBlock(block: seq<string>, close: string, post: seq<string>, libs: seq<string>)
    requires forall k :: 0 <= k < |block| ==> !Contains(block[k], "require (") && !Contains(block[k], ")")
    requires Contains(close, ")") && !Contains(close, "require (")
    ensures Collect(block + ([close] + post), true, libs) == libs + Entries(block)
    decreases |block|
  {
    if block == [] {
      assert block + ([close] + post) == [close] + post;
      CollectEnds(close, post, libs);
    } else {
      var rest := block[1..] + ([close] + post);
      ConcatHead(block, [close] + post);
      CollectTakes(block[0], rest, libs);
      CollectBlock(block[1..], close, post, libs + [Entry(block[0])]);
      AppendCons(libs, Entry(block[0]), Entries(block[1..]));
    }
  }

  /** A go.mod with one `require (` block yields exactly that block's entries, in order. */
  lemma RequireBlock(pre: seq<string>, open: string, block: seq<string>, close: string, post: seq<string>)
    requires forall k :: 0 <= k < |pre| ==> !Contains(pre[k], "require (")
    requires Contains(open, "require (")
    requires forall k :: 0 <= k < |block| ==> !Contains(block[k], "require (") && !Contains(block[k], ")")
    requires Contains(close, ")") && !Contains(close, "require (")
    ensures Collect(pre + ([open] + (block + ([close] + post))), false, []) == Entries(block)
  {
    var rest := [open] + (block + ([close] + post));
    CollectOutside(pre, rest, []);
    assert rest[0] == open && rest[1..] == block + ([close] + post);
    CollectBlock(block, close, post, []);
  }

  /** Every collected entry is stripped and holds no comment. */
  lemma {:induction false} CollectClean(lines: seq<string>, parsing: bool, libs: seq<string>)
    requires forall x :: x in libs ==> Strip(x) == x && !Contains(x, "//")
    ensures forall x :: x in Collect(lines, parsing, libs) ==> Strip(x) == x && !Contains(x, "//")
    decreases |lines|
  {
    if lines != [] && !Contains(lines[0], "require (") && !(parsing && Contains(lines[0], ")")) {
      if parsing {
        var e := Entry(lines[0]);
        StripIdempotent(Before(Strip(lines[0]), "//"));
        StripKeepsAbsent(Before(Strip(lines[0]), "//"), "//");
        CollectClean(lines[1..], true, libs + [e]);
      } else {
        CollectClean(lines[1..], false, libs);
      }
    } else if lines != [] && Contains(lines[0], "require (") {
      CollectClean(lines[1..], true, libs);
    }
  }

  // ---------------------------------------------------------------------
  // What the second loop promises.
  // ---------------------------------------------------------------------

  /** The module names of a list of entries. */
  function Modules(libs: seq<string>): (r: seq<Option<string>>)
    ensures |r| == |libs|
  {
    if libs == [] then [] else [Some(NameVersion(libs[0]).0)] + Modules(libs[1..])
  }

  /** A turn that succeeds records the entry's module under its name, as "Go" or as "Unknown". */
  lemma StepMeans(s: Store, cfg: Config, lib: string, fetch: Fetch)
    ensures var r := Step(s, cfg, lib, fetch).0;
      r.Ok? ==> r.value.named == Some(NameVersion(lib).0) && (r.value.source == "Go" || r.value.source == "Unknown")
    ensures var r := Step(s, cfg, lib, fetch).0;
      r.Err? ==> r.error.KeyError? || r.error.TypeError?
  {
    var (name, version) := NameVersion(lib);
    var got := Lookup(s, name, version, fetch);
    if got.0.Some? {
      var pkg := got.0.value;
      if pkg.Dict? {
        RecordMeans(got.1, cfg, Underlying, "Go", name, version, pkg);
      }
    }
  }

  /** A module the lookup does not know, or whose lookup fails in any way, is recorded as unknown with the version of its line. */
  lemma StepUnknown(s: Store, cfg: Config, lib: string, fetch: Fetch)
    requires var (name, version) := NameVersion(lib);
      !GetPackageOf(s, Underlying, name, version, fetch).0.Ok? || GetPackageOf(s, Underlying, name, version, fetch).0.value.None?
    ensures var (name, version) := NameVersion(lib);
      Step(s, cfg, lib, fetch) == (Ok(Unknown(name, version)), GetPackageOf(s, Underlying, name, version, fetch).1)
  {
  }

  /** A found package with the fields of a libraries.io answer gives a "Go" record of its latest publication and licenses. */
  lemma StepFound(s: Store, cfg: Config, lib: string, fetch: Fetch, pkg: Value)
    requires var (name, version) := NameVersion(lib);
      GetPackageOf(s, Underlying, name, version, fetch).0 == Ok(Some(pkg))
    requires pkg.Dict? && Has(pkg.fields, "latest_release_number")
    requires Has(pkg.fields, "latest_stable_release_published_at") && Has(pkg.fields, "licenses")
    ensures var r := Step(s, cfg, lib, fetch).0;
      && r.Ok? && r.value.source == "Go"
      && Get(pkg.fields, "licenses") == Some(r.value.license)
      && Get(pkg.fields, "latest_stable_release_published_at") == Some(r.value.published)
  {
    var (name, version) := NameVersion(lib);
    RecordMeans(GetPackageOf(s, Underlying, name, version, fetch).1, cfg, Underlying, "Go", name, version, pkg);
  }

  /** A turn that succeeds names its record by the entry's module. */
  lemma StepNamed(s: Store, cfg: Config, lib: string, fetch: Fetch)
    ensures Step(s, cfg, lib, fetch).0.Ok? ==> Names([Step(s, cfg, lib, fetch).0.value]) == [Some(NameVersion(lib).0)]
  {
    StepMeans(s, cfg, lib, fetch);
  }

  /** One more record, named x, before the names still to come. */
  lemma NamesStep(deps: seq<Dep>, d: Dep, x: Option<string>, m: seq<Option<string>>)
    requires Names([d]) == [x]
    ensures Names(deps + [d]) + m == Names(deps) + ([x] + m)
  {
    NamesAppend(deps, [d]);
  }

  /** The loop records one dependency per entry, named by the entry's module, in order. */
  lemma {:induction false} DepsNames(s: Store, cfg: Config, libs: seq<string>, fetch: Fetch, deps: seq<Dep>)
    ensures var r := Deps(s, cfg, libs, fetch, deps).0;
      r.Ok? ==> Names(r.value) == Names(deps) + Modules(libs)
    decreases |libs|
  {
    if libs != [] {
      var step := Step(s, cfg, libs[0], fetch);
      if step.0.Ok? {
        StepNamed(s, cfg, libs[0], fetch);
        DepsNames(step.1, cfg, libs[1..], fetch, deps + [step.0.value]);
        NamesStep(deps, step.0.value, Some(NameVersion(libs[0]).0), Modules(libs[1..]));
      }
    }
  }

  /** Every record the loop adds is a "Go" or an "Unknown" one; it fails only on a found package without the fields of a record. */
  lemma {:induction false} DepsSources(s: Store, cfg: Config, libs: seq<string>, fetch: Fetch, deps: seq<Dep>)
    ensures var r := Deps(s, cfg, libs, fetch, deps).0;
      r.Ok? ==> forall d :: d in r.value ==> d in deps || d.source == "Go" || d.source == "Unknown"
    ensures var r := Deps(s, cfg, libs, fetch, deps).0;
      r.Err? ==> r.error.KeyError? || r.error.TypeError?
    decreases |libs|
  {
    if libs != [] {
      var step := Step(s, cfg, libs[0], fetch);
      StepMeans(s, cfg, libs[0], fetch);
      if step.0.Ok? {
        DepsSources(step.1, cfg, libs[1..], fetch, deps + [step.0.value]);
      }
    }
  }

  /** As written, a parse that succeeds has found no package at all: every record is "Unknown". */
  lemma {:induction false} AsWrittenOnlyUnknown(s: Store, cfg: Config, libs: seq<string>, fetch: Fetch, deps: seq<Dep>)
    ensures var r := DepsAsWritten(s, cfg, libs, fetch, deps).0;
      r.Ok? ==> forall d :: d in r.value ==> d in deps || d.source == "Unknown"
    decreases |libs|
  {
    if libs != [] {
      var step := StepAsWritten(s, cfg, libs[0], fetch, deps != []);
      if step.0.Ok? {
        AsWrittenOnlyUnknown(step.1, cfg, libs[1..], fetch, deps + [step.0.value]);
      }
    }
  }

  /** As written, a parse that succeeds records every module of the file as unknown, in order. */
  lemma AsWrittenParseUnknown(s: Store, cfg: Config, content: string, start: Repo, fetch: Fetch)
    ensures var r := ParseAsWrittenOf(s, cfg, content, start, fetch).0;
      r.Ok? ==> forall d :: d in r.value.dependencies ==> d.source == "Unknown"
  {
    AsWrittenOnlyUnknown(s, cfg, Collect(Split(content, "\n"), false, []), fetch, []);
  }

  /** As written, a first module the lookup finds ends the parse with a NameError, however complete its package is. */
  lemma AsWrittenFirstFound(s: Store, cfg: Config, libs: seq<string>, fetch: Fetch, pkg: Value)
    requires libs != []
    requires var (name, version) := NameVersion(libs[0]);
      GetPackageOf(s, Underlying, name, version, fetch).0 == Ok(Some(pkg))
    ensures DepsAsWritten(s, cfg, libs, fetch, []).0 == Err(NameError("dep"))
  {
  }

  // ---------------------------------------------------------------------
  // The manager.
  // ---------------------------------------------------------------------

  /** The first loop of `parse`. */
  method CollectLines(lines: seq<string>) returns (libs: seq<string>)
    ensures libs == Collect(lines, false, [])
  {
    libs := [];
    var parsing := false;
    var i := 0;
    while i < |lines|
      invariant 0 <= i <= |lines|
      invariant Collect(lines, false, []) == Collect(lines[i..], parsing, libs)
    {
      assert lines[i..][0] == lines[i] && lines[i..][1..] == lines[i + 1..];
      var line := lines[i];
      if Contains(line, "require (") {
        parsing := true;
        i := i + 1;
        continue;
      }
      if parsing && Contains(line, ")") {
        return;
      }
      if parsing {
        libs := libs + [Entry(line)];
      }
      i := i + 1;
    }
  }

  /**
   * One turn of the second loop as written: a module the lookup does not
   * know is recorded as unknown; one it finds is cached under its version
   * when one is given, and then reading `dep.data` fails with a NameError,
   * or an AttributeError once an earlier turn assigned `dep`.
   */
  method TurnAsWritten(m: FileManager, cfg: Config, lib: string, fetch: Fetch, bound: bool) returns (r: Result<Dep>)
    requires m.profile == Manager
    modifies m.cache
    ensures (r, m.cache.State()) == StepAsWritten(old(m.cache.State()), cfg, lib, fetch, bound)
  {
    var (name, version) := NameVersion(lib);
    var got := m.GetPackage(name, version, fetch);
    if got.Err? || got.value.None? {
      return Ok(Unknown(name, version));
    }
    if Given(version) {
      m.cache.Set(cfg, VersionKey(m.Underlying(), name, version.value), got.value.value);
    }
    return Err(if bound then AttributeError("'dict' object has no attribute 'data'") else NameError("dep"));
  }

  /** `GoModuleManager.parse(content)` as written: the first module the lookup finds ends the parse. */
  method ParseAsWritten(m: FileManager, cfg: Config, content: string, now: string, fetch: Fetch) returns (r: Result<Repo>)
    requires m.profile == Manager
    modifies m, m.cache
    ensures (r, m.cache.State()) == ParseAsWrittenOf(old(m.cache.State()), cfg, content, old(m.GetRepo(now)), fetch)
    ensures m.parsed == (if r.Ok? then Some(r.value) else old(m.parsed))
    ensures m.packageName == old(m.packageName) && m.version == old(m.version)
  {
    var start := m.GetRepo(now);
    var libs := CollectLines(Split(content, "\n"));
    var deps: seq<Dep> := [];
    var j := 0;
    while j < |libs|
      invariant 0 <= j <= |libs|
      invariant m.packageName == old(m.packageName) && m.version == old(m.version) && m.parsed == old(m.parsed)
      invariant DepsAsWritten(old(m.cache.State()), cfg, libs, fetch, []) == DepsAsWritten(m.cache.State(), cfg, libs[j..], fetch, deps)
    {
      assert libs[j..][0] == libs[j] && libs[j..][1..] == libs[j + 1..];
      var turn := TurnAsWritten(m, cfg, libs[j], fetch, deps != []);
      if turn.Err? {
        assert DepsAsWritten(old(m.cache.State()), cfg, libs, fetch, []) == (Err(turn.error), m.cache.State());
        return Err(turn.error);
      }
      deps := deps + [turn.value];
      j := j + 1;
    }
    assert libs[j..] == [];
    var repo := start.(dependencies := deps);
    m.parsed := Some(repo);
    return Ok(repo);
  }

  /** `GoModuleManager.parse(content)` with the intended record of a found package: the repository record, also stored as the manager's package data. */
  method Parse(m: FileManager, cfg: Config, content: string, now: string, fetch: Fetch) returns (r: Result<Repo>)
    requires m.profile == Manager
    modifies m, m.cache
    ensures (r, m.cache.State()) == ParseOf(old(m.cache.State()), cfg, content, old(m.GetRepo(now)), fetch)
    ensures m.parsed == (if r.Ok? then Some(r.value) else old(m.parsed))
    ensures m.packageName == old(m.packageName) && m.version == old(m.version)
  {
    var start := m.GetRepo(now);
    var libs := CollectLines(Split(content, "\n"));
    var deps: seq<Dep> := [];
    var j := 0;
    while j < |libs|
      invariant 0 <= j <= |libs|
      invariant m.packageName == old(m.packageName) && m.version == old(m.version) && m.parsed == old(m.parsed)
      invariant Deps(old(m.cache.State()), cfg, libs, fetch, []) == Deps(m.cache.State(), cfg, libs[j..], fetch, deps)
    {
      assert libs[j..][0] == libs[j] && libs[j..][1..] == libs[j + 1..];
      var (name, version) := NameVersion(libs[j]);
      var got := m.GetPackage(name, version, fetch);
      if got.Err? || got.value.None? {
        deps := deps + [Unknown(name, version)];
      } else {
        var record := m.Record(cfg, "Go", name, version, got.value.value);
        if record.Err? {
          return Err(record.error);
        }
        deps := deps + [record.value];
      }
      j := j + 1;
    }
    var repo := start.(dependencies := deps);
    m.parsed := Some(repo);
    return Ok(repo);
  }
}
