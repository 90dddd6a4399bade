/**
 * The R DESCRIPTION manager (citelang/main/packages/cran_description.py):
 * the indented lines after the first "Imports:" line are the imports;
 * an import with "==", "<=" or ">=" names a version, and every import
 * the lookup finds becomes a "Cran" record.
 */
module Cran {
  import opened Wrappers
  import opened Json
  import opened PyStr
  import opened PackageCache
  import opened Packages
  import opened Managers
  import opened Patterns

  /** The class attributes of `RPackageManager`. */
  const Manager := Profile("DESCRIPTION", Some("cran"), Null, Str("https://cran.r-project.org/"), Str("#006dad"), Str("R"))

  /** `underlying_manager`, which is also the manager of the cache names written here. */
  const Underlying := "cran"

  /** The pattern `(==|<=|>=)`. */
  const Ops := ["==", "<=", ">="]

  /** `line.replace(",", "").strip()` */
  function Entry(line: string): string {
    Strip(Replace(line, ",", ""))
  }

  /** `line.startswith(" ")` */
  predicate Indented(line: string) {
    |line| > 0 && line[0] == ' '
  }

  /**
   * The first loop of `parse`, continuing with the flag `parsing` and the
   * entries so far: once parsing, a line that does not start with a space
   * ends the loop and every other line is collected; before that, a line
   * with "Imports:" starts the parsing and is itself not collected.
   */
  function Collect(lines: seq<string>, parsing: bool, libs: seq<string>): seq<string>
    decreases |lines|
  {
    if lines == [] then libs
    else if parsing && !Indented(lines[0]) then libs
    else if parsing then Collect(lines[1..], true, libs + [Entry(lines[0])])
    else Collect(lines[1..], Contains(lines[0], "Imports:"), libs)
  }

  /** The entries of a block of lines. */
  function Entries(lines: seq<string>): (r: seq<string>)
    ensures |r| == |lines|
    ensures forall k :: 0 <= k < |lines| ==> r[k] == Entry(lines[k])
  {
    if lines == [] then [] else [Entry(lines[0])] + Entries(lines[1..])
  }

  /**
   * The name and version of an import: with an operator, the parentheses
   * go and the text around the only operator is stripped; a second
   * operator is the ValueError of the unpacking.
   */
  function NameVersion(line: string): Result<(string, Option<string>)> {
    if Matches(line, Ops) then
      var bare := Replace(Replace(line, ")", ""), "(", "");
      var parts :- SplitOnce(bare, Ops);
      Ok((Strip(parts.0), Some(Strip(parts.1))))
    else Ok((line, None))
  }

  /**
   * One turn of the second loop: an import without a name or that the
   * lookup does not find adds nothing; the lookup's own errors end the
   * parse.
   */
  function Step(s: Store, cfg: Config, line: string, fetch: Fetch): (Result<Option<Dep>>, Store) {
    match NameVersion(line)
    case Err(e) => (Err(e), s)
    case Ok(nv) =>
      if nv.0 == "" then (Ok(None), s)
      else
        var got := GetPackageOf(s, Underlying, nv.0, nv.1, fetch);
        if got.0.Err? then (Err(got.0.error), got.1)
        else if got.0.value.None? then (Ok(None), got.1)
        else
          var rec := RecordOf(got.1, cfg, Underlying, "Cran", nv.0, nv.1, got.0.value.value);
          if rec.0.Err? then (Err(rec.0.error), rec.1) else (Ok(Some(rec.0.value)), rec.1)
  }

  /** The second loop, continuing from the records so far. */
  function Deps(s: Store, cfg: Config, libs: seq<string>, fetch: Fetch, deps: seq<Dep>): (Result<seq<Dep>>, Store)
    decreases |libs|
  {
    if libs == [] then (Ok(deps), s)
    else
      var step := Step(s, cfg, libs[0], fetch);
      if step.0.Err? then (Err(step.0.error), step.1)
      else Deps(step.1, cfg, libs[1..], fetch, if step.0.value.Some? then deps + [step.0.value.value] else deps)
  }

  /** `parse(content)`, starting from the record `get_repo()` returned. */
  function ParseOf(s: Store, cfg: Config, content: string, start: Repo, fetch: Fetch): (Result<Repo>, Store) {
    var found := Deps(s, cfg, Collect(Split(content, "\n"), false, []), fetch, []);
    if found.0.Err? then (Err(found.0.error), found.1)
    else (Ok(start.(dependencies := found.0.value)), found.1)
  }

  // ---------------------------------------------------------------------
  // What the first loop promises.
  // ---------------------------------------------------------------------

  /** Before the "Imports:" line, lines are skipped. */
  lemma {:induction false} CollectBefore(pre: seq<string>, rest: seq<string>, libs: seq<string>)
    requires forall k :: 0 <= k < |pre| ==> !Contains(pre[k], "Imports:")
    ensures Collect(pre + rest, false, libs) == Collect(rest, false, libs)
    decreases |pre|
  {
    if pre == [] {
      assert pre + rest == rest;
    } else {
      assert (pre + rest)[0] == pre[0] && (pre + rest)[1..] == pre[1..] + rest;
      CollectBefore(pre[1..], rest, libs);
    }
  }

  /** The "Imports:" line starts the parsing, and nothing on it is collected. */
  lemma CollectStarts(line: string, rest: seq<string>, libs: seq<string>)
    requires Contains(line, "Imports:")
    ensures Collect([line] + rest, false, libs) == Collect(rest, true, libs)
  {
    assert ([line] + rest)[0] == line && ([line] + rest)[1..] == rest;
  }

  /** While parsing, a line that starts with a space is collected. */
  lemma CollectTakes(line: string, rest: seq<string>, libs: seq<string>)
    requires Indented(line)
    ensures Collect([line] + rest, true, libs) == Collect(rest, true, libs + [Entry(line)])
  {
    assert ([line] + rest)[0] == line && ([line] + rest)[1..] == rest;
  }

  /** While parsing, the end of the file or a line that does not start with a space ends the loop. */
  lemma CollectEnds(rest: seq<string>, libs: seq<string>)
    requires rest == [] || !Indented(rest[0])
    ensures Collect(rest, true, libs) == libs
  {
  }

  /**
   * While parsing, the indented lines are collected up to the first line
   * that is not indented or the end of the file, and nothing after it.
   */
  lemma {:induction false} CollectBlock(block: seq<string>, rest: seq<string>, libs: seq<string>)
    requires forall k :: 0 <= k < |block| ==> Indented(block[k])
    requires rest == [] || !Indented(rest[0])
    ensures Collect(block + rest, true, libs) == libs + Entries(block)
    decreases |block|
  {
    if block == [] {
      assert block + rest == rest;
      CollectEnds(rest, libs);
    } else {
      var tail := block[1..] + rest;
      ConcatHead(block, rest);
      CollectTakes(block[0], tail, libs);
      CollectBlock(block[1..], rest, libs + [Entry(block[0])]);
      AppendCons(libs, Entry(block[0]), Entries(block[1..]));
    }
  }

  /** A DESCRIPTION file yields exactly the entries of the indented lines after its first "Imports:" line, in order. */
  lemma ImportsBlock(pre: seq<string>, imports: string, block: seq<string>, rest: seq<string>)
    requires forall k :: 0 <= k < |pre| ==> !Contains(pre[k], "Imports:")
    requires Contains(imports, "Imports:")
    requires forall k :: 0 <= k < |block| ==> Indented(block[k])
    requires rest == [] || !Indented(rest[0])
    ensures Collect(pre + ([imports] + (block + rest)), false, []) == Entries(block)
  {
    CollectBefore(pre, [imports] + (block + rest), []);
    CollectStarts(imports, block + rest, []);
    CollectBlock(block, rest, []);
    assert [] + Entries(block) == Entries(block);
  }

  /** An entry holds no comma and is stripped. */
  lemma EntryClean(line: string)
    ensures ',' !in Entry(line) && Strip(Entry(line)) == Entry(line)
  {
    var d := Replace(line, ",", "");
    ReplaceCharIsDrop(line, ',');
    if ',' in d {
      DropCharKeeps(line, ',', ',');
    }
    ContainsChar(d, ',');
    StripKeepsAbsent(d, ",");
    ContainsChar(Strip(d), ',');
    StripIdempotent(d);
  }

  // ---------------------------------------------------------------------
  // What the second loop promises.
  // ---------------------------------------------------------------------

  /** An import without an operator is a bare name; with one, a name and a version, both stripped and without any operator. */
  lemma NameVersionMeans(line: string)
    ensures !Matches(line, Ops) ==> NameVersion(line) == Ok((line, None))
    ensures NameVersion(line).Err? ==> NameVersion(line).error.ValueError?
    ensures NameVersion(line).Ok? && Matches(line, Ops) ==>
      var (name, version) := NameVersion(line).value;
      && version.Some? && Strip(name) == name && Strip(version.value) == version.value
      && forall o :: o in Ops ==> !Contains(name, o) && !Contains(version.value, o)
  {
    if Matches(line, Ops) {
      var bare := Replace(Replace(line, ")", ""), "(", "");
      if SplitOnce(bare, Ops).Ok? {
        var parts := SplitOnce(bare, Ops).value;
        SplitOnceParts(bare, Ops);
        StripIdempotent(parts.0);
        StripIdempotent(parts.1);
        forall o | o in Ops ensures !Contains(Strip(parts.0), o) && !Contains(Strip(parts.1), o) {
          StripKeepsAbsent(parts.0, o);
          StripKeepsAbsent(parts.1, o);
        }
      }
    }
  }

  /** A turn adds a "Cran" record of the import's name, never for an empty name. */
  lemma StepMeans(s: Store, cfg: Config, line: string, fetch: Fetch)
    ensures var r := Step(s, cfg, line, fetch).0;
      r.Ok? && r.value.Some? ==>
        && NameVersion(line).Ok? && NameVersion(line).value.0 != ""
        && r.value.value.named == Some(NameVersion(line).value.0) && r.value.value.source == "Cran"
  {
    match NameVersion(line)
    case Err(_) =>
    case Ok(nv) =>
      if nv.0 != "" {
        var got := GetPackageOf(s, Underlying, nv.0, nv.1, fetch);
        if got.0.Ok? && got.0.value.Some? && got.0.value.value.Dict? {
          RecordMeans(got.1, cfg, Underlying, "Cran", nv.0, nv.1, got.0.value.value);
        }
      }
  }

  /** An import whose name is empty is skipped without a lookup; one the lookup does not find is skipped after it. */
  lemma StepSkips(s: Store, cfg: Config, line: string, fetch: Fetch)
    requires NameVersion(line).Ok?
    ensures var nv := NameVersion(line).value;
      nv.0 == "" ==> Step(s, cfg, line, fetch) == (Ok(None), s)
    ensures var nv := NameVersion(line).value;
      nv.0 != "" && GetPackageOf(s, Underlying, nv.0, nv.1, fetch).0 == Ok(None) ==>
        Step(s, cfg, line, fetch) == (Ok(None), GetPackageOf(s, Underlying, nv.0, nv.1, fetch).1)
  {
  }

  /** The loop adds at most one record per import, each a "Cran" record with a name. */
  lemma {:induction false} DepsMeans(s: Store, cfg: Config, libs: seq<string>, fetch: Fetch, deps: seq<Dep>)
    ensures var r := Deps(s, cfg, libs, fetch, deps).0;
      r.Ok? ==>
        && |r.value| <= |deps| + |libs|
        && forall d :: d in r.value ==> d in deps || (d.source == "Cran" && d.named.Some? && d.named.value != "")
    decreases |libs|
  {
    if libs != [] {
      var step := Step(s, cfg, libs[0], fetch);
      StepMeans(s, cfg, libs[0], fetch);
      if step.0.Ok? {
        var more := if step.0.value.Some? then deps + [step.0.value.value] else deps;
        DepsMeans(step.1, cfg, libs[1..], fetch, more);
      }
    }
  }

  /** The records keep the order of the imports: the loop over two blocks is the loop over the first continued by the second. */
  lemma {:induction false} DepsAppend(s: Store, cfg: Config, a: seq<string>, b: seq<string>, fetch: Fetch, deps: seq<Dep>)
    ensures var first := Deps(s, cfg, a, fetch, deps);
      Deps(s, cfg, a + b, fetch, deps) ==
        if first.0.Err? then first else Deps(first.1, cfg, b, fetch, first.0.value)
    decreases |a|
  {
    if a == [] {
      assert a + b == b;
    } else {
      assert (a + b)[0] == a[0] && (a + b)[1..] == a[1..] + b;
      var step := Step(s, cfg, a[0], fetch);
      if step.0.Ok? {
        DepsAppend(step.1, cfg, a[1..], b, fetch, if step.0.value.Some? then deps + [step.0.value.value] else deps);
      }
    }
  }

  // ---------------------------------------------------------------------
  // The manager.
  // ---------------------------------------------------------------------

  /** The first loop of `parse`. */
  method CollectLines(lines: seq<string>) returns (libs: seq<string>)
    ensures libs == Collect(lines, false, [])
  {
    libs := [];
    var parsing := false;
    var i := 0;
    while i < |lines|
      invariant 0 <= i <= |lines|
      invariant Collect(lines, false, []) == Collect(lines[i..], parsing, libs)
    {
      assert lines[i..][0] == lines[i] && lines[i..][1..] == lines[i + 1..];
      var line := lines[i];
      if parsing && !Indented(line) {
        return;
      } else if parsing {
        libs := libs + [Entry(line)];
      } else if Contains(line, "Imports:") {
        parsing := true;
      }
      i := i + 1;
    }
  }

  /** `RPackageManager.parse(content)`: the repository record, also stored as the manager's package data. */
  method Parse(m: FileManager, cfg: Config, content: string, now: string, fetch: Fetch) returns (r: Result<Repo>)
    requires m.profile == Manager
    modifies m, m.cache
    ensures (r, m.cache.State()) == ParseOf(old(m.cache.State()), cfg, content, old(m.GetRepo(now)), fetch)
    ensures m.parsed == (if r.Ok? then Some(r.value) else old(m.parsed))
    ensures m.packageName == old(m.packageName) && m.version == old(m.version)
  {
    var start := m.GetRepo(now);
    var libs := CollectLines(Split(content, "\n"));
    var deps: seq<Dep> := [];
    var j := 0;
    while j < |libs|
      invariant 0 <= j <= |libs|
      invariant m.packageName == old(m.packageName) && m.version == old(m.version) && m.parsed == old(m.parsed)
      invariant Deps(old(m.cache.State()), cfg, libs, fetch, []) == Deps(m.cache.State(), cfg, libs[j..], fetch, deps)
    {
      assert libs[j..][0] == libs[j] && libs[j..][1..] == libs[j + 1..];
      var nv := NameVersion(libs[j]);
      if nv.Err? {
        return Err(nv.error);
      }
      var (name, version) := nv.value;
      if name == "" {
        j := j + 1;
        continue;
      }
      var got := m.GetPackage(name, version, fetch);
      if got.Err? {
        return Err(got.error);
      }
      if got.value.None? {
        j := j + 1;
        continue;
      }
      var record := m.Record(cfg, "Cran", name, version, got.value.value);
      if record.Err? {
        return Err(record.error);
      }
      deps := deps + [record.value];
      j := j + 1;
    }
    var repo := start.(dependencies := deps);
    m.parsed := Some(repo);
    return Ok(repo);
  }
}
