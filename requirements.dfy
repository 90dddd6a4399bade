/**
 * The requirements.txt manager (citelang/main/packages/pypi_requirements.py):
 * the package name it is built with is normalised like every other
 * manager's, and each line of the file that is not blank and not a
 * "git@" reference is looked up on libraries.io as a PyPI package and
 * becomes a "Pypi" record without a name. It reads no cache and writes
 * none, and a failed lookup ends the parse.
 */
module Requirements {
  import opened Wrappers
  import opened Json
  import opened PyStr
  import opened Packages
  import opened Managers
  import opened Patterns
  import Endpoints

  /** The class attributes of `RequirementsManager`; it declares no underlying manager. */
  const Manager := Profile("requirements.txt", None, Null, Str("pypi.org/"), Str("#006dad"), Str("Python"))

  /** The pattern `(==|<=|>=)`. */
  const Ops: seq<string> := ["==", "<=", ">="]

  /** None of the operators is empty. */
  lemma Alternatives()
    ensures Literals(Ops)
  {
  }

  /** `re.search(pattern, line)` */
  predicate HasOp(line: string) {
    Alternatives();
    Matches(line, Ops)
  }

  /** `name, _, version = re.split(pattern, line)` */
  function SplitOp(line: string): Result<(string, string)> {
    Alternatives();
    SplitOnce(line, Ops)
  }

  /**
   * What one line asks for: nothing for a blank line or a "git@"
   * reference; otherwise the stripped line, split at its only operator
   * into a name and a version that keep their spaces.
   */
  function Entry(line: string): Result<Option<(string, Option<string>)>> {
    if line == "" || Contains(line, "git@") then Ok(None)
    else
      var name := Strip(line);
      if HasOp(name) then
        var parts :- SplitOp(name);
        Ok(Some((parts.0, Some(parts.1))))
      else Ok(Some((name, None)))
  }

  /**
   * `get_endpoint("package", package_name=name, manager="pypi")`: the
   * answer of libraries.io, `{}` when it is empty, put in version order by
   * the package endpoint; every error escapes.
   */
  function PypiPackage(fetch: Fetch, name: string): (r: Result<Value>)
    ensures r.Ok? ==> fetch("pypi", name).Ok? && r.value.Dict?
    ensures fetch("pypi", name).Err? ==> r == Err(fetch("pypi", name).error)
  {
    var answer := fetch("pypi", name);
    if answer.Err? then Err(answer.error)
    else Endpoints.PackageOrderAsWritten(if Truthy(answer.value) then answer.value else Dict([]))
  }

  /** The record of a looked-up package: a missing version falls back to its latest release. */
  function PypiRecord(pkg: Value, version: Option<string>): (r: Result<Dep>)
    ensures r.Ok? ==> r.value.named == None && r.value.source == "Pypi"
  {
    var number :- if Given(version) then Ok(Str(version.value)) else Field(pkg, "latest_release_number");
    var published :- Field(pkg, "latest_stable_release_published_at");
    var license :- Field(pkg, "licenses");
    Ok(Dep(None, number, published, license, "Pypi"))
  }

  /** One turn of the loop. */
  function Step(fetch: Fetch, line: string): Result<Option<Dep>> {
    var e :- Entry(line);
    if e.None? then Ok(None)
    else
      var pkg :- PypiPackage(fetch, e.value.0);
      var dep :- PypiRecord(pkg, e.value.1);
      Ok(Some(dep))
  }

  /** The loop over the lines, continuing from the records so far. */
  function Deps(fetch: Fetch, lines: seq<string>, deps: seq<Dep>): Result<seq<Dep>>
    decreases |lines|
  {
    if lines == [] then Ok(deps)
    else
      var step :- Step(fetch, lines[0]);
      Deps(fetch, lines[1..], if step.Some? then deps + [step.value] else deps)
  }

  /** `parse(content)` for a manager with this name and version, at time `now`. */
  function ParseOf(name: string, version: Option<string>, now: string, content: string, fetch: Fetch): Result<Repo> {
    var deps :- Deps(fetch, Split(content, "\n"), []);
    Ok(Repo(Some(name), now, VersionOr(version), VersionOr(version), deps))
  }

  // ---------------------------------------------------------------------
  // What the parse promises.
  // ---------------------------------------------------------------------

  /** Exactly the blank lines and the "git@" references are skipped; every other line, a comment too, is looked up. */
  lemma EntrySkips(line: string)
    ensures Entry(line) == Ok(None) <==> line == "" || Contains(line, "git@")
    ensures !(line == "" || Contains(line, "git@")) && !HasOp(Strip(line)) ==> Entry(line) == Ok(Some((Strip(line), None)))
  {
  }

  /** A line with an operator is cut around it: the name before and the version after, neither holding an operator. */
  lemma EntrySplit(line: string)
    requires line != "" && !Contains(line, "git@") && HasOp(Strip(line))
    ensures Entry(line).Ok? <==> SplitOp(Strip(line)).Ok?
    ensures Entry(line).Ok? ==>
      var (name, version) := Entry(line).value.value;
      && version.Some?
      && (exists o :: o in Ops && Strip(line) == name + o + version.value)
      && forall o :: o in Ops ==> !Contains(name, o) && !Contains(version.value, o)
  {
    Alternatives();
    if SplitOp(Strip(line)).Ok? {
      SplitOnceParts(Strip(line), Ops);
    }
  }

  /** A record carries no name, the source "Pypi", the given version or else the latest one, and the package's date and licenses. */
  lemma RecordMeans(pkg: Value, version: Option<string>)
    requires pkg.Dict?
    ensures var r := PypiRecord(pkg, version);
      r.Ok? <==>
        && (Given(version) || Has(pkg.fields, "latest_release_number"))
        && Has(pkg.fields, "latest_stable_release_published_at") && Has(pkg.fields, "licenses")
    ensures var r := PypiRecord(pkg, version);
      r.Ok? ==>
        && r.value.named == None && r.value.source == "Pypi"
        && (Given(version) ==> r.value.number == Str(version.value))
        && (!Given(version) ==> Get(pkg.fields, "latest_release_number") == Some(r.value.number))
        && Get(pkg.fields, "latest_stable_release_published_at") == Some(r.value.published)
        && Get(pkg.fields, "licenses") == Some(r.value.license)
  {
  }

  /** The number of lines that ask for a package. */
  function Asking(lines: seq<string>): (n: nat)
    ensures n <= |lines|
  {
    if lines == [] then 0
    else (if Entry(lines[0]).Ok? && Entry(lines[0]).value.Some? then 1 else 0) + Asking(lines[1..])
  }

  /** A turn that succeeds adds one record exactly when its line asks for a package. */
  lemma StepAdds(fetch: Fetch, line: string)
    ensures Step(fetch, line).Ok? ==>
      (Step(fetch, line).value.Some? <==> Entry(line).Ok? && Entry(line).value.Some?)
    ensures Step(fetch, line).Ok? && Step(fetch, line).value.Some? ==>
      Step(fetch, line).value.value.named == None && Step(fetch, line).value.value.source == "Pypi"
  {
    var e := Entry(line);
    if e.Err? {
      assert Step(fetch, line).Err?;
    } else if e.value.None? {
      assert Step(fetch, line) == Ok(None);
    } else {
      var pkg := PypiPackage(fetch, e.value.value.0);
      if pkg.Err? {
        assert Step(fetch, line).Err?;
      } else {
        var dep := PypiRecord(pkg.value, e.value.value.1);
        if dep.Err? {
          assert Step(fetch, line).Err?;
        } else {
          assert Step(fetch, line) == Ok(Some(dep.value));
        }
      }
    }
  }

  /** No package is skipped: a parse that succeeds holds one record per line that asks for one, in line order after the records so far. */
  lemma {:induction false} DepsCount(fetch: Fetch, lines: seq<string>, deps: seq<Dep>)
    ensures var r := Deps(fetch, lines, deps);
      r.Ok? ==>
        && |r.value| == |deps| + Asking(lines)
        && r.value[..|deps|] == deps
        && forall d :: d in r.value ==> d in deps || (d.named == None && d.source == "Pypi")
    decreases |lines|
  {
    if lines != [] {
      StepAdds(fetch, lines[0]);
      var step := Step(fetch, lines[0]);
      if step.Ok? {
        var more := if step.value.Some? then deps + [step.value.value] else deps;
        DepsCount(fetch, lines[1..], more);
        var r := Deps(fetch, lines, deps);
        if r.Ok? {
          assert r.value[..|more|] == more;
          assert more[..|deps|] == deps;
          assert r.value[..|deps|] == r.value[..|more|][..|deps|];
        }
      }
    }
  }

  /** The repository record: the manager's name, one version numbered by its version or "latest", which is also the default. */
  lemma ParseMeans(name: string, version: Option<string>, now: string, content: string, fetch: Fetch)
    ensures var r := ParseOf(name, version, now, content, fetch);
      r.Ok? ==>
        && r.value.name == Some(name) && r.value.published == now
        && r.value.number == r.value.defaultVersion
        && (Given(version) ==> r.value.number == version.value)
        && (!Given(version) ==> r.value.number == "latest")
        && |r.value.dependencies| == Asking(Split(content, "\n"))
  {
    DepsCount(fetch, Split(content, "\n"), []);
  }

  // ---------------------------------------------------------------------
  // The manager.
  // ---------------------------------------------------------------------

  /** A `RequirementsManager`: its normalised name and version, and what its parse found. */
  class RequirementsManager {
    var packageName: string
    var version: Option<string>
    /** `self.data.get("package")` */
    var parsed: Option<Repo>

    /** `RequirementsManager(package_name, ...)` up to its parse, which is `Parse`. */
    constructor(packageName: string)
      ensures this.packageName == ParseName(packageName, None).0 && version == ParseName(packageName, None).1
      ensures parsed == None
    {
      this.packageName := packageName;
      version := None;
      parsed := None;
      new;
      SetName(packageName);
    }

    /** `set_name(name)`: the "@", "[...]" and ";" normalisation of `Package.parse`. */
    method SetName(name: string)
      modifies this
      ensures packageName == ParseName(name, old(version)).0
      ensures version == ParseName(name, old(version)).1
      ensures parsed == old(parsed)
    {
      var n := name;
      if Contains(n, "@") {
        var parts := Split1(n, "@");
        n := parts[0];
        version := Some(parts[1]);
      }
      if Contains(n, "[") && Contains(n, "]") {
        n := Before(n, "[");
      }
      ReplaceCharIsDrop(n, ';');
      n := Replace(n, ";", "");
      packageName := n;
    }

    /** `package(name)`: the parsed record, whatever the name. */
    function Package(): Option<Repo>
      reads this
    {
      parsed
    }

    /** `parse(content)`, with `now` the current time. */
    method Parse(content: string, now: string, fetch: Fetch) returns (r: Result<Repo>)
      modifies this
      ensures r == ParseOf(old(packageName), old(version), now, content, fetch)
      ensures parsed == (if r.Ok? then Some(r.value) else old(parsed))
      ensures packageName == old(packageName) && version == old(version)
    {
      var lines := Split(content, "\n");
      var deps: seq<Dep> := [];
      for i := 0 to |lines|
        invariant Deps(fetch, lines, []) == Deps(fetch, lines[i..], deps)
      {
        assert lines[i..][0] == lines[i] && lines[i..][1..] == lines[i + 1..];
        var line := lines[i];
        if line == "" || Contains(line, "git@") {
          continue;
        }
        var pinned: Option<string> := None;
        var name := Strip(line);
        if HasOp(name) {
          var parts := SplitOp(name);
          if parts.Err? {
            return Err(parts.error);
          }
          name, pinned := parts.value.0, Some(parts.value.1);
        }
        var pkg := PypiPackage(fetch, name);
        if pkg.Err? {
          return Err(pkg.error);
        }
        var dep := PypiRecord(pkg.value, pinned);
        if dep.Err? {
          return Err(dep.error);
        }
        deps := deps + [dep.value];
      }
      var repo := Repo(Some(packageName), now, VersionOr(version), VersionOr(version), deps);
      parsed := Some(repo);
      return Ok(repo);
    }
  }
}
