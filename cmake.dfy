/**
 * The CMakeLists.txt manager (citelang/main/packages/cpp_cmakelist.py):
 * each stripped line is tried as a `find_package`, a
 * `cmake_minimum_required`, a `set(PROJECT_VERSION` and a `project` line,
 * in that order; the libraries found become dependency records without
 * any lookup.
 */
module CMakeList {
  import opened Wrappers
  import opened Json
  import opened PyStr
  import opened Managers

  /** The class attributes of `CMakeListManager`. */
  const Manager := Profile("CMakeLists.txt", Some("spack"), Null, Null, Str("#e9573f"), Str("C++"))

  /** `line.split("(")[1]`: the text between the first and the second "(". */
  function AfterParen(line: string): (r: Result<string>)
    ensures r.Err? <==> !Contains(line, "(")
  {
    var parts := Split(line, "(");
    if |parts| < 2 then Err(IndexError("list index out of range")) else Ok(parts[1])
  }

  /** `line.split(" ")[i]` */
  function Word(line: string, i: nat): Result<string> {
    var parts := Split(line, " ");
    if |parts| <= i then Err(IndexError("list index out of range")) else Ok(parts[i])
  }

  /** `x.replace(")", "").replace('"', "").replace("'", "")` */
  function Unquote(x: string): string {
    Replace(Replace(Replace(x, ")", ""), "\"", ""), "'", "")
  }

  /** Which branch of the loop a stripped line takes; the tests are tried in this order. */
  datatype LineKind = FindPackage | MinimumRequired | ProjectVersion | Project | Other

  function KindOf(line: string): LineKind {
    if Contains(line, "find_package") then FindPackage
    else if Contains(line, "cmake_minimum_required") then MinimumRequired
    else if Contains(line, "set(PROJECT_VERSION") then ProjectVersion
    else if Contains(line, "project") then Project
    else Other
  }

  /** `inner.split(" ")[0].strip().replace(")", "")` */
  function LibraryWord(inner: string): string {
    Replace(Strip(Before(inner, " ")), ")", "")
  }

  /** `second.strip(")").strip()` */
  function MinimumVersion(second: string): string {
    Strip(StripChars(second, {')'}))
  }

  /** `"cmake@" + version` */
  function CMakeLib(version: string): (r: string)
    ensures |r| == 6 + |version|
  {
    "cmake@" + version
  }

  /** `inner.split(" ")[0].strip()` */
  function FirstWord(inner: string): string {
    Strip(Before(inner, " "))
  }

  /**
   * What one stripped line does: the libraries it adds (at most one,
   * never empty) and the repository record after it.
   */
  function LineEffect(repo: Repo, line: string): (r: Result<(seq<string>, Repo)>)
    ensures r.Ok? ==>
      && |r.value.0| <= 1 && (forall x :: x in r.value.0 ==> x != "")
      && r.value.1.published == repo.published && r.value.1.defaultVersion == repo.defaultVersion
      && r.value.1.dependencies == repo.dependencies
  {
    match KindOf(line)
    case FindPackage =>
      var inner :- AfterParen(line);
      var lib := LibraryWord(inner);
      if lib == "" then Ok(([], repo)) else Ok(([Lower(lib)], repo))
    case MinimumRequired =>
      var inner :- AfterParen(line);
      var second :- Word(inner, 1);
      Ok(([CMakeLib(MinimumVersion(second))], repo))
    case ProjectVersion =>
      var second :- Word(line, 1);
      Ok(([], repo.(number := Unquote(Before(second, " ")))))
    case Project =>
      var inner :- AfterParen(line);
      Ok(([], repo.(name := Some(FirstWord(inner)))))
    case Other => Ok(([], repo))
  }

  /** The first loop over the lines of the file, continuing from `libs` and `repo`. */
  function Scan(lines: seq<string>, libs: seq<string>, repo: Repo): Result<(seq<string>, Repo)>
    decreases |lines|
  {
    if lines == [] then Ok((libs, repo))
    else
      var next :- LineEffect(repo, Strip(lines[0]));
      Scan(lines[1..], libs + next.0, next.1)
  }

  /** The record of one library: a version only when the entry holds "@". */
  function DepOf(lib: string, published: string): Dep {
    if Contains(lib, "@") then
      var parts := Split1(lib, "@");
      Dep(Some(parts[0]), Str(parts[1]), Str(published), Null, "Cpp")
    else Dep(Some(lib), Null, Str(published), Null, "Cpp")
  }

  function DepsOf(libs: seq<string>, published: string): (r: seq<Dep>)
    ensures |r| == |libs|
    ensures forall k :: 0 <= k < |libs| ==> r[k] == DepOf(libs[k], published)
  {
    if libs == [] then [] else [DepOf(libs[0], published)] + DepsOf(libs[1..], published)
  }

  /** `parse(content)`, starting from the record `get_repo()` returned. */
  function ParseOf(content: string, start: Repo): Result<Repo> {
    var scanned :- Scan(Split(content, "\n"), [], start);
    Ok(scanned.1.(dependencies := DepsOf(scanned.0, scanned.1.published)))
  }

  // ---------------------------------------------------------------------
  // What the scan promises.
  // ---------------------------------------------------------------------

  /** One line of the scan: its effect, then the rest of the lines. */
  lemma ScanStep(lines: seq<string>, libs: seq<string>, repo: Repo)
    requires lines != []
    ensures var step := LineEffect(repo, Strip(lines[0]));
      Scan(lines, libs, repo) ==
        if step.Err? then Err(step.error) else Scan(lines[1..], libs + step.value.0, step.value.1)
  {
  }

  /** What was found before is kept, in front of what the lines add. */
  lemma {:induction false} ScanPrefix(lines: seq<string>, pre: seq<string>, libs: seq<string>, repo: Repo)
    ensures var r := Scan(lines, libs, repo);
      Scan(lines, pre + libs, repo) == if r.Err? then r else Ok((pre + r.value.0, r.value.1))
    decreases |lines|
  {
    if lines != [] {
      ScanStep(lines, pre + libs, repo);
      ScanStep(lines, libs, repo);
      var next := LineEffect(repo, Strip(lines[0]));
      if next.Ok? {
        assert (pre + libs) + next.value.0 == pre + (libs + next.value.0);
        ScanPrefix(lines[1..], pre, libs + next.value.0, next.value.1);
      }
    }
  }

  /**
   * The libraries found are never empty, and a `set(PROJECT_VERSION` line
   * changes the version number but never the default version.
   */
  lemma {:induction false} ScanKeeps(lines: seq<string>, libs: seq<string>, repo: Repo)
    requires forall x :: x in libs ==> x != ""
    ensures var r := Scan(lines, libs, repo);
      r.Ok? ==>
        && (forall x :: x in r.value.0 ==> x != "")
        && r.value.1.published == repo.published && r.value.1.defaultVersion == repo.defaultVersion
    decreases |lines|
  {
    if lines != [] {
      var next := LineEffect(repo, Strip(lines[0]));
      if next.Ok? {
        ScanKeeps(lines[1..], libs + next.value.0, next.value.1);
      }
    }
  }

  /** Scanning two blocks of lines is scanning the first and continuing with the second. */
  lemma {:induction false} ScanAppend(a: seq<string>, b: seq<string>, libs: seq<string>, repo: Repo)
    ensures Scan(a + b, libs, repo) ==
      (match Scan(a, libs, repo)
       case Err(e) => Err(e)
       case Ok(mid) => Scan(b, mid.0, mid.1))
    decreases |a|
  {
    if a == [] {
      assert a + b == b;
    } else {
      assert (a + b)[0] == a[0] && (a + b)[1..] == a[1..] + b;
      var next := LineEffect(repo, Strip(a[0]));
      if next.Ok? {
        ScanAppend(a[1..], b, libs + next.value.0, next.value.1);
      }
    }
  }

  /** A `find_package` line without "(" is an IndexError, whatever else it says. */
  lemma FindPackageNeedsParen(repo: Repo, line: string)
    requires KindOf(line) == FindPackage && !Contains(line, "(")
    ensures LineEffect(repo, line) == Err(IndexError("list index out of range"))
  {
  }

  /** A line with both "find_package" and "project" is a `find_package` line: the project name stays. */
  lemma FindPackageFirst(repo: Repo, line: string)
    requires Contains(line, "find_package")
    ensures KindOf(line) == FindPackage
    ensures LineEffect(repo, line).Ok? ==> LineEffect(repo, line).value.1 == repo
  {
  }

  /** `cmake_minimum_required(VERSION v)` becomes a dependency on "cmake" at version v. */
  lemma CMakeEntry(v: string, published: string)
    ensures DepOf(CMakeLib(v), published) == Dep(Some("cmake"), Str(v), Str(published), Null, "Cpp")
  {
    var lib := CMakeLib(v);
    assert lib[5..6] == "@";
    assert OccursAt(lib, "@", 5);
    var p := Find(lib, "@").value;
    assert p <= 5;
    assert lib[p..p + 1] == "@";
    assert lib[p] == '@';
    assert lib[..5] == "cmake" && lib[6..] == v;
    assert p == 5;
  }

  /** Every record is "Cpp", without a license, published when the repository is, named by the text before "@". */
  lemma DepsMeans(libs: seq<string>, published: string)
    ensures forall k :: 0 <= k < |libs| ==>
      var d := DepsOf(libs, published)[k];
      && d.named == Some(Before(libs[k], "@")) && d.source == "Cpp" && d.license == Null
      && d.published == Str(published) && (d.number == Null <==> !Contains(libs[k], "@"))
  {
    forall k | 0 <= k < |libs| ensures
      var d := DepsOf(libs, published)[k];
      && d.named == Some(Before(libs[k], "@")) && d.source == "Cpp" && d.license == Null
      && d.published == Str(published) && (d.number == Null <==> !Contains(libs[k], "@"))
    {
      var lib := libs[k];
      if Contains(lib, "@") {
        var parts := Split1(lib, "@");
        assert Split(lib, "@")[0] == parts[0] by {
          var i := Find(lib, "@").value;
          assert lib[..i] == parts[0];
        }
      }
    }
  }

  /** The parse stores the scanned libraries, in order, as the dependencies, and keeps the default version `get_repo` chose. */
  lemma ParseMeans(content: string, start: Repo)
    ensures var r := ParseOf(content, start);
      r.Ok? ==>
        && r.value.defaultVersion == start.defaultVersion && r.value.published == start.published
        && r.value.dependencies == DepsOf(Scan(Split(content, "\n"), [], start).value.0, start.published)
  {
    ScanKeeps(Split(content, "\n"), [], start);
  }

  /** The first loop of `parse`: every stripped line in turn. */
  method ScanLines(lines: seq<string>, start: Repo) returns (r: Result<(seq<string>, Repo)>)
    ensures r == Scan(lines, [], start)
  {
    var repo := start;
    var libs: seq<string> := [];
    var i := 0;
    while i < |lines|
      invariant 0 <= i <= |lines|
      invariant Scan(lines, [], start) == Scan(lines[i..], libs, repo)
    {
      ScanStep(lines[i..], libs, repo);
      assert lines[i..][0] == lines[i] && lines[i..][1..] == lines[i + 1..];
      var step := LineEffect(repo, Strip(lines[i]));
      if step.Err? {
        return Err(step.error);
      }
      libs, repo := libs + step.value.0, step.value.1;
      i := i + 1;
    }
    return Ok((libs, repo));
  }

  /** The second loop of `parse`: one record per library, in order. */
  method Records(libs: seq<string>, published: string) returns (deps: seq<Dep>)
    ensures deps == DepsOf(libs, published)
  {
    deps := [];
    var j := 0;
    while j < |libs|
      invariant 0 <= j <= |libs|
      invariant |deps| == j && forall k :: 0 <= k < j ==> deps[k] == DepOf(libs[k], published)
    {
      deps := deps + [DepOf(libs[j], published)];
      j := j + 1;
    }
  }

  /** `CMakeListManager.parse(content)`: the repository record, also stored as the manager's package data. */
  method Parse(m: FileManager, content: string, now: string) returns (r: Result<Repo>)
    modifies m
    ensures r == ParseOf(content, old(m.GetRepo(now)))
    ensures m.parsed == (if r.Ok? then Some(r.value) else old(m.parsed))
    ensures m.packageName == old(m.packageName) && m.version == old(m.version)
  {
    var start := m.GetRepo(now);
    var scanned := ScanLines(Split(content, "\n"), start);
    if scanned.Err? {
      return Err(scanned.error);
    }
    var (libs, repo) := scanned.value;
    var deps := Records(libs, repo.published);
    repo := repo.(dependencies := deps);
    m.parsed := Some(repo);
    return Ok(repo);
  }
}
