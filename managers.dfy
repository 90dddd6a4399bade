/**
 * The package managers that read a dependency file
 * (citelang/main/packages/base.py): the shared name normalisation, the
 * cached package lookup with its "known to be missing" marks, the start
 * of the repository record, and the dependency record each scanner
 * appends once a package was found.
 *
 * A lookup that misses the cache goes to libraries.io through
 * `endpoints.get_endpoint`; what the network answers for a manager and a
 * name is the parameter `fetch`.
 */
module Managers {
  import opened Wrappers
  import opened Json
  import opened PyStr
  import opened PackageCache
  import opened Packages
  import Endpoints

  /** The class attributes every package manager declares. */
  datatype Profile = Profile(
    name: string,
    underlying: Option<string>,
    projectCount: Value,
    homepage: Value,
    color: Value,
    defaultLanguage: Value)

  /** `PackageManager.info()` */
  function InfoOf(p: Profile): Value {
    var shown := if p.underlying.Some? && p.underlying.value != "" then p.underlying.value else p.name;
    Dict([("name", Str(shown)), ("project_count", p.projectCount), ("homepage", p.homepage),
          ("color", p.color), ("default_language", p.defaultLanguage)])
  }

  /** `info` reports the underlying manager when there is one, and the manager's own name otherwise. */
  lemma InfoName(p: Profile)
    ensures InfoOf(p).Dict? && |InfoOf(p).fields| == 5
    ensures p.underlying.Some? && p.underlying.value != "" ==> InfoOf(p).fields[0] == ("name", Str(p.underlying.value))
    ensures p.underlying.None? ==> InfoOf(p).fields[0] == ("name", Str(p.name))
    ensures InfoOf(p).fields[1].1 == p.projectCount && InfoOf(p).fields[4].1 == p.defaultLanguage
  {
  }

  /** What libraries.io answers for `/api/{manager}/{name}`, or the error the request raises. */
  type Fetch = (string, string) -> Result<Value>

  /** A version that Python counts as given: not None and not "". */
  predicate Given(v: Option<string>) {
    v.Some? && v.value != ""
  }

  /** `data[key]` on the data of a package lookup. */
  function Field(data: Value, key: string): (r: Result<Value>)
    ensures data.Dict? ==> (r.Ok? <==> Has(data.fields, key))
    ensures r.Ok? ==> data.Dict? && Get(data.fields, key) == Some(r.value)
  {
    if !data.Dict? then Err(TypeError("indices must be integers"))
    else match Get(data.fields, key)
      case Some(v) => Ok(v)
      case None => Err(KeyError(key))
  }

  /** A dependency record; `named` is the "name" and "project_name" both, absent in the records of requirements.txt. */
  datatype Dep = Dep(named: Option<string>, number: Value, published: Value, license: Value, source: string)

  /** The repository record: its name, the published date and number of its single version, its default version and its dependencies. */
  datatype Repo = Repo(name: Option<string>, published: string, number: string, defaultVersion: string, dependencies: seq<Dep>)

  /** The dictionary a dependency record stands for. */
  function DepData(d: Dep): (r: Value)
    ensures r.Dict?
    ensures d.named.None? ==> |r.fields| == 6
    ensures d.named.Some? ==> |r.fields| == 8 && r.fields[0] == ("name", Str(d.named.value)) && r.fields[1] == ("project_name", Str(d.named.value))
  {
    var common := [("number", d.number), ("published_at", d.published), ("researched_at", Null),
                   ("spdx_expression", Str("NOASSERTION")), ("original_license", d.license),
                   ("repository_sources", List([Str(d.source)]))];
    if d.named.Some? then Dict([("name", Str(d.named.value)), ("project_name", Str(d.named.value))] + common)
    else Dict(common)
  }

  /** The dictionary a repository record stands for. */
  function RepoData(r: Repo): Value {
    Dict([("name", if r.name.Some? then Str(r.name.value) else Null),
          ("versions", List([Dict([("published_at", Str(r.published)), ("number", Str(r.number))])])),
          ("default_version", Str(r.defaultVersion)),
          ("dependencies", List(DepList(r.dependencies)))])
  }

  function DepList(ds: seq<Dep>): (r: seq<Value>)
    ensures |r| == |ds|
  {
    if ds == [] then [] else [DepData(ds[0])] + DepList(ds[1..])
  }

  /** The names of a list of records. */
  function Names(deps: seq<Dep>): (r: seq<Option<string>>)
    ensures |r| == |deps|
  {
    if deps == [] then [] else [deps[0].named] + Names(deps[1..])
  }

  /** The names of two lists of records, one after the other. */
  lemma {:induction false} NamesAppend(a: seq<Dep>, b: seq<Dep>)
    ensures Names(a + b) == Names(a) + Names(b)
    decreases |a|
  {
    if a == [] {
      assert a + b == b;
    } else {
      assert (a + b)[0] == a[0] && (a + b)[1..] == a[1..] + b;
      NamesAppend(a[1..], b);
    }
  }

  /** `version or "latest"` */
  function VersionOr(v: Option<string>): string {
    if Given(v) then v.value else "latest"
  }

  // ---------------------------------------------------------------------
  // get_package
  // ---------------------------------------------------------------------

  /** The cache name `get_package` probes first: versioned when a version is given. */
  function ProbeKey(underlying: string, name: string, version: Option<string>): string {
    if Given(version) then VersionKey(underlying, name, version.value) else PackageKey(underlying, name)
  }

  /** The cache probe of `get_package`: ordered data of a non-empty entry, nothing, or the error ordering raises. */
  function CachedPackage(s: Store, underlying: string, name: string, version: Option<string>): (Result<Option<Value>>, Store) {
    if name == "" then (Ok(None), s)
    else
      var got := GetStore(s, ProbeKey(underlying, name, version), false);
      if got.0.Found? && Truthy(got.0.data) then
        var ordered := Endpoints.PackageOrderAsWritten(got.0.data);
        if ordered.Err? then (Err(ordered.error), got.1) else (Ok(Some(ordered.value)), got.1)
      else (Ok(None), got.1)
  }

  /**
   * The fetch inside `try: ... except Exception: pass`: `logger.exit` is a
   * SystemExit and escapes; every other error leaves the package missing.
   */
  function FetchPackage(fetch: Fetch, underlying: string, name: string): (r: Result<Option<Value>>)
    ensures r.Err? ==> r.error.Exit? && fetch(underlying, name) == Err(r.error)
    ensures r.Ok? && r.value.Some? ==> fetch(underlying, name).Ok?
  {
    var answer := fetch(underlying, name);
    if answer.Err? then
      if answer.error.Exit? then Err(answer.error) else Ok(None)
    else
      var ordered := Endpoints.PackageOrderAsWritten(if Truthy(answer.value) then answer.value else Dict([]));
      if ordered.Err? then Ok(None) else Ok(Some(ordered.value))
  }

  /**
   * `get_package(package_name, version)` and the store after it; a
   * `mark_empty` that raises is swallowed by `except Exception: pass`.
   */
  function GetPackageOf(s: Store, underlying: string, name: string, version: Option<string>, fetch: Fetch): (Result<Option<Value>>, Store) {
    var cached := CachedPackage(s, underlying, name, version);
    var mark := PackageKey(underlying, name);
    if cached.0.Err? || cached.0.value.Some? then cached
    else if mark in cached.1.empties then (Ok(None), cached.1)
    else
      var fetched := FetchPackage(fetch, underlying, name);
      if fetched.Err? || fetched.value.Some? then (fetched, cached.1)
      else (Ok(None), MarkEmptyStore(cached.1, mark).1)
  }

  /** A usable cache entry answers the lookup: the network is not asked and no mark is written. */
  lemma CacheHit(s: Store, underlying: string, name: string, version: Option<string>, fetch: Fetch)
    requires name != ""
    requires var got := GetStore(s, ProbeKey(underlying, name, version), false).0;
      got.Found? && Truthy(got.data) && Endpoints.PackageOrderAsWritten(got.data).Ok?
    ensures var got := GetStore(s, ProbeKey(underlying, name, version), false);
      GetPackageOf(s, underlying, name, version, fetch) == (Ok(Some(Endpoints.PackageOrderAsWritten(got.0.data).value)), got.1)
  {
  }

  /**
   * A cached dict without "versions" makes `get_package` raise: the
   * package endpoint's `order` reads the missing key, and the network is
   * not asked.
   */
  lemma CacheMissingVersions(s: Store, underlying: string, name: string, version: Option<string>, fetch: Fetch)
    requires name != ""
    requires var got := GetStore(s, ProbeKey(underlying, name, version), false).0;
      got.Found? && got.data.Dict? && got.data.fields != [] && !Has(got.data.fields, "versions")
    ensures GetPackageOf(s, underlying, name, version, fetch).0 == Err(KeyError("versions"))
  {
    var got := GetStore(s, ProbeKey(underlying, name, version), false).0;
    Endpoints.AsWrittenMissingVersions(got.data);
  }

  /** An answer of the network without "versions" is swallowed: the package is missing, and is then marked empty. */
  lemma FetchMissingVersions(fetch: Fetch, underlying: string, name: string)
    requires fetch(underlying, name).Ok?
    requires var v := fetch(underlying, name).value; v.Dict? && !Has(v.fields, "versions")
    ensures FetchPackage(fetch, underlying, name) == Ok(None)
  {
    Endpoints.AsWrittenMissingVersions(fetch(underlying, name).value);
    Endpoints.AsWrittenMissingVersions(Dict([]));
  }

  /** A package marked empty and not in the cache is not fetched again: `get_package` answers None and changes nothing more. */
  lemma MarkedNotFetched(s: Store, underlying: string, name: string, version: Option<string>, fetch: Fetch)
    requires CachedPackage(s, underlying, name, version).0 == Ok(None)
    requires PackageKey(underlying, name) in CachedPackage(s, underlying, name, version).1.empties
    ensures GetPackageOf(s, underlying, name, version, fetch) == (Ok(None), CachedPackage(s, underlying, name, version).1)
  {
  }

  /**
   * A lookup that ends without a package leaves the name marked empty
   * when its directory exists, and leaves the marks as they were when it
   * does not; one that finds a package or fails leaves the marks alone.
   */
  lemma MissMarks(s: Store, underlying: string, name: string, version: Option<string>, fetch: Fetch)
    ensures var r := GetPackageOf(s, underlying, name, version, fetch);
      && (r.0 == Ok(None) && Folder(PackageKey(underlying, name)) in s.dirs ==> r.1.empties == s.empties + {PackageKey(underlying, name)})
      && (r.0 == Ok(None) && Folder(PackageKey(underlying, name)) !in s.dirs ==> r.1.empties == s.empties)
      && (r.0 != Ok(None) ==> r.1.empties == s.empties)
  {
  }

  /** Only two things make `get_package` fail: cached data that cannot be ordered, and a fetch that exits. */
  lemma LookupErrors(s: Store, underlying: string, name: string, version: Option<string>, fetch: Fetch)
    ensures var r := GetPackageOf(s, underlying, name, version, fetch).0;
      r.Err? ==>
        || CachedPackage(s, underlying, name, version).0 == r
        || (CachedPackage(s, underlying, name, version).0 == Ok(None) && r.error.Exit? && fetch(underlying, name) == Err(r.error))
  {
  }

  /** `get_package` never changes the memory map, and the files only lose a corrupt entry. */
  lemma LookupKeepsData(s: Store, underlying: string, name: string, version: Option<string>, fetch: Fetch)
    ensures var t := GetPackageOf(s, underlying, name, version, fetch).1;
      && t.memory == s.memory && t.dirs == s.dirs
      && t.files.Keys <= s.files.Keys
      && (forall k :: k in t.files ==> t.files[k] == s.files[k])
  {
  }

  /**
   * After a lookup found nothing, the same lookup again answers None at
   * once, whatever the network would say, and changes nothing, provided
   * the mark was there already or its directory exists.
   */
  lemma NoRetry(s: Store, underlying: string, name: string, version: Option<string>, fetch: Fetch, again: Fetch)
    requires GetPackageOf(s, underlying, name, version, fetch).0 == Ok(None)
    ensures PackageKey(underlying, name) in s.empties || Folder(PackageKey(underlying, name)) in s.dirs ==>
      var t := GetPackageOf(s, underlying, name, version, fetch).1;
      GetPackageOf(t, underlying, name, version, again) == (Ok(None), t)
  {
    var c := CachedPackage(s, underlying, name, version);
    var t := GetPackageOf(s, underlying, name, version, fetch).1;
    assert c.0 == Ok(None);
    assert t.memory == c.1.memory && t.files == c.1.files;
    if name != "" {
      var key := ProbeKey(underlying, name, version);
      var got := GetStore(s, key, false);
      assert got.1.memory == s.memory;
      assert GetStore(t, key, false) == (got.0, t);
    }
    assert CachedPackage(t, underlying, name, version) == (Ok(None), t);
  }

  /**
   * Without the mark and without its directory, the mark of a lookup that
   * found nothing is never written, so the same lookup again asks the
   * network and answers what it says.
   */
  lemma RetryWithoutFolder(s: Store, underlying: string, name: string, version: Option<string>, fetch: Fetch, again: Fetch)
    requires GetPackageOf(s, underlying, name, version, fetch).0 == Ok(None)
    requires PackageKey(underlying, name) !in s.empties && Folder(PackageKey(underlying, name)) !in s.dirs
    ensures var t := GetPackageOf(s, underlying, name, version, fetch).1;
      GetPackageOf(t, underlying, name, version, again) == (FetchPackage(again, underlying, name), t)
  {
    var c := CachedPackage(s, underlying, name, version);
    var t := GetPackageOf(s, underlying, name, version, fetch).1;
    assert c.0 == Ok(None);
    assert t == c.1;
    if name != "" {
      var key := ProbeKey(underlying, name, version);
      var got := GetStore(s, key, false);
      assert got.1.memory == s.memory;
      assert GetStore(t, key, false) == (got.0, t);
    }
    assert CachedPackage(t, underlying, name, version) == (Ok(None), t);
  }

  /**
   * Caching a package version creates the manager's directory under
   * `package/`, so from then on `mark_empty` succeeds for every package
   * name of that manager without "/".
   */
  lemma SetMakesManagerFolder(s: Store, cfg: Config, manager: string, name: string, version: string, other: string, data: Value)
    requires !EqualsTrue(cfg.disableCache) && Truthy(data)
    requires forall k :: 0 <= k < |version| ==> version[k] != '/'
    requires forall k :: 0 <= k < |other| ==> other[k] != '/'
    ensures Folder(PackageKey(manager, other)) in SetStore(s, cfg, VersionKey(manager, name, version), data).dirs
  {
    var key := VersionKey(manager, name, version);
    var p := PackageKey(manager, name);
    var top := "package/" + manager;
    assert key == p + "/" + version;
    assert key[|p|] == '/';
    assert Folder(key) == p;
    assert p == top + "/" + name;
    assert p[|top|] == '/' && p[..|top|] == top;
    var q := PackageKey(manager, other);
    assert q == top + "/" + other;
    assert q[|top|] == '/';
    assert Folder(q) == top;
  }


  // ---------------------------------------------------------------------
  // The record of a found package.
  // ---------------------------------------------------------------------

  /**
   * The tail every scanner with lookups shares: a missing version falls
   * back to the package's "latest_release_number", the package is cached
   * under `package/{manager}/{name}/{version}`, and the record takes the
   * latest publication date and the licenses of the package.
   */
  function RecordOf(s: Store, cfg: Config, underlying: string, source: string,
                    name: string, version: Option<string>, pkg: Value): (Result<Dep>, Store)
  {
    var number := if Given(version) then Ok(Str(version.value)) else Field(pkg, "latest_release_number");
    if number.Err? then (Err(number.error), s)
    else
      var cached := SetStore(s, cfg, VersionKey(underlying, name, Text(number.value, cfg.show)), pkg);
      var published := Field(pkg, "latest_stable_release_published_at");
      var license := Field(pkg, "licenses");
      if published.Err? then (Err(published.error), cached)
      else if license.Err? then (Err(license.error), cached)
      else (Ok(Dep(Some(name), number.value, published.value, license.value, source)), cached)
  }

  /** What a record holds, and which missing fields of the package make it fail. */
  lemma RecordMeans(s: Store, cfg: Config, underlying: string, source: string,
                    name: string, version: Option<string>, pkg: Value)
    requires pkg.Dict?
    ensures var r := RecordOf(s, cfg, underlying, source, name, version, pkg).0;
      r.Ok? <==>
        && (Given(version) || Has(pkg.fields, "latest_release_number"))
        && Has(pkg.fields, "latest_stable_release_published_at") && Has(pkg.fields, "licenses")
    ensures var r := RecordOf(s, cfg, underlying, source, name, version, pkg);
      r.0.Ok? ==>
        && r.0.value.named == Some(name) && r.0.value.source == source
        && (Given(version) ==> r.0.value.number == Str(version.value))
        && (!Given(version) ==> Get(pkg.fields, "latest_release_number") == Some(r.0.value.number))
        && Get(pkg.fields, "latest_stable_release_published_at") == Some(r.0.value.published)
        && Get(pkg.fields, "licenses") == Some(r.0.value.license)
        && r.1 == SetStore(s, cfg, VersionKey(underlying, name, Text(r.0.value.number, cfg.show)), pkg)
  {
  }

  /**
   * The point of caching the record: with the memory cache on, a later
   * lookup of the same name and version finds the package without
   * going to the network.
   */
  lemma RecordThenLookup(s: Store, cfg: Config, underlying: string, source: string,
                         name: string, version: Option<string>, pkg: Value, fetch: Fetch)
    requires !EqualsTrue(cfg.disableCache) && !Truthy(cfg.disableMemoryCache) && Truthy(pkg)
    requires name != ""
    requires RecordOf(s, cfg, underlying, source, name, version, pkg).0.Ok?
    requires Text(RecordOf(s, cfg, underlying, source, name, version, pkg).0.value.number, cfg.show) != ""
    ensures var r := RecordOf(s, cfg, underlying, source, name, version, pkg);
      var again := Some(Text(r.0.value.number, cfg.show));
      GetPackageOf(r.1, underlying, name, again, fetch).0 ==
        (if Endpoints.PackageOrderAsWritten(pkg).Ok? then Ok(Some(Endpoints.PackageOrderAsWritten(pkg).value))
         else Err(Endpoints.PackageOrderAsWritten(pkg).error))
    ensures pkg.Dict? && !Has(pkg.fields, "versions") ==>
      var r := RecordOf(s, cfg, underlying, source, name, version, pkg);
      GetPackageOf(r.1, underlying, name, Some(Text(r.0.value.number, cfg.show)), fetch).0 == Err(KeyError("versions"))
  {
    Endpoints.AsWrittenMissingVersions(pkg);
    var r := RecordOf(s, cfg, underlying, source, name, version, pkg);
    var key := VersionKey(underlying, name, Text(r.0.value.number, cfg.show));
    assert r.1 == SetStore(s, cfg, key, pkg);
    SetMemory(s, cfg, key, pkg);
    assert ProbeKey(underlying, name, Some(Text(r.0.value.number, cfg.show))) == key;
    GetMemoryFirst(r.1, key, false);
  }

  // ---------------------------------------------------------------------
  // The file-based manager object.
  // ---------------------------------------------------------------------

  /** A `PackagesFromFile` manager: what its parse found, and the shared cache it looks packages up in. */
  class FileManager {
    const profile: Profile
    /** `self.cache`, the module-wide `cache.cache`. */
    const cache: Cache
    var packageName: Option<string>
    var version: Option<string>
    /** `self.data.get("package")`: the repository record the last parse stored. */
    var parsed: Option<Repo>

    /** `PackagesFromFile(package_name)`; parsing the content is the scanner's own step. */
    constructor(profile: Profile, cache: Cache, packageName: Option<string>)
      ensures this.profile == profile && this.cache == cache && parsed == None
      ensures Given(packageName) ==>
        this.packageName == Some(ParseName(packageName.value, None).0) && version == ParseName(packageName.value, None).1
      ensures !Given(packageName) ==> this.packageName == packageName && version == None
    {
      this.profile := profile;
      this.cache := cache;
      this.packageName := packageName;
      this.version := None;
      this.parsed := None;
      new;
      if Given(packageName) {
        SetName(packageName.value);
      }
    }

    /** `set_name(name)`: the normalisation of `Package.parse`. */
    method SetName(name: string)
      modifies this
      ensures packageName == Some(ParseName(name, old(version)).0)
      ensures version == ParseName(name, old(version)).1
      ensures parsed == old(parsed)
    {
      var n := name;
      if Contains(n, "@") {
        var parts := Split1(n, "@");
        n := parts[0];
        version := Some(parts[1]);
      }
      if Contains(n, "[") && Contains(n, "]") {
        n := Before(n, "[");
      }
      ReplaceCharIsDrop(n, ';');
      n := Replace(n, ";", "");
      packageName := Some(n);
    }

    /** `underlying_manager` as it appears in cache names. */
    function Underlying(): string {
      profile.underlying.GetOr("None")
    }

    /** `get_repo()`, with `now` the current time. */
    function GetRepo(now: string): (r: Repo)
      reads this
      ensures r.name == packageName && r.published == now && r.dependencies == []
      ensures r.number == r.defaultVersion
      ensures Given(version) ==> r.number == version.value
      ensures !Given(version) ==> r.number == "latest"
    {
      Repo(packageName, now, VersionOr(version), VersionOr(version), [])
    }

    /** `package(name)`: the parsed record, whatever the name. */
    function Package(): Option<Repo>
      reads this
    {
      parsed
    }

    method GetPackage(name: string, version: Option<string>, fetch: Fetch) returns (r: Result<Option<Value>>)
      modifies cache
      ensures (r, cache.State()) == GetPackageOf(old(cache.State()), Underlying(), name, version, fetch)
    {
      var u := Underlying();
      var pkg: Option<Value> := None;
      if name != "" {
        var got := cache.Get(ProbeKey(u, name, version), false);
        if got.Found? && Truthy(got.data) {
          var ordered := Endpoints.PackageOrderAsWritten(got.data);
          if ordered.Err? {
            return Err(ordered.error);
          }
          pkg := Some(ordered.value);
        }
      }
      if pkg.None? {
        if cache.IsEmpty(PackageKey(u, name)) {
          return Ok(None);
        }
        var fetched := FetchPackage(fetch, u, name);
        if fetched.Err? {
          return fetched;
        }
        pkg := fetched.value;
      }
      if pkg.None? {
        var _ := cache.MarkEmpty(PackageKey(u, name));
      }
      return Ok(pkg);
    }

    /** The fallback, `cache.set` and record of a found package. */
    method Record(cfg: Config, source: string, name: string, version: Option<string>, pkg: Value) returns (r: Result<Dep>)
      modifies cache
      ensures (r, cache.State()) == RecordOf(old(cache.State()), cfg, Underlying(), source, name, version, pkg)
    {
      var number := if Given(version) then Ok(Str(version.value)) else Field(pkg, "latest_release_number");
      if number.Err? {
        return Err(number.error);
      }
      cache.Set(cfg, VersionKey(Underlying(), name, Text(number.value, cfg.show)), pkg);
      var published := Field(pkg, "latest_stable_release_published_at");
      if published.Err? {
        return Err(published.error);
      }
      var license := Field(pkg, "licenses");
      if license.Err? {
        return Err(license.error);
      }
      return Ok(Dep(Some(name), number.value, published.value, license.value, source));
    }
  }
}
