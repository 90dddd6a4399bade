/**
 * The package.json manager (citelang/main/packages/npm_packages.py): for
 * each entry of the decoded file's "dependencies", the version loses its
 * range marks, the name its first "@", and a name the lookup does not
 * find is tried again by its part before the first "/"; every package
 * found becomes an "NPM" record.
 *
 * `json.loads` is not part of this model: the decoded document is the
 * parameter `meta`, None when the content is not valid JSON.
 */
module Npm {
  import opened Wrappers
  import opened Json
  import opened PyStr
  import opened PackageCache
  import opened Packages
  import opened Managers

  /** The class attributes of `NPMPackageManager`. */
  const Manager := Profile("package.json", Some("npm"), Null, Str("https://www.npmjs.com/"), Str("#d54d25"), Str("JavaScript"))

  /** `underlying_manager`, which is also the manager of the cache names written here. */
  const Underlying := "npm"

  /**
   * `meta.get("dependencies", {}).items()`, where undecodable content is
   * `{}`; a document or a "dependencies" value that is not a dict has no
   * such method.
   */
  function Requirements(meta: Option<Value>): (r: Result<Fields>)
    ensures meta.None? ==> r == Ok([])
    ensures r.Ok? ==> meta.None? || (meta.value.Dict? && (r.value == [] || Get(meta.value.fields, "dependencies") == Some(Dict(r.value))))
  {
    var doc := meta.GetOr(Dict([]));
    if !doc.Dict? then Err(AttributeError("'" + TypeName(doc) + "' object has no attribute 'get'"))
    else
      var deps := Get(doc.fields, "dependencies").GetOr(Dict([]));
      if !deps.Dict? then Err(AttributeError("'" + TypeName(deps) + "' object has no attribute 'items'"))
      else Ok(deps.fields)
  }

  /** The characters `(\^|<|>|=)` matches. */
  predicate Mark(c: char) {
    c == '^' || c == '<' || c == '>' || c == '='
  }

  /** `re.sub("(\^|<|>|=)", "", version)` on a string. */
  function Unmarked(v: string): (r: string)
    ensures forall k :: 0 <= k < |r| ==> !Mark(r[k])
    ensures |r| <= |v|
  {
    if v == "" then "" else (if Mark(v[0]) then "" else [v[0]]) + Unmarked(v[1..])
  }

  /** Every other character of the version stays, in order: a version without marks is unchanged. */
  lemma {:induction false} UnmarkedKeeps(v: string)
    requires forall k :: 0 <= k < |v| ==> !Mark(v[k])
    ensures Unmarked(v) == v
  {
    if v != "" {
      UnmarkedKeeps(v[1..]);
      assert v == [v[0]] + v[1..];
    }
  }

  /** Removing the marks twice is removing them once. */
  lemma UnmarkedIdempotent(v: string)
    ensures Unmarked(Unmarked(v)) == Unmarked(v)
  {
    UnmarkedKeeps(Unmarked(v));
  }

  /** The version of an entry; `re.sub` on anything but a string is a TypeError. */
  function Version(raw: Value): (r: Result<string>)
    ensures r.Ok? <==> raw.Str?
    ensures r.Ok? ==> r.value == Unmarked(raw.s)
  {
    if raw.Str? then Ok(Unmarked(raw.s)) else Err(TypeError("expected string or bytes-like object"))
  }

  /** `name.replace("@", "", 1)` */
  function DropFirstAt(name: string): (r: string)
    ensures !Contains(name, "@") ==> r == name
    ensures Contains(name, "@") ==> Split1(name, "@")[0] + Split1(name, "@")[1] == r
  {
    match Find(name, "@")
    case None => name
    case Some(i) =>
      assert name == name[..i] + "@" + name[i + 1..];
      name[..i] + name[i + 1..]
  }

  /** The record of a package found under `name`. */
  function Found(s: Store, cfg: Config, name: string, version: string, pkg: Value): (Result<Option<Dep>>, Store) {
    var rec := RecordOf(s, cfg, Underlying, "NPM", name, Some(version), pkg);
    if rec.0.Err? then (Err(rec.0.error), rec.1) else (Ok(Some(rec.0.value)), rec.1)
  }

  /**
   * One turn of the loop. The lookup comes before the empty-name check;
   * a name not found is looked up again by its part before the first "/",
   * and is skipped when that fails too or leaves no name.
   */
  function Step(s: Store, cfg: Config, key: string, raw: Value, fetch: Fetch): (Result<Option<Dep>>, Store) {
    var v := Version(raw);
    if v.Err? then (Err(v.error), s)
    else
      var name := DropFirstAt(key);
      var got := GetPackageOf(s, Underlying, name, Some(v.value), fetch);
      if got.0.Err? then (Err(got.0.error), got.1)
      else if name == "" then (Ok(None), got.1)
      else if got.0.value.Some? then Found(got.1, cfg, name, v.value, got.0.value.value)
      else
        var short := Before(name, "/");
        var again := GetPackageOf(got.1, Underlying, short, Some(v.value), fetch);
        if again.0.Err? then (Err(again.0.error), again.1)
        else if again.0.value.None? || short == "" then (Ok(None), again.1)
        else Found(again.1, cfg, short, v.value, again.0.value.value)
  }

  /** The loop over the entries of "dependencies", continuing from the records so far. */
  function Deps(s: Store, cfg: Config, items: Fields, fetch: Fetch, deps: seq<Dep>): (Result<seq<Dep>>, Store)
    decreases |items|
  {
    if items == [] then (Ok(deps), s)
    else
      var step := Step(s, cfg, items[0].0, items[0].1, fetch);
      if step.0.Err? then (Err(step.0.error), step.1)
      else Deps(step.1, cfg, items[1..], fetch, if step.0.value.Some? then deps + [step.0.value.value] else deps)
  }

  /** `parse(content)` on the decoded document, starting from the record `get_repo()` returned. */
  function ParseOf(s: Store, cfg: Config, meta: Option<Value>, start: Repo, fetch: Fetch): (Result<Repo>, Store) {
    var items := Requirements(meta);
    if items.Err? then (Err(items.error), s)
    else
      var found := Deps(s, cfg, items.value, fetch, []);
      if found.0.Err? then (Err(found.0.error), found.1)
      else (Ok(start.(dependencies := found.0.value)), found.1)
  }

  // ---------------------------------------------------------------------
  // What the parse promises.
  // ---------------------------------------------------------------------

  /** Content that is not valid JSON yields the start record with no dependencies, and nothing is looked up. */
  lemma NotJson(s: Store, cfg: Config, start: Repo, fetch: Fetch)
    ensures ParseOf(s, cfg, None, start, fetch) == (Ok(start.(dependencies := [])), s)
  {
  }

  /** A document without "dependencies" yields no dependencies either. */
  lemma NoDependencies(s: Store, cfg: Config, fields: Fields, start: Repo, fetch: Fetch)
    requires !Has(fields, "dependencies")
    ensures ParseOf(s, cfg, Some(Dict(fields)), start, fetch) == (Ok(start.(dependencies := [])), s)
  {
  }

  /** A name found at once is recorded as it stands, once its first "@" is gone. */
  lemma StepDirect(s: Store, cfg: Config, key: string, raw: Value, fetch: Fetch)
    requires raw.Str? && DropFirstAt(key) != ""
    requires var got := GetPackageOf(s, Underlying, DropFirstAt(key), Some(Unmarked(raw.s)), fetch);
      got.0.Ok? && got.0.value.Some?
    ensures var got := GetPackageOf(s, Underlying, DropFirstAt(key), Some(Unmarked(raw.s)), fetch);
      Step(s, cfg, key, raw, fetch) == Found(got.1, cfg, DropFirstAt(key), Unmarked(raw.s), got.0.value.value)
  {
  }

  /** A name not found is looked up again by its part before the first "/", and skipped when that is not found either. */
  lemma StepRetry(s: Store, cfg: Config, key: string, raw: Value, fetch: Fetch)
    requires raw.Str? && DropFirstAt(key) != ""
    requires GetPackageOf(s, Underlying, DropFirstAt(key), Some(Unmarked(raw.s)), fetch).0 == Ok(None)
    ensures var name := DropFirstAt(key);
      var version := Unmarked(raw.s);
      var t := GetPackageOf(s, Underlying, name, Some(version), fetch).1;
      var again := GetPackageOf(t, Underlying, Before(name, "/"), Some(version), fetch);
      && (again.0 == Ok(None) ==> Step(s, cfg, key, raw, fetch) == (Ok(None), again.1))
      && (again.0.Ok? && again.0.value.Some? && Before(name, "/") != "" ==>
            Step(s, cfg, key, raw, fetch) == Found(again.1, cfg, Before(name, "/"), version, again.0.value.value))
  {
  }

  /**
   * A turn adds an "NPM" record named after the entry (its first "@"
   * dropped, or only the part before the first "/" when the full name was
   * not found) whose number is the version without its marks, or the
   * package's latest one.
   */
  lemma StepMeans(s: Store, cfg: Config, key: string, raw: Value, fetch: Fetch)
    ensures var r := Step(s, cfg, key, raw, fetch).0;
      r.Ok? && r.value.Some? ==>
        && raw.Str?
        && var name := DropFirstAt(key);
        && (r.value.value.named == Some(name) || r.value.value.named == Some(Before(name, "/")))
        && r.value.value.named != Some("")
        && r.value.value.source == "NPM"
        && (Unmarked(raw.s) != "" ==> r.value.value.number == Str(Unmarked(raw.s)))
    ensures !raw.Str? ==> Step(s, cfg, key, raw, fetch) == (Err(TypeError("expected string or bytes-like object")), s)
  {
    if raw.Str? {
      var name := DropFirstAt(key);
      var version := Unmarked(raw.s);
      var got := GetPackageOf(s, Underlying, name, Some(version), fetch);
      if got.0.Ok? && name != "" {
        if got.0.value.Some? {
          if got.0.value.value.Dict? {
            RecordMeans(got.1, cfg, Underlying, "NPM", name, Some(version), got.0.value.value);
          }
        } else {
          var short := Before(name, "/");
          var again := GetPackageOf(got.1, Underlying, short, Some(version), fetch);
          if again.0.Ok? && again.0.value.Some? && again.0.value.value.Dict? {
            RecordMeans(again.1, cfg, Underlying, "NPM", short, Some(version), again.0.value.value);
          }
        }
      }
    }
  }

  /** The loop adds at most one record per entry, each an "NPM" record with a non-empty name. */
  lemma {:induction false} DepsMeans(s: Store, cfg: Config, items: Fields, fetch: Fetch, deps: seq<Dep>)
    ensures var r := Deps(s, cfg, items, fetch, deps).0;
      r.Ok? ==>
        && |deps| <= |r.value| <= |deps| + |items|
        && forall d :: d in r.value ==> d in deps || (d.source == "NPM" && d.named.Some? && d.named.value != "")
    decreases |items|
  {
    if items != [] {
      var step := Step(s, cfg, items[0].0, items[0].1, fetch);
      StepMeans(s, cfg, items[0].0, items[0].1, fetch);
      if step.0.Ok? {
        DepsMeans(step.1, cfg, items[1..], fetch, if step.0.value.Some? then deps + [step.0.value.value] else deps);
      }
    }
  }

  // ---------------------------------------------------------------------
  // The manager.
  // ---------------------------------------------------------------------

  /** The loop of `parse` over the entries of "dependencies". */
  method Lookups(m: FileManager, cfg: Config, items: Fields, fetch: Fetch) returns (r: Result<seq<Dep>>)
    requires m.profile == Manager
    modifies m.cache
    ensures (r, m.cache.State()) == Deps(old(m.cache.State()), cfg, items, fetch, [])
  {
    var deps: seq<Dep> := [];
    for i := 0 to |items|
      invariant Deps(old(m.cache.State()), cfg, items, fetch, []) == Deps(m.cache.State(), cfg, items[i..], fetch, deps)
    {
      assert items[i..][0] == items[i] && items[i..][1..] == items[i + 1..];
      var (key, raw) := items[i];
      var version := Version(raw);
      if version.Err? {
        return Err(version.error);
      }
      var name := DropFirstAt(key);
      var pkg := m.GetPackage(name, Some(version.value), fetch);
      if pkg.Err? {
        return Err(pkg.error);
      }
      if name == "" {
        continue;
      }
      if pkg.value.None? {
        name := Before(name, "/");
        pkg := m.GetPackage(name, Some(version.value), fetch);
        if pkg.Err? {
          return Err(pkg.error);
        }
        if pkg.value.None? {
          continue;
        }
      }
      if name == "" {
        continue;
      }
      var record := m.Record(cfg, "NPM", name, Some(version.value), pkg.value.value);
      if record.Err? {
        return Err(record.error);
      }
      deps := deps + [record.value];
    }
    return Ok(deps);
  }

  /** `NPMPackageManager.parse(content)`: the repository record, also stored as the manager's package data. */
  method Parse(m: FileManager, cfg: Config, meta: Option<Value>, now: string, fetch: Fetch) returns (r: Result<Repo>)
    requires m.profile == Manager
    modifies m, m.cache
    ensures (r, m.cache.State()) == ParseOf(old(m.cache.State()), cfg, meta, old(m.GetRepo(now)), fetch)
    ensures m.parsed == (if r.Ok? then Some(r.value) else old(m.parsed))
    ensures m.packageName == old(m.packageName) && m.version == old(m.version)
  {
    var start := m.GetRepo(now);
    var items := Requirements(meta);
    if items.Err? {
      return Err(items.error);
    }
    var deps := Lookups(m, cfg, items.value, fetch);
    if deps.Err? {
      return Err(deps.error);
    }
    var repo := start.(dependencies := deps.value);
    m.parsed := Some(repo);
    return Ok(repo);
  }
}
