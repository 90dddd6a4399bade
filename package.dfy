/**
 * A package of a manager (citelang/main/package.py): the name a user
 * writes is normalised into a name and an optional version, and the
 * package's metadata and dependencies are cached under keys made of the
 * manager, the name and the version.
 *
 * The lookups themselves go through the client and the network; `info`
 * takes the data the client returned as a parameter.
 */
module Packages {
  import opened Wrappers
  import opened Json
  import opened PyStr

  /**
   * The normalisation of `Package.parse` and `PackagesFromFile.set_name`:
   * a name with "@" is cut at the first "@" and the rest becomes the
   * version; a name with both "[" and "]" keeps only what precedes the
   * first "["; every ";" is removed.
   */
  function ParseName(name: string, version: Option<string>): (string, Option<string>) {
    var parts := if Contains(name, "@") then Split1(name, "@") else [name];
    var base := parts[0];
    var v := if Contains(name, "@") then Some(parts[1]) else version;
    var bare := if Contains(base, "[") && Contains(base, "]") then Before(base, "[") else base;
    (DropChar(bare, ';'), v)
  }

  /** The part of a name before its first "@", which holds no "@". */
  lemma BeforeAt(name: string)
    requires Contains(name, "@")
    ensures '@' !in Split1(name, "@")[0]
  {
    var r := Split1(name, "@");
    if '@' in r[0] {
      ContainsChar(r[0], '@');
      var j := Find(r[0], "@").value;
      assert r[0] == (r[0] + "@" + r[1])[..|r[0]|];
      OccursInPrefix(name, "@", |r[0]|, j);
    }
  }

  /** The normalised name holds no "@" and no ";", and when what precedes the "@" has both brackets, no "[" either. */
  lemma ParseNameClean(name: string, version: Option<string>)
    ensures var n := ParseName(name, version).0;
      && '@' !in n && ';' !in n
      && (var base := if Contains(name, "@") then Split1(name, "@")[0] else name;
          Contains(base, "[") && Contains(base, "]") ==> '[' !in n)
      && !('[' in n && ']' in n)
  {
    var base := if Contains(name, "@") then Split1(name, "@")[0] else name;
    if Contains(name, "@") {
      BeforeAt(name);
    } else {
      ContainsChar(name, '@');
    }
    var both := Contains(base, "[") && Contains(base, "]");
    var bare := if both then Before(base, "[") else base;
    var n := DropChar(bare, ';');
    assert n == ParseName(name, version).0;
    if both {
      ContainsChar(bare, '[');
    } else {
      ContainsChar(base, '[');
      ContainsChar(base, ']');
    }
    forall x | x in n ensures x in bare && x != ';' {
      DropCharKeeps(bare, ';', x);
    }
    forall x | x in bare ensures x in base {
      var k :| 0 <= k < |bare| && bare[k] == x;
      assert StartsWith(base, bare);
      assert base[k] == x;
    }
  }

  /** The version comes from the text after the first "@" when there is one, and is otherwise the one given. */
  lemma ParseNameVersion(name: string, version: Option<string>)
    ensures Contains(name, "@") ==>
      && ParseName(name, version).1 == Some(Split1(name, "@")[1])
      && name == Split1(name, "@")[0] + "@" + Split1(name, "@")[1]
    ensures !Contains(name, "@") ==> ParseName(name, version).1 == version
  {
  }

  /** Normalising a normalised name changes nothing and keeps the version it is given. */
  lemma ParseNameIdempotent(name: string, version: Option<string>, other: Option<string>)
    ensures var n := ParseName(name, version).0; ParseName(n, other) == (n, other)
  {
    var n := ParseName(name, version).0;
    ParseNameClean(name, version);
    ContainsChar(n, '@');
    ContainsChar(n, '[');
    ContainsChar(n, ']');
    DropCharNone(n, ';');
  }

  /** `f"package/{manager}/{name}"` */
  function PackageKey(manager: string, name: string): string {
    "package/" + manager + "/" + name
  }

  /** `f"package/{manager}/{name}/{version}"` */
  function VersionKey(manager: string, name: string, version: string): string {
    PackageKey(manager, name) + "/" + version
  }

  /** `f"dependencies/{manager}/{name}/{version}"` */
  function DependenciesKey(manager: string, name: string, version: string): string {
    "dependencies/" + manager + "/" + name + "/" + version
  }

  /** Two packages of one manager share a cache key only when they share a name. */
  lemma PackageKeyInjective(manager: string, a: string, b: string)
    requires PackageKey(manager, a) == PackageKey(manager, b)
    ensures a == b
  {
    var p := "package/" + manager + "/";
    assert PackageKey(manager, a) == p + a && PackageKey(manager, b) == p + b;
    assert a == (p + a)[|p|..] && b == (p + b)[|p|..];
  }

  /** The metadata key and the dependency key of the same package are never the same text. */
  lemma KeysDiffer(manager: string, name: string, version: string, other: string)
    ensures PackageKey(manager, name) != DependenciesKey(manager, other, version)
    ensures VersionKey(manager, name, version) != DependenciesKey(manager, other, version)
  {
    assert PackageKey(manager, name)[0] == 'p';
    assert VersionKey(manager, name, version)[0] == 'p';
    assert DependenciesKey(manager, other, version)[0] == 'd';
  }

  /** The version that `info` finds: the "number" of the last entry of a non-empty "versions" of the data. */
  function LatestOf(data: Value): (r: Result<Option<Value>>)
    ensures r.Ok? && r.value.Some? ==>
      data.Dict? && Has(data.fields, "versions") && Get(data.fields, "versions").value.List?
  {
    match data
    case Dict(fs) =>
      if !Has(fs, "versions") || !Truthy(Get(fs, "versions").value) then Ok(None)
      else LastNumber(Get(fs, "versions").value)
    case List(xs) => if Str("versions") in xs then Err(TypeError("list indices must be integers")) else Ok(None)
    case Str(s) => if Contains(s, "versions") then Err(TypeError("string indices must be integers")) else Ok(None)
    case _ => Err(TypeError("argument is not iterable"))
  }

  /** `versions[-1]["number"]` of a truthy `versions`. */
  function LastNumber(versions: Value): (r: Result<Option<Value>>)
    ensures r.Ok? ==>
      && r.value.Some? && versions.List? && versions.items != []
      && versions.items[|versions.items| - 1].Dict?
      && Get(versions.items[|versions.items| - 1].fields, "number") == r.value
  {
    if versions.List? && versions.items != [] then
      var last := versions.items[|versions.items| - 1];
      if !last.Dict? then Err(TypeError("indices must be integers"))
      else if !Has(last.fields, "number") then Err(KeyError("number"))
      else Ok(Get(last.fields, "number"))
    else if versions.Dict? then Err(KeyError("-1"))
    else Err(TypeError("object is not subscriptable"))
  }

  /** `info` changes `latest` only when the data has a non-empty list of versions, and then to the number of the last one. */
  lemma LatestRule(data: Value)
    ensures data.Dict? && (!Has(data.fields, "versions") || !Truthy(Get(data.fields, "versions").value)) ==> LatestOf(data) == Ok(None)
    ensures data.Dict? && Has(data.fields, "versions") && Get(data.fields, "versions").value.List? && Truthy(Get(data.fields, "versions").value) ==>
      var vs := Get(data.fields, "versions").value.items;
      (LatestOf(data).Ok? <==> vs[|vs| - 1].Dict? && Has(vs[|vs| - 1].fields, "number"))
      && (LatestOf(data).Ok? ==> LatestOf(data).value == Get(vs[|vs| - 1].fields, "number"))
  {
  }

  /** A `Package`: its manager, its normalised name and version, its data and the latest version `info` found. */
  class Package {
    const manager: string
    var name: string
    var version: Option<string>
    var data: Value
    var latest: Option<Value>

    /** `Package(manager, name, version, data=data)`: `parse` decides the name and may override the version. */
    constructor(manager: string, name: string, version: Option<string>, data: Value)
      ensures this.manager == manager
      ensures (this.name, this.version) == ParseName(name, version)
      ensures this.data == (if Truthy(data) then data else Dict([])) && latest == None
    {
      this.manager := manager;
      this.version := version;
      this.name := "";
      this.data := if Truthy(data) then data else Dict([]);
      this.latest := None;
      new;
      Parse(name);
    }

    /** `parse(name)` */
    method Parse(name: string)
      modifies this
      ensures (this.name, version) == ParseName(name, old(version))
      ensures data == old(data) && latest == old(latest)
    {
      var n := name;
      if Contains(n, "@") {
        var parts := Split1(n, "@");
        n := parts[0];
        version := Some(parts[1]);
      }
      if Contains(n, "[") && Contains(n, "]") {
        n := Before(n, "[");
      }
      n := Replace(n, ";", "");
      ReplaceCharIsDrop(if Contains(name, "@") then Split1(name, "@")[0] else name, ';');
      ReplaceCharIsDrop(Before(if Contains(name, "@") then Split1(name, "@")[0] else name, "["), ';');
      this.name := n;
    }

    /** `cache_name` */
    function CacheName(): string
      reads this
    {
      PackageKey(manager, name)
    }

    /** `info()` on the data the client returned for this package. */
    method Info(info: Value) returns (r: Result<Value>)
      modifies this
      ensures LatestOf(info).Err? ==> r == Err(LatestOf(info).error) && latest == old(latest)
      ensures LatestOf(info).Ok? ==>
        && r == Ok(info)
        && latest == (if LatestOf(info).value.Some? then LatestOf(info).value else old(latest))
      ensures name == old(name) && version == old(version) && data == old(data)
    {
      var found := LatestOf(info);
      if found.Err? {
        return Err(found.error);
      }
      if found.value.Some? {
        latest := found.value;
      }
      return Ok(info);
    }

    /**
     * The cache name `dependencies()` asks the client for, given the data
     * `info()` would return: a package without a version first takes the
     * latest one.
     */
    method Dependencies(info: Value, show: Value -> string) returns (r: Result<string>)
      modifies this
      ensures old(version).Some? && old(version).value != "" ==>
        r == Ok(DependenciesKey(manager, name, old(version).value)) && version == old(version) && latest == old(latest)
      ensures (old(version).None? || old(version) == Some("")) && LatestOf(info).Err? ==>
        r == Err(LatestOf(info).error)
      ensures (old(version).None? || old(version) == Some("")) && LatestOf(info).Ok? ==>
        && version == VersionText(latest, show)
        && r == Ok(DependenciesKey(manager, name, if version.Some? then version.value else "None"))
      ensures name == old(name) && data == old(data)
    {
      if version.None? || version == Some("") {
        var got := Info(info);
        if got.Err? {
          return Err(got.error);
        }
        version := VersionText(latest, show);
      }
      r := Ok(DependenciesKey(manager, name, if version.Some? then version.value else "None"));
    }
  }

  /**
   * `self.version = self.latest` as the cache name spells it: the latest
   * number through `str()`; None, or no latest number at all, leaves no
   * version and the name ends in "None".
   */
  function VersionText(latest: Option<Value>, show: Value -> string): (r: Option<string>)
    ensures r.None? <==> latest.None? || latest.value.Null?
    ensures r.Some? && latest.value.Str? ==> r.value == latest.value.s
    ensures r.Some? && latest.value.Int? ==> PyStr.ParseInt(r.value) == Ok(latest.value.i)
  {
    if latest.None? || latest.value.Null? then None
    else
      TextInt(if latest.value.Int? then latest.value.i else 0, show);
      Some(Text(latest.value, show))
  }
}
