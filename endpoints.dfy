/**
 * The libraries.io endpoints (citelang/main/endpoints.py): each endpoint
 * class has a name, a path template, the parameters its URL requires, the
 * fields a table must not truncate and the fields it skips, an `order`
 * hook applied to fresh data and a `table_data` hook that picks the rows
 * to show.  An endpoint object holds its formatted path and its params.
 */
module Endpoints {
  import opened Wrappers
  import opened Json
  import opened PyStr
  import opened Sorting

  /** The three registered endpoint classes. */
  datatype Kind = PackageManagers | Dependencies | Package

  /** A class attribute that may be missing, set to None, or a list of names. */
  datatype Attr = Absent | NoneAttr | Listing(names: seq<string>)

  /** `defaults.apiroot` */
  const ApiRoot := "https://libraries.io"

  function Name(k: Kind): string {
    match k
    case PackageManagers => "package_managers"
    case Dependencies => "dependencies"
    case Package => "package"
  }

  /** A `{name}` replacement field. */
  function Field(name: string): string {
    "{" + name + "}"
  }

  /** The `path` attribute: "/api/platforms", "/api/{manager}/{package_name}/{version}/dependencies", "/api/{manager}/{package_name}". */
  function PathTemplate(k: Kind): string {
    match k
    case PackageManagers => "/api/platforms"
    case Dependencies =>
      "/api/" + (Field("manager") + ("/" + (Field("package_name") + ("/" + (Field("version") + "/dependencies")))))
    case Package => "/api/" + (Field("manager") + ("/" + Field("package_name")))
  }

  /** `getattr(self, "format_url", [])`: the parameters the path needs. */
  function FormatUrl(k: Kind): seq<string> {
    match k
    case PackageManagers => []
    case Dependencies => ["manager", "package_name", "version"]
    case Package => ["manager", "package_name"]
  }

  /** The `dont_truncate` attribute; the base class sets ["url"]. */
  function DontTruncate(k: Kind): Attr {
    match k
    case Dependencies => Listing(["project_name"])
    case _ => Listing(["url"])
  }

  /** The `skips` attribute; the base class has none. */
  function Skips(k: Kind): Attr {
    match k
    case PackageManagers => Listing(["color"])
    case Dependencies => Listing(["normalized_licenses"])
    case Package => Listing(["repository_sources", "spdx_expression", "researched_at", "original_license"])
  }

  /** `_get_attribute_or_list`: the attribute's list, or [] when it is missing or None. */
  function AttributeOrList(a: Attr): (r: seq<string>)
    ensures a.Listing? ==> r == a.names
    ensures !a.Listing? ==> r == []
  {
    match a
    case Listing(names) => names
    case _ => []
  }

  function TruncateList(k: Kind): seq<string> {
    AttributeOrList(DontTruncate(k))
  }

  function SkipList(k: Kind): seq<string> {
    AttributeOrList(Skips(k))
  }

  /** Every endpoint has a non-empty truncate list, and only `dependencies` protects `project_name` instead of `url`. */
  lemma TruncateLists(k: Kind)
    ensures TruncateList(k) == if k == Dependencies then ["project_name"] else ["url"]
    ensures |SkipList(k)| == if k == Package then 4 else 1
  {
  }

  // ---------------------------------------------------------------------
  // The registry.
  // ---------------------------------------------------------------------

  /** The classes in the order they are registered. */
  const Registered: seq<Kind> := [PackageManagers, Package, Dependencies]

  function Id(s: string): string { s }

  /** `registry_names`: the registered names, sorted. */
  function RegistryNames(): (r: seq<string>)
    ensures multiset(r) == multiset{Name(PackageManagers), Name(Package), Name(Dependencies)}
  {
    SortBy([Name(PackageManagers), Name(Package), Name(Dependencies)], Id, StrLt)
  }

  /** `registry_names.sort()`: the registered names end up in string order. */
  lemma RegistryNamesSorted()
    ensures Sorted(RegistryNames(), Id, StrLt)
  {
    StrLtStrictTotal();
    SortBySorted([Name(PackageManagers), Name(Package), Name(Dependencies)], Id, StrLt);
  }

  /** `registry[name]`: the class registered under a name. */
  function Lookup(name: string): (r: Option<Kind>)
    ensures r.Some? <==> name in RegistryNames()
    ensures r.Some? ==> Name(r.value) == name
  {
    var names := [Name(PackageManagers), Name(Package), Name(Dependencies)];
    assert name in RegistryNames() <==> name in multiset(names);
    assert name in names <==> name in multiset(names);
    if name == Name(PackageManagers) then Some(PackageManagers)
    else if name == Name(Dependencies) then Some(Dependencies)
    else if name == Name(Package) then Some(Package)
    else None
  }

  /** The managers that `get_endpoint` renames: "requirements.txt" is looked up as "pypi". */
  function RewriteManager(kwargs: Fields): (r: Fields)
    ensures Get(kwargs, "manager") == Some(Str("requirements.txt")) ==> Get(r, "manager") == Some(Str("pypi"))
    ensures Get(kwargs, "manager") != Some(Str("requirements.txt")) ==> r == kwargs
    ensures forall k :: k != "manager" ==> Get(r, k) == Get(kwargs, k)
  {
    if Get(kwargs, "manager") == Some(Str("requirements.txt")) then Put(kwargs, "manager", Str("pypi"))
    else kwargs
  }

  // ---------------------------------------------------------------------
  // `str.format(**params)` on the path templates.
  // ---------------------------------------------------------------------

  /**
   * `template.format(**params)`: each `{name}` is replaced by `str()` of
   * the parameter of that name (`Text`; `show` renders floats and
   * containers); a name not in
   * params raises KeyError, an unmatched brace raises ValueError.
   */
  function Format(t: string, ps: Fields, show: Value -> string): (r: Result<string>)
    decreases |t|
  {
    if t == "" then Ok("")
    else if t[0] == '}' then Err(ValueError("Single '}' encountered in format string"))
    else if t[0] != '{' then
      match Format(t[1..], ps, show)
      case Ok(rest) => Ok([t[0]] + rest)
      case Err(e) => Err(e)
    else
      match Find(t, "}")
      case None => Err(ValueError("expected '}' before end of string"))
      case Some(j) =>
        var name := t[1..j];
        match Get(ps, name)
        case None => Err(KeyError(name))
        case Some(v) =>
          match Format(t[j + 1..], ps, show)
          case Ok(rest) => Ok(Text(v, show) + rest)
          case Err(e) => Err(e)
  }

  predicate NoBraces(s: string) {
    forall k :: 0 <= k < |s| ==> s[k] != '{' && s[k] != '}'
  }

  /** The literal parts of the path templates hold no braces. */
  lemma TemplatePartsNoBraces()
    ensures NoBraces("/api/") && NoBraces("/") && NoBraces("/dependencies") && NoBraces("/api/platforms")
    ensures NoBraces("manager") && NoBraces("package_name") && NoBraces("version")
  {
  }

  /** A first character that is no brace is copied. */
  lemma FormatCopy(t: string, ps: Fields, show: Value -> string)
    requires t != "" && t[0] != '{' && t[0] != '}'
    ensures Format(t, ps, show) == match Format(t[1..], ps, show)
      case Ok(s) => Ok([t[0]] + s)
      case Err(e) => Err(e)
  {
  }

  /** Text without braces is copied unchanged. */
  lemma {:induction false} FormatLiteral(a: string, rest: string, ps: Fields, show: Value -> string)
    requires NoBraces(a)
    ensures Format(a + rest, ps, show) == match Format(rest, ps, show)
      case Ok(s) => Ok(a + s)
      case Err(e) => Err(e)
  {
    var t := a + rest;
    if a != "" {
      assert t[0] == a[0] && t[1..] == a[1..] + rest;
      FormatCopy(t, ps, show);
      FormatLiteral(a[1..], rest, ps, show);
      match Format(rest, ps, show)
      case Ok(s) => assert [a[0]] + (a[1..] + s) == a + s;
      case Err(_) =>
    } else {
      assert t == rest;
      match Format(rest, ps, show)
      case Ok(s) => assert a + s == s;
      case Err(_) =>
    }
  }

  /** A `{name}` field is replaced by its parameter, or raises KeyError when there is none. */
  lemma FormatField(name: string, rest: string, ps: Fields, show: Value -> string)
    requires NoBraces(name)
    ensures Format(Field(name) + rest, ps, show) == match Get(ps, name)
      case None => Err(KeyError(name))
      case Some(v) => match Format(rest, ps, show)
        case Ok(s) => Ok(Text(v, show) + s)
        case Err(e) => Err(e)
  {
    var t := Field(name) + rest;
    assert OccursAt(t, "}", |name| + 1);
    forall j: nat | j < |name| + 1 ensures !OccursAt(t, "}", j) {
      assert t[j..j + 1][0] == t[j];
      if j > 0 { assert t[j] == name[j - 1]; }
    }
    assert Find(t, "}") == Some(|name| + 1);
    assert t[1..|name| + 1] == name;
    assert t[|name| + 2..] == rest;
  }

  /** The path `/api/<manager>/<package_name>/<version>/dependencies`. */
  function DependenciesPath(manager: string, name: string, version: string): string {
    "/api/" + (manager + ("/" + (name + ("/" + (version + "/dependencies")))))
  }

  /** The path `/api/<manager>/<package_name>`. */
  function PackagePath(manager: string, name: string): string {
    "/api/" + (manager + ("/" + name))
  }

  /** The path of `dependencies` once formatted, or the first parameter it misses. */
  lemma FormatDependencies(ps: Fields, show: Value -> string)
    ensures Has(ps, "manager") && Has(ps, "package_name") && Has(ps, "version") ==>
      Format(PathTemplate(Dependencies), ps, show) == Ok(DependenciesPath(Text(Get(ps, "manager").value, show),
        Text(Get(ps, "package_name").value, show), Text(Get(ps, "version").value, show)))
    ensures !Has(ps, "manager") ==> Format(PathTemplate(Dependencies), ps, show) == Err(KeyError("manager"))
  {
    TemplatePartsNoBraces();
    var tail := "/dependencies";
    FormatPlain(tail, ps, show);
    FormatField("version", tail, ps, show);
    var r3 := Field("version") + tail;
    FormatLiteral("/", r3, ps, show);
    var r2 := Field("package_name") + ("/" + r3);
    FormatField("package_name", "/" + r3, ps, show);
    FormatLiteral("/", r2, ps, show);
    FormatField("manager", "/" + r2, ps, show);
    FormatLiteral("/api/", Field("manager") + ("/" + r2), ps, show);
  }

  /** With string parameters, the package path is the two names themselves, between the slashes. */
  lemma FormatPackageStrings(manager: string, name: string, ps: Fields, show: Value -> string)
    requires Get(ps, "manager") == Some(Str(manager)) && Get(ps, "package_name") == Some(Str(name))
    ensures Format(PathTemplate(Package), ps, show) == Ok(PackagePath(manager, name))
  {
    FormatPackage(ps, show);
  }

  /** The path of `package` once formatted, or the first parameter it misses. */
  lemma FormatPackage(ps: Fields, show: Value -> string)
    ensures Has(ps, "manager") && Has(ps, "package_name") ==>
      Format(PathTemplate(Package), ps, show) ==
      Ok(PackagePath(Text(Get(ps, "manager").value, show), Text(Get(ps, "package_name").value, show)))
    ensures !Has(ps, "manager") ==> Format(PathTemplate(Package), ps, show) == Err(KeyError("manager"))
  {
    TemplatePartsNoBraces();
    assert Format("", ps, show) == Ok("");
    FormatField("package_name", "", ps, show);
    assert Field("package_name") + "" == Field("package_name");
    if Has(ps, "package_name") {
      assert Text(Get(ps, "package_name").value, show) + "" == Text(Get(ps, "package_name").value, show);
    }
    FormatLiteral("/", Field("package_name"), ps, show);
    FormatField("manager", "/" + Field("package_name"), ps, show);
    FormatLiteral("/api/", Field("manager") + ("/" + Field("package_name")), ps, show);
  }

  /** A path without braces, such as `package_managers`'s, formats to itself. */
  lemma FormatPlain(t: string, ps: Fields, show: Value -> string)
    requires NoBraces(t)
    ensures Format(t, ps, show) == Ok(t)
  {
    FormatLiteral(t, "", ps, show);
    assert t + "" == t;
    assert Format("", ps, show) == Ok("");
  }

  // ---------------------------------------------------------------------
  // Required parameters and the endpoint object.
  // ---------------------------------------------------------------------

  /** The params `require_params` collects: each required name with its kwargs value, in order. */
  function Pick(kwargs: Fields, names: seq<string>): (r: Fields)
    requires forall i :: 0 <= i < |names| ==> Has(kwargs, names[i])
  {
    if names == [] then []
    else Put(Pick(kwargs, names[..|names| - 1]), names[|names| - 1], Get(kwargs, names[|names| - 1]).value)
  }

  /** The picked params hold exactly the required names, each with its kwargs value. */
  lemma {:induction false} PickHolds(kwargs: Fields, names: seq<string>, k: string)
    requires forall i :: 0 <= i < |names| ==> Has(kwargs, names[i])
    ensures k in names ==> Get(Pick(kwargs, names), k) == Get(kwargs, k)
    ensures k !in names ==> Get(Pick(kwargs, names), k) == None
  {
    if names != [] {
      var front, last := names[..|names| - 1], names[|names| - 1];
      assert forall i :: 0 <= i < |front| ==> front[i] == names[i];
      PickHolds(kwargs, front, k);
      var p := Pick(kwargs, front);
      assert Pick(kwargs, names) == Put(p, last, Get(kwargs, last).value);
      if k in front {
        var i :| 0 <= i < |front| && front[i] == k;
        assert names[i] == k;
      }
      if k in names && k != last {
        var i :| 0 <= i < |names| && names[i] == k;
        assert |front| == |names| - 1 && i != |names| - 1;
        assert front[i] == k;
      }
      if k == last {
        assert Get(Pick(kwargs, names), k) == Get(kwargs, k);
      } else {
        assert Get(Pick(kwargs, names), k) == Get(p, k);
      }
    }
  }

  /** The first required name kwargs lacks. */
  function Missing(kwargs: Fields, names: seq<string>): (r: Option<string>)
    ensures r.None? <==> forall i :: 0 <= i < |names| ==> Has(kwargs, names[i])
    ensures r.Some? ==> r.value in names && !Has(kwargs, r.value)
  {
    if names == [] then None
    else if !Has(kwargs, names[0]) then Some(names[0])
    else Missing(kwargs, names[1..])
  }

  lemma MissingHere(kwargs: Fields, names: seq<string>, i: nat)
    requires i < |names| && !Has(kwargs, names[i])
    ensures Missing(kwargs, names[i..]) == Some(names[i])
  {
  }

  lemma MissingPast(kwargs: Fields, names: seq<string>, i: nat)
    requires i < |names| && Has(kwargs, names[i])
    ensures Missing(kwargs, names[i..]) == Missing(kwargs, names[i + 1..])
  {
    assert names[i..][1..] == names[i + 1..];
  }

  lemma PickStep(kwargs: Fields, names: seq<string>, i: nat)
    requires i < |names| && forall j :: 0 <= j <= i ==> Has(kwargs, names[j])
    ensures Pick(kwargs, names[..i + 1]) == Put(Pick(kwargs, names[..i]), names[i], Get(kwargs, names[i]).value)
  {
    assert names[..i + 1][..i] == names[..i];
  }

  /** The loop of `require_params`: exit on the first missing name, else collect the required ones. */
  method CollectRequired(kwargs: Fields, required: seq<string>) returns (r: Result<Fields>)
    ensures Missing(kwargs, required).Some? ==> r == Err(Exit("parameter " + Missing(kwargs, required).value + " is required for this endpoint."))
    ensures Missing(kwargs, required).None? ==> r == Ok(Pick(kwargs, required))
  {
    var ps: Fields := [];
    for i := 0 to |required|
      invariant forall j :: 0 <= j < i ==> Has(kwargs, required[j])
      invariant Missing(kwargs, required) == Missing(kwargs, required[i..])
      invariant ps == Pick(kwargs, required[..i])
    {
      if !Has(kwargs, required[i]) {
        MissingHere(kwargs, required, i);
        return Err(Exit("parameter " + required[i] + " is required for this endpoint."));
      }
      MissingPast(kwargs, required, i);
      PickStep(kwargs, required, i);
      ps := Put(ps, required[i], Get(kwargs, required[i]).value);
    }
    assert required[..|required|] == required;
    assert required[|required|..] == [];
    return Ok(ps);
  }

  class Endpoint {
    const kind: Kind
    /** `self.path`, the template until params format it. */
    var path: string
    /** `self.params` */
    var params: Fields

    /** The class attributes; `__init__`'s parameter handling is `Init`. */
    constructor(kind: Kind)
      ensures this.kind == kind && path == PathTemplate(kind) && params == []
    {
      this.kind := kind;
      path := PathTemplate(kind);
      params := [];
    }

    /** `url`: the API root followed by the path. */
    function Url(): (r: string)
      reads this
      ensures StartsWith(r, ApiRoot) && r[|ApiRoot|..] == path
    {
      ApiRoot + path
    }

    /** `title`: the name with "_" as " ", capitalized; for `package`, "Package " and the package name. */
    function Title(): (r: Result<string>)
      reads this
      ensures kind != Package ==> r == Ok(Capitalize(ReplaceChar(Name(kind), '_', ' ')))
      ensures kind == Package && !Has(params, "package_name") ==> r == Ok("Package ")
      ensures kind == Package && Get(params, "package_name").Some? && Get(params, "package_name").value.Str? ==>
        r == Ok("Package " + Get(params, "package_name").value.s)
      ensures r.Err? <==> kind == Package && Get(params, "package_name").Some? && !Get(params, "package_name").value.Str?
    {
      if kind != Package then Ok(Capitalize(ReplaceChar(Name(kind), '_', ' ')))
      else
        match Get(params, "package_name")
        case None => Ok("Package ")
        case Some(Str(s)) => Ok("Package " + s)
        case Some(_) => Err(TypeError("can only concatenate str to str"))
    }

    /** `format_params(**ps)`: format the path when there are params, then keep them. */
    method FormatParams(ps: Fields, show: Value -> string) returns (r: Result<()>)
      modifies this
      ensures r.Err? <==> ps != [] && Format(old(path), ps, show).Err?
      ensures r.Ok? ==> params == ps
      ensures r.Ok? ==> path == if ps == [] then old(path) else Format(old(path), ps, show).value
    {
      if ps != [] {
        var f := Format(path, ps, show);
        if f.Err? {
          return Err(f.error);
        }
        path := f.value;
      }
      params := ps;
      return Ok(());
    }

    /** `require_params(**kwargs)`: exit on the first missing name, else keep just the required ones. */
    method RequireParams(kwargs: Fields, show: Value -> string) returns (r: Result<()>)
      modifies this
      ensures Missing(kwargs, FormatUrl(kind)).Some? ==> r == Err(Exit("parameter " + Missing(kwargs, FormatUrl(kind)).value + " is required for this endpoint."))
      ensures r.Ok? ==> Missing(kwargs, FormatUrl(kind)).None? && params == Pick(kwargs, FormatUrl(kind))
      ensures r.Ok? && params == [] ==> path == old(path)
      ensures r.Ok? && params != [] ==> Format(old(path), params, show) == Ok(path)
      ensures Missing(kwargs, FormatUrl(kind)).None? ==>
        (r.Err? <==> Pick(kwargs, FormatUrl(kind)) != [] && Format(old(path), Pick(kwargs, FormatUrl(kind)), show).Err?)
    {
      var picked := CollectRequired(kwargs, FormatUrl(kind));
      if picked.Err? {
        return Err(picked.error);
      }
      var ps := picked.value;
      if ps != [] {
        r := FormatParams(ps, show);
        if r.Err? {
          return;
        }
      }
      params := ps;
      return Ok(());
    }
  }

  /**
   * `Endpoint.__init__`: with require_params, the required names must be
   * in kwargs; otherwise every keyword argument formats the path.
   */
  method NewEndpoint(kind: Kind, requireParams: bool, kwargs: Fields, show: Value -> string) returns (r: Result<Endpoint>)
    ensures r.Ok? ==> fresh(r.value) && r.value.kind == kind
    ensures r.Ok? && !requireParams ==> r.value.params == kwargs
    ensures r.Ok? && requireParams ==> Missing(kwargs, FormatUrl(kind)).None? && r.value.params == Pick(kwargs, FormatUrl(kind))
    ensures r.Ok? && r.value.params == [] ==> r.value.path == PathTemplate(kind)
    ensures r.Ok? && r.value.params != [] ==> Format(PathTemplate(kind), r.value.params, show) == Ok(r.value.path)
    ensures !requireParams ==> (r.Err? <==> kwargs != [] && Format(PathTemplate(kind), kwargs, show).Err?)
    ensures requireParams ==> (r.Err? <==> (Missing(kwargs, FormatUrl(kind)).Some? ||
      (Pick(kwargs, FormatUrl(kind)) != [] && Format(PathTemplate(kind), Pick(kwargs, FormatUrl(kind)), show).Err?)))
  {
    var e := new Endpoint(kind);
    var done: Result<()>;
    if requireParams {
      done := e.RequireParams(kwargs, show);
    } else {
      done := e.FormatParams(kwargs, show);
    }
    if done.Err? {
      return Err(done.error);
    }
    return Ok(e);
  }

  // ---------------------------------------------------------------------
  // `order`: only `package` reorders, by the date its versions were published.
  // ---------------------------------------------------------------------

  predicate AllDigits(s: string) {
    forall k :: 0 <= k < |s| ==> IsDigit(s[k])
  }

  /** `%m`: 1 to 12, with or without a leading zero. */
  function MonthField(s: string): (r: Option<nat>)
    ensures r.Some? ==> 1 <= r.value <= 12
  {
    if 1 <= |s| <= 2 && AllDigits(s) && (|s| == 1 ==> s[0] != '0') && 1 <= DigitsValue(s) <= 12
    then Some(DigitsValue(s)) else None
  }

  /** `%d`: 1 to 31, with a leading zero, a leading space or neither. */
  function DayField(s: string): (r: Option<nat>)
    ensures r.Some? ==> 1 <= r.value <= 31
  {
    if |s| == 2 && s[0] == ' ' && '1' <= s[1] <= '9' then Some(s[1] as int - '0' as int)
    else if 1 <= |s| <= 2 && AllDigits(s) && (|s| == 1 ==> s[0] != '0') && 1 <= DigitsValue(s) <= 31
    then Some(DigitsValue(s)) else None
  }

  predicate Leap(y: int) {
    y % 4 == 0 && (y % 100 != 0 || y % 400 == 0)
  }

  function DaysIn(y: int, m: nat): nat
    requires 1 <= m <= 12
  {
    if m == 2 then (if Leap(y) then 29 else 28)
    else if m == 4 || m == 6 || m == 9 || m == 11 then 30
    else 31
  }

  /**
   * `datetime.strptime(s, "%Y-%m-%d")` as a number that orders like the
   * date: four digits, a month and a day separated by "-", nothing else,
   * and a day that exists in that month (year 1 at the earliest).
   */
  function ParseDate(s: string): (r: Option<int>)
    ensures r.Some? ==> 10101 <= r.value
  {
    var parts := Split(s, "-");
    if |parts| != 3 || |parts[0]| != 4 || !AllDigits(parts[0]) then None
    else
      var y := DigitsValue(parts[0]);
      match (MonthField(parts[1]), DayField(parts[2]))
      case (Some(m), Some(d)) => if 1 <= y && d <= DaysIn(y, m) then Some(y * 10000 + m * 100 + d) else None
      case _ => None
  }

  /** The date key of one version: `x["published_at"].split("T", 1)[0]` parsed as a date. */
  function DateKey(x: Value): Option<int> {
    if !x.Dict? then None
    else
      match Get(x.fields, "published_at")
      case Some(Str(s)) => ParseDate(Before(s, "T"))
      case _ => None
  }

  /** `"published_at" in versions[0]` for a truthy `versions`, or the exception it raises. */
  function FirstDated(versions: Value): (r: Result<bool>)
    requires Truthy(versions)
  {
    match versions
    case List(items) =>
      (match items[0]
       case Dict(fs) => Ok(Has(fs, "published_at"))
       case Str(s) => Ok(Contains(s, "published_at"))
       case List(xs) => Ok(Str("published_at") in xs)
       case _ => Err(TypeError("argument is not iterable")))
    case Str(s) => Ok(Contains([s[0]], "published_at"))
    case Dict(_) => Err(KeyError("0"))
    case _ => Err(TypeError("object is not subscriptable"))
  }

  function IntLt(a: int, b: int): bool { a < b }

  /** The sort key of a version whose date parses. */
  function DateOf(x: Value): int {
    DateKey(x).GetOr(0)
  }

  lemma IntLtStrictTotal()
    ensures StrictTotal(IntLt)
  {
  }

  /** Sort the versions by date when every key can be computed; any exception leaves them as they were. */
  function SortByDate(items: seq<Value>): (r: seq<Value>)
    ensures multiset(r) == multiset(items)
  {
    if forall i :: 0 <= i < |items| ==> DateKey(items[i]).Some? then
      SortBy(items, DateOf, IntLt)
    else items
  }

  /** The error `data.get(...)` raises on a value that is not a dict. */
  function NoGet(data: Value): Error {
    AttributeError("'" + TypeName(data) + "' object has no attribute 'get'")
  }

  /** The versions of a dict, with those sorted by date that the first pass sorts; the error reading the first version raises. */
  function DateOrdered(fs: Fields): Result<Fields> {
    var versions := Get(fs, "versions").GetOr(List([]));
    var dated := if Truthy(versions) then FirstDated(versions) else Ok(false);
    if dated.Err? then Err(dated.error)
    else if dated.value && versions.List? then Ok(Put(fs, "versions", List(SortByDate(versions.items))))
    else Ok(fs)
  }

  /**
   * `Package.order` as written: the second test reads `if "versions" not
   * in data: data["versions"] = ...`, whose right-hand side indexes the
   * very key just found missing, so a dict without "versions" raises
   * KeyError.
   */
  function PackageOrderAsWritten(data: Value): (r: Result<Value>)
    ensures r.Ok? ==> r.value.Dict?
  {
    if !data.Dict? then Err(NoGet(data))
    else
      var fields := DateOrdered(data.fields);
      if fields.Err? then Err(fields.error)
      else if !Has(fields.value, "versions") then Err(KeyError("versions"))
      else Ok(Dict(fields.value))
  }

  /**
   * `Package.order` as evidently intended: the fallback that follows the
   * date sort never reads a missing "versions", so a dict without versions
   * comes back as it was.
   */
  function PackageOrder(data: Value): (r: Result<Value>)
    ensures r.Ok? ==> r.value.Dict?
  {
    if !data.Dict? then Err(NoGet(data))
    else
      var fields := DateOrdered(data.fields);
      if fields.Err? then Err(fields.error) else Ok(Dict(fields.value))
  }

  /** `endpoint.order(data)` */
  function Order(k: Kind, data: Value): (r: Result<Value>)
  {
    if k == Package then PackageOrderAsWritten(data) else Ok(data)
  }

  /** As written, every dict without "versions" is a KeyError, and the two orders agree on every dict that has them. */
  lemma AsWrittenMissingVersions(data: Value)
    ensures data.Dict? && !Has(data.fields, "versions") ==> PackageOrderAsWritten(data) == Err(KeyError("versions"))
    ensures data.Dict? && Has(data.fields, "versions") ==> PackageOrderAsWritten(data) == PackageOrder(data)
    ensures !data.Dict? ==> PackageOrderAsWritten(data) == PackageOrder(data) == Err(NoGet(data))
  {
  }

  /**
   * The order of `package`: a dict without "versions" comes back as it
   * was, one whose first version is a dict is never an error, dated
   * versions come out as a permutation, and every other key is kept.
   */
  lemma PackageOrderMeans(data: Value)
    requires data.Dict?
    ensures !Has(data.fields, "versions") ==> PackageOrder(data) == Ok(data)
    ensures Has(data.fields, "versions") && Get(data.fields, "versions").value.List? && Truthy(Get(data.fields, "versions").value)
      && Get(data.fields, "versions").value.items[0].Dict?
      ==> PackageOrder(data).Ok?
    ensures PackageOrder(data).Ok? && Has(data.fields, "versions") ==> var vs := Get(PackageOrder(data).value.fields, "versions");
      vs.Some? && (vs.value.List? ==> multiset(vs.value.items) == multiset(Get(data.fields, "versions").value.items))
    ensures PackageOrder(data).Ok? ==> forall k :: k != "versions" ==> Get(PackageOrder(data).value.fields, k) == Get(data.fields, k)
  {
  }

  /** When every version has a date, the versions come out sorted by date, dates that tie in their old order. */
  lemma SortByDateSorted(items: seq<Value>)
    requires forall i :: 0 <= i < |items| ==> DateKey(items[i]).Some?
    ensures var r := SortByDate(items);
      forall i, j :: 0 <= i < j < |r| ==> DateKey(r[i]).GetOr(0) <= DateKey(r[j]).GetOr(0)
    ensures forall c :: WithKey(SortByDate(items), DateOf, c) == WithKey(items, DateOf, c)
  {
    IntLtStrictTotal();
    SortBySorted(items, DateOf, IntLt);
    forall c ensures WithKey(SortByDate(items), DateOf, c)
      == WithKey(items, DateOf, c) {
      SortByStable(items, DateOf, IntLt, c);
    }
  }

  // ---------------------------------------------------------------------
  // `table_data`
  // ---------------------------------------------------------------------

  /** `item["name"]` as a string, or the exception reading or lower-casing it raises. */
  function ItemName(item: Value): Result<string> {
    if !item.Dict? then Err(TypeError("indices must be integers"))
    else
      match Get(item.fields, "name")
      case None => Err(KeyError("name"))
      case Some(Str(s)) => Ok(s)
      case Some(v) => Err(AttributeError("'" + TypeName(v) + "' object has no attribute 'lower'"))
  }

  /** `item["name"] = item["name"].capitalize()` */
  function Renamed(item: Value): Value
    requires ItemName(item).Ok?
  {
    Dict(Put(item.fields, "name", Str(Capitalize(ItemName(item).value))))
  }

  /** The sort key `x["name"]` of a kept item. */
  function NameOf(item: Value): string {
    match ItemName(item)
    case Ok(s) => s
    case Err(_) => ""
  }

  /**
   * The loop of `PackageManagers.table_data` from some item on, given the
   * lower-cased names already seen: the items as the loop leaves them (a
   * kept item renamed in place) and the kept items.
   */
  function Unique(items: seq<Value>, seen: set<string>): (r: Result<(seq<Value>, seq<Value>)>)
    ensures r.Ok? ==> |r.value.0| == |items| && |r.value.1| <= |items|
  {
    if items == [] then Ok(([], []))
    else
      match ItemName(items[0])
      case Err(e) => Err(e)
      case Ok(n) =>
        if Lower(n) in seen then
          match Unique(items[1..], seen)
          case Err(e) => Err(e)
          case Ok(p) => Ok(([items[0]] + p.0, p.1))
        else
          var item := Renamed(items[0]);
          match Unique(items[1..], seen + {Lower(Capitalize(n))})
          case Err(e) => Err(e)
          case Ok(p) => Ok(([item] + p.0, [item] + p.1))
  }

  /** The items as the whole loop leaves them, and the kept items sorted by name. */
  function ManagersTable(items: seq<Value>): (r: Result<(seq<Value>, seq<Value>)>)
  {
    match Unique(items, {})
    case Err(e) => Err(e)
    case Ok(p) => Ok((p.0, SortBy(p.1, NameOf, StrLt)))
  }

  /** The loop succeeds exactly when every item has a string name. */
  lemma {:induction false} UniqueOk(items: seq<Value>, seen: set<string>)
    ensures Unique(items, seen).Ok? <==> forall i :: 0 <= i < |items| ==> ItemName(items[i]).Ok?
  {
    if items != [] {
      UniqueOk(items[1..], seen);
      if ItemName(items[0]).Ok? {
        UniqueOk(items[1..], seen + {Lower(Capitalize(ItemName(items[0]).value))});
      }
      assert forall i :: 1 <= i < |items| ==> items[i] == items[1..][i - 1];
    }
  }

  lemma NameOfRenamed(item: Value)
    requires ItemName(item).Ok?
    ensures ItemName(Renamed(item)) == Ok(Capitalize(ItemName(item).value))
    ensures Lower(NameOf(Renamed(item))) == Lower(ItemName(item).value)
  {
    LowerCapitalize(ItemName(item).value);
  }

  /** The lower-cased name of a kept item: what `seen` records. */
  function LowerName(item: Value): string {
    Lower(NameOf(item))
  }

  /** The kept items' lower-cased names are new and pairwise distinct. */
  lemma {:induction false} UniqueDistinct(items: seq<Value>, seen: set<string>)
    requires Unique(items, seen).Ok?
    ensures forall y :: y in Unique(items, seen).value.1 ==> LowerName(y) !in seen
    ensures DistinctBy(Unique(items, seen).value.1, LowerName)
  {
    if items != [] {
      var n := ItemName(items[0]).value;
      if Lower(n) in seen {
        UniqueDistinct(items[1..], seen);
      } else {
        var seen' := seen + {Lower(Capitalize(n))};
        UniqueDistinct(items[1..], seen');
        NameOfRenamed(items[0]);
        LowerCapitalize(n);
        var rest := Unique(items[1..], seen').value.1;
        assert Unique(items, seen).value.1 == [Renamed(items[0])] + rest;
        ConsDistinct(Renamed(items[0]), rest, LowerName);
      }
    }
  }

  /** Every kept item is an input item with its name capitalized. */
  lemma {:induction false} UniqueFrom(items: seq<Value>, seen: set<string>)
    requires Unique(items, seen).Ok?
    ensures forall y :: y in Unique(items, seen).value.1 ==> exists x :: x in items && ItemName(x).Ok? && y == Renamed(x)
  {
    if items != [] {
      var n := ItemName(items[0]).value;
      var seen' := if Lower(n) in seen then seen else seen + {Lower(Capitalize(n))};
      UniqueFrom(items[1..], seen');
      assert forall x :: x in items[1..] ==> x in items;
    }
  }

  /** Every input name was seen before or is the name of a kept item, once lower-cased. */
  lemma {:induction false} UniqueCovers(items: seq<Value>, seen: set<string>)
    requires Unique(items, seen).Ok?
    ensures forall x :: x in items ==> (ItemName(x).Ok? &&
      (Lower(ItemName(x).value) in seen || exists y :: y in Unique(items, seen).value.1 && LowerName(y) == Lower(ItemName(x).value)))
  {
    if items != [] {
      var n := ItemName(items[0]).value;
      var seen' := if Lower(n) in seen then seen else seen + {Lower(Capitalize(n))};
      UniqueCovers(items[1..], seen');
      LowerCapitalize(n);
      var rest := Unique(items[1..], seen').value.1;
      var kept := Unique(items, seen).value.1;
      if Lower(n) !in seen {
        NameOfRenamed(items[0]);
        assert kept == [Renamed(items[0])] + rest;
      } else {
        assert kept == rest;
      }
      forall x | x in items ensures ItemName(x).Ok? &&
        (Lower(ItemName(x).value) in seen || exists y :: y in kept && LowerName(y) == Lower(ItemName(x).value))
      {
        if x == items[0] {
          if Lower(n) !in seen {
            assert kept[0] in kept && LowerName(kept[0]) == Lower(n);
          }
        } else {
          assert x in items[1..];
          var m := Lower(ItemName(x).value);
          if m in seen' && m !in seen {
            assert m == Lower(Capitalize(n)) == Lower(n);
            assert kept[0] in kept && LowerName(kept[0]) == m;
          } else if m !in seen' {
            var y :| y in rest && LowerName(y) == m;
            assert y in kept;
          }
        }
      }
    }
  }

  /** `table_data` of `package_managers`, as its loop runs: the rewritten items and the sorted kept ones. */
  method ManagersTableData(items: seq<Value>) returns (r: Result<(seq<Value>, seq<Value>)>)
    ensures r == ManagersTable(items)
  {
    var seen: set<string> := {};
    var after: seq<Value> := [];
    var kept: seq<Value> := [];
    assert items[0..] == items;
    ResumeEmpty(Unique(items, {}));
    for i := 0 to |items|
      invariant Unique(items, {}) == Resume(after, kept, Unique(items[i..], seen))
    {
      var n := ItemName(items[i]);
      UniqueStep(items, i, seen);
      if n.Err? {
        return Err(n.error);
      }
      if Lower(n.value) in seen {
        ResumeStep(after, kept, items[i], [], Unique(items[i + 1..], seen));
        after := after + [items[i]];
        continue;
      }
      var item := Renamed(items[i]);
      ResumeStep(after, kept, item, [item], Unique(items[i + 1..], seen + {Lower(Capitalize(n.value))}));
      after := after + [item];
      kept := kept + [item];
      seen := seen + {Lower(Capitalize(n.value))};
    }
    assert items[|items|..] == [];
    assert after + [] == after && kept + [] == kept;
    r := Ok((after, SortBy(kept, NameOf, StrLt)));
  }

  /** The loop's result given what it has done so far and what the rest of the items give. */
  function Resume(after: seq<Value>, kept: seq<Value>, rest: Result<(seq<Value>, seq<Value>)>): Result<(seq<Value>, seq<Value>)> {
    match rest
    case Err(e) => Err(e)
    case Ok(p) => Ok((after + p.0, kept + p.1))
  }

  lemma ResumeEmpty(rest: Result<(seq<Value>, seq<Value>)>)
    ensures Resume([], [], rest) == rest
  {
    if rest.Ok? {
      assert [] + rest.value.0 == rest.value.0 && [] + rest.value.1 == rest.value.1;
    }
  }

  /** Putting one more item in front of the rest is the same as moving it to what is done. */
  lemma ResumeStep(after: seq<Value>, kept: seq<Value>, a: Value, k: seq<Value>, rest: Result<(seq<Value>, seq<Value>)>)
    ensures Resume(after, kept, match rest case Err(e) => Err(e) case Ok(p) => Ok(([a] + p.0, k + p.1)))
      == Resume(after + [a], kept + k, rest)
  {
    if rest.Ok? {
      assert after + ([a] + rest.value.0) == after + [a] + rest.value.0;
      assert kept + (k + rest.value.1) == kept + k + rest.value.1;
    }
  }

  /** One turn of the loop, as Unique takes it. */
  lemma UniqueStep(items: seq<Value>, i: nat, seen: set<string>)
    requires i < |items|
    ensures ItemName(items[i]).Err? ==> Unique(items[i..], seen) == Err(ItemName(items[i]).error)
    ensures ItemName(items[i]).Ok? && Lower(ItemName(items[i]).value) in seen ==>
      Unique(items[i..], seen) == match Unique(items[i + 1..], seen)
        case Err(e) => Err(e) case Ok(p) => Ok(([items[i]] + p.0, [] + p.1))
    ensures ItemName(items[i]).Ok? && Lower(ItemName(items[i]).value) !in seen ==>
      Unique(items[i..], seen) == match Unique(items[i + 1..], seen + {Lower(Capitalize(ItemName(items[i]).value))})
        case Err(e) => Err(e) case Ok(p) => Ok(([Renamed(items[i])] + p.0, [Renamed(items[i])] + p.1))
  {
    assert items[i..][0] == items[i] && items[i..][1..] == items[i + 1..];
    var rest := Unique(items[i + 1..], seen);
    if rest.Ok? {
      assert [] + rest.value.1 == rest.value.1;
    }
  }

  /** The table of `package_managers` is sorted by name, and no two of its names are equal once lower-cased. */
  lemma ManagersTableSorted(items: seq<Value>)
    requires ManagersTable(items).Ok?
    ensures Sorted(ManagersTable(items).value.1, NameOf, StrLt)
    ensures DistinctBy(ManagersTable(items).value.1, LowerName)
  {
    var kept := Unique(items, {}).value.1;
    StrLtStrictTotal();
    SortBySorted(kept, NameOf, StrLt);
    UniqueDistinct(items, {});
    SortByDistinct(kept, NameOf, StrLt, LowerName);
  }

  /** Its items are input items with capitalized names, and every input name is in it up to case. */
  lemma ManagersTableCovers(items: seq<Value>)
    requires ManagersTable(items).Ok?
    ensures forall y :: y in ManagersTable(items).value.1 ==> exists x :: x in items && ItemName(x).Ok? && y == Renamed(x)
    ensures forall x :: x in items ==> (ItemName(x).Ok? &&
      exists y :: y in ManagersTable(items).value.1 && LowerName(y) == Lower(ItemName(x).value))
  {
    var kept := Unique(items, {}).value.1;
    var t := ManagersTable(items).value.1;
    UniqueFrom(items, {});
    UniqueCovers(items, {});
    forall y | y in t ensures y in kept {
      assert y in multiset(t);
    }
    forall y | y in kept ensures y in t {
      assert y in multiset(kept);
    }
  }

  /**
   * `table_data(data)`: the data as the call leaves it and the rows.
   * `package_managers` iterates the data, `dependencies` and `package`
   * take one key of it with `.get`.
   */
  function TableData(k: Kind, data: Value): (r: Result<(Value, Value)>)
    ensures r.Ok? && k != PackageManagers ==> r.value.0 == data
  {
    match k
    case PackageManagers =>
      if data.List? then
        match ManagersTable(data.items)
        case Ok(p) => Ok((List(p.0), List(p.1)))
        case Err(e) => Err(e)
      else if data == Dict([]) || data == Str("") then Ok((data, List([])))
      else Err(TypeError("string indices must be integers"))
    case Dependencies =>
      if data.Dict? then Ok((data, Get(data.fields, "dependencies").GetOr(Null))) else Err(NoGet(data))
    case Package =>
      if data.Dict? then Ok((data, Get(data.fields, "versions").GetOr(Null))) else Err(NoGet(data))
  }
}
