/**
 * The cache of citelang (citelang/main/cache.py): a memory map shared by
 * every `Cache` object and a file store under the cache directory, where
 * `{name}.json` holds a result's data and `{name}.empty` marks a name the
 * package managers searched for in vain.
 *
 * The file store is a map from cache name to what its `.json` file holds
 * (the directory and the `.json` suffix are the same for every name, so
 * the name identifies the file), and the `.empty` files are a set of
 * names.  The directories that exist under the cache directory are a set
 * of paths relative to it, "" being the cache directory itself: `set`
 * creates the ones it writes into, while `mark_empty` writes through
 * `utils.write_file`, which creates none (citelang/utils/fileio.py:26-35).
 * The settings the cache reads, `disable_cache` and
 * `disable_memory_cache`, are a parameter.
 */
module PackageCache {
  import opened Wrappers
  import opened Json
  import opened PyStr

  /**
   * `settings.cfg.disable_cache` and `settings.cfg.disable_memory_cache`;
   * `show` is Python's `str()` of a float, a list or a dict, as the names
   * of versioned entries spell a version number that is one.
   */
  datatype Config = Config(disableCache: Value, disableMemoryCache: Value, show: Value -> string)

  /** Python's `v == True`: True itself, the int 1 and the float 1.0. */
  predicate EqualsTrue(v: Value) {
    v == Bool(true) || v == Int(1) || v == Float(1.0)
  }

  /** What a `.json` file of the store holds: JSON written there, or text that does not parse. */
  datatype File = Written(data: Value) | Corrupt

  /** The memory map, the `.json` files, the `.empty` marks and the directories that exist. */
  datatype Store = Store(memory: map<string, Value>, files: map<string, File>, empties: set<string>, dirs: set<string>)

  /** What `get` returns: nothing, the data itself, or the data wrapped in a `Table` for the endpoint. */
  datatype Got = Miss | Found(data: Value) | Wrapped(data: Value)

  /** `name.count("/") == 3`: a name ending in a version, such as package/pypi/numpy/1.22.3. */
  predicate Versioned(name: string) {
    CountChar(name, '/') == 3
  }

  /** `name.rsplit("/", 1)[0]` */
  function Unversioned(name: string): string {
    BeforeLast(name, '/')
  }

  /**
   * The directory `{name}.json` and `{name}.empty` lie in, relative to the
   * cache directory: `os.path.dirname` of the path, which is the cache
   * directory itself for a name without "/".
   */
  function Folder(name: string): (d: string)
    ensures RFindChar(name, '/').None? ==> d == ""
    ensures RFindChar(name, '/').Some? ==> d == name[..RFindChar(name, '/').value]
  {
    if RFindChar(name, '/').None? then "" else BeforeLast(name, '/')
  }

  /** `utils.mkdir_p(d)`: `os.makedirs` creates `d`, the cache directory and every directory between them. */
  function MakeDirs(dirs: set<string>, d: string): (r: set<string>)
    ensures dirs <= r && "" in r && d in r
    ensures forall i :: 0 <= i < |d| && d[i] == '/' ==> d[..i] in r
  {
    dirs + {"", d} + set i | 0 <= i < |d| && d[i] == '/' :: d[..i]
  }

  /** The memory map after the first block of `set`: store under name if absent, and under the unversioned name too. */
  function FirstMemory(memory: map<string, Value>, name: string, data: Value): map<string, Value> {
    var m := if name in memory then memory else memory[name := data];
    if Versioned(name) then m[Unversioned(name) := data] else m
  }

  /** `set(name, result)` with `data` the result's data. */
  function SetStore(s: Store, cfg: Config, name: string, data: Value): Store {
    if EqualsTrue(cfg.disableCache) then s
    else
      var memoryOn := !Truthy(cfg.disableMemoryCache);
      var m := if memoryOn then FirstMemory(s.memory, name, data) else s.memory;
      var top := MakeDirs(s.dirs, "");
      if !Truthy(data) then s.(memory := m, dirs := top)
      else s.(memory := if memoryOn then m[name := data] else m, files := s.files[name := Written(data)],
              dirs := MakeDirs(top, Folder(name)))
  }

  /** `get(name, endpoint)`, with `endpoint` whether an endpoint was given, and the store after it. */
  function GetStore(s: Store, name: string, endpoint: bool): (Got, Store) {
    if name in s.memory then (Found(s.memory[name]), s)
    else if name !in s.files then (Miss, s)
    else match s.files[name]
      case Corrupt => (Miss, s.(files := s.files - {name}))
      case Written(d) =>
        if Truthy(d) && endpoint then (Wrapped(d), s)
        else if Truthy(d) then (Found(d), s)
        else (Miss, s)
  }

  /** `clear(force)`, with `confirmed` the user's answer when not forced: the directory goes, the memory map stays. */
  function ClearStore(s: Store, force: bool, confirmed: bool): Store {
    if !force && !confirmed then s else s.(files := map[], empties := {}, dirs := {})
  }

  /**
   * `mark_empty(name)`: `write_file` opens `{name}.empty` for writing,
   * which raises when the name's directory does not exist.
   */
  function MarkEmptyStore(s: Store, name: string): (Result<()>, Store) {
    if Folder(name) in s.dirs then (Ok(()), s.(empties := s.empties + {name}))
    else (Err(FileNotFound(name + ".empty")), s)
  }

  /** Every file and every mark of the store lies in a directory that exists. */
  predicate Placed(s: Store) {
    && (forall n :: n in s.files ==> Folder(n) in s.dirs)
    && (forall n :: n in s.empties ==> Folder(n) in s.dirs)
  }

  // ---------------------------------------------------------------------
  // What the operations promise.
  // ---------------------------------------------------------------------

  /** Every operation of the cache keeps each file and mark inside a directory that exists. */
  lemma StaysPlaced(s: Store, cfg: Config, name: string, data: Value, endpoint: bool, force: bool, confirmed: bool)
    requires Placed(s)
    ensures Placed(SetStore(s, cfg, name, data))
    ensures Placed(GetStore(s, name, endpoint).1)
    ensures Placed(MarkEmptyStore(s, name).1)
    ensures Placed(ClearStore(s, force, confirmed))
  {
  }

  /**
   * `mark_empty` writes its mark exactly when the name's directory
   * exists; otherwise it raises and changes nothing.
   */
  lemma MarkNeedsFolder(s: Store, name: string)
    ensures MarkEmptyStore(s, name).0.Ok? <==> Folder(name) in s.dirs
    ensures var t := MarkEmptyStore(s, name).1;
      && t.memory == s.memory && t.files == s.files && t.dirs == s.dirs
      && (name in t.empties <==> name in s.empties || Folder(name) in s.dirs)
      && (forall n :: n != name ==> (n in t.empties <==> n in s.empties))
  {
  }

  /** With `disable_cache` true, `set` changes nothing. */
  lemma SetDisabled(s: Store, cfg: Config, name: string, data: Value)
    requires EqualsTrue(cfg.disableCache)
    ensures SetStore(s, cfg, name, data) == s
  {
  }

  /**
   * With memory caching on, `set` stores the data under name if name was
   * absent, and always when the data is non-empty; a name with three "/"
   * is also stored under the name without its last segment.
   */
  lemma SetMemory(s: Store, cfg: Config, name: string, data: Value)
    requires !EqualsTrue(cfg.disableCache) && !Truthy(cfg.disableMemoryCache)
    ensures var m := SetStore(s, cfg, name, data).memory;
      && name in m
      && m[name] == (if Truthy(data) || name !in s.memory then data else s.memory[name])
      && (Versioned(name) && Unversioned(name) != name ==> m[Unversioned(name)] == data)
      && (forall k :: k in s.memory && k != name && !(Versioned(name) && k == Unversioned(name)) ==> k in m && m[k] == s.memory[k])
  {
  }

  /** A name with three "/" is never its own unversioned name, so both entries are kept. */
  lemma UnversionedShorter(name: string)
    requires Versioned(name)
    ensures |Unversioned(name)| < |name| && Unversioned(name) != name
  {
    assert CountChar(name, '/') != 0;
  }

  /** Empty data is never written to the file store. */
  lemma SetSkipsEmpty(s: Store, cfg: Config, name: string, data: Value)
    requires !Truthy(data)
    ensures SetStore(s, cfg, name, data).files == s.files
  {
  }

  /** Non-empty data is written to `{name}.json`; no other file changes. */
  lemma SetWrites(s: Store, cfg: Config, name: string, data: Value)
    requires !EqualsTrue(cfg.disableCache) && Truthy(data)
    ensures var f := SetStore(s, cfg, name, data).files;
      && f == s.files[name := Written(data)]
    ensures Folder(name) in SetStore(s, cfg, name, data).dirs
  {
  }

  /** `set` never touches the empty marks. */
  lemma SetKeepsEmpties(s: Store, cfg: Config, name: string, data: Value)
    ensures SetStore(s, cfg, name, data).empties == s.empties
  {
  }

  /** After `mark_empty(n)`, `is_empty(n)` holds, whatever `set` does afterwards. */
  lemma MarkedStaysEmpty(s: Store, n: string, cfg: Config, name: string, data: Value)
    ensures n in SetStore(s.(empties := s.empties + {n}), cfg, name, data).empties
  {
  }

  /** A name in memory is answered from memory, whatever the file holds, and nothing changes. */
  lemma GetMemoryFirst(s: Store, name: string, endpoint: bool)
    requires name in s.memory
    ensures GetStore(s, name, endpoint) == (Found(s.memory[name]), s)
  {
  }

  /** A corrupt file is removed and nothing is returned. */
  lemma GetCorrupt(s: Store, name: string, endpoint: bool)
    requires name !in s.memory && name in s.files && s.files[name] == Corrupt
    ensures GetStore(s, name, endpoint).0 == Miss
    ensures GetStore(s, name, endpoint).1.files == s.files - {name}
    ensures name !in GetStore(s, name, endpoint).1.files
  {
  }

  /** Only data read from a file is wrapped for an endpoint; data from memory never is. */
  lemma GetWrapsOnlyFiles(s: Store, name: string, endpoint: bool)
    ensures GetStore(s, name, endpoint).0.Wrapped? ==> endpoint && name !in s.memory && name in s.files
  {
  }

  /**
   * Non-empty data that `set` stores is what `get` returns next: from
   * memory when memory caching is on, otherwise from its file, wrapped when
   * an endpoint is given.
   */
  lemma SetThenGet(s: Store, cfg: Config, name: string, data: Value, endpoint: bool)
    requires !EqualsTrue(cfg.disableCache) && Truthy(data)
    ensures GetStore(SetStore(s, cfg, name, data), name, endpoint).0 ==
      if !Truthy(cfg.disableMemoryCache) then Found(data)
      else if name in s.memory then Found(s.memory[name])
      else if endpoint then Wrapped(data)
      else Found(data)
  {
  }

  /** `clear` empties the directory and leaves the memory map as it was. */
  lemma ClearKeepsMemory(s: Store, force: bool, confirmed: bool)
    ensures ClearStore(s, force, confirmed).memory == s.memory
    ensures force || confirmed ==> ClearStore(s, force, confirmed).files == map[] && ClearStore(s, force, confirmed).empties == {}
    ensures force || confirmed ==> ClearStore(s, force, confirmed).dirs == {}
  {
  }

  // ---------------------------------------------------------------------
  // The cache object.
  // ---------------------------------------------------------------------

  /** A `Cache` object: the class-level memory map and the cache directory it reads and writes. */
  class Cache {
    /** `Cache._cache` */
    var memory: map<string, Value>
    /** The `{name}.json` files under the cache directory. */
    var files: map<string, File>
    /** The names with a `{name}.empty` file. */
    var empties: set<string>
    /** The directories that exist under the cache directory. */
    var dirs: set<string>

    function State(): Store
      reads this
    {
      Store(memory, files, empties, dirs)
    }

    /** `init_cache()`: the memory map starts empty; the directory holds what earlier runs left. */
    constructor(files: map<string, File>, empties: set<string>, dirs: set<string>)
      ensures State() == Store(map[], files, empties, dirs)
    {
      memory := map[];
      this.files := files;
      this.empties := empties;
      this.dirs := dirs;
    }

    method Set(cfg: Config, name: string, data: Value)
      modifies this
      ensures State() == SetStore(old(State()), cfg, name, data)
    {
      if EqualsTrue(cfg.disableCache) {
        return;
      }
      if !Truthy(cfg.disableMemoryCache) {
        if name !in memory {
          memory := memory[name := data];
        }
        if Versioned(name) {
          memory := memory[Unversioned(name) := data];
        }
      }
      dirs := MakeDirs(dirs, "");
      if !Truthy(data) {
        return;
      }
      if !Truthy(cfg.disableMemoryCache) {
        memory := memory[name := data];
      }
      dirs := MakeDirs(dirs, Folder(name));
      files := files[name := Written(data)];
    }

    method Get(name: string, endpoint: bool) returns (r: Got)
      modifies this
      ensures (r, State()) == GetStore(old(State()), name, endpoint)
    {
      if name in memory {
        return Found(memory[name]);
      }
      if name !in files {
        return Miss;
      }
      var data := Null;
      if files[name].Corrupt? {
        files := files - {name};
      } else {
        data := files[name].data;
      }
      if Truthy(data) && endpoint {
        r := Wrapped(data);
      } else if Truthy(data) {
        r := Found(data);
      } else {
        r := Miss;
      }
    }

    predicate IsEmpty(name: string)
      reads this
    {
      name in empties
    }

    method MarkEmpty(name: string) returns (r: Result<()>)
      modifies this
      ensures (r, State()) == MarkEmptyStore(old(State()), name)
      ensures IsEmpty(name) <==> old(IsEmpty(name)) || Folder(name) in dirs
    {
      if Folder(name) !in dirs {
        return Err(FileNotFound(name + ".empty"));
      }
      empties := empties + {name};
      r := Ok(());
    }

    method Clear(force: bool, confirmed: bool)
      modifies this
      ensures State() == ClearStore(old(State()), force, confirmed)
    {
      if !force && !confirmed {
        return;
      }
      files := map[];
      empties := {};
      dirs := {};
    }
  }
}
