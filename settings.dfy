/**
 * The settings store (citelang/main/settings.py) and the schema it is
 * validated against (citelang/main/schemas.py).  The settings are a dict
 * read from YAML; `add` and `remove` edit list values, `set` writes a value
 * or one entry of a dict value, `get` reads one with placeholder
 * substitution, and every edit is checked against the schema.
 *
 * The files are given by their paths and a `read` function standing for
 * `yaml.load` of a file, `present` stands for `os.path.exists`, `expand`
 * for `os.path.expandvars`, and the placeholders of `defaults.reps` are the
 * parameter `reps`.  `logger.exit` is the error Exit.
 */
module Settings {
  import opened Wrappers
  import opened Json
  import opened PyStr

  // ---------------------------------------------------------------------
  // The schema (schemas.py).
  // ---------------------------------------------------------------------

  /** The draft the schema is written against. */
  const SchemaUrl := "http://json-schema.org/draft-07/schema"

  /** `settingsProperties`: the type of each known key; `additionalProperties: False` refuses every other key. */
  predicate Typed(k: string, v: Value) {
    if k == "cache_dir" then v.Str?
    else if k == "disable_cache" || k == "disable_memory_cache" then v.Bool?
    else false
  }

  /** An instance of the settings schema: the three required keys, each of its type, and no other key. */
  predicate Valid(fs: Fields) {
    && Has(fs, "disable_memory_cache") && Has(fs, "disable_cache") && Has(fs, "cache_dir")
    && forall i :: 0 <= i < |fs| ==> Typed(fs[i].0, fs[i].1)
  }

  /** What a valid settings dict holds: a string cache_dir, boolean disable flags, and nothing else. */
  lemma ValidMeans(fs: Fields)
    requires Valid(fs)
    ensures Get(fs, "cache_dir").Some? && Get(fs, "cache_dir").value.Str?
    ensures Get(fs, "disable_cache").Some? && Get(fs, "disable_cache").value.Bool?
    ensures Get(fs, "disable_memory_cache").Some? && Get(fs, "disable_memory_cache").value.Bool?
    ensures forall k :: Has(fs, k) ==> k == "cache_dir" || k == "disable_cache" || k == "disable_memory_cache"
  {
    forall k | Has(fs, k) ensures k == "cache_dir" || k == "disable_cache" || k == "disable_memory_cache" {
      var i :| 0 <= i < |fs| && fs[i] == (k, Get(fs, k).value);
      assert Typed(fs[i].0, fs[i].1);
    }
    var i :| 0 <= i < |fs| && fs[i] == ("cache_dir", Get(fs, "cache_dir").value);
    assert Typed(fs[i].0, fs[i].1);
    var j :| 0 <= j < |fs| && fs[j] == ("disable_cache", Get(fs, "disable_cache").value);
    assert Typed(fs[j].0, fs[j].1);
    var m :| 0 <= m < |fs| && fs[m] == ("disable_memory_cache", Get(fs, "disable_memory_cache").value);
    assert Typed(fs[m].0, fs[m].1);
  }

  /** `change_validate(key, value)`: an exit when the edited settings fail the schema. */
  function Validation(fs: Fields, key: string): (r: Result<()>)
    ensures r.Ok? <==> Valid(fs)
    ensures r.Err? ==> r.error.Exit?
  {
    if Valid(fs) then Ok(()) else Err(Exit(key + " cannot be added to config"))
  }

  /** An edit followed by `change_validate`: the edited settings, if the schema accepts them. */
  function Validated(fs: Fields, key: string): (r: Result<Fields>)
    ensures r.Ok? <==> Valid(fs)
    ensures r.Ok? ==> r.value == fs
    ensures r.Err? ==> r.error.Exit?
  {
    var _ :- Validation(fs, key);
    Ok(fs)
  }

  // ---------------------------------------------------------------------
  // Value parsing.
  // ---------------------------------------------------------------------

  /** `parse_boolean`: a string that is "true" or "false" in any case becomes that boolean. */
  function ParseBoolean(v: Value): (r: Value)
    ensures r.Bool? <==> v.Bool? || (v.Str? && (Lower(v.s) == "true" || Lower(v.s) == "false"))
    ensures !v.Bool? && r.Bool? ==> r.b == (Lower(v.s) == "true")
    ensures !r.Bool? ==> r == v
  {
    if v.Str? && Lower(v.s) == "true" then Bool(true)
    else if v.Str? && Lower(v.s) == "false" then Bool(false)
    else v
  }

  /** `parse_null`: "none" or "null" in any case becomes None, any other string loses its surrounding white space. */
  function ParseNull(v: Value): (r: Value)
    ensures v.Str? && (Lower(v.s) == "none" || Lower(v.s) == "null") ==> r == Null
    ensures v.Str? && !(Lower(v.s) == "none" || Lower(v.s) == "null") ==> r == Str(Strip(v.s))
    ensures !v.Str? ==> r == v
  {
    if v.Str? && (Lower(v.s) == "none" || Lower(v.s) == "null") then Null
    else if v.Str? then Str(Strip(v.s))
    else v
  }

  /** Parsing a boolean twice is parsing it once, and a parsed null or string is not parsed again into anything else. */
  lemma ParsedStays(v: Value)
    ensures ParseBoolean(ParseBoolean(v)) == ParseBoolean(v)
    ensures ParseNull(v).Str? ==> Strip(ParseNull(v).s) == ParseNull(v).s
  {
    if v.Str? {
      StripIdempotent(v.s);
    }
  }

  // ---------------------------------------------------------------------
  // Reading (`get`, `_substitutions`).
  // ---------------------------------------------------------------------

  /** Each placeholder in turn replaced by its value. */
  function SubstituteStr(s: string, reps: seq<(string, string)>): string
    requires forall i :: 0 <= i < |reps| ==> reps[i].0 != ""
    decreases |reps|
  {
    if reps == [] then s else SubstituteStr(Replace(s, reps[0].0, reps[0].1), reps[1..])
  }

  /** The error of calling `replace` on a value that is not a string. */
  function NoReplace(v: Value): Error {
    AttributeError("'" + TypeName(v) + "' object has no attribute 'replace'")
  }

  /** `[x.replace(rep, repvalue) for x in value]` for every placeholder: each element must be a string. */
  function SubstituteEach(xs: seq<Value>, reps: seq<(string, string)>): (r: Result<seq<Value>>)
    requires forall i :: 0 <= i < |reps| ==> reps[i].0 != ""
    ensures r.Ok? ==> |r.value| == |xs|
  {
    if xs == [] then Ok([])
    else if !xs[0].Str? then Err(NoReplace(xs[0]))
    else
      var rest :- SubstituteEach(xs[1..], reps);
      Ok([Str(SubstituteStr(xs[0].s, reps))] + rest)
  }

  /** `_substitutions(value)`: booleans, falsy values and dicts as they are; strings and lists of strings substituted. */
  function Substitutions(v: Value, reps: seq<(string, string)>): Result<Value>
    requires forall i :: 0 <= i < |reps| ==> reps[i].0 != ""
  {
    if v.Bool? || !Truthy(v) || v.Dict? || reps == [] then Ok(v)
    else if v.List? then
      var xs :- SubstituteEach(v.items, reps);
      Ok(List(xs))
    else if v.Str? then Ok(Str(SubstituteStr(v.s, reps)))
    else Err(NoReplace(v))
  }

  /** A string holding no placeholder comes back unchanged. */
  lemma {:induction false} SubstituteAbsent(s: string, reps: seq<(string, string)>)
    requires forall i :: 0 <= i < |reps| ==> reps[i].0 != ""
    requires forall i :: 0 <= i < |reps| ==> !Contains(s, reps[i].0)
    ensures SubstituteStr(s, reps) == s
  {
    if reps != [] {
      assert !Contains(s, reps[0].0);
      SubstituteAbsent(s, reps[1..]);
    }
  }

  /** What `_substitutions` does to each kind of value. */
  lemma {:induction false} SubstitutionsMeans(v: Value, reps: seq<(string, string)>)
    requires forall i :: 0 <= i < |reps| ==> reps[i].0 != ""
    ensures v.Bool? || !Truthy(v) || v.Dict? ==> Substitutions(v, reps) == Ok(v)
    ensures v.Str? && v.s != "" ==> Substitutions(v, reps) == Ok(Str(SubstituteStr(v.s, reps)))
    ensures v.List? ==> var r := Substitutions(v, reps);
      && (r.Ok? <==> forall k :: 0 <= k < |v.items| ==> v.items[k].Str? || reps == [])
      && (r.Ok? && reps != [] ==> (r.value.List? && |r.value.items| == |v.items| &&
          forall k :: 0 <= k < |v.items| ==> r.value.items[k] == Str(SubstituteStr(v.items[k].s, reps))))
    ensures (v.Int? || v.Float?) && Truthy(v) && reps != [] ==> Substitutions(v, reps) == Err(NoReplace(v))
  {
    if v.List? {
      SubstituteEachMeans(v.items, reps);
    }
  }

  lemma {:induction false} SubstituteEachMeans(xs: seq<Value>, reps: seq<(string, string)>)
    requires forall i :: 0 <= i < |reps| ==> reps[i].0 != ""
    ensures SubstituteEach(xs, reps).Ok? <==> forall k :: 0 <= k < |xs| ==> xs[k].Str?
    ensures SubstituteEach(xs, reps).Ok? ==>
      forall k :: 0 <= k < |xs| ==> SubstituteEach(xs, reps).value[k] == Str(SubstituteStr(xs[k].s, reps))
  {
    if xs != [] {
      SubstituteEachMeans(xs[1..], reps);
      if xs[0].Str? && SubstituteEach(xs[1..], reps).Ok? {
        var r := SubstituteEach(xs, reps).value;
        forall k | 0 <= k < |xs| ensures r[k] == Str(SubstituteStr(xs[k].s, reps)) {
          if k > 0 {
            assert xs[k] == xs[1..][k - 1];
          }
        }
      }
      if !(forall k :: 0 <= k < |xs[1..]| ==> xs[1..][k].Str?) {
        var k :| 0 <= k < |xs[1..]| && !xs[1..][k].Str?;
        assert !xs[k + 1].Str?;
      }
    }
  }

  /** `settings[key][subkey]`: only a dict can be indexed by a string. */
  function Subscript(outer: Value, sub: string): Result<Value> {
    match outer
    case Dict(fs) => if Has(fs, sub) then Ok(Get(fs, sub).value) else Err(KeyError(sub))
    case List(_) => Err(TypeError("list indices must be integers or slices, not str"))
    case Str(_) => Err(TypeError("string indices must be integers"))
    case _ => Err(TypeError("'" + TypeName(outer) + "' object is not subscriptable"))
  }

  /** `x, y = s.split(":")`: exactly one ":" or a ValueError. */
  function Pair(s: string): (r: Result<(string, string)>)
    ensures r.Ok? ==> s == r.value.0 + ":" + r.value.1 && !Contains(r.value.0, ":") && !Contains(r.value.1, ":")
    ensures Contains(s, ":") ==> (r.Ok? <==> |Split(s, ":")| == 2)
  {
    var parts := Split(s, ":");
    if |parts| == 1 then Err(ValueError("not enough values to unpack (expected 2, got 1)"))
    else if |parts| > 2 then Err(ValueError("too many values to unpack (expected 2)"))
    else
      assert Join(parts, ":") == parts[0] + ":" + Join(parts[1..], ":");
      Ok((parts[0], parts[1]))
  }

  /** `os.path.expandvars` on a string or on each string of a list. */
  function Expand(v: Value, expand: string -> string): Result<Value> {
    if v.Str? then Ok(Str(expand(v.s)))
    else if v.List? then
      var xs :- ExpandEach(v.items, expand);
      Ok(List(xs))
    else Err(TypeError("expected str, bytes or os.PathLike object, not " + TypeName(v)))
  }

  function ExpandEach(xs: seq<Value>, expand: string -> string): (r: Result<seq<Value>>)
    ensures r.Ok? ==> |r.value| == |xs|
  {
    if xs == [] then Ok([])
    else if !xs[0].Str? then Err(TypeError("expected str, bytes or os.PathLike object, not " + TypeName(xs[0])))
    else
      var rest :- ExpandEach(xs[1..], expand);
      Ok([Str(expand(xs[0].s))] + rest)
  }

  /** The keys whose values get environment expansion (`allowed_envars`). */
  predicate Expands(key: string) {
    key == "cache_dir"
  }

  /** `get(key, default)`: "key:subkey" reads one entry of a dict value. */
  function Read(fs: Fields, key: string, default: Value, reps: seq<(string, string)>, expand: string -> string): Result<Value>
    requires forall i :: 0 <= i < |reps| ==> reps[i].0 != ""
  {
    var found :-
      if Contains(key, ":") then
        var ks :- Pair(key);
        var outer :- if Has(fs, ks.0) then Ok(Get(fs, ks.0).value) else Err(KeyError(ks.0));
        var inner :- Subscript(outer, ks.1);
        Ok((ks.0, inner))
      else Ok((key, Get(fs, key).GetOr(default)));
    var value :- Substitutions(found.1, reps);
    if Expands(found.0) && Truthy(value) then Expand(value, expand) else Ok(value)
  }

  /** A plain key reads its value, or the default when it is absent, substituted; only cache_dir is expanded. */
  lemma ReadPlain(fs: Fields, key: string, default: Value, reps: seq<(string, string)>, expand: string -> string)
    requires forall i :: 0 <= i < |reps| ==> reps[i].0 != ""
    requires !Contains(key, ":") && !Expands(key)
    ensures Read(fs, key, default, reps, expand) == Substitutions(if Has(fs, key) then Get(fs, key).value else default, reps)
  {
  }

  // ---------------------------------------------------------------------
  // Writing (`set`, `add`, `remove`, `delete`).
  // ---------------------------------------------------------------------

  /** `settings[key][subkey] = value` on the value held at key. */
  function SetItem(outer: Value, sub: string, v: Value): Result<Value> {
    match outer
    case Dict(fs) => Ok(Dict(Put(fs, sub, v)))
    case List(_) => Err(TypeError("list indices must be integers or slices, not str"))
    case _ => Err(TypeError("'" + TypeName(outer) + "' object does not support item assignment"))
  }

  /** What `set(key, value)` writes for a value given as text, before it validates. */
  function SetEdit(fs: Fields, key: string, value: string): Result<Fields> {
    var v := ParseBoolean(Str(value));
    var current := Get(fs, key);
    if current.Some? && Truthy(current.value) && current.value.List? then
      Err(Exit("You cannot use 'set' for a list. Use add/remove instead."))
    else if v.Str? && Contains(v.s, ":") then
      var kv :- Pair(v.s);
      var sub := ParseNull(ParseBoolean(Str(kv.1)));
      var outer :- if current.Some? then Ok(current.value) else Err(KeyError(key));
      var inner :- SetItem(outer, kv.0, sub);
      Ok(Put(fs, key, inner))
    else
      Ok(Put(fs, key, ParseNull(v)))
  }

  /** `set(key, value)` */
  function SetOf(fs: Fields, key: string, value: string): Result<Fields> {
    var edited :- SetEdit(fs, key, value);
    Validated(edited, key)
  }

  /** `value in current` for the value `settings.get(key)` gives. */
  function In(v: Value, current: Option<Value>): Result<bool> {
    if current.None? then Err(TypeError("argument of type 'NoneType' is not iterable"))
    else
      match current.value
      case List(xs) => Ok(v in xs)
      case Str(s) =>
        if v.Str? then Ok(Contains(s, v.s))
        else Err(TypeError("'in <string>' requires string as left operand, not " + TypeName(v)))
      case Dict(ps) =>
        if v.List? || v.Dict? then Err(TypeError("unhashable type: '" + TypeName(v) + "'"))
        else Ok(v.Str? && Has(ps, v.s))
      case _ => Err(TypeError("argument of type '" + TypeName(current.value) + "' is not iterable"))
  }

  /** What `add(key, value)` writes: the parsed value first in the list at key, or nothing when it is there already. */
  function AddEdit(fs: Fields, key: string, value: string): Result<Option<Fields>> {
    var current := Get(fs, key);
    if current.Some? && Truthy(current.value) && !current.value.List? then
      Err(Exit("You cannot only add to a list variable."))
    else
      var v := ParseNull(ParseBoolean(Str(value)));
      var found :- In(v, current);
      if found then Ok(None)
      else if current.value.List? then Ok(Some(Put(fs, key, List([v] + current.value.items))))
      else Err(TypeError("can only concatenate list (not \"" + TypeName(current.value) + "\") to list"))
  }

  /** `add(key, value)`; only a change is validated. */
  function AddOf(fs: Fields, key: string, value: string): Result<Fields> {
    var edited :- AddEdit(fs, key, value);
    if edited.None? then Ok(fs) else Validated(edited.value, key)
  }

  /** `xs.index(x)`: the first position of x. */
  function IndexOf(xs: seq<Value>, x: Value): (i: nat)
    requires x in xs
    ensures i < |xs| && xs[i] == x && x !in xs[..i]
  {
    if xs[0] == x then 0
    else
      var j := IndexOf(xs[1..], x);
      assert xs[..j + 1] == [xs[0]] + xs[1..][..j];
      j + 1
  }

  /** `xs.pop(xs.index(x))`: the list without the first occurrence of x, the others in order. */
  function RemoveFirst(xs: seq<Value>, x: Value): (r: seq<Value>)
    requires x in xs
    ensures |r| == |xs| - 1 && multiset(r) == multiset(xs) - multiset{x}
    ensures r == xs[..IndexOf(xs, x)] + xs[IndexOf(xs, x) + 1..]
  {
    var i := IndexOf(xs, x);
    assert xs == xs[..i] + [x] + xs[i + 1..];
    xs[..i] + xs[i + 1..]
  }

  /** What `remove(key, value)` writes: the list at key without the first occurrence of the value, taken as it is. */
  function RemoveEdit(fs: Fields, key: string, value: string): Result<Fields> {
    var current := Get(fs, key);
    if current.Some? && Truthy(current.value) && !current.value.List? then
      Err(Exit("You cannot only remove from a list variable."))
    else if current.None? || !Truthy(current.value) || Str(value) !in current.value.items then
      Err(Exit(value + " is not in " + key))
    else
      Ok(Put(fs, key, List(RemoveFirst(current.value.items, Str(value)))))
  }

  /** `remove(key, value)` */
  function RemoveOf(fs: Fields, key: string, value: string): Result<Fields> {
    var edited :- RemoveEdit(fs, key, value);
    Validated(edited, key)
  }

  /** `delete(key)` */
  function DeleteOf(fs: Fields, key: string): (r: Fields)
    ensures forall k :: Get(r, k) == if k == key then None else Get(fs, k)
  {
    forall k ensures Get(Remove(fs, key), k) == if k == key then None else Get(fs, k) {
      RemoveGet(fs, key, k);
    }
    if Has(fs, key) then Remove(fs, key) else
      assert Get(fs, key) == None;
      fs
  }

  /** A key of valid settings holds a value of its schema type, so never a list. */
  lemma ValidGet(fs: Fields, k: string)
    requires Valid(fs) && Has(fs, k)
    ensures Typed(k, Get(fs, k).value) && !Get(fs, k).value.List?
  {
    var i :| 0 <= i < |fs| && fs[i] == (k, Get(fs, k).value);
    assert Typed(fs[i].0, fs[i].1);
  }

  /**
   * The schema admits no list, so an `add` that succeeds has found the value
   * already there and changed nothing, and a `remove` always exits.
   */
  lemma ListEditsExit(fs: Fields, key: string, value: string)
    ensures AddOf(fs, key, value).Ok? ==> AddOf(fs, key, value).value == fs
    ensures RemoveOf(fs, key, value).Err? && RemoveOf(fs, key, value).error.Exit?
  {
    var a := AddEdit(fs, key, value);
    if a.Ok? && a.value.Some? {
      var g := a.value.value;
      assert Get(g, key).value.List?;
      if Valid(g) {
        ValidGet(g, key);
      }
    }
    var r := RemoveEdit(fs, key, value);
    if r.Ok? {
      assert Get(r.value, key).value.List?;
      if Valid(r.value) {
        ValidGet(r.value, key);
      }
    }
  }

  /** Every edit that succeeds on valid settings leaves them valid. */
  lemma EditsValid(fs: Fields, key: string, value: string)
    requires Valid(fs)
    ensures SetOf(fs, key, value).Ok? ==> Valid(SetOf(fs, key, value).value)
    ensures AddOf(fs, key, value).Ok? ==> Valid(AddOf(fs, key, value).value)
    ensures RemoveOf(fs, key, value).Err?
  {
    ListEditsExit(fs, key, value);
  }

  /** `add` on a list: an absent value goes first, and a present one changes nothing. */
  lemma AddToList(fs: Fields, key: string, value: string, xs: seq<Value>)
    requires Get(fs, key) == Some(List(xs))
    ensures var v := ParseNull(ParseBoolean(Str(value)));
      AddEdit(fs, key, value) == if v in xs then Ok(None) else Ok(Some(Put(fs, key, List([v] + xs))))
  {
  }

  /** `remove` edits only a list holding the value; otherwise it exits before any change. */
  lemma RemoveEditWhen(fs: Fields, key: string, value: string)
    ensures var r := RemoveEdit(fs, key, value);
      r.Ok? <==> Get(fs, key).Some? && Get(fs, key).value.List? && Str(value) in Get(fs, key).value.items
    ensures var r := RemoveEdit(fs, key, value);
      r.Err? ==> r.error.Exit?
  {
  }

  /** The list `remove` edits loses the first occurrence of the value only, and no other key changes. */
  lemma RemoveEditMeans(fs: Fields, key: string, value: string, xs: seq<Value>)
    requires Get(fs, key) == Some(List(xs)) && Str(value) in xs
    ensures var r := RemoveEdit(fs, key, value); var i := IndexOf(xs, Str(value));
      && r.Ok? && Get(r.value, key) == Some(List(xs[..i] + xs[i + 1..]))
      && forall k :: k != key ==> Get(r.value, k) == Get(fs, k)
  {
  }

  /** A plain `set` stores the parsed value, and `get` reads back its substitution. */
  lemma SetThenRead(fs: Fields, key: string, value: string, reps: seq<(string, string)>, expand: string -> string)
    requires forall i :: 0 <= i < |reps| ==> reps[i].0 != ""
    requires !Contains(key, ":") && !Expands(key) && !Contains(value, ":")
    ensures var r := SetOf(fs, key, value);
      r.Ok? ==> Read(r.value, key, Null, reps, expand) == Substitutions(ParseNull(ParseBoolean(Str(value))), reps)
  {
    var v := ParseBoolean(Str(value));
    if SetOf(fs, key, value).Ok? {
      assert !(v.Str? && Contains(v.s, ":"));
      assert SetOf(fs, key, value).value == Put(fs, key, ParseNull(v));
    }
  }

  // ---------------------------------------------------------------------
  // `update_param`, `update_params`.
  // ---------------------------------------------------------------------

  /**
   * `update_param(command, param)` as written: "key:value" for set, add or
   * remove; anything else is ignored, the "rm" that `update_params`
   * advertises and lets through among them.
   */
  function UpdateParamAsWrittenOf(fs: Fields, command: string, param: string): Result<Fields> {
    if !Contains(param, ":") then Ok(fs)
    else
      var parts := Split1(param, ":");
      var key, value := parts[0], parts[1];
      if command == "set" then SetOf(fs, key, value)
      else if command == "add" then AddOf(fs, key, value)
      else if command == "remove" then RemoveOf(fs, key, value)
      else Ok(fs)
  }

  /** The commands that remove a value: "remove", and the "rm" of the params' advertised syntax. */
  predicate Removes(command: string) {
    command == "remove" || command == "rm"
  }

  /** `update_param(command, param)` as intended: "rm" removes as "remove" does. */
  function UpdateParamOf(fs: Fields, command: string, param: string): Result<Fields> {
    if !Contains(param, ":") then Ok(fs)
    else
      var parts := Split1(param, ":");
      var key, value := parts[0], parts[1];
      if command == "set" then SetOf(fs, key, value)
      else if command == "add" then AddOf(fs, key, value)
      else if Removes(command) then RemoveOf(fs, key, value)
      else Ok(fs)
  }

  /** As intended, "rm" is "remove": a "key:value" param removes the value from the key's list. */
  lemma RmRemoves(fs: Fields, param: string)
    requires Contains(param, ":")
    ensures UpdateParamOf(fs, "rm", param) == UpdateParamOf(fs, "remove", param)
    ensures UpdateParamOf(fs, "rm", param) == RemoveOf(fs, Split1(param, ":")[0], Split1(param, ":")[1])
  {
  }

  /** A param without ":" and a command other than set, add, remove and rm change nothing. */
  lemma UpdateParamIgnores(fs: Fields, command: string, param: string)
    requires !Contains(param, ":") || (command != "set" && command != "add" && !Removes(command))
    ensures UpdateParamOf(fs, command, param) == Ok(fs)
  {
  }

  /**
   * As written, "rm:key:value" changes nothing, where the intended
   * dispatch removes the value; on every other command the two agree.
   */
  lemma AsWrittenIgnoresRm(fs: Fields, command: string, param: string)
    ensures command != "rm" ==> UpdateParamAsWrittenOf(fs, command, param) == UpdateParamOf(fs, command, param)
    ensures command == "rm" ==> UpdateParamAsWrittenOf(fs, command, param) == Ok(fs)
    ensures command == "rm" && Contains(param, ":") ==>
      UpdateParamOf(fs, command, param) == RemoveOf(fs, Split1(param, ":")[0], Split1(param, ":")[1])
  {
  }

  /** `re.search("^(add|set|rm)", param, re.IGNORECASE) and ":" in param` */
  predicate Wellformed(param: string) {
    var p := Lower(param);
    (StartsWith(p, "add") || StartsWith(p, "set") || StartsWith(p, "rm")) && Contains(param, ":")
  }

  /** One turn of the loop as written: the warning does not skip, so the param is split whatever the check said. */
  function ParamAsWritten(fs: Fields, param: string): Result<Fields> {
    if !Contains(param, ":") then Err(ValueError("not enough values to unpack (expected 2, got 1)"))
    else
      var parts := Split1(param, ":");
      UpdateParamAsWrittenOf(fs, Lower(parts[0]), parts[1])
  }

  /** `update_params(params)` as written. */
  function ParamsAsWritten(fs: Fields, params: seq<string>): Result<Fields>
    decreases |params|
  {
    if params == [] then Ok(fs)
    else
      var next :- ParamAsWritten(fs, params[0]);
      ParamsAsWritten(next, params[1..])
  }

  /** The param "cache_dir", which the check reports as skipped, ends the update with a ValueError. */
  lemma AsWrittenNoSkip(fs: Fields)
    ensures !Wellformed("cache_dir")
    ensures ParamsAsWritten(fs, ["cache_dir"]) == Err(ValueError("not enough values to unpack (expected 2, got 1)"))
  {
    assert !Contains("cache_dir", ":") by {
      ContainsChar("cache_dir", ':');
    }
  }

  /** One turn of the loop as intended: a param that fails the check is skipped. */
  function Param(fs: Fields, param: string): Result<Fields> {
    if !Wellformed(param) then Ok(fs)
    else
      var parts := Split1(param, ":");
      UpdateParamOf(fs, Lower(parts[0]), parts[1])
  }

  /** `update_params(params)` with the skip its warning announces. */
  function Params(fs: Fields, params: seq<string>): Result<Fields>
    decreases |params|
  {
    if params == [] then Ok(fs)
    else
      var next :- Param(fs, params[0]);
      Params(next, params[1..])
  }

  /** Params that fail the check change nothing, and the others are applied in order as `update_param` applies them. */
  lemma {:induction false} ParamsSkipMalformed(fs: Fields, params: seq<string>)
    requires forall k :: 0 <= k < |params| ==> !Wellformed(params[k])
    ensures Params(fs, params) == Ok(fs)
    decreases |params|
  {
    if params != [] {
      ParamsSkipMalformed(fs, params[1..]);
    }
  }

  /** Applying params one list after another is applying them together. */
  lemma {:induction false} ParamsAppend(fs: Fields, a: seq<string>, b: seq<string>)
    ensures Params(fs, a + b) == if Params(fs, a).Ok? then Params(Params(fs, a).value, b) else Params(fs, a)
    decreases |a|
  {
    if a != [] {
      assert (a + b)[0] == a[0] && (a + b)[1..] == a[1..] + b;
      if Param(fs, a[0]).Ok? {
        ParamsAppend(Param(fs, a[0]).value, a[1..], b);
      }
    } else {
      assert a + b == b;
    }
  }

  /** One update that succeeds on valid settings leaves them valid. */
  lemma UpdateParamKeepsValid(fs: Fields, command: string, param: string)
    requires Valid(fs)
    ensures UpdateParamOf(fs, command, param).Ok? ==> Valid(UpdateParamOf(fs, command, param).value)
  {
    if Contains(param, ":") {
      var parts := Split1(param, ":");
      var key, value := parts[0], parts[1];
      EditsValid(fs, key, value);
      if command == "set" {
        assert UpdateParamOf(fs, command, param) == SetOf(fs, key, value);
      } else if command == "add" {
        assert UpdateParamOf(fs, command, param) == AddOf(fs, key, value);
      } else if Removes(command) {
        assert UpdateParamOf(fs, command, param) == RemoveOf(fs, key, value);
      }
    }
  }

  /** Starting from valid settings, every update that succeeds leaves them valid. */
  lemma {:induction false} ParamsKeepValid(fs: Fields, params: seq<string>)
    requires Valid(fs)
    ensures Params(fs, params).Ok? ==> Valid(Params(fs, params).value)
    decreases |params|
  {
    if params != [] && Param(fs, params[0]).Ok? {
      var p := params[0];
      if Wellformed(p) {
        var parts := Split1(p, ":");
        UpdateParamKeepsValid(fs, Lower(parts[0]), parts[1]);
      }
      ParamsKeepValid(Param(fs, p).value, params[1..]);
    }
  }

  /** Applying params as written one list after another is applying them together. */
  lemma {:induction false} ParamsAsWrittenAppend(fs: Fields, a: seq<string>, b: seq<string>)
    ensures ParamsAsWritten(fs, a + b) ==
      if ParamsAsWritten(fs, a).Ok? then ParamsAsWritten(ParamsAsWritten(fs, a).value, b) else ParamsAsWritten(fs, a)
    decreases |a|
  {
    if a != [] {
      assert (a + b)[0] == a[0] && (a + b)[1..] == a[1..] + b;
      if ParamAsWritten(fs, a[0]).Ok? {
        ParamsAsWrittenAppend(ParamAsWritten(fs, a[0]).value, a[1..], b);
      }
    } else {
      assert a + b == b;
    }
  }

  /** As written too, one update that succeeds on valid settings leaves them valid. */
  lemma UpdateParamAsWrittenKeepsValid(fs: Fields, command: string, param: string)
    requires Valid(fs)
    ensures UpdateParamAsWrittenOf(fs, command, param).Ok? ==> Valid(UpdateParamAsWrittenOf(fs, command, param).value)
  {
    if Contains(param, ":") {
      var parts := Split1(param, ":");
      var key, value := parts[0], parts[1];
      EditsValid(fs, key, value);
      if command == "set" {
        assert UpdateParamAsWrittenOf(fs, command, param) == SetOf(fs, key, value);
      } else if command == "add" {
        assert UpdateParamAsWrittenOf(fs, command, param) == AddOf(fs, key, value);
      } else if command == "remove" {
        assert UpdateParamAsWrittenOf(fs, command, param) == RemoveOf(fs, key, value);
      }
    }
  }

  /** As written, starting from valid settings, every run of the updates that succeeds leaves them valid. */
  lemma {:induction false} ParamsAsWrittenKeepValid(fs: Fields, params: seq<string>)
    requires Valid(fs)
    ensures ParamsAsWritten(fs, params).Ok? ==> Valid(ParamsAsWritten(fs, params).value)
    decreases |params|
  {
    if params != [] && ParamAsWritten(fs, params[0]).Ok? {
      var p := params[0];
      var parts := Split1(p, ":");
      UpdateParamAsWrittenKeepsValid(fs, Lower(parts[0]), parts[1]);
      ParamsAsWrittenKeepValid(ParamAsWritten(fs, p).value, params[1..]);
    }
  }

  /** As written, a param without ":" after params that succeed ends the whole run with ValueError, whatever follows it. */
  lemma {:induction false} ParamsAsWrittenColonless(fs: Fields, pre: seq<string>, param: string, post: seq<string>)
    requires !Contains(param, ":")
    requires ParamsAsWritten(fs, pre).Ok?
    ensures ParamsAsWritten(fs, pre + [param] + post) == Err(ValueError("not enough values to unpack (expected 2, got 1)"))
  {
    ParamsAsWrittenAppend(fs, pre, [param] + post);
    assert pre + [param] + post == pre + ([param] + post);
    assert ([param] + post)[0] == param;
  }

  // ---------------------------------------------------------------------
  // Choosing and loading the file (`get_settings_file`, `load`).
  // ---------------------------------------------------------------------

  /** `get_settings_file()`: the environment's file if set and present, else the user's if present, else the default. */
  function SettingsFile(env: string, user: string, default: string, present: string -> bool): (r: string)
    ensures env != "" && present(env) ==> r == env
    ensures !(env != "" && present(env)) && user != "" && present(user) ==> r == user
    ensures !(env != "" && present(env)) && !(user != "" && present(user)) ==> r == default
  {
    if env != "" && present(env) then env
    else if user != "" && present(user) then user
    else default
  }

  /**
   * `defaults.env_settings_file` as citelang/defaults.py ships it: the
   * module defines no such name, so reading it raises.
   */
  const ShippedEnv: Option<string> := None

  /** The error of reading `defaults.env_settings_file` from a module that lacks it. */
  const NoEnvAttribute: Error := AttributeError("module 'citelang.defaults' has no attribute 'env_settings_file'")

  /**
   * `get_settings_file()` with `env` the `defaults.env_settings_file`
   * attribute, None when the module lacks it: the attribute is read
   * first, so a missing one raises before any file is looked at.
   */
  function ChooseSettingsFile(env: Option<string>, user: string, default: string, present: string -> bool): (r: Result<string>)
    ensures r.Err? <==> env.None?
    ensures r.Err? ==> r.error == NoEnvAttribute
    ensures r.Ok? ==> r.value in {env.value, user, default}
  {
    if env.None? then Err(NoEnvAttribute) else Ok(SettingsFile(env.value, user, default, present))
  }

  /**
   * As shipped, choosing the settings file raises AttributeError, and so
   * does `load`, whatever files exist.
   */
  lemma ShippedDefaultsRaise(user: string, default: string, present: string -> bool, read: string -> Fields)
    ensures ChooseSettingsFile(ShippedEnv, user, default, present) == Err(NoEnvAttribute)
    ensures LoadOf(ShippedEnv, user, default, present, read) == Err(NoEnvAttribute)
  {
  }

  /** `dict.update(other)`: each key of other overwrites or is appended, in order. */
  function Update(base: Fields, other: Fields): Fields
    decreases |other|
  {
    if other == [] then base else Update(Put(base, other[0].0, other[0].1), other[1..])
  }

  /** After an update a key reads as in the other dict if it has the key there, else as before. */
  lemma {:induction false} UpdateGet(base: Fields, other: Fields, k: string)
    requires Distinct(other)
    ensures Get(Update(base, other), k) == if Has(other, k) then Get(other, k) else Get(base, k)
    decreases |other|
  {
    if other != [] {
      var x := other[0];
      assert other == [x] + other[1..];
      assert Distinct(other[1..]);
      UpdateGet(Put(base, x.0, x.1), other[1..], k);
      GetCons(x, other[1..], k);
      assert Has(other, k) <==> Get(other, k).Some?;
      assert Has(other[1..], k) <==> Get(other[1..], k).Some?;
    }
  }

  /** `load()`: the default settings, overridden key by key by the chosen file unless it is the default. */
  function LoadOf(env: Option<string>, user: string, default: string, present: string -> bool, read: string -> Fields): Result<(string, Fields)> {
    var chosen := ChooseSettingsFile(env, user, default, present);
    if chosen.Err? then Err(chosen.error)
    else
      var file := chosen.value;
      if !present(file) then Err(Exit(file + " does not exist."))
      else if file != default then Ok((file, Update(read(default), read(file))))
      else Ok((file, read(default)))
  }

  /**
   * With the environment's file given, the loaded settings take every key
   * of the chosen file, and from the defaults the keys it lacks.
   */
  lemma LoadMeans(env: string, user: string, default: string, present: string -> bool, read: string -> Fields, k: string)
    requires Distinct(read(SettingsFile(env, user, default, present)))
    ensures var r := LoadOf(Some(env), user, default, present, read);
      var file := SettingsFile(env, user, default, present);
      && (r.Ok? <==> present(file))
      && (r.Ok? ==> (r.value.0 == file &&
          Get(r.value.1, k) == if Has(read(file), k) then Get(read(file), k) else Get(read(default), k)))
  {
    var file := SettingsFile(env, user, default, present);
    if file != default {
      UpdateGet(read(default), read(file), k);
    } else {
      assert Has(read(file), k) <==> Get(read(file), k).Some?;
    }
  }

  // ---------------------------------------------------------------------
  // The store.
  // ---------------------------------------------------------------------

  /** A `SettingsBase`: the chosen file and the settings dict. */
  class SettingsStore {
    var settingsFile: string
    var settings: Fields

    /** `SettingsBase()` before `load`: no file and no settings. */
    constructor()
      ensures settingsFile == "" && settings == []
    {
      settingsFile, settings := "", [];
    }

    /**
     * `load()` followed, when asked, by `validate()`, with `env` the
     * `defaults.env_settings_file` attribute (`ShippedEnv` as shipped).
     */
    method Load(env: Option<string>, user: string, default: string, present: string -> bool, read: string -> Fields, validate: bool)
      returns (r: Result<()>)
      modifies this
      ensures env.None? ==> r == Err(NoEnvAttribute) && settingsFile == old(settingsFile) && settings == old(settings)
      ensures env.Some? ==> settingsFile == SettingsFile(env.value, user, default, present)
      ensures var l := LoadOf(env, user, default, present, read);
        if l.Err? then r == Err(l.error) && settings == old(settings)
        else settings == l.value.1 && r == if validate && !Valid(settings) then Err(ValidationError) else Ok(())
    {
      var chosen := ChooseSettingsFile(env, user, default, present);
      if chosen.Err? {
        return Err(chosen.error);
      }
      var file := chosen.value;
      settingsFile := file;
      if !present(file) {
        return Err(Exit(file + " does not exist."));
      }
      settings := read(default);
      if file != default {
        settings := Update(settings, read(file));
      }
      if validate && !Valid(settings) {
        return Err(ValidationError);
      }
      return Ok(());
    }

    /** `get(key, default)` */
    function Get(key: string, default: Value, reps: seq<(string, string)>, expand: string -> string): Result<Value>
      reads this
      requires forall i :: 0 <= i < |reps| ==> reps[i].0 != ""
    {
      Read(settings, key, default, reps, expand)
    }

    /** `set(key, value)`: the dict is written first and validated after, as the source does. */
    method Set(key: string, value: string) returns (r: Result<()>)
      modifies this
      ensures var e := SetEdit(old(settings), key, value);
        settings == (if e.Ok? then e.value else old(settings)) && settingsFile == old(settingsFile)
      ensures var f := SetOf(old(settings), key, value);
        r.Ok? == f.Ok? && (r.Err? ==> r.error == f.error)
    {
      var next := SetEdit(settings, key, value);
      if next.Err? {
        return Err(next.error);
      }
      settings := next.value;
      r := Validation(settings, key);
    }

    /** `add(key, value)` */
    method Add(key: string, value: string) returns (r: Result<()>)
      modifies this
      ensures var e := AddEdit(old(settings), key, value);
        settings == (if e.Ok? && e.value.Some? then e.value.value else old(settings)) && settingsFile == old(settingsFile)
      ensures var f := AddOf(old(settings), key, value);
        r.Ok? == f.Ok? && (r.Err? ==> r.error == f.error)
    {
      var next := AddEdit(settings, key, value);
      if next.Err? {
        return Err(next.error);
      }
      if next.value.Some? {
        settings := next.value.value;
        r := Validation(settings, key);
      } else {
        r := Ok(());
      }
    }

    /** `remove(key, value)` */
    method Remove(key: string, value: string) returns (r: Result<()>)
      modifies this
      ensures var e := RemoveEdit(old(settings), key, value);
        settings == (if e.Ok? then e.value else old(settings)) && settingsFile == old(settingsFile)
      ensures var f := RemoveOf(old(settings), key, value);
        r.Ok? == f.Ok? && (r.Err? ==> r.error == f.error)
    {
      var next := RemoveEdit(settings, key, value);
      if next.Err? {
        return Err(next.error);
      }
      settings := next.value;
      r := Validation(settings, key);
    }

    /** `delete(key)` */
    method Delete(key: string)
      modifies this
      ensures settings == DeleteOf(old(settings), key) && settingsFile == old(settingsFile)
    {
      if Has(settings, key) {
        settings := Json.Remove(settings, key);
      }
    }

    /** `update_param(command, param)`: a "key:value" param handed to `set`, `add` or `remove`; "rm" and any other command are ignored. */
    method UpdateParam(command: string, param: string) returns (r: Result<()>)
      modifies this
      ensures var e := UpdateParamAsWrittenOf(old(settings), command, param);
        r.Ok? == e.Ok? && (r.Ok? ==> settings == e.value) && (r.Err? ==> r.error == e.error)
      ensures settingsFile == old(settingsFile)
    {
      if !Contains(param, ":") {
        return Ok(());
      }
      var parts := Split1(param, ":");
      var key, value := parts[0], parts[1];
      if command == "set" {
        r := Set(key, value);
      } else if command == "add" {
        r := Add(key, value);
      } else if command == "remove" {
        r := Remove(key, value);
      } else {
        r := Ok(());
      }
    }

    /**
     * `update_params(params)`: a param failing the check is only warned
     * about, then split at its first ":", which raises ValueError when
     * there is none; an error leaves the updates so far.
     */
    method UpdateParams(params: seq<string>) returns (r: Result<()>)
      modifies this
      ensures var e := ParamsAsWritten(old(settings), params);
        r.Ok? == e.Ok? && (r.Ok? ==> settings == e.value) && (r.Err? ==> r.error == e.error)
      ensures settingsFile == old(settingsFile)
    {
      for i := 0 to |params|
        invariant ParamsAsWritten(old(settings), params) == ParamsAsWritten(settings, params[i..])
        invariant settingsFile == old(settingsFile)
      {
        assert params[i..][0] == params[i] && params[i..][1..] == params[i + 1..];
        var param := params[i];
        if !Contains(param, ":") {
          return Err(ValueError("not enough values to unpack (expected 2, got 1)"));
        }
        var parts := Split1(param, ":");
        r := UpdateParam(Lower(parts[0]), parts[1]);
        if r.Err? {
          return;
        }
      }
      return Ok(());
    }
  }
}
