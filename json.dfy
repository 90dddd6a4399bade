/**
 * Decoded JSON and YAML values as Python holds them: None, booleans, numbers,
 * strings, lists and dicts.  A dict keeps its insertion order, so it is a
 * list of (key, value) pairs; assigning to a key that is present keeps its
 * place, and a new key goes at the end.  Dict keys are strings, as they are
 * in every JSON document and in the blame summaries.
 */
module Json {
  import opened Wrappers
  import PyStr

  datatype Value =
    | Null
    | Bool(b: bool)
    | Int(i: int)
    | Float(r: real)
    | Str(s: string)
    | List(items: seq<Value>)
    | Dict(fields: seq<(string, Value)>)

  type Fields = seq<(string, Value)>

  /** Python truthiness. */
  predicate Truthy(v: Value) {
    match v
    case Null => false
    case Bool(b) => b
    case Int(i) => i != 0
    case Float(r) => r != 0.0
    case Str(s) => s != ""
    case List(xs) => xs != []
    case Dict(fs) => fs != []
  }

  /** The name Python gives the type of a decoded value, as error messages spell it. */
  function TypeName(v: Value): string {
    match v
    case Null => "NoneType"
    case Bool(_) => "bool"
    case Int(_) => "int"
    case Float(_) => "float"
    case Str(_) => "str"
    case List(_) => "list"
    case Dict(_) => "dict"
  }

  /**
   * Python's `str(v)`: a string as it stands, None, booleans and integers
   * as Python spells them; `show` stands for Python's rendering of a
   * float, a list or a dict.
   */
  function Text(v: Value, show: Value -> string): string {
    match v
    case Str(s) => s
    case Null => "None"
    case Bool(b) => if b then "True" else "False"
    case Int(i) => PyStr.IntToString(i)
    case _ => show(v)
  }

  /** `int(str(i))` gives an integer back, and `str` of a string is that string. */
  lemma TextInt(i: int, show: Value -> string)
    ensures PyStr.ParseInt(Text(Int(i), show)) == Ok(i)
  {
    if i < 0 {
      PyStr.ParseIntToStringNeg(-i);
    } else {
      PyStr.ParseIntToString(i);
    }
  }

  /** `isinstance(v, (int, float))`; a bool is an int in Python. */
  predicate IsNumber(v: Value) {
    v.Bool? || v.Int? || v.Float?
  }

  /** Python `+` on two numbers: int + int is an int, anything with a float is a float. */
  function Add(a: Value, b: Value): (r: Value)
    requires IsNumber(a) && IsNumber(b)
    ensures IsNumber(r) && Numeric(r) == Numeric(a) + Numeric(b)
    ensures a.Int? && b.Int? ==> r == Int(a.i + b.i)
  {
    if a.Float? || b.Float? then Float(Numeric(a) + Numeric(b))
    else Int(Whole(a) + Whole(b))
  }

  /** The value of an int or a bool. */
  function Whole(v: Value): int
    requires v.Bool? || v.Int?
  {
    if v.Bool? then (if v.b then 1 else 0) else v.i
  }

  /** The value of a number, as a real. */
  function Numeric(v: Value): real
    requires IsNumber(v)
  {
    if v.Float? then v.r else Whole(v) as real
  }

  /** The keys of a dict, in order. */
  function Keys(fs: Fields): (ks: seq<string>)
    ensures |ks| == |fs| && forall i :: 0 <= i < |fs| ==> ks[i] == fs[i].0
  {
    seq(|fs|, i requires 0 <= i < |fs| => fs[i].0)
  }

  /** No key occurs twice: what every Python dict satisfies. */
  predicate Distinct(fs: Fields) {
    forall i, j :: 0 <= i < j < |fs| ==> fs[i].0 != fs[j].0
  }

  /** `k in d` */
  predicate Has(fs: Fields, k: string) {
    k in Keys(fs)
  }

  /** The position of key k (the first, should the list hold it twice). */
  function Lookup(fs: Fields, k: string): (r: Option<nat>)
    ensures r.Some? ==> r.value < |fs| && fs[r.value].0 == k
    ensures r.Some? ==> forall j :: 0 <= j < r.value ==> fs[j].0 != k
    ensures r.None? <==> !Has(fs, k)
  {
    if fs == [] then None
    else if fs[0].0 == k then Some(0)
    else
      match Lookup(fs[1..], k)
      case None => None
      case Some(j) => Some(j + 1)
  }

  /** `d.get(k)`, with None for a missing key. */
  function Get(fs: Fields, k: string): (r: Option<Value>)
    ensures r.Some? <==> Has(fs, k)
    ensures r.Some? ==> exists i :: 0 <= i < |fs| && fs[i] == (k, r.value)
  {
    match Lookup(fs, k)
    case None => None
    case Some(i) => Some(fs[i].1)
  }

  /** `d[k] = v`: overwrite in place, or append a new key. */
  function Put(fs: Fields, k: string, v: Value): (r: Fields)
    ensures Get(r, k) == Some(v)
    ensures forall k' :: k' != k ==> Get(r, k') == Get(fs, k')
    ensures |r| == if Has(fs, k) then |fs| else |fs| + 1
    ensures Distinct(fs) ==> Distinct(r)
  {
    match Lookup(fs, k)
    case None => PutNew(fs, k, v); fs + [(k, v)]
    case Some(i) => PutOld(fs, i, k, v); fs[i := (k, v)]
  }

  /** What a dict of distinct keys holds at the key of its entry j. */
  lemma GetEntry(fs: Fields, j: nat)
    requires Distinct(fs) && j < |fs|
    ensures Get(fs, fs[j].0) == Some(fs[j].1)
  {
    assert Has(fs, fs[j].0) by {
      assert Keys(fs)[j] == fs[j].0;
    }
    var i := Lookup(fs, fs[j].0).value;
    assert i == j;
  }

  lemma PutNew(fs: Fields, k: string, v: Value)
    requires !Has(fs, k)
    ensures var r := fs + [(k, v)];
      && Get(r, k) == Some(v) && (forall k' :: k' != k ==> Get(r, k') == Get(fs, k'))
      && Keys(r) == Keys(fs) + [k] && (Distinct(fs) ==> Distinct(r))
  {
    var r := fs + [(k, v)];
    LookupAppend(fs, (k, v), k);
    forall k' | k' != k ensures Get(r, k') == Get(fs, k') {
      LookupAppend(fs, (k, v), k');
    }
    assert Keys(r) == Keys(fs) + [k];
  }

  lemma PutOld(fs: Fields, i: nat, k: string, v: Value)
    requires Lookup(fs, k) == Some(i)
    ensures var r := fs[i := (k, v)];
      && Get(r, k) == Some(v) && (forall k' :: k' != k ==> Get(r, k') == Get(fs, k'))
      && Keys(r) == Keys(fs) && (Distinct(fs) ==> Distinct(r))
  {
    var r := fs[i := (k, v)];
    assert Keys(r) == Keys(fs);
    forall k' ensures Lookup(r, k') == Lookup(fs, k') {
      LookupSameKeys(fs, r, k');
    }
  }

  /** Looking a key up after appending a pair. */
  lemma {:induction false} LookupAppend(fs: Fields, x: (string, Value), k: string)
    ensures Lookup(fs + [x], k) ==
      if Has(fs, k) then Lookup(fs, k) else if x.0 == k then Some(|fs|) else None
  {
    if fs != [] {
      assert (fs + [x])[1..] == fs[1..] + [x];
      LookupAppend(fs[1..], x, k);
    }
  }

  /** Lookup only depends on the keys. */
  lemma {:induction false} LookupSameKeys(a: Fields, b: Fields, k: string)
    requires Keys(a) == Keys(b)
    ensures Lookup(a, k) == Lookup(b, k)
  {
    if a != [] {
      assert Keys(a[1..]) == Keys(a)[1..] && Keys(b[1..]) == Keys(b)[1..];
      LookupSameKeys(a[1..], b[1..], k);
    }
  }

  /** `del d[k]` / `d.pop(k)`: the dict without key k, the other pairs in order. */
  function Remove(fs: Fields, k: string): (r: Fields)
    ensures |r| <= |fs|
  {
    if fs == [] then []
    else if fs[0].0 == k then Remove(fs[1..], k)
    else [fs[0]] + Remove(fs[1..], k)
  }

  /** After removing k, k is absent and every other key reads as before. */
  lemma {:induction false} RemoveGet(fs: Fields, k: string, k': string)
    ensures Get(Remove(fs, k), k') == if k' == k then None else Get(fs, k')
  {
    if fs != [] {
      RemoveGet(fs[1..], k, k');
      assert fs == [fs[0]] + fs[1..];
      GetCons(fs[0], fs[1..], k');
      if fs[0].0 != k {
        GetCons(fs[0], Remove(fs[1..], k), k');
      }
    }
  }

  /** Looking a key up in a dict whose first pair is x. */
  lemma GetCons(x: (string, Value), t: Fields, k: string)
    ensures Get([x] + t, k) == if x.0 == k then Some(x.1) else Get(t, k)
  {
    var fs := [x] + t;
    assert fs[0] == x && fs[1..] == t;
    if x.0 != k {
      match Lookup(t, k)
      case None =>
      case Some(j) => assert fs[j + 1] == t[j];
    }
  }

  /** Removing a key that is absent changes nothing. */
  lemma {:induction false} RemoveAbsent(fs: Fields, k: string)
    requires !Has(fs, k)
    ensures Remove(fs, k) == fs
  {
    if fs != [] {
      assert fs[0].0 == Keys(fs)[0];
      RemoveAbsent(fs[1..], k);
      assert fs == [fs[0]] + fs[1..];
    }
  }
}
