/**
 * The table a client prints for an endpoint's result (`Table` in
 * citelang/main/result.py, `Result` in citelang/main/table.py; the two
 * classes do the same work).  A list result is completed so that every
 * entry has every field, the widest value of each field that may not be
 * truncated is recorded, and rows are produced cell by cell, cut to the
 * width left for each column.
 *
 * Python iterates the set of field names in an order it does not promise;
 * the model takes that order as a parameter (`order`, or `enumerate` for
 * the set a list yields).  `str()` of a value is the parameter `show`, and
 * the terminal's width is `terminal` (None when the size cannot be read).
 */
module ResultTable {
  import opened Wrappers
  import opened Json
  import opened PyStr
  import opened Endpoints

  // ---------------------------------------------------------------------
  // Completing a list of entries.
  // ---------------------------------------------------------------------

  /** Every entry is a dict, so `entry.keys()` succeeds on each. */
  predicate Dicts(items: seq<Value>) {
    forall k :: 0 <= k < |items| ==> items[k].Dict?
  }

  /** The names `fields.add` collects from the dict entries. */
  function KeySet(items: seq<Value>): (r: set<string>)
    ensures forall f :: f in r <==> exists k :: 0 <= k < |items| && items[k].Dict? && Has(items[k].fields, f)
  {
    if items == [] then {}
    else
      var e := items[|items| - 1];
      var front := KeySet(items[..|items| - 1]);
      var mine := if e.Dict? then set f | f in Keys(e.fields) else {};
      assert forall k :: 0 <= k < |items| - 1 ==> items[..|items| - 1][k] == items[k];
      front + mine
  }

  /** `order` lists the members of `s`, each once: one way for Python to iterate `s`. */
  ghost predicate Enumerates(order: seq<string>, s: set<string>) {
    && (forall f :: f in order <==> f in s)
    && (forall i, j :: 0 <= i < j < |order| ==> order[i] != order[j])
  }

  /** `entry[field]` once the entry is completed: its own value, or "" when it lacked the field. */
  function Cell(e: Fields, f: string): Value {
    Get(e, f).GetOr(Str(""))
  }

  /** The entry after `if field not in entry: entry[field] = ""` for each of the fields in turn. */
  function Fill(e: Fields, fs: seq<string>): Fields
  {
    if fs == [] then e
    else
      var p := Fill(e, fs[..|fs| - 1]);
      var f := fs[|fs| - 1];
      if Has(p, f) then p else Put(p, f, Str(""))
  }

  /** A completed entry has every field: its own values are unchanged, the missing ones are "". */
  lemma {:induction false} FillGet(e: Fields, fs: seq<string>, k: string)
    ensures Get(Fill(e, fs), k) == if k in fs then Some(Cell(e, k)) else Get(e, k)
  {
    if fs != [] {
      var front, last := fs[..|fs| - 1], fs[|fs| - 1];
      FillGet(e, front, k);
      if k in front {
        var i :| 0 <= i < |front| && front[i] == k;
        assert fs[i] == k;
      }
      if k in fs && k != last {
        var i :| 0 <= i < |fs| && fs[i] == k;
        assert |front| == |fs| - 1 && i != |fs| - 1;
        assert front[i] == k;
      }
    }
  }

  /** Completing keeps the keys distinct. */
  lemma {:induction false} FillDistinct(e: Fields, fs: seq<string>)
    requires Distinct(e)
    ensures Distinct(Fill(e, fs))
  {
    if fs != [] {
      FillDistinct(e, fs[..|fs| - 1]);
    }
  }

  /** `len(v)`: strings, lists and dicts have a length; anything else raises TypeError. */
  function Len(v: Value): (r: Result<nat>)
    ensures r.Ok? <==> v.Str? || v.List? || v.Dict?
  {
    match v
    case Str(s) => Ok(|s|)
    case List(xs) => Ok(|xs|)
    case Dict(fs) => Ok(|fs|)
    case _ => Err(TypeError("object has no len()"))
  }

  /** A recorded width; every value `max_widths` holds is an int. */
  function Width(v: Value): int {
    if v.Int? then v.i else 0
  }

  /** The recorded width after seeing a value of length n: n if nothing was recorded or n is larger. */
  function Wider(prev: Option<Value>, n: nat): int {
    if prev.None? || Width(prev.value) < n then n else Width(prev.value)
  }

  /** One `field` of one entry: record its length when it may not be truncated. */
  function Widen(w: Fields, f: string, v: Value, tl: seq<string>): Result<Fields> {
    if f !in tl then Ok(w)
    else
      match Len(v)
      case Err(e) => Err(e)
      case Ok(n) =>
        if !Has(w, f) then Ok(Put(w, f, Int(n)))
        else if Width(Get(w, f).value) < n then Ok(Put(w, f, Int(n)))
        else Ok(w)
  }

  /** The inner loop over the fields for one entry. */
  function WidenEntry(w: Fields, e: Fields, fs: seq<string>, tl: seq<string>): Result<Fields> {
    if fs == [] then Ok(w)
    else
      match WidenEntry(w, e, fs[..|fs| - 1], tl)
      case Err(x) => Err(x)
      case Ok(p) => Widen(p, fs[|fs| - 1], Cell(e, fs[|fs| - 1]), tl)
  }

  /** Both loops over the entries, starting from the widths w. */
  function WidenAll(w: Fields, es: seq<Fields>, fs: seq<string>, tl: seq<string>): Result<Fields> {
    if es == [] then Ok(w)
    else
      match WidenAll(w, es[..|es| - 1], fs, tl)
      case Err(x) => Err(x)
      case Ok(p) => WidenEntry(p, es[|es| - 1], fs, tl)
  }

  /** Every recorded width is an int. */
  ghost predicate IntValued(w: Fields) {
    forall k :: Get(w, k).Some? ==> Get(w, k).value.Int?
  }

  /** The length of a sized value (0 for an unsized one, which raises before it is used). */
  function LenOf(v: Value): nat {
    match Len(v)
    case Ok(n) => n
    case Err(_) => 0
  }

  /** The fields loop fails exactly on a field to record whose value has no length. */
  lemma {:induction false} WidenEntryOk(w: Fields, e: Fields, fs: seq<string>, tl: seq<string>)
    ensures WidenEntry(w, e, fs, tl).Ok? <==> forall f :: f in fs && f in tl ==> Len(Cell(e, f)).Ok?
  {
    if fs != [] {
      var front, last := fs[..|fs| - 1], fs[|fs| - 1];
      WidenEntryOk(w, e, front, tl);
      forall f | f in fs ensures f in front || f == last {
        var i :| 0 <= i < |fs| && fs[i] == f;
        if i < |front| { assert front[i] == f; }
      }
      forall f | f in front ensures f in fs {
        var i :| 0 <= i < |front| && front[i] == f;
        assert fs[i] == f;
      }
    }
  }

  /** One entry raises each recorded width to the length of the entry's value, for the fields to record. */
  lemma {:induction false} WidenEntryAt(w: Fields, e: Fields, fs: seq<string>, tl: seq<string>, k: string)
    requires WidenEntry(w, e, fs, tl).Ok? && IntValued(w)
    ensures IntValued(WidenEntry(w, e, fs, tl).value)
    ensures Get(WidenEntry(w, e, fs, tl).value, k) ==
      if k in fs && k in tl then Some(Int(Wider(Get(w, k), LenOf(Cell(e, k))))) else Get(w, k)
  {
    if fs != [] {
      var front, last := fs[..|fs| - 1], fs[|fs| - 1];
      WidenEntryAt(w, e, front, tl, k);
      var p := WidenEntry(w, e, front, tl).value;
      WidenStep(p, last, Cell(e, last), tl, k);
      if k in front {
        var i :| 0 <= i < |front| && front[i] == k;
        assert fs[i] == k;
      }
      if k in fs && k != last {
        var i :| 0 <= i < |fs| && fs[i] == k;
        assert |front| == |fs| - 1 && i != |fs| - 1;
        assert front[i] == k;
      }
    }
  }

  /** One field of one entry, read at key k. */
  lemma WidenStep(p: Fields, f: string, v: Value, tl: seq<string>, k: string)
    requires Widen(p, f, v, tl).Ok? && IntValued(p)
    ensures IntValued(Widen(p, f, v, tl).value)
    ensures Get(Widen(p, f, v, tl).value, k) ==
      if k == f && f in tl then Some(Int(Wider(Get(p, k), LenOf(v)))) else Get(p, k)
  {
    if f in tl && Has(p, f) {
      assert Get(p, f).value.Int?;
    }
  }

  /** A failure on a prefix of the fields is a failure on all of them. */
  lemma {:induction false} WidenEntryPrefix(w: Fields, e: Fields, fs: seq<string>, tl: seq<string>, n: nat)
    requires n <= |fs| && WidenEntry(w, e, fs[..n], tl).Err?
    ensures WidenEntry(w, e, fs, tl).Err?
  {
    WidenEntryOk(w, e, fs[..n], tl);
    WidenEntryOk(w, e, fs, tl);
    var f :| f in fs[..n] && f in tl && !Len(Cell(e, f)).Ok?;
    var i :| 0 <= i < n && fs[..n][i] == f;
    assert fs[i] == f;
  }

  /** The entries loop fails exactly on an entry and field to record whose value has no length. */
  lemma {:induction false} WidenAllOk(w: Fields, es: seq<Fields>, fs: seq<string>, tl: seq<string>)
    ensures WidenAll(w, es, fs, tl).Ok? <==>
      forall j, f :: 0 <= j < |es| && f in fs && f in tl ==> Len(Cell(es[j], f)).Ok?
  {
    if es != [] {
      var front, last := es[..|es| - 1], es[|es| - 1];
      WidenAllOk(w, front, fs, tl);
      assert forall j :: 0 <= j < |front| ==> front[j] == es[j];
      match WidenAll(w, front, fs, tl)
      case Err(_) =>
      case Ok(p) => WidenEntryOk(p, last, fs, tl);
    }
  }

  /** The lengths of the entries' values at k. */
  function Lens(es: seq<Fields>, k: string): (r: seq<nat>)
    ensures |r| == |es| && forall j :: 0 <= j < |es| ==> r[j] == LenOf(Cell(es[j], k))
  {
    seq(|es|, j requires 0 <= j < |es| => LenOf(Cell(es[j], k)))
  }

  /** m is the largest of the recorded width g and the lengths ls, and is one of them. */
  ghost predicate IsMax(g: Option<Value>, ls: seq<nat>, m: int) {
    && (forall j :: 0 <= j < |ls| ==> ls[j] <= m)
    && (g.Some? ==> Width(g.value) <= m)
    && ((g.Some? && Width(g.value) == m) || exists j :: 0 <= j < |ls| && ls[j] == m)
  }

  /** After the loops each field to record holds the widest of its old width and its values; the rest is unchanged. */
  lemma {:induction false} WidenAllAt(w: Fields, es: seq<Fields>, fs: seq<string>, tl: seq<string>, k: string)
    requires WidenAll(w, es, fs, tl).Ok? && IntValued(w)
    ensures IntValued(WidenAll(w, es, fs, tl).value)
    ensures !(k in fs && k in tl) || es == [] ==> Get(WidenAll(w, es, fs, tl).value, k) == Get(w, k)
    ensures k in fs && k in tl && es != [] ==>
      var g := Get(WidenAll(w, es, fs, tl).value, k);
      g.Some? && g.value.Int? && IsMax(Get(w, k), Lens(es, k), g.value.i)
  {
    if es != [] {
      var front, last := es[..|es| - 1], es[|es| - 1];
      WidenAllAt(w, front, fs, tl, k);
      var p := WidenAll(w, front, fs, tl).value;
      WidenEntryAt(p, last, fs, tl, k);
      if k in fs && k in tl {
        var ls := Lens(es, k);
        assert ls[..|ls| - 1] == Lens(front, k);
        if front == [] {
          IsMaxFirst(Get(w, k), ls);
        } else {
          IsMaxSnoc(Get(w, k), ls, Get(p, k).value.i);
        }
      }
    }
  }

  lemma IsMaxFirst(g: Option<Value>, ls: seq<nat>)
    requires |ls| == 1
    ensures IsMax(g, ls, Wider(g, ls[0]))
  {
  }

  lemma IsMaxSnoc(g: Option<Value>, ls: seq<nat>, m': int)
    requires |ls| > 1 && IsMax(g, ls[..|ls| - 1], m')
    ensures IsMax(g, ls, Wider(Some(Int(m')), ls[|ls| - 1]))
  {
    var front := ls[..|ls| - 1];
    var m := Wider(Some(Int(m')), ls[|ls| - 1]);
    if m == m' && !(g.Some? && Width(g.value) == m') {
      var j :| 0 <= j < |front| && front[j] == m';
      assert ls[j] == m;
    }
  }

  /** A failure on a prefix of the entries is the failure of all of them. */
  lemma {:induction false} WidenAllPrefix(w: Fields, es: seq<Fields>, fs: seq<string>, tl: seq<string>, n: nat)
    requires n <= |es| && WidenAll(w, es[..n], fs, tl).Err?
    ensures WidenAll(w, es, fs, tl) == WidenAll(w, es[..n], fs, tl)
    decreases |es|
  {
    if n < |es| {
      assert es[..|es| - 1][..n] == es[..n];
      WidenAllPrefix(w, es[..|es| - 1], fs, tl, n);
    } else {
      assert es[..n] == es;
    }
  }

  /**
   * Widening by one more entry: the result is that entry's widening of the
   * widths so far, and an error there is the error of the whole walk.
   */
  lemma WidenAllStep(w0: Fields, es: seq<Fields>, fs: seq<string>, tl: seq<string>, j: nat, w: Fields)
    requires j < |es| && WidenAll(w0, es[..j], fs, tl) == Ok(w)
    ensures WidenAll(w0, es[..j + 1], fs, tl) == WidenEntry(w, es[j], fs, tl)
    ensures WidenEntry(w, es[j], fs, tl).Err? ==> WidenAll(w0, es, fs, tl).Err?
  {
    assert es[..j + 1][..j] == es[..j];
    if WidenEntry(w, es[j], fs, tl).Err? {
      WidenAllPrefix(w0, es, fs, tl, j + 1);
    }
  }

  /** The fields of the dict entries. */
  function EntryFields(items: seq<Value>): (r: seq<Fields>)
    requires Dicts(items)
    ensures |r| == |items| && forall k :: 0 <= k < |items| ==> r[k] == items[k].fields
  {
    seq(|items|, k requires 0 <= k < |items| => items[k].fields)
  }

  /** The entries after completion. */
  function Filled(items: seq<Value>, fs: seq<string>): (r: seq<Value>)
    requires Dicts(items)
    ensures |r| == |items| && forall k :: 0 <= k < |items| ==> r[k] == Dict(Fill(items[k].fields, fs))
  {
    seq(|items|, k requires 0 <= k < |items| => Dict(Fill(items[k].fields, fs)))
  }

  /** After completion every entry has every field of any entry: its own value, or "" where it had none. */
  lemma CompletedEntries(items: seq<Value>, order: seq<string>, j: nat, k: string)
    requires Dicts(items) && Enumerates(order, KeySet(items)) && j < |items|
    ensures Get(Filled(items, order)[j].fields, k) ==
      if k in KeySet(items) then Some(Cell(items[j].fields, k)) else None
  {
    FillGet(items[j].fields, order, k);
  }

  /**
   * Starting from no widths, completion fails exactly when a field not to
   * truncate holds a value with no length; otherwise each such field that
   * occurs records the largest length of its values, and nothing else is
   * recorded.
   */
  lemma CompletedWidths(items: seq<Value>, order: seq<string>, tl: seq<string>, k: string)
    requires Dicts(items) && Enumerates(order, KeySet(items))
    ensures WidenAll([], EntryFields(items), order, tl).Ok? <==>
      forall j, f :: 0 <= j < |items| && f in KeySet(items) && f in tl ==> Len(Cell(items[j].fields, f)).Ok?
    ensures WidenAll([], EntryFields(items), order, tl).Ok? ==>
      var g := Get(WidenAll([], EntryFields(items), order, tl).value, k);
      && (g.Some? <==> k in KeySet(items) && k in tl)
      && (g.Some? ==> g.value.Int? && IsMax(None, Lens(EntryFields(items), k), g.value.i))
  {
    var es := EntryFields(items);
    WidenAllOk([], es, order, tl);
    if WidenAll([], es, order, tl).Ok? {
      WidenAllAt([], es, order, tl, k);
    }
  }

  // ---------------------------------------------------------------------
  // Column width.
  // ---------------------------------------------------------------------

  /** `int(a / b)`: true division, then truncation toward zero. */
  function TruncDiv(a: int, b: int): (q: int)
    requires b != 0
  {
    var n := (if a < 0 then -a else a) / (if b < 0 then -b else b);
    if (a < 0) != (b < 0) then -n else n
  }

  /** For a non-negative dividend and a positive divisor the quotient is the floor. */
  lemma TruncDivBounds(a: int, b: int)
    requires a >= 0 && b > 0
    ensures TruncDiv(a, b) >= 0 && TruncDiv(a, b) * b <= a < (TruncDiv(a, b) + 1) * b
  {
    var q := a / b;
    assert TruncDiv(a, b) == q;
    assert a == q * b + a % b && 0 <= a % b < b;
    assert (q + 1) * b == q * b + b;
    assert q * b <= a;
    if q < 0 {
      MulNonPositive(q + 1, b);
    }
  }

  lemma MulNonPositive(x: int, y: int)
    requires x <= 0 && y > 0
    ensures x * y <= 0
  {
  }

  /** For a non-negative dividend and a negative divisor the quotient is minus the floor of a / -b. */
  lemma TruncDivNegative(a: int, b: int)
    requires a >= 0 && b < 0
    ensures TruncDiv(a, b) == -TruncDiv(a, -b) && TruncDiv(a, b) <= 0
  {
  }

  /** The recorded widths summed: what the loop subtracts from the width. */
  function SumWidths(w: Fields): int {
    if w == [] then 0 else SumWidths(w[..|w| - 1]) + Width(w[|w| - 1].1)
  }

  /**
   * `available_width` for a terminal `width` columns wide, `ncols` columns
   * and the widths w; the first division happens whatever the outcome.
   */
  function AvailableWidthOf(width: int, ncols: nat, w: Fields): Result<int> {
    if ncols == 0 then Err(ZeroDivision)
    else
      var updated := width - SumWidths(w);
      if updated < 0 then Ok(TruncDiv(width, ncols))
      else if ncols == |w| then Err(ZeroDivision)
      else Ok(TruncDiv(updated, ncols - |w|))
  }

  /** The width of a terminal whose size cannot be read. */
  const DefaultWidth := 120

  /**
   * The width left for each column: an even share of the terminal when the
   * fields not to truncate do not fit, otherwise an even share, among the
   * other columns, of what those fields leave.
   */
  lemma AvailableWidthMeans(width: nat, ncols: nat, w: Fields)
    ensures AvailableWidthOf(width, ncols, w).Err? <==> ncols == 0 || (width >= SumWidths(w) && ncols == |w|)
    ensures AvailableWidthOf(width, ncols, w).Ok? && width < SumWidths(w) ==>
      var r := AvailableWidthOf(width, ncols, w).value;
      r >= 0 && r * ncols <= width < (r + 1) * ncols
    ensures AvailableWidthOf(width, ncols, w).Ok? && width >= SumWidths(w) && ncols > |w| ==>
      var r := AvailableWidthOf(width, ncols, w).value;
      r >= 0 && r * (ncols - |w|) <= width - SumWidths(w) < (r + 1) * (ncols - |w|)
    ensures AvailableWidthOf(width, ncols, w).Ok? && width >= SumWidths(w) && ncols < |w| ==>
      AvailableWidthOf(width, ncols, w).value <= 0
  {
    if ncols > 0 {
      var updated := width - SumWidths(w);
      if updated < 0 {
        TruncDivBounds(width, ncols);
      } else if ncols > |w| {
        TruncDivBounds(updated, ncols - |w|);
      } else if ncols < |w| {
        TruncDivNegative(updated, ncols - |w|);
      }
    }
  }

  // ---------------------------------------------------------------------
  // Columns and rows.
  // ---------------------------------------------------------------------

  /** `list(data[0].keys())` for the flattened rows `data`. */
  function FirstRowKeys(rows: Value): (r: Result<seq<string>>)
    ensures r.Ok? <==> rows.List? && rows.items != [] && rows.items[0].Dict?
    ensures r.Ok? ==> r.value == Keys(rows.items[0].fields)
  {
    match rows
    case List(xs) =>
      if xs == [] then Err(IndexError("list index out of range"))
      else if xs[0].Dict? then Ok(Keys(xs[0].fields))
      else Err(AttributeError("object has no attribute 'keys'"))
    case Dict(_) => Err(KeyError("0"))
    case Str(s) => if s == "" then Err(IndexError("string index out of range")) else Err(AttributeError("object has no attribute 'keys'"))
    case _ => Err(TypeError("object is not subscriptable"))
  }

  /** The keys not in the skip list, in their order. */
  function Unskipped(keys: seq<string>, skip: seq<string>): (r: seq<string>)
  {
    if keys == [] then []
    else
      var front := Unskipped(keys[..|keys| - 1], skip);
      var last := keys[|keys| - 1];
      if last in skip then front else front + [last]
  }

  /** A column is a key not skipped. */
  lemma {:induction false} UnskippedMembers(keys: seq<string>, skip: seq<string>, c: string)
    ensures c in Unskipped(keys, skip) <==> c in keys && c !in skip
  {
    if keys != [] {
      var front, last := keys[..|keys| - 1], keys[|keys| - 1];
      UnskippedMembers(front, skip, c);
      if c in front {
        var i :| 0 <= i < |front| && front[i] == c;
        assert keys[i] == c;
      }
      if c in keys && c != last {
        var i :| 0 <= i < |keys| && keys[i] == c;
        assert |front| == |keys| - 1 && i != |keys| - 1;
        assert front[i] == c;
      }
    }
  }

  /** Skipping keeps the keys' order: the columns of a concatenation are the columns of each part. */
  lemma {:induction false} UnskippedAppend(a: seq<string>, b: seq<string>, skip: seq<string>)
    ensures Unskipped(a + b, skip) == Unskipped(a, skip) + Unskipped(b, skip)
    decreases |b|
  {
    if b == [] {
      assert a + b == a;
    } else {
      var front := b[..|b| - 1];
      assert (a + b)[..|a + b| - 1] == a + front;
      UnskippedAppend(a, front, skip);
    }
  }

  /** With nothing to skip every key is a column, in order. */
  lemma {:induction false} UnskippedNone(keys: seq<string>, skip: seq<string>)
    requires forall i :: 0 <= i < |keys| ==> keys[i] !in skip
    ensures Unskipped(keys, skip) == keys
  {
    if keys != [] {
      UnskippedNone(keys[..|keys| - 1], skip);
    }
  }

  /** The loop of `table_columns`. */
  method CollectColumns(keys: seq<string>, skip: seq<string>) returns (columns: seq<string>)
    ensures columns == Unskipped(keys, skip)
  {
    columns := [];
    var i := 0;
    while i < |keys|
      invariant 0 <= i <= |keys| && columns == Unskipped(keys[..i], skip)
    {
      assert keys[..i + 1][..i] == keys[..i];
      if keys[i] !in skip {
        columns := columns + [keys[i]];
      }
      i := i + 1;
    }
    assert keys[..i] == keys;
  }

  /** The rows `enumerate(data)` walks: a list's items, a dict's keys, a string's characters. */
  function RowsOf(data: Value): (r: Result<seq<Value>>)
    ensures data.List? ==> r == Ok(data.items)
    ensures r.Ok? ==> data.List? || data.Dict? || data.Str?
  {
    match data
    case List(xs) => Ok(xs)
    case Dict(fs) => Ok(seq(|fs|, i requires 0 <= i < |fs| => Str(fs[i].0)))
    case Str(s) => Ok(seq(|s|, i requires 0 <= i < |s| => Str([s[i]])))
    case _ => Err(TypeError("object is not iterable"))
  }

  /** `row[column]`: a dict row's value, or the exception indexing raises. */
  function RowCell(row: Value, column: string): (r: Result<Value>)
    ensures r.Ok? <==> row.Dict? && Has(row.fields, column)
    ensures r.Ok? ==> Get(row.fields, column) == Some(r.value)
  {
    if !row.Dict? then Err(TypeError("indices must be integers"))
    else
      match Get(row.fields, column)
      case None => Err(KeyError(column))
      case Some(v) => Ok(v)
  }

  /** The number of rows `table_rows` gets through: `if limit and i > limit: return`. */
  function RowCount(limit: int, n: nat): (c: nat)
    ensures c <= n
    ensures limit == 0 ==> c == n
    ensures limit < 0 ==> c == 0
    ensures limit > 0 ==> c == if n <= limit then n else limit + 1
  {
    if limit == 0 then n
    else if limit < 0 then 0
    else if n <= limit then n else limit + 1
  }

  /** `content[:n]` with Python's meaning for a negative bound. */
  function PyPrefix(s: string, n: int): (r: string)
    ensures StartsWith(s, r)
    ensures 0 <= n <= |s| ==> |r| == n
    ensures n > |s| ==> r == s
    ensures n < 0 ==> |r| == if |s| + n > 0 then |s| + n else 0
  {
    if n >= |s| then s
    else if n >= 0 then s[..n]
    else if |s| + n > 0 then s[..|s| + n]
    else ""
  }

  /** One cell: "" for a falsy value, else its text, cut to the column width plus "..." when too long and allowed. */
  function CellText(v: Value, show: Value -> string, cw: int, column: string, tl: seq<string>): string
  {
    if !Truthy(v) then ""
    else
      var content := Text(v, show);
      if content != "" && |content| > cw && column !in tl then PyPrefix(content, cw) + "..." else content
  }

  /** A cell is its text, or, cut, the first column-width characters of it followed by "...". */
  lemma CellTextMeans(v: Value, show: Value -> string, cw: int, column: string, tl: seq<string>)
    ensures !Truthy(v) ==> CellText(v, show, cw, column, tl) == ""
    ensures Truthy(v) && (|Text(v, show)| <= cw || column in tl) ==> CellText(v, show, cw, column, tl) == Text(v, show)
    ensures Truthy(v) && 0 <= cw < |Text(v, show)| && column !in tl ==>
      var r := CellText(v, show, cw, column, tl);
      |r| == cw + 3 && r[..cw] == Text(v, show)[..cw] && r[cw..] == "..."
    ensures v.Str? && v.s != "" && (|v.s| <= cw || column in tl) ==> CellText(v, show, cw, column, tl) == v.s
    ensures v.Int? && v.i != 0 && (|IntToString(v.i)| <= cw || column in tl) ==> CellText(v, show, cw, column, tl) == IntToString(v.i)
  {
  }

  // ---------------------------------------------------------------------
  // The table object.
  // ---------------------------------------------------------------------

  /** `Result` in table.py (`Table` in result.py): the endpoint's data and the widths of the fields not to truncate. */
  class Table {
    const endpoint: Endpoint
    /** `self.data` */
    var data: Value
    /** `self.max_widths` */
    var maxWidths: Fields

    /** The attributes `__init__` sets before completing the data. */
    constructor(endpoint: Endpoint, data: Value)
      ensures this.endpoint == endpoint && this.data == data && maxWidths == []
    {
      this.endpoint := endpoint;
      this.data := data;
      maxWidths := [];
    }

    /**
     * `ensure_complete_list`, with `order` the order in which Python walks
     * the set of field names.  A non-dict entry makes `entry.keys()` raise
     * before anything changes; a value with no length in a field not to
     * truncate makes `len` raise midway.
     */
    method EnsureCompleteList(order: seq<string>) returns (r: Result<()>)
      requires data.List? && Enumerates(order, KeySet(data.items))
      modifies this
      ensures !Dicts(old(data).items) ==> r.Err? && data == old(data) && maxWidths == old(maxWidths)
      ensures Dicts(old(data).items) ==>
        var w := WidenAll(old(maxWidths), EntryFields(old(data).items), order, TruncateList(endpoint.kind));
        && (r.Ok? <==> w.Ok?)
        && (r.Ok? ==> data == List(Filled(old(data).items, order)) && maxWidths == w.value)
    {
      var items := data.items;
      if !Dicts(items) {
        return Err(AttributeError("object has no attribute 'keys'"));
      }
      var out, res := CompleteEntries(items, order, TruncateList(endpoint.kind), maxWidths);
      data := List(out);
      if res.Ok? {
        maxWidths := res.value;
        r := Ok(());
      } else {
        r := Err(res.error);
      }
    }

    /** `available_width(columns)`, the terminal `terminal` columns wide or unreadable. */
    method AvailableWidth(columns: seq<string>, terminal: Option<nat>) returns (r: Result<int>)
      ensures r == AvailableWidthOf(terminal.GetOr(DefaultWidth), |columns|, maxWidths)
    {
      var width := terminal.GetOr(DefaultWidth);
      if |columns| == 0 {
        return Err(ZeroDivision);
      }
      var columnWidth := TruncDiv(width, |columns|);
      var updated := width;
      var i := 0;
      while i < |maxWidths|
        invariant 0 <= i <= |maxWidths| && updated == width - SumWidths(maxWidths[..i])
      {
        assert maxWidths[..i + 1][..i] == maxWidths[..i];
        updated := updated - Width(maxWidths[i].1);
        i := i + 1;
      }
      assert maxWidths[..i] == maxWidths;
      if updated < 0 {
        return Ok(columnWidth);
      }
      if |columns| == |maxWidths| {
        return Err(ZeroDivision);
      }
      return Ok(TruncDiv(updated, |columns| - |maxWidths|));
    }

    /**
     * `table_columns`: the keys of the first flattened row, in order, less
     * the skip list.  Flattening renames the data's items in place.
     */
    method TableColumns() returns (r: Result<seq<string>>)
      modifies this
      ensures maxWidths == old(maxWidths)
      ensures TableData(endpoint.kind, old(data)).Err? ==> r.Err? && data == old(data)
      ensures TableData(endpoint.kind, old(data)).Ok? ==>
        var t := TableData(endpoint.kind, old(data)).value;
        && data == t.0
        && (r.Ok? <==> FirstRowKeys(t.1).Ok?)
        && (r.Ok? ==> r.value == Unskipped(FirstRowKeys(t.1).value, SkipList(endpoint.kind)))
    {
      var t := TableData(endpoint.kind, data);
      if t.Err? {
        return Err(t.error);
      }
      data := t.value.0;
      var keys := FirstRowKeys(t.value.1);
      if keys.Err? {
        return Err(keys.error);
      }
      var columns := CollectColumns(keys.value, SkipList(endpoint.kind));
      return Ok(columns);
    }

    /**
     * `table_rows(columns, limit)` run to its end: the rows it yields and
     * the exception, if any, that stops it.
     */
    method TableRows(columns: seq<string>, limit: int, show: Value -> string, terminal: Option<nat>)
      returns (rows: seq<seq<string>>, err: Option<Error>)
      modifies this
      ensures maxWidths == old(maxWidths)
      ensures AvailableWidthOf(terminal.GetOr(DefaultWidth), |columns|, maxWidths).Err? ==>
        rows == [] && err.Some? && data == old(data)
      ensures AvailableWidthOf(terminal.GetOr(DefaultWidth), |columns|, maxWidths).Ok? ==>
        var cw := AvailableWidthOf(terminal.GetOr(DefaultWidth), |columns|, maxWidths).value;
        var t := TableData(endpoint.kind, old(data));
        && (t.Err? ==> rows == [] && err.Some? && data == old(data))
        && (t.Ok? ==> data == t.value.0)
        && (t.Ok? && RowsOf(t.value.1).Err? ==> rows == [] && err.Some?)
        && (t.Ok? && RowsOf(t.value.1).Ok? ==>
              var rs := RowsOf(t.value.1).value;
              Rendered(rs, RowCount(limit, |rs|), columns, show, cw, TruncateList(endpoint.kind), rows, err))
    {
      var cw := AvailableWidth(columns, terminal);
      if cw.Err? {
        return [], Some(cw.error);
      }
      var t := TableData(endpoint.kind, data);
      if t.Err? {
        return [], Some(t.error);
      }
      data := t.value.0;
      var rs := RowsOf(t.value.1);
      if rs.Err? {
        return [], Some(rs.error);
      }
      rows, err := BuildRows(rs.value, RowCount(limit, |rs.value|), columns, show, cw.value, TruncateList(endpoint.kind));
    }
  }

  /**
   * The outer loop of `ensure_complete_list`: complete each entry in turn.
   * On an error, the entries as completed so far are returned with it.
   */
  method CompleteEntries(items: seq<Value>, order: seq<string>, tl: seq<string>, w0: Fields) returns (out: seq<Value>, r: Result<Fields>)
    requires Dicts(items)
    ensures r.Ok? <==> WidenAll(w0, EntryFields(items), order, tl).Ok?
    ensures r.Ok? ==> r == WidenAll(w0, EntryFields(items), order, tl) && out == Filled(items, order)
  {
    ghost var es := EntryFields(items);
    out := [];
    var w := w0;
    var j := 0;
    while j < |items|
      invariant 0 <= j <= |items| && |out| == j
      invariant forall k :: 0 <= k < j ==> out[k] == Dict(Fill(items[k].fields, order))
      invariant WidenAll(w0, es[..j], order, tl) == Ok(w)
    {
      assert es[j] == items[j].fields;
      var e, res := CompleteEntry(items[j].fields, order, tl, w);
      WidenAllStep(w0, es, order, tl, j, w);
      if res.Err? {
        out := out + [Dict(e)] + items[j + 1..];
        return out, Err(res.error);
      }
      w := res.value;
      var next := out + [Dict(e)];
      assert forall k :: 0 <= k < j ==> next[k] == out[k];
      assert next[j] == Dict(Fill(items[j].fields, order));
      out := next;
      j := j + 1;
    }
    assert es[..j] == es;
    r := Ok(w);
  }

  /**
   * The inner loop of `ensure_complete_list` for one entry e: fill each
   * missing field with "" and widen w for the fields not to truncate.  On
   * an error, the entry as filled so far is returned with it.
   */
  method CompleteEntry(e0: Fields, order: seq<string>, tl: seq<string>, w0: Fields) returns (e: Fields, r: Result<Fields>)
    ensures r.Ok? <==> WidenEntry(w0, e0, order, tl).Ok?
    ensures r.Ok? ==> e == Fill(e0, order) && r == WidenEntry(w0, e0, order, tl)
  {
    e := e0;
    var w := w0;
    var i := 0;
    while i < |order|
      invariant 0 <= i <= |order|
      invariant e == Fill(e0, order[..i])
      invariant WidenEntry(w0, e0, order[..i], tl) == Ok(w)
    {
      var f := order[i];
      assert order[..i + 1][..i] == order[..i];
      if !Has(e, f) {
        e := Put(e, f, Str(""));
      }
      FillGet(e0, order[..i + 1], f);
      if f in tl {
        var n := Len(Get(e, f).value);
        if n.Err? {
          WidenEntryPrefix(w0, e0, order, tl, i + 1);
          return e, Err(n.error);
        }
        if !Has(w, f) || Width(Get(w, f).value) < n.value {
          w := Put(w, f, Int(n.value));
        }
      }
      i := i + 1;
    }
    assert order[..i] == order;
    r := Ok(w);
  }

  /** Row i of the table: the cell text of each column. */
  function RowText(row: Value, columns: seq<string>, show: Value -> string, cw: int, tl: seq<string>): (r: seq<string>)
    requires Readable(row, columns)
    ensures |r| == |columns|
    ensures forall c :: 0 <= c < |columns| ==> r[c] == CellText(RowCell(row, columns[c]).value, show, cw, columns[c], tl)
  {
    seq(|columns|, c requires 0 <= c < |columns| => CellText(RowCell(row, columns[c]).value, show, cw, columns[c], tl))
  }

  /** Every column of the row can be read. */
  predicate Readable(row: Value, columns: seq<string>) {
    forall c :: 0 <= c < |columns| ==> RowCell(row, columns[c]).Ok?
  }

  /**
   * The outcome of walking the first n rows: either every row is rendered,
   * or the rows before the first one with an unreadable column are, and
   * the error that column raises ends the walk.
   */
  ghost predicate Rendered(rs: seq<Value>, n: nat, columns: seq<string>, show: Value -> string, cw: int, tl: seq<string>,
                           rows: seq<seq<string>>, err: Option<Error>) {
    && n <= |rs|
    && |rows| <= n
    && (forall i :: 0 <= i < |rows| ==> Readable(rs[i], columns) && rows[i] == RowText(rs[i], columns, show, cw, tl))
    && (err.None? <==> |rows| == n)
    && (err.Some? ==> !Readable(rs[|rows|], columns))
  }

  /** The loops of `table_rows` over the first n rows and their columns. */
  method BuildRows(rs: seq<Value>, n: nat, columns: seq<string>, show: Value -> string, cw: int, tl: seq<string>)
    returns (rows: seq<seq<string>>, err: Option<Error>)
    requires n <= |rs|
    ensures Rendered(rs, n, columns, show, cw, tl, rows, err)
  {
    rows := [];
    var i := 0;
    while i < n
      invariant 0 <= i <= n && |rows| == i
      invariant forall k :: 0 <= k < i ==> Readable(rs[k], columns) && rows[k] == RowText(rs[k], columns, show, cw, tl)
    {
      var parsed, e := BuildRow(rs[i], columns, show, cw, tl);
      if e.Some? {
        return rows, e;
      }
      rows := rows + [parsed];
      i := i + 1;
    }
    err := None;
  }

  /** The inner loop of `table_rows`: the cells of one row, or the exception reading a column raises. */
  method BuildRow(row: Value, columns: seq<string>, show: Value -> string, cw: int, tl: seq<string>)
    returns (parsed: seq<string>, err: Option<Error>)
    ensures err.None? <==> Readable(row, columns)
    ensures err.None? ==> parsed == RowText(row, columns, show, cw, tl)
  {
    parsed := [];
    var j := 0;
    while j < |columns|
      invariant 0 <= j <= |columns|
      invariant Readable(row, columns[..j])
      invariant parsed == RowText(row, columns[..j], show, cw, tl)
    {
      var cell := RowCell(row, columns[j]);
      if cell.Err? {
        assert !Readable(row, columns) by {
          assert columns[j] == columns[..j + 1][j];
        }
        return parsed, Some(cell.error);
      }
      RowTextSnoc(row, columns, j, show, cw, tl);
      parsed := parsed + [CellText(cell.value, show, cw, columns[j], tl)];
      j := j + 1;
    }
    assert columns[..j] == columns;
    err := None;
  }

  /** The text of one more column is the text so far and that column's cell. */
  lemma RowTextSnoc(row: Value, columns: seq<string>, j: nat, show: Value -> string, cw: int, tl: seq<string>)
    requires j < |columns| && Readable(row, columns[..j]) && RowCell(row, columns[j]).Ok?
    ensures Readable(row, columns[..j + 1])
    ensures RowText(row, columns[..j + 1], show, cw, tl) ==
      RowText(row, columns[..j], show, cw, tl) + [CellText(RowCell(row, columns[j]).value, show, cw, columns[j], tl)]
  {
    var a, b := columns[..j], columns[..j + 1];
    assert forall c :: 0 <= c < j ==> b[c] == a[c];
    assert b[j] == columns[j];
  }

  /** At most limit + 1 rows come out for a positive limit, all of them for 0, none for a negative one. */
  lemma RowsBound(rs: seq<Value>, limit: int, columns: seq<string>, show: Value -> string, cw: int, tl: seq<string>,
                  rows: seq<seq<string>>, err: Option<Error>)
    requires Rendered(rs, RowCount(limit, |rs|), columns, show, cw, tl, rows, err)
    ensures limit > 0 ==> |rows| <= limit + 1
    ensures limit < 0 ==> rows == [] && err.None?
    ensures err.None? && limit == 0 ==> |rows| == |rs|
    ensures err.None? && limit > 0 ==> |rows| == if |rs| <= limit then |rs| else limit + 1
  {
  }

  // ---------------------------------------------------------------------
  // Column titles, construction and `get_endpoint`.
  // ---------------------------------------------------------------------

  /** The title table.py gives a column: `column.capitalize()`. */
  function TitleOf(column: string): (r: string)
    ensures |r| == |column|
  {
    Capitalize(column)
  }

  function CapitalizeAll(parts: seq<string>): (r: seq<string>)
    ensures |r| == |parts| && forall i :: 0 <= i < |parts| ==> r[i] == Capitalize(parts[i])
  {
    seq(|parts|, i requires 0 <= i < |parts| => Capitalize(parts[i]))
  }

  /** The title result.py gives a column: each "_"-separated word capitalized, joined by spaces. */
  function WordsTitleOf(column: string): string {
    Join(CapitalizeAll(Split(column, "_")), " ")
  }

  /** Joining capitalized words with one-character separators keeps the length. */
  lemma {:induction false} JoinCapitalizedLength(parts: seq<string>)
    ensures |Join(CapitalizeAll(parts), " ")| == |Join(parts, "_")|
  {
    if |parts| > 1 {
      JoinCapitalizedLength(parts[1..]);
      assert CapitalizeAll(parts)[1..] == CapitalizeAll(parts[1..]);
    }
  }

  /** Both titles are as long as the column name. */
  lemma WordsTitleLength(column: string)
    ensures |WordsTitleOf(column)| == |TitleOf(column)| == |column|
  {
    JoinCapitalizedLength(Split(column, "_"));
  }

  /** For a name without "_" the two title rules agree. */
  lemma TitlesAgree(column: string)
    requires forall k :: 0 <= k < |column| ==> column[k] != '_'
    ensures WordsTitleOf(column) == TitleOf(column)
  {
    forall j: nat ensures !OccursAt(column, "_", j) {
      CharOccurs(column, '_', j);
    }
    assert Find(column, "_").None?;
  }

  /** `data or {}` */
  function OrEmpty(data: Value): (r: Value)
    ensures Truthy(data) ==> r == data
    ensures !Truthy(data) ==> r == Dict([])
  {
    if Truthy(data) then data else Dict([])
  }

  /**
   * `Result(data, endpoint)`: the data or `{}`, ordered by the endpoint,
   * with no widths, then completed when it is a list.  `enumerate` gives
   * the order in which Python walks a set of field names.
   */
  method NewTable(endpoint: Endpoint, data: Value, enumerate: set<string> -> seq<string>) returns (r: Result<Table>)
    requires forall s :: Enumerates(enumerate(s), s)
    ensures Order(endpoint.kind, OrEmpty(data)).Err? ==> r.Err?
    ensures Order(endpoint.kind, OrEmpty(data)).Ok? && !Order(endpoint.kind, OrEmpty(data)).value.List? ==>
      r.Ok? && fresh(r.value) && r.value.endpoint == endpoint
      && r.value.data == Order(endpoint.kind, OrEmpty(data)).value && r.value.maxWidths == []
    ensures Order(endpoint.kind, OrEmpty(data)).Ok? && Order(endpoint.kind, OrEmpty(data)).value.List? ==>
      var items := Order(endpoint.kind, OrEmpty(data)).value.items;
      var order := enumerate(KeySet(items));
      && (r.Ok? <==> Dicts(items) && WidenAll([], EntryFields(items), order, TruncateList(endpoint.kind)).Ok?)
      && (r.Ok? ==> fresh(r.value) && r.value.endpoint == endpoint && r.value.data == List(Filled(items, order))
                    && r.value.maxWidths == WidenAll([], EntryFields(items), order, TruncateList(endpoint.kind)).value)
  {
    var ordered := Order(endpoint.kind, OrEmpty(data));
    if ordered.Err? {
      return Err(ordered.error);
    }
    var t := new Table(endpoint, ordered.value);
    if t.data.List? {
      var done := t.EnsureCompleteList(enumerate(KeySet(t.data.items)));
      if done.Err? {
        return Err(done.error);
      }
    }
    return Ok(t);
  }

  /** Whether a `require_params` keyword asks for the required parameters to be checked. */
  predicate RequireParamsOf(kwargs: Fields) {
    Has(kwargs, RequireParamsKey) && Truthy(Get(kwargs, RequireParamsKey).value)
  }

  const RequireParamsKey := "require_params"

  /** Rewriting the manager leaves `require_params` alone. */
  lemma RewriteKeepsRequireParams(kwargs: Fields)
    ensures Get(RewriteManager(kwargs), RequireParamsKey) == Get(kwargs, RequireParamsKey)
  {
    assert RequireParamsKey[0] != "manager"[0];
  }

  /** The keyword arguments the endpoint is built with: the manager rewritten, `require_params` taken out. */
  function EndpointArgs(kwargs: Fields): (r: Fields)
    ensures !Has(r, RequireParamsKey)
  {
    RemoveGet(RewriteManager(kwargs), RequireParamsKey, RequireParamsKey);
    Remove(RewriteManager(kwargs), RequireParamsKey)
  }

  /** The parameters of the endpoint `get_endpoint` builds, when it builds one. */
  function EndpointParams(kind: Kind, data: Value, kwargs: Fields): Fields {
    var args := EndpointArgs(kwargs);
    if Truthy(data) && RequireParamsOf(kwargs) && Missing(args, FormatUrl(kind)).None? then Pick(args, FormatUrl(kind))
    else args
  }

  /**
   * `get_endpoint(name, data, **kwargs)`.  An unknown name exits; a
   * `requirements.txt` manager becomes `pypi`.  Without data the endpoint is
   * built with require_params=False (a `require_params` keyword then
   * collides) and `fetch` stands for the HTTP GET of its url; with data,
   * a `require_params` keyword, if any, decides whether required
   * parameters are checked.
   */
  method GetEndpoint(name: string, data: Value, kwargs: Fields, show: Value -> string,
                     fetch: string -> Value, enumerate: set<string> -> seq<string>) returns (r: Result<Table>)
    requires forall s :: Enumerates(enumerate(s), s)
    ensures Endpoints.Lookup(name).None? ==> r.Err? && r.error.Exit?
    ensures Endpoints.Lookup(name).Some? && !Truthy(data) && Has(kwargs, RequireParamsKey) ==> r.Err? && r.error.TypeError?
    ensures r.Ok? ==> fresh(r.value) && Endpoints.Lookup(name) == Some(r.value.endpoint.kind)
    ensures r.Ok? ==> r.value.endpoint.params == EndpointParams(r.value.endpoint.kind, data, kwargs)
  {
    var kind := Endpoints.Lookup(name);
    if kind.None? {
      return Err(Exit(name + " is not a known endpoint. Choose from " + JoinNames(RegistryNames())));
    }
    var e := BuildEndpoint(kind.value, data, kwargs, show);
    if e.Err? {
      return Err(e.error);
    }
    if !Truthy(data) {
      r := NewTable(e.value, fetch(e.value.Url()), enumerate);
    } else {
      r := NewTable(e.value, data, enumerate);
    }
  }

  /** The endpoint `get_endpoint` builds from the keyword arguments. */
  method BuildEndpoint(kind: Kind, data: Value, kwargs: Fields, show: Value -> string) returns (r: Result<Endpoint>)
    ensures !Truthy(data) && Has(kwargs, RequireParamsKey) ==> r.Err? && r.error.TypeError?
    ensures r.Ok? ==> fresh(r.value) && r.value.kind == kind && r.value.params == EndpointParams(kind, data, kwargs)
  {
    var args := RewriteManager(kwargs);
    RewriteKeepsRequireParams(kwargs);
    if !Truthy(data) {
      if Has(args, RequireParamsKey) {
        return Err(TypeError("got multiple values for keyword argument 'require_params'"));
      }
      RemoveAbsent(args, RequireParamsKey);
      r := NewEndpoint(kind, false, args, show);
    } else {
      var require := Has(args, RequireParamsKey) && Truthy(Get(args, RequireParamsKey).value);
      r := NewEndpoint(kind, require, Remove(args, RequireParamsKey), show);
    }
  }

  /** `str(registry_names)` */
  function JoinNames(names: seq<string>): string {
    "[" + Join(seq(|names|, i requires 0 <= i < |names| => "'" + names[i] + "'"), ", ") + "]"
  }
}
