/**
 * The one regular-expression shape the manifest scanners use: a group of
 * literal alternatives such as `(==|<=|>=)`, searched for with
 * `re.search` and split on with `re.split` into exactly three values
 * (`name, _, version = re.split(...)`).
 *
 * Python's engine tries each position from left to right and, at one
 * position, the alternatives in the order they are written; a split
 * continues after the end of each match.
 */
module Patterns {
  import opened Wrappers
  import opened PyStr

  /** Alternatives that are all non-empty, as in every pattern of the scanners. */
  predicate Literals(ops: seq<string>) {
    forall k :: 0 <= k < |ops| ==> ops[k] != ""
  }

  /** The first alternative, in written order, that matches at position `p`. */
  function OpAt(s: string, ops: seq<string>, p: nat): (r: Option<string>)
    ensures r.Some? ==> r.value in ops && OccursAt(s, r.value, p)
    ensures r.None? ==> forall o :: o in ops ==> !OccursAt(s, o, p)
  {
    if ops == [] then None
    else if OccursAt(s, ops[0], p) then Some(ops[0])
    else OpAt(s, ops[1..], p)
  }

  /** Where an alternative occurs, the pattern matches. */
  lemma Matched(s: string, ops: seq<string>, p: nat, o: string)
    requires o in ops && OccursAt(s, o, p)
    ensures OpAt(s, ops, p).Some?
  {
  }

  /** The leftmost match at or after `p`: its position and the alternative that matched. */
  function Search(s: string, ops: seq<string>, p: nat): (r: Option<(nat, string)>)
    requires Literals(ops)
    ensures r.Some? ==> p <= r.value.0 < |s| && OpAt(s, ops, r.value.0) == Some(r.value.1)
    ensures r.Some? ==> forall q :: p <= q < r.value.0 ==> OpAt(s, ops, q).None?
    ensures r.None? ==> forall q :: p <= q ==> OpAt(s, ops, q).None?
    decreases |s| - p
  {
    if p >= |s| then None
    else
      match OpAt(s, ops, p)
      case Some(o) => Some((p, o))
      case None => Search(s, ops, p + 1)
  }

  /** `re.search(pattern, s)` succeeds. */
  predicate Matches(s: string, ops: seq<string>)
    requires Literals(ops)
  {
    Search(s, ops, 0).Some?
  }

  /**
   * `a, _, b = re.split(pattern, s)`: the text around the only match;
   * no match, or a second one, is a ValueError of the unpacking.
   */
  function SplitOnce(s: string, ops: seq<string>): (r: Result<(string, string)>)
    requires Literals(ops)
  {
    match Search(s, ops, 0)
    case None => Err(ValueError("not enough values to unpack"))
    case Some(m) =>
      if Search(s, ops, m.0 + |m.1|).Some? then Err(ValueError("too many values to unpack"))
      else Ok((s[..m.0], s[m.0 + |m.1|..]))
  }

  /** The split succeeds exactly when the pattern matches once. */
  lemma SplitOnceOk(s: string, ops: seq<string>)
    requires Literals(ops)
    ensures SplitOnce(s, ops).Ok? <==>
      Matches(s, ops) && Search(s, ops, Search(s, ops, 0).value.0 + |Search(s, ops, 0).value.1|).None?
  {
  }

  /** The split puts one alternative back between the two parts, and neither part holds any alternative. */
  lemma SplitOnceParts(s: string, ops: seq<string>)
    requires Literals(ops) && SplitOnce(s, ops).Ok?
    ensures var (a, b) := SplitOnce(s, ops).value;
      && (exists o :: o in ops && s == a + o + b)
      && (forall o :: o in ops ==> !Contains(a, o) && !Contains(b, o))
  {
    var m := Search(s, ops, 0).value;
    var (a, b) := SplitOnce(s, ops).value;
    assert s == a + m.1 + b;
    forall o | o in ops ensures !Contains(a, o) && !Contains(b, o) {
      if Contains(a, o) {
        var j := Find(a, o).value;
        OccursInPrefix(s, o, |a|, j);
        Matched(s, ops, j, o);
        assert false;
      }
      if Contains(b, o) {
        var j := Find(b, o).value;
        OccursInSuffix(s, o, |a| + |m.1|, j);
        Matched(s, ops, |a| + |m.1| + j, o);
        assert false;
      }
    }
  }

  /** A text without any alternative in it does not match. */
  lemma NoMatch(s: string, ops: seq<string>)
    requires Literals(ops)
    requires forall o :: o in ops ==> !Contains(s, o)
    ensures !Matches(s, ops)
  {
  }
}
