/**
 * Python `str` operations used by the manifest scanners, the parser and the
 * table code, with their Python semantics (`split` with an explicit separator,
 * `replace`, `strip`, `in`, `startswith`, ...).  Case mapping is ASCII only.
 */
module PyStr {
  import opened Wrappers

  /** `t` occurs in `s` starting at index `i`. */
  predicate OccursAt(s: string, t: string, i: nat) {
    i + |t| <= |s| && s[i..i + |t|] == t
  }

  /** `s.startswith(p)` */
  predicate StartsWith(s: string, p: string) {
    |p| <= |s| && s[..|p|] == p
  }

  /** The first index at or after `i` where `t` occurs in `s` (`s.find(t, i)`). */
  function FindFrom(s: string, t: string, i: nat): (r: Option<nat>)
    requires i <= |s|
    ensures r.Some? ==> i <= r.value && OccursAt(s, t, r.value)
    ensures r.Some? ==> forall j :: i <= j < r.value ==> !OccursAt(s, t, j)
    ensures r.None? ==> forall j :: i <= j ==> !OccursAt(s, t, j)
    decreases |s| - i
  {
    if OccursAt(s, t, i) then Some(i)
    else if i == |s| then None
    else FindFrom(s, t, i + 1)
  }

  /** `s.find(t)`, with None for -1. */
  function Find(s: string, t: string): (r: Option<nat>)
    ensures r.Some? ==> OccursAt(s, t, r.value) && forall j: nat :: j < r.value ==> !OccursAt(s, t, j)
    ensures r.None? ==> forall j: nat :: !OccursAt(s, t, j)
  {
    FindFrom(s, t, 0)
  }

  /** `t in s` */
  predicate Contains(s: string, t: string) {
    Find(s, t).Some?
  }

  lemma ContainsIff(s: string, t: string, i: nat)
    requires OccursAt(s, t, i)
    ensures Contains(s, t) && Find(s, t).value <= i
  {
  }

  /** An occurrence inside a prefix is an occurrence in the whole string. */
  lemma OccursInPrefix(s: string, t: string, n: nat, j: nat)
    requires n <= |s| && OccursAt(s[..n], t, j)
    ensures OccursAt(s, t, j)
  {
    assert s[..n][j..j + |t|] == s[j..j + |t|];
  }

  /** An occurrence inside a suffix is an occurrence in the whole string. */
  lemma OccursInSuffix(s: string, t: string, n: nat, j: nat)
    requires n <= |s| && OccursAt(s[n..], t, j)
    ensures OccursAt(s, t, n + j)
  {
    assert s[n..][j..j + |t|] == s[n + j..n + j + |t|];
  }

  /** What the left part of a concatenation contains, the whole contains. */
  lemma ContainsLeft(a: string, b: string, t: string)
    requires Contains(a, t)
    ensures Contains(a + b, t)
  {
    var j := Find(a, t).value;
    assert (a + b)[..|a|] == a;
    OccursInPrefix(a + b, t, |a|, j);
    ContainsIff(a + b, t, j);
  }

  /** What the right part of a concatenation contains, the whole contains. */
  lemma ContainsRight(a: string, b: string, t: string)
    requires Contains(b, t)
    ensures Contains(a + b, t)
  {
    var j := Find(b, t).value;
    assert (a + b)[|a|..] == b;
    OccursInSuffix(a + b, t, |a|, j);
    ContainsIff(a + b, t, |a| + j);
  }

  /** A concatenation starting with a non-empty sequence starts with its head. */
  lemma ConcatHead<T>(a: seq<T>, b: seq<T>)
    requires a != []
    ensures a + b == [a[0]] + (a[1..] + b) && (a + b)[0] == a[0] && (a + b)[1..] == a[1..] + b
  {
  }

  /** Appending an element and then a sequence is appending the sequence with that head. */
  lemma AppendCons<T>(a: seq<T>, x: T, b: seq<T>)
    ensures (a + [x]) + b == a + ([x] + b)
  {
  }

  /** What a string lacks, each of its slices lacks. */
  lemma SliceKeepsAbsent(s: string, lo: nat, hi: nat, t: string)
    requires lo <= hi <= |s| && !Contains(s, t)
    ensures !Contains(s[lo..hi], t)
  {
    var r := s[lo..hi];
    forall j: nat ensures !OccursAt(r, t, j) {
      assert !OccursAt(s, t, lo + j);
      if j + |t| <= |r| {
        var a, b := r[j..j + |t|], s[lo + j..lo + j + |t|];
        assert forall i :: 0 <= i < |t| ==> a[i] == b[i];
        assert a == b;
      }
    }
  }

  /** What a string lacks, each of its suffixes lacks. */
  lemma SuffixKeepsAbsent(s: string, n: nat, t: string)
    requires n <= |s| && !Contains(s, t)
    ensures !Contains(s[n..], t)
  {
    SliceKeepsAbsent(s, n, |s|, t);
    assert s[n..|s|] == s[n..];
  }

  /** `sep.join(parts)` */
  function Join(parts: seq<string>, sep: string): string
  {
    if |parts| == 0 then ""
    else if |parts| == 1 then parts[0]
    else parts[0] + sep + Join(parts[1..], sep)
  }

  /** `s.split(sep)` for a non-empty separator: the pieces between non-overlapping occurrences. */
  function Split(s: string, sep: string): (r: seq<string>)
    requires sep != ""
    ensures |r| >= 1
    ensures Join(r, sep) == s
    ensures forall k :: 0 <= k < |r| ==> !Contains(r[k], sep)
    decreases |s|
  {
    match Find(s, sep)
    case None => [s]
    case Some(i) =>
      var rest := Split(s[i + |sep|..], sep);
      assert s == s[..i] + sep + s[i + |sep|..];
      assert !Contains(s[..i], sep) by {
        if Contains(s[..i], sep) {
          OccursInPrefix(s, sep, i, Find(s[..i], sep).value);
        }
      }
      [s[..i]] + rest
  }

  /** A first piece without the one-character separator is split off whole. */
  lemma SplitCons(x: string, c: char, y: string)
    requires c !in x
    ensures Split(x + [c] + y, [c]) == [x] + Split(y, [c])
  {
    var s := x + [c] + y;
    CharOccurs(s, c, |x|);
    ContainsIff(s, [c], |x|);
    var i := Find(s, [c]).value;
    if i < |x| {
      CharOccurs(s, c, i);
    }
    assert s[..|x|] == x && s[|x| + 1..] == y;
  }

  /** `s.split(sep, 1)`: at most two pieces, cut at the first occurrence. */
  function Split1(s: string, sep: string): (r: seq<string>)
    requires sep != ""
    ensures Contains(s, sep) ==> |r| == 2 && r[0] + sep + r[1] == s
    ensures Contains(s, sep) ==> Find(s, sep) == Some(|r[0]|)
    ensures !Contains(s, sep) ==> r == [s]
  {
    match Find(s, sep)
    case None => [s]
    case Some(i) =>
      assert s == s[..i] + sep + s[i + |sep|..];
      [s[..i], s[i + |sep|..]]
  }

  /** The text before the first occurrence of `sep` (`s.split(sep)[0]`), or all of `s`. */
  function Before(s: string, sep: string): (r: string)
    requires sep != ""
    ensures StartsWith(s, r) && !Contains(r, sep)
    ensures Contains(s, sep) ==> OccursAt(s, sep, |r|)
    ensures !Contains(s, sep) ==> r == s
  {
    Split(s, sep)[0]
  }

  /** `s.replace(pat, rep)` for a non-empty `pat`: every non-overlapping occurrence, left to right. */
  function Replace(s: string, pat: string, rep: string): (r: string)
    requires pat != ""
    ensures !Contains(s, pat) ==> r == s
    ensures forall x :: x in r ==> x in s || x in rep
    decreases |s|
  {
    match Find(s, pat)
    case None => s
    case Some(i) =>
      var rest := Replace(s[i + |pat|..], pat, rep);
      assert forall x :: x in rest ==> x in s || x in rep by {
        forall x | x in rest && x !in rep ensures x in s {
          var k :| 0 <= k < |s[i + |pat|..]| && s[i + |pat|..][k] == x;
          assert s[i + |pat| + k] == x;
        }
      }
      s[..i] + rep + rest
  }

  /** Every character of `s` that is not `c`, in order. */
  function DropChar(s: string, c: char): (r: string)
    ensures forall k :: 0 <= k < |r| ==> r[k] != c
    ensures |r| <= |s|
  {
    if s == "" then ""
    else (if s[0] == c then "" else [s[0]]) + DropChar(s[1..], c)
  }

  /** A one-character string occurs exactly where that character stands. */
  lemma CharOccurs(s: string, c: char, k: nat)
    ensures OccursAt(s, [c], k) <==> k < |s| && s[k] == c
  {
    if k < |s| { assert s[k..k + 1] == [s[k]]; }
  }

  /** `c in s` for a one-character string is membership of the character. */
  lemma ContainsChar(s: string, c: char)
    ensures Contains(s, [c]) <==> c in s
  {
    if c in s {
      var k :| 0 <= k < |s| && s[k] == c;
      CharOccurs(s, c, k);
      ContainsIff(s, [c], k);
    }
    if Contains(s, [c]) {
      CharOccurs(s, c, Find(s, [c]).value);
    }
  }

  /** Filtering a character out adds no character. */
  lemma {:induction false} DropCharKeeps(s: string, c: char, x: char)
    requires x in DropChar(s, c)
    ensures x in s && x != c
  {
    if s != "" {
      if x !in ((if s[0] == c then "" else [s[0]])) {
        DropCharKeeps(s[1..], c, x);
      }
    }
  }

  /** Removing a one-character string with `replace` is filtering that character out. */
  lemma {:induction false} ReplaceCharIsDrop(s: string, c: char)
    ensures Replace(s, [c], "") == DropChar(s, c)
    decreases |s|
  {
    var f := Find(s, [c]);
    if f.None? {
      forall k | 0 <= k < |s| ensures s[k] != c {
        CharOccurs(s, c, k);
      }
      DropCharNone(s, c);
    } else {
      var i := f.value;
      assert s[i] == c by {
        CharOccurs(s, c, i);
      }
      assert forall k :: 0 <= k < i ==> s[k] != c by {
        forall k | 0 <= k < i ensures s[k] != c {
          CharOccurs(s, c, k);
        }
      }
      assert Replace(s, [c], "") == s[..i] + Replace(s[i + 1..], [c], "") by {
        assert s[..i] + "" == s[..i];
      }
      ReplaceCharIsDrop(s[i + 1..], c);
      DropCharSplit(s, c, i);
    }
  }

  lemma {:induction false} DropCharNone(s: string, c: char)
    requires forall k :: 0 <= k < |s| ==> s[k] != c
    ensures DropChar(s, c) == s
    decreases |s|
  {
    if s != "" {
      DropCharNone(s[1..], c);
    }
  }

  lemma {:induction false} DropCharSplit(s: string, c: char, i: nat)
    requires i < |s| && s[i] == c
    requires forall k :: 0 <= k < i ==> s[k] != c
    ensures DropChar(s, c) == s[..i] + DropChar(s[i + 1..], c)
    decreases i
  {
    if i == 0 {
      assert s[1..] == s[i + 1..];
    } else {
      DropCharSplit(s[1..], c, i - 1);
      assert s[1..][..i - 1] == s[1..i];
      assert s[1..][i - 1 + 1..] == s[i + 1..];
      assert s[..i] == [s[0]] + s[1..i];
    }
  }

  /** Python's `str.isspace` for one character. */
  predicate IsSpace(c: char) {
    c == ' ' || ('\t' <= c <= '\r') || ('\U{1c}' <= c <= '\U{1f}') || c == '\U{85}' || c == '\U{a0}'
    || c == '\U{1680}' || ('\U{2000}' <= c <= '\U{200a}') || c == '\U{2028}' || c == '\U{2029}'
    || c == '\U{202f}' || c == '\U{205f}' || c == '\U{3000}'
  }

  /** Number of leading characters of `s` for which `strip` applies. */
  function LeadCount(s: string, cs: set<char>, space: bool): (i: nat)
    ensures i <= |s|
    ensures forall k :: 0 <= k < i ==> Strippable(s[k], cs, space)
    ensures i < |s| ==> !Strippable(s[i], cs, space)
  {
    if s == "" || !Strippable(s[0], cs, space) then 0 else 1 + LeadCount(s[1..], cs, space)
  }

  /** Number of trailing characters of `s` for which `strip` applies. */
  function TrailCount(s: string, cs: set<char>, space: bool): (i: nat)
    ensures i <= |s|
    ensures forall k :: |s| - i <= k < |s| ==> Strippable(s[k], cs, space)
    ensures i < |s| ==> !Strippable(s[|s| - 1 - i], cs, space)
  {
    if s == "" || !Strippable(s[|s| - 1], cs, space) then 0 else 1 + TrailCount(s[..|s| - 1], cs, space)
  }

  /** `strip()` removes white space; `strip(chars)` removes the given characters. */
  predicate Strippable(c: char, cs: set<char>, space: bool) {
    if space then IsSpace(c) else c in cs
  }

  /** The bounds of what `strip` keeps: everything before `lo` and from `hi` on is stripped. */
  function StripBounds(s: string, cs: set<char>, space: bool): (b: (nat, nat))
    ensures b.0 <= b.1 <= |s|
    ensures forall k :: 0 <= k < b.0 ==> Strippable(s[k], cs, space)
    ensures forall k :: b.1 <= k < |s| ==> Strippable(s[k], cs, space)
    ensures b.0 < b.1 ==> !Strippable(s[b.0], cs, space) && !Strippable(s[b.1 - 1], cs, space)
  {
    var i := LeadCount(s, cs, space);
    if i == |s| then (i, i) else (i, |s| - TrailCount(s, cs, space))
  }

  function StripWith(s: string, cs: set<char>, space: bool): (r: string)
    ensures r == s[StripBounds(s, cs, space).0..StripBounds(s, cs, space).1]
    ensures r == "" || (!Strippable(r[0], cs, space) && !Strippable(r[|r| - 1], cs, space))
  {
    var b := StripBounds(s, cs, space);
    s[b.0..b.1]
  }

  /** `s.strip()` */
  function Strip(s: string): (r: string)
    ensures |r| <= |s|
    ensures r == "" || (!IsSpace(r[0]) && !IsSpace(r[|r| - 1]))
  {
    StripWith(s, {}, true)
  }

  /** `s.strip(chars)` */
  function StripChars(s: string, chars: set<char>): (r: string)
    ensures |r| <= |s|
    ensures r == "" || (r[0] !in chars && r[|r| - 1] !in chars)
  {
    StripWith(s, chars, false)
  }

  /** What `strip` keeps is a slice, so a text absent from the string is absent from the stripped string. */
  lemma StripKeepsAbsent(s: string, t: string)
    requires !Contains(s, t)
    ensures !Contains(Strip(s), t)
  {
    var b := StripBounds(s, {}, true);
    SliceKeepsAbsent(s, b.0, b.1, t);
  }

  /** `strip` adds no character. */
  lemma StripKeepsChar(s: string, x: char)
    requires x in Strip(s)
    ensures x in s
  {
    var b := StripBounds(s, {}, true);
    var k :| 0 <= k < |Strip(s)| && Strip(s)[k] == x;
    assert s[b.0 + k] == x;
  }

  /** A text absent from a string is absent from each of its prefixes. */
  lemma PrefixKeepsAbsent(s: string, p: string, t: string)
    requires StartsWith(s, p) && !Contains(s, t)
    ensures !Contains(p, t)
  {
    SliceKeepsAbsent(s, 0, |p|, t);
    assert s[0..|p|] == p;
  }

  /** Splitting once at a character that the first part lacks gives back the two parts. */
  lemma SplitAtFirst(x: string, c: char, y: string)
    requires c !in x
    ensures Split1(x + [c] + y, [c]) == [x, y]
  {
    var s := x + [c] + y;
    assert s[|x|..|x| + 1] == [c];
    ContainsIff(s, [c], |x|);
    var i := Find(s, [c]).value;
    if i < |x| {
      CharOccurs(s, c, i);
      assert false;
    }
    var r := Split1(s, [c]);
    assert |r[0]| == |x|;
    assert r[0] == s[..|x|] && x == s[..|x|];
    assert r[1] == s[|x| + 1..] && y == s[|x| + 1..];
  }

  /** Stripping twice is stripping once. */
  lemma StripIdempotent(s: string)
    ensures Strip(Strip(s)) == Strip(s)
  {
    var r := Strip(s);
    assert LeadCount(r, {}, true) == 0;
    assert TrailCount(r[0..], {}, true) == 0;
    assert r[0..] == r;
  }

  function LowerChar(c: char): char {
    if 'A' <= c <= 'Z' then (c as int + 32) as char else c
  }

  function UpperChar(c: char): char {
    if 'a' <= c <= 'z' then (c as int - 32) as char else c
  }

  /** `s.lower()` (ASCII letters only) */
  function Lower(s: string): (r: string)
    ensures |r| == |s| && forall k :: 0 <= k < |s| ==> r[k] == LowerChar(s[k])
  {
    seq(|s|, k requires 0 <= k < |s| => LowerChar(s[k]))
  }

  /** `s.capitalize()`: first character upper case, the rest lower case (ASCII letters only). */
  function Capitalize(s: string): (r: string)
    ensures |r| == |s|
    ensures s != "" ==> r[0] == UpperChar(s[0]) && r[1..] == Lower(s[1..])
  {
    if s == "" then "" else [UpperChar(s[0])] + Lower(s[1..])
  }

  /** Capitalizing does not change what a string is equal to when lower-cased. */
  lemma LowerCapitalize(s: string)
    ensures Lower(Capitalize(s)) == Lower(s)
  {
    if s != "" {
      var c := Capitalize(s);
      forall k | 0 <= k < |s| ensures Lower(c)[k] == Lower(s)[k] {
        if k > 0 { assert c[k] == c[1..][k - 1]; }
      }
    }
  }

  /** Capitalizing is idempotent. */
  lemma CapitalizeIdempotent(s: string)
    ensures Capitalize(Capitalize(s)) == Capitalize(s)
  {
    if s != "" {
      var c := Capitalize(s);
      assert Capitalize(c)[0] == c[0];
      forall k | 0 <= k < |c| - 1 ensures Capitalize(c)[1..][k] == c[1..][k] {}
    }
  }

  function ReplaceCharWith(c: char, from: char, to: char): char {
    if c == from then to else c
  }

  /** `s.replace(from, to)` for one-character strings. */
  function ReplaceChar(s: string, from: char, to: char): (r: string)
    ensures |r| == |s|
    ensures forall k :: 0 <= k < |s| ==> r[k] == (if s[k] == from then to else s[k])
  {
    seq(|s|, k requires 0 <= k < |s| => ReplaceCharWith(s[k], from, to))
  }

  /** Number of positions of `c` in `s` (`s.count(c)` for a one-character string). */
  function CountChar(s: string, c: char): (n: nat)
    ensures n <= |s|
    ensures n == 0 <==> forall k :: 0 <= k < |s| ==> s[k] != c
  {
    if s == "" then 0 else (if s[0] == c then 1 else 0) + CountChar(s[1..], c)
  }

  /** Index of the last `c` in `s` (`s.rfind(c)`), or None. */
  function RFindChar(s: string, c: char): (r: Option<nat>)
    ensures r.Some? ==> r.value < |s| && s[r.value] == c && forall k :: r.value < k < |s| ==> s[k] != c
    ensures r.None? ==> forall k :: 0 <= k < |s| ==> s[k] != c
  {
    if s == "" then None
    else if s[|s| - 1] == c then Some(|s| - 1)
    else RFindChar(s[..|s| - 1], c)
  }

  /** `s.rsplit(c, 1)[0]`: the text before the last `c`, or all of `s`. */
  function BeforeLast(s: string, c: char): (r: string)
    ensures RFindChar(s, c).Some? ==> RFindChar(s, c) == Some(|r|) && r == s[..|r|]
    ensures RFindChar(s, c).None? ==> r == s
  {
    match RFindChar(s, c)
    case None => s
    case Some(i) => s[..i]
  }

  predicate IsDigit(c: char) { '0' <= c <= '9' }

  predicate IsAsciiAlnum(c: char) {
    ('a' <= c <= 'z') || ('A' <= c <= 'Z') || IsDigit(c)
  }

  /** The value of a non-empty run of decimal digits. */
  function DigitsValue(s: string): (n: nat)
    requires forall k :: 0 <= k < |s| ==> IsDigit(s[k])
  {
    if s == "" then 0
    else
      assert IsDigit(s[|s| - 1]);
      DigitsValue(s[..|s| - 1]) * 10 + (s[|s| - 1] as int - '0' as int)
  }

  /** `str(n)` for a natural number. */
  function NatToString(n: nat): (s: string)
    ensures s != "" && forall k :: 0 <= k < |s| ==> IsDigit(s[k])
    ensures DigitsValue(s) == n
  {
    if n < 10 then [('0' as int + n) as char]
    else
      var p := NatToString(n / 10);
      var d := [('0' as int + n % 10) as char];
      assert (p + d)[..|p + d| - 1] == p;
      p + d
  }

  /** `str(i)` for an integer. */
  function IntToString(i: int): (s: string)
    ensures s != ""
  {
    if i < 0 then "-" + NatToString(-i) else NatToString(i)
  }

  /**
   * `int(s)` for a string: surrounding white space, an optional sign and at
   * least one digit; anything else raises ValueError.
   */
  function ParseInt(s: string): (r: Result<int>)
    ensures r.Ok? ==> var t := Strip(s); t != "" && (r.value < 0 ==> t[0] == '-')
  {
    var t := Strip(s);
    var neg := t != "" && t[0] == '-';
    var digits := if t != "" && (t[0] == '-' || t[0] == '+') then t[1..] else t;
    if digits != "" && forall k :: 0 <= k < |digits| ==> IsDigit(digits[k]) then
      var v: int := if neg then -(DigitsValue(digits) as int) else DigitsValue(digits);
      Ok(v)
    else
      Err(ValueError(s))
  }

  /** A string that neither starts nor ends with white space is its own strip. */
  lemma StripUnchanged(s: string)
    requires s != "" && !IsSpace(s[0]) && !IsSpace(s[|s| - 1])
    ensures Strip(s) == s
  {
    assert LeadCount(s, {}, true) == 0;
    assert TrailCount(s, {}, true) == 0;
    assert s[0..|s|] == s;
  }

  /** `int(str(n))` gives `n` back. */
  lemma ParseIntToString(n: nat)
    ensures ParseInt(NatToString(n)) == Ok(n)
  {
    var s := NatToString(n);
    StripUnchanged(s);
    assert s[0] != '-' && s[0] != '+';
  }

  /** `int(str(i))` gives a negative integer back. */
  lemma ParseIntToStringNeg(n: nat)
    requires n > 0
    ensures ParseInt(IntToString(-(n as int))) == Ok(-(n as int))
  {
    var d := NatToString(n);
    var t := "-" + d;
    assert t[|t| - 1] == d[|d| - 1] && IsDigit(d[|d| - 1]);
    StripUnchanged(t);
    assert t[1..] == d;
  }
}
