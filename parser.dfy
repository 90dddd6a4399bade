/**
 * The Markdown parser (citelang/main/parser.py): a document names the
 * software it uses with citations `@manager{name=...,version=...}` and holds
 * a block between "<!--citelang start-->" and "<!--citelang end-->" where
 * the credit table goes.  `Check` demands both markers, `Parse` scans the
 * citations into records, and `Render` sorts the credited packages, writes
 * them as a pipe table and puts the table in place of every block.
 *
 * Python's `round(x, n)` and `str()` of a float are the parameters `round`
 * and `show`; the file the parser reads is its `content`.
 */
module MarkdownParser {
  import opened Wrappers
  import opened Json
  import opened PyStr
  import Sorting

  const StartBlock := "<!--citelang start-->"
  const EndBlock := "<!--citelang end-->"
  /** The two lines of `table_template`. */
  const Header := "|Manager|Name|Credit|"
  const Rule := "|-------|----|------|"
  /** `template_suffix` */
  const Suffix := "\n> Note that credit values are rounded and expanded (so shared dependencies are represented as one record) and may not add to 1.0. Rounded values that hit zero are removed.\n"

  /** The exit of `check` for a missing marker. */
  function Missing(marker: string): Error {
    Exit("Cannot find " + marker + ", ensure it is present where you want the citelang table.")
  }

  // ---------------------------------------------------------------------
  // The citation pattern `\@([a-zA-Z0-9]+)\{(.*?)\}` and `re.findall`.
  // ---------------------------------------------------------------------

  /** `[a-zA-Z0-9]+` taken greedily from i: where the run of letters and digits ends. */
  function WordEnd(s: string, i: nat): (r: nat)
    requires i <= |s|
    ensures i <= r <= |s|
    ensures forall k :: i <= k < r ==> IsAsciiAlnum(s[k])
    ensures r < |s| ==> !IsAsciiAlnum(s[r])
    decreases |s| - i
  {
    if i < |s| && IsAsciiAlnum(s[i]) then WordEnd(s, i + 1) else i
  }

  /** `(.*?)\}` from i: the first "}", unless a newline (which `.` does not match) comes first. */
  function CloseAt(s: string, i: nat): (r: Option<nat>)
    requires i <= |s|
    ensures r.Some? ==> i <= r.value < |s| && s[r.value] == '}'
    ensures r.Some? ==> forall k :: i <= k < r.value ==> s[k] != '}' && s[k] != '\n'
    ensures r.None? ==> forall k :: i <= k < |s| && s[k] == '}' ==> exists m :: i <= m < k && s[m] == '\n'
    decreases |s| - i
  {
    if i == |s| || s[i] == '\n' then None
    else if s[i] == '}' then Some(i)
    else CloseAt(s, i + 1)
  }

  /** A citation word: one or more ASCII letters and digits. */
  predicate Word(w: string) {
    w != [] && forall k :: 0 <= k < |w| ==> IsAsciiAlnum(w[k])
  }

  /** What the braces of a citation can hold: no "}" and no newline. */
  predicate Inner(t: string) {
    forall k :: 0 <= k < |t| ==> t[k] != '}' && t[k] != '\n'
  }

  /** The text of the citation of word w with text t. */
  function Cite(w: string, t: string): string {
    ['@'] + w + ['{'] + t + ['}']
  }

  /**
   * The match of the pattern at the start of s, if any: the manager word,
   * the text in the braces and the length of the match.  A shorter word
   * would be followed by a letter or digit rather than "{", so the greedy
   * word is the only one that can match.
   */
  function CiteAt(s: string): (r: Option<(string, string, nat)>)
    ensures r.Some? ==> 0 < r.value.2 <= |s|
    ensures r.Some? ==> Word(r.value.0) && Inner(r.value.1) && s[..r.value.2] == Cite(r.value.0, r.value.1)
  {
    if s != [] && s[0] == '@' then
      var e := WordEnd(s, 1);
      if e > 1 && e < |s| && s[e] == '{' then
        match CloseAt(s, e + 1)
        case None => None
        case Some(c) =>
          assert Word(s[1..e]) by {
            forall k | 0 <= k < e - 1 ensures IsAsciiAlnum(s[1..e][k]) {
              assert s[1..e][k] == s[1 + k];
            }
          }
          assert Inner(s[e + 1..c]) by {
            var t := s[e + 1..c];
            forall k | 0 <= k < |t| ensures t[k] != '}' && t[k] != '\n' {
              assert t[k] == s[e + 1 + k];
            }
          }
          assert s[..c + 1] == ['@'] + s[1..e] + ['{'] + s[e + 1..c] + ['}'];
          Some((s[1..e], s[e + 1..c], c + 1))
      else None
    else None
  }

  /** `re.findall(citation_regex, s)`: the matches left to right, each search resuming where the last match ended. */
  function FindAll(s: string): (r: seq<(string, string)>)
    decreases |s|
  {
    if s == [] then []
    else
      match CiteAt(s)
      case Some(m) => [(m.0, m.1)] + FindAll(s[m.2..])
      case None => FindAll(s[1..])
  }

  lemma {:induction false} WordEndAt(s: string, i: nat, n: nat)
    requires i + n < |s| && !IsAsciiAlnum(s[i + n])
    requires forall k :: i <= k < i + n ==> IsAsciiAlnum(s[k])
    ensures WordEnd(s, i) == i + n
    decreases n
  {
    if n > 0 {
      WordEndAt(s, i + 1, n - 1);
    }
  }

  lemma {:induction false} CloseAtAt(s: string, i: nat, n: nat)
    requires i + n < |s| && s[i + n] == '}'
    requires forall k :: i <= k < i + n ==> s[k] != '}' && s[k] != '\n'
    ensures CloseAt(s, i) == Some(i + n)
    decreases n
  {
    if n > 0 {
      CloseAtAt(s, i + 1, n - 1);
    }
  }

  /** A citation written out at the start is the match found there, whatever follows it. */
  lemma CiteAtMatches(w: string, t: string, post: string)
    requires Word(w) && Inner(t)
    ensures CiteAt(Cite(w, t) + post) == Some((w, t, |Cite(w, t)|))
  {
    var s := Cite(w, t) + post;
    var n, m := |w|, |t|;
    assert s == ['@'] + w + ['{'] + t + ['}'] + post;
    assert s[0] == '@' && s[n + 1] == '{' && s[n + 2 + m] == '}';
    forall k | 1 <= k < 1 + n ensures IsAsciiAlnum(s[k]) {
      assert s[k] == w[k - 1];
    }
    WordEndAt(s, 1, n);
    forall k | n + 2 <= k < n + 2 + m ensures s[k] != '}' && s[k] != '\n' {
      assert s[k] == t[k - n - 2];
    }
    CloseAtAt(s, n + 2, m);
    assert s[1..1 + n] == w;
    assert s[n + 2..n + 2 + m] == t;
  }

  /** Every match holds a citation word and a brace text without "}" or newline. */
  lemma {:induction false} FindAllShape(s: string)
    ensures forall m :: m in FindAll(s) ==> Word(m.0) && Inner(m.1)
    decreases |s|
  {
    if s != [] {
      match CiteAt(s)
      case Some(m) => FindAllShape(s[m.2..]);
      case None => FindAllShape(s[1..]);
    }
  }

  /** Text without "@" before the rest adds no match. */
  lemma {:induction false} FindAllSkip(pre: string, rest: string)
    requires forall k :: 0 <= k < |pre| ==> pre[k] != '@'
    ensures FindAll(pre + rest) == FindAll(rest)
    decreases |pre|
  {
    if pre != [] {
      var s := pre + rest;
      assert s[0] == pre[0] && s[1..] == pre[1..] + rest;
      assert CiteAt(s) == None;
      assert FindAll(s) == FindAll(s[1..]);
      FindAllSkip(pre[1..], rest);
    } else {
      assert pre + rest == rest;
    }
  }

  /** Text without "@" yields no match. */
  lemma FindAllNone(s: string)
    requires forall k :: 0 <= k < |s| ==> s[k] != '@'
    ensures FindAll(s) == []
  {
    FindAllSkip(s, []);
    assert s + [] == s;
  }

  /**
   * The first citation of a document is the first match, and the scan
   * goes on with the text after it as if that were the whole document.
   */
  lemma FindAllFirst(pre: string, w: string, t: string, post: string)
    requires forall k :: 0 <= k < |pre| ==> pre[k] != '@'
    requires Word(w) && Inner(t)
    ensures FindAll(pre + Cite(w, t) + post) == [(w, t)] + FindAll(post)
  {
    var c := Cite(w, t);
    assert pre + c + post == pre + (c + post);
    FindAllSkip(pre, c + post);
    CiteAtMatches(w, t, post);
    assert (c + post)[|c|..] == post;
  }

  // ---------------------------------------------------------------------
  // The record of one citation.
  // ---------------------------------------------------------------------

  /** `[x.strip().split("=") for x in pieces]`, keeping the lists of exactly two parts as pairs. */
  function Pairs(pieces: seq<string>): (r: seq<(string, string)>)
    ensures |r| <= |pieces|
  {
    if pieces == [] then []
    else
      var y := Split(Strip(pieces[0]), "=");
      (if |y| == 2 then [(y[0], y[1])] else []) + Pairs(pieces[1..])
  }

  /** The dict built from the pairs in order: a later pair overwrites an earlier one in place. */
  function Assign(fs: Fields, ps: seq<(string, string)>): Fields
    decreases |ps|
  {
    if ps == [] then fs else Assign(Put(fs, ps[0].0, Str(ps[0].1)), ps[1..])
  }

  /** `{"manager": word, **args}` for the citation `@word{text}`. */
  function Record(w: string, t: string): Fields {
    Assign([("manager", Str(w))], Pairs(Split(t, ",")))
  }

  /** The value of the last pair with key k. */
  function LastOf(ps: seq<(string, string)>, k: string): Option<string> {
    if ps == [] then None
    else if LastOf(ps[1..], k).Some? then LastOf(ps[1..], k)
    else if ps[0].0 == k then Some(ps[0].1)
    else None
  }

  /** Each pair comes from one piece that, stripped, is its key, "=", its value, with no other "=". */
  lemma {:induction false} PairsMeans(pieces: seq<string>)
    ensures forall p :: p in Pairs(pieces) ==>
      && !Contains(p.0, "=") && !Contains(p.1, "=")
      && exists i :: 0 <= i < |pieces| && Strip(pieces[i]) == p.0 + "=" + p.1
  {
    if pieces != [] {
      PairsMeans(pieces[1..]);
      var y := Split(Strip(pieces[0]), "=");
      if |y| == 2 {
        assert Join(y, "=") == y[0] + "=" + Join(y[1..], "=");
        assert Strip(pieces[0]) == y[0] + "=" + y[1];
      }
      forall p | p in Pairs(pieces[1..])
        ensures exists i :: 0 <= i < |pieces| && Strip(pieces[i]) == p.0 + "=" + p.1
      {
        var i :| 0 <= i < |pieces[1..]| && Strip(pieces[1..][i]) == p.0 + "=" + p.1;
        assert pieces[i + 1] == pieces[1..][i];
      }
    }
  }

  /** A piece with exactly one "=" (after stripping) gives its pair. */
  lemma PairOf(x: string, a: string, b: string)
    requires !Contains(a, "=") && !Contains(b, "=") && Strip(x) == a + "=" + b
    ensures Pairs([x]) == [(a, b)]
  {
    var s := Strip(x);
    assert s[..|a|] == a && s[|a|] == '=' && s[|a| + 1..] == b;
    ContainsIff(s, "=", |a|);
    assert Find(s, "=") == Some(|a|) by {
      if Find(s, "=").value < |a| {
        var j := Find(s, "=").value;
        assert OccursAt(a, "=", j) by {
          assert a[j..j + 1] == s[j..j + 1];
        }
        ContainsIff(a, "=", j);
      }
    }
    assert s[|a| + 1..] == b;
    assert Split(b, "=") == [b];
    assert Pairs([x][1..]) == [];
  }

  /** Reading a key after the pairs: the last pair with that key, or what the dict held before. */
  lemma {:induction false} AssignGet(fs: Fields, ps: seq<(string, string)>, k: string)
    ensures Get(Assign(fs, ps), k) == if LastOf(ps, k).Some? then Some(Str(LastOf(ps, k).value)) else Get(fs, k)
    ensures Distinct(fs) ==> Distinct(Assign(fs, ps))
    decreases |ps|
  {
    if ps != [] {
      AssignGet(Put(fs, ps[0].0, Str(ps[0].1)), ps[1..], k);
    }
  }

  /**
   * A record holds "manager" and every key of a two-part piece, each once;
   * a key reads as its last pair, and "manager" as the citation word
   * unless a "manager=" pair overrides it.
   */
  lemma RecordGet(w: string, t: string, k: string)
    ensures Distinct(Record(w, t))
    ensures var ps := Pairs(Split(t, ","));
      Get(Record(w, t), k) ==
        if LastOf(ps, k).Some? then Some(Str(LastOf(ps, k).value))
        else if k == "manager" then Some(Str(w))
        else None
  {
    var fs: Fields := [("manager", Str(w))];
    GetCons(("manager", Str(w)), [], k);
    assert [("manager", Str(w))] + [] == fs;
    AssignGet(fs, Pairs(Split(t, ",")), k);
  }

  /** The records of the matches, in order. */
  function Records(ms: seq<(string, string)>): (r: seq<Fields>)
    ensures |r| == |ms|
    ensures forall i :: 0 <= i < |ms| ==> r[i] == Record(ms[i].0, ms[i].1)
  {
    seq(|ms|, i requires 0 <= i < |ms| => Record(ms[i].0, ms[i].1))
  }

  // ---------------------------------------------------------------------
  // The table.
  // ---------------------------------------------------------------------

  /** What `data` holds for one package: `meta["credit"]` and `meta["url"]`. */
  datatype Meta = Meta(credit: real, url: string)

  /** One entry of `listing`: (manager, package, credit, url). */
  datatype Row = Row(manager: string, package: string, credit: real, url: string)

  /** `data`: each manager with its packages, in dict order. */
  type Data = seq<(string, seq<(string, Meta)>)>

  /** The row of one package of a manager. */
  function Entry(manager: string, pkg: (string, Meta)): Row {
    Row(manager, pkg.0, pkg.1.credit, pkg.1.url)
  }

  /** The rows of one manager's packages. */
  function Group(manager: string, pkgs: seq<(string, Meta)>): (r: seq<Row>)
    ensures |r| == |pkgs|
    ensures forall j :: 0 <= j < |pkgs| ==> r[j] == Entry(manager, pkgs[j])
  {
    if pkgs == [] then [] else [Entry(manager, pkgs[0])] + Group(manager, pkgs[1..])
  }

  /** The listing before sorting: every package of every manager, managers in order. */
  function Listing(data: Data): seq<Row> {
    if data == [] then [] else Group(data[0].0, data[0].1) + Listing(data[1..])
  }

  /** The number of packages in `data`. */
  function Size(data: Data): nat {
    if data == [] then 0 else |data[0].1| + Size(data[1..])
  }

  /** Every row of the listing is a package of `data`, and every package is a row. */
  lemma {:induction false} ListingMeans(data: Data)
    ensures |Listing(data)| == Size(data)
    ensures forall r :: r in Listing(data) <==>
      (exists i, j :: 0 <= i < |data| && 0 <= j < |data[i].1| && r == Entry(data[i].0, data[i].1[j]))
  {
    if data != [] {
      ListingMeans(data[1..]);
      var g := Group(data[0].0, data[0].1);
      forall r | r in Listing(data)
        ensures exists i, j :: 0 <= i < |data| && 0 <= j < |data[i].1| && r == Entry(data[i].0, data[i].1[j])
      {
        if r in g {
          var j :| 0 <= j < |g| && g[j] == r;
          assert r == Entry(data[0].0, data[0].1[j]);
        } else {
          assert r in Listing(data[1..]);
          var i, j :| 0 <= i < |data[1..]| && 0 <= j < |data[1..][i].1| && r == Entry(data[1..][i].0, data[1..][i].1[j]);
          assert data[1..][i] == data[i + 1];
        }
      }
      forall i, j | 0 <= i < |data| && 0 <= j < |data[i].1|
        ensures Entry(data[i].0, data[i].1[j]) in Listing(data)
      {
        if i == 0 {
          assert g[j] in g;
        } else {
          assert data[1..][i - 1] == data[i];
        }
      }
    }
  }

  function CreditOf(r: Row): real {
    r.credit
  }

  /** The order of `reverse=True` on credits. */
  predicate Greater(a: real, b: real) {
    a > b
  }

  lemma GreaterStrictTotal()
    ensures Sorting.StrictTotal(Greater)
  {
  }

  /** `sorted(listing, key=itemgetter(2), reverse=True)` */
  function Sorted(listing: seq<Row>): seq<Row> {
    Sorting.SortBy(listing, CreditOf, Greater)
  }

  /** The sorted listing is the same rows, by credit from greatest to least, rows of equal credit in listing order. */
  lemma SortedMeans(listing: seq<Row>)
    ensures multiset(Sorted(listing)) == multiset(listing)
    ensures forall i, j :: 0 <= i < j < |Sorted(listing)| ==> Sorted(listing)[i].credit >= Sorted(listing)[j].credit
    ensures forall c :: Sorting.WithKey(Sorted(listing), CreditOf, c) == Sorting.WithKey(listing, CreditOf, c)
  {
    GreaterStrictTotal();
    Sorting.SortBySorted(listing, CreditOf, Greater);
    forall c ensures Sorting.WithKey(Sorted(listing), CreditOf, c) == Sorting.WithKey(listing, CreditOf, c) {
      Sorting.SortByStable(listing, CreditOf, Greater, c);
    }
  }

  /** The Name cell: "[package](url)" for a non-empty url, else the package. */
  function NameCell(package: string, url: string): (r: string)
    ensures url == "" ==> r == package
    ensures url != "" ==> r == "[" + package + "](" + url + ")"
  {
    if url != "" then "[" + package + "](" + url + ")" else package
  }

  /** The table line of a row, or nothing when its credit rounds to 0. */
  function Line(r: Row, roundBy: nat, round: (real, nat) -> real, show: real -> string): Option<string> {
    var credit := round(r.credit, roundBy);
    if credit == 0.0 then None
    else Some("|" + r.manager + "|" + NameCell(r.package, r.url) + "|" + show(credit) + "|")
  }

  /** The lines of the rows that are kept, in order. */
  function Lines(rows: seq<Row>, roundBy: nat, round: (real, nat) -> real, show: real -> string): (r: seq<string>)
    ensures |r| <= |rows|
  {
    if rows == [] then []
    else
      var line := Line(rows[0], roundBy, round, show);
      (if line.Some? then [line.value] else []) + Lines(rows[1..], roundBy, round, show)
  }

  /** Lines ended each by a newline, as `markdown +=` builds them. */
  function Text(ls: seq<string>): string {
    if ls == [] then "" else ls[0] + "\n" + Text(ls[1..])
  }

  /** `markdown`: the template, then one line per kept row. */
  function Markdown(rows: seq<Row>, roundBy: nat, round: (real, nat) -> real, show: real -> string): string {
    Text([Header, Rule] + Lines(rows, roundBy, round, show))
  }

  /** No line holds a newline. */
  predicate Unbroken(ls: seq<string>) {
    forall k :: 0 <= k < |ls| ==> !Contains(ls[k], "\n")
  }

  /** Splitting newline-ended lines at newlines gives them back, and an empty last piece. */
  lemma {:induction false} SplitText(ls: seq<string>)
    requires Unbroken(ls)
    ensures Split(Text(ls), "\n") == ls + [""]
  {
    if ls == [] {
      assert Find("", "\n") == None;
    } else {
      var x := ls[0];
      assert Text(ls) == x + "\n" + Text(ls[1..]);
      ContainsChar(x, '\n');
      SplitCons(x, '\n', Text(ls[1..]));
      SplitText(ls[1..]);
      assert ls + [""] == [x] + (ls[1..] + [""]);
    }
  }

  lemma TemplateLines()
    ensures !Contains(Header, "\n") && !Contains(Rule, "\n")
  {
    ContainsChar(Header, '\n');
    ContainsChar(Rule, '\n');
  }

  /** No line of the table breaks: the table is the header, the rule and the kept rows, one per line. */
  lemma TableLines(rows: seq<Row>, roundBy: nat, round: (real, nat) -> real, show: real -> string)
    requires Unbroken(Lines(rows, roundBy, round, show))
    ensures Split(Markdown(rows, roundBy, round, show), "\n") == [Header, Rule] + Lines(rows, roundBy, round, show) + [""]
  {
    var ls := [Header, Rule] + Lines(rows, roundBy, round, show);
    TemplateLines();
    SplitText(ls);
  }

  /** The rows whose credit does not round to 0. */
  function Kept(rows: seq<Row>, roundBy: nat, round: (real, nat) -> real): (r: seq<Row>)
    ensures |r| <= |rows|
  {
    if rows == [] then []
    else (if round(rows[0].credit, roundBy) == 0.0 then [] else [rows[0]]) + Kept(rows[1..], roundBy, round)
  }

  /** The table has one line per kept row, in order, showing its manager, its name cell and its rounded credit. */
  lemma {:induction false} LinesMeans(rows: seq<Row>, roundBy: nat, round: (real, nat) -> real, show: real -> string)
    ensures var ls := Lines(rows, roundBy, round, show);
      var ks := Kept(rows, roundBy, round);
      && |ls| == |ks|
      && forall k :: 0 <= k < |ks| ==>
        round(ks[k].credit, roundBy) != 0.0 &&
        ls[k] == "|" + ks[k].manager + "|" + NameCell(ks[k].package, ks[k].url) + "|" + show(round(ks[k].credit, roundBy)) + "|"
  {
    if rows != [] {
      LinesMeans(rows[1..], roundBy, round, show);
    }
  }

  // ---------------------------------------------------------------------
  // Putting the table in place of the blocks.
  // ---------------------------------------------------------------------

  /**
   * The inner loop: from the line holding the start marker, pop lines
   * until one holds the end marker; what is left after it.  Popping from
   * an empty list raises IndexError.
   */
  function AfterBlock(line: string, rest: seq<string>): (r: Result<seq<string>>)
    ensures r.Ok? ==> |r.value| <= |rest|
    decreases |rest|
  {
    if Contains(line, EndBlock) then Ok(rest)
    else if rest == [] then Err(IndexError("pop from empty list"))
    else AfterBlock(rest[0], rest[1..])
  }

  /** The lines that replace a block. */
  function Block(table: seq<string>): seq<string> {
    [StartBlock] + table + [Suffix, EndBlock]
  }

  /** The outer loop: each line kept, except that each block becomes the table. */
  function Rewrite(lines: seq<string>, table: seq<string>): Result<seq<string>>
    decreases |lines|
  {
    if lines == [] then Ok([])
    else if Contains(lines[0], StartBlock) then
      var rest :- AfterBlock(lines[0], lines[1..]);
      var tail :- Rewrite(rest, table);
      Ok(Block(table) + tail)
    else
      var tail :- Rewrite(lines[1..], table);
      Ok([lines[0]] + tail)
  }

  /** `render()` of a parser with this content and data. */
  function RenderOf(content: string, data: Data, roundBy: nat, round: (real, nat) -> real, show: real -> string): Result<string> {
    var table := Split(Markdown(Sorted(Listing(data)), roundBy, round, show), "\n");
    var rendered :- Rewrite(Split(content, "\n"), table);
    Ok(Join(rendered, "\n"))
  }

  /** Lines without a start marker are kept as they are. */
  lemma {:induction false} RewriteNoBlock(lines: seq<string>, table: seq<string>)
    requires forall k :: 0 <= k < |lines| ==> !Contains(lines[k], StartBlock)
    ensures Rewrite(lines, table) == Ok(lines)
  {
    if lines != [] {
      RewriteNoBlock(lines[1..], table);
      assert lines == [lines[0]] + lines[1..];
    }
  }

  /** The lines of a block: the first holds the start marker, the last and only the last the end marker. */
  predicate IsBlock(mid: seq<string>) {
    && |mid| >= 1
    && Contains(mid[0], StartBlock)
    && Contains(mid[|mid| - 1], EndBlock)
    && forall k :: 0 <= k < |mid| - 1 ==> !Contains(mid[k], EndBlock)
  }

  lemma {:induction false} AfterBlockSkips(mid: seq<string>, post: seq<string>)
    requires |mid| >= 1 && Contains(mid[|mid| - 1], EndBlock)
    requires forall k :: 0 <= k < |mid| - 1 ==> !Contains(mid[k], EndBlock)
    ensures AfterBlock(mid[0], mid[1..] + post) == Ok(post)
    decreases |mid|
  {
    if |mid| > 1 {
      assert (mid[1..] + post)[0] == mid[1] && (mid[1..] + post)[1..] == mid[2..] + post;
      AfterBlockSkips(mid[1..], post);
    } else {
      assert mid[1..] + post == post;
    }
  }

  /** The lines before the first block stay, the block becomes the table, and the rest is rewritten on its own. */
  lemma {:induction false} RewriteBlock(pre: seq<string>, mid: seq<string>, post: seq<string>, table: seq<string>)
    requires forall k :: 0 <= k < |pre| ==> !Contains(pre[k], StartBlock)
    requires IsBlock(mid)
    ensures Rewrite(pre + mid + post, table) ==
      if Rewrite(post, table).Ok? then Ok(pre + Block(table) + Rewrite(post, table).value) else Rewrite(post, table)
    decreases |pre|
  {
    var lines := pre + mid + post;
    if pre == [] {
      assert lines == mid + post;
      assert lines[0] == mid[0] && lines[1..] == mid[1..] + post;
      AfterBlockSkips(mid, post);
      assert pre + Block(table) == Block(table);
    } else {
      assert lines[0] == pre[0] && lines[1..] == pre[1..] + mid + post;
      RewriteBlock(pre[1..], mid, post, table);
      if Rewrite(post, table).Ok? {
        assert [pre[0]] + (pre[1..] + Block(table) + Rewrite(post, table).value) == pre + Block(table) + Rewrite(post, table).value;
      }
    }
  }

  lemma {:induction false} AfterBlockNoEnd(line: string, rest: seq<string>)
    requires !Contains(line, EndBlock)
    requires forall k :: 0 <= k < |rest| ==> !Contains(rest[k], EndBlock)
    ensures AfterBlock(line, rest) == Err(IndexError("pop from empty list"))
    decreases |rest|
  {
    if rest != [] {
      AfterBlockNoEnd(rest[0], rest[1..]);
    }
  }

  /** A start marker with no end marker on its line or after it raises IndexError. */
  lemma {:induction false} RewriteUnclosed(pre: seq<string>, post: seq<string>, table: seq<string>)
    requires forall k :: 0 <= k < |pre| ==> !Contains(pre[k], StartBlock)
    requires |post| >= 1 && Contains(post[0], StartBlock)
    requires forall k :: 0 <= k < |post| ==> !Contains(post[k], EndBlock)
    ensures Rewrite(pre + post, table) == Err(IndexError("pop from empty list"))
    decreases |pre|
  {
    var lines := pre + post;
    if pre == [] {
      assert lines == post;
      AfterBlockNoEnd(post[0], post[1..]);
    } else {
      assert lines[0] == pre[0] && lines[1..] == pre[1..] + post;
      RewriteUnclosed(pre[1..], post, table);
    }
  }

  /** A line of a joined text occurs in the text. */
  lemma {:induction false} JoinContains(parts: seq<string>, sep: string, k: nat, t: string)
    requires k < |parts| && Contains(parts[k], t)
    ensures Contains(Join(parts, sep), t)
    decreases |parts|
  {
    if |parts| > 1 {
      var rest := Join(parts[1..], sep);
      assert Join(parts, sep) == (parts[0] + sep) + rest;
      if k == 0 {
        ContainsLeft(parts[0], sep, t);
        ContainsLeft(parts[0] + sep, rest, t);
      } else {
        assert parts[1..][k - 1] == parts[k];
        JoinContains(parts[1..], sep, k - 1, t);
        ContainsRight(parts[0] + sep, rest, t);
      }
    }
  }

  /** A document without a start marker renders as itself. */
  lemma RenderNoBlock(content: string, data: Data, roundBy: nat, round: (real, nat) -> real, show: real -> string)
    requires !Contains(content, StartBlock)
    ensures RenderOf(content, data, roundBy, round, show) == Ok(content)
  {
    var lines := Split(content, "\n");
    forall k | 0 <= k < |lines| ensures !Contains(lines[k], StartBlock) {
      if Contains(lines[k], StartBlock) {
        JoinContains(lines, "\n", k, StartBlock);
      }
    }
    RewriteNoBlock(lines, Split(Markdown(Sorted(Listing(data)), roundBy, round, show), "\n"));
  }

  /**
   * A document with one block renders as its lines before the block, the
   * start marker, the header, the rule, one line per row that is kept, an
   * empty line, the note, the end marker and its lines after the block.
   */
  lemma RenderOneBlock(content: string, data: Data, roundBy: nat, round: (real, nat) -> real, show: real -> string,
                       pre: seq<string>, mid: seq<string>, post: seq<string>)
    requires Split(content, "\n") == pre + mid + post
    requires forall k :: 0 <= k < |pre| ==> !Contains(pre[k], StartBlock)
    requires IsBlock(mid)
    requires forall k :: 0 <= k < |post| ==> !Contains(post[k], StartBlock)
    requires Unbroken(Lines(Sorted(Listing(data)), roundBy, round, show))
    ensures RenderOf(content, data, roundBy, round, show) ==
      Ok(Join(pre + Block([Header, Rule] + Lines(Sorted(Listing(data)), roundBy, round, show) + [""]) + post, "\n"))
  {
    var rows := Sorted(Listing(data));
    TableLines(rows, roundBy, round, show);
    var table := Split(Markdown(rows, roundBy, round, show), "\n");
    assert table == [Header, Rule] + Lines(rows, roundBy, round, show) + [""];
    RewriteNoBlock(post, table);
    RewriteBlock(pre, mid, post, table);
    RenderVia(content, data, roundBy, round, show, pre + Block(table) + post);
  }

  /** Rendering is joining the rewritten lines. */
  lemma RenderVia(content: string, data: Data, roundBy: nat, round: (real, nat) -> real, show: real -> string, out: seq<string>)
    requires Rewrite(Split(content, "\n"), Split(Markdown(Sorted(Listing(data)), roundBy, round, show), "\n")) == Ok(out)
    ensures RenderOf(content, data, roundBy, round, show) == Ok(Join(out, "\n"))
  {
  }

  // ---------------------------------------------------------------------
  // The parser.
  // ---------------------------------------------------------------------

  /** A `Parser` of a Markdown file, its content already read. */
  class Parser {
    var content: string
    var data: Data
    var roundBy: nat

    /** `Parser(filename)` for a file holding `content`. */
    constructor(content: string)
      ensures this.content == content && data == [] && roundBy == 3
    {
      this.content := content;
      data := [];
      roundBy := 3;
    }

    /** `check()`: both markers must occur, the start marker's absence reported first. */
    function Check(): (r: Result<()>)
      reads this
      ensures r.Ok? <==> Contains(content, StartBlock) && Contains(content, EndBlock)
      ensures r.Err? ==> r.error == Missing(if Contains(content, StartBlock) then EndBlock else StartBlock)
    {
      if !Contains(content, StartBlock) then Err(Missing(StartBlock))
      else if !Contains(content, EndBlock) then Err(Missing(EndBlock))
      else Ok(())
    }

    /** `parse()`: after the check, one record per citation. */
    function Parse(): (r: Result<seq<Fields>>)
      reads this
      ensures r.Ok? <==> Check().Ok?
      ensures r.Err? ==> r == Err(Check().error)
      ensures r.Ok? ==> |r.value| == |FindAll(content)|
      ensures r.Ok? ==> forall i :: 0 <= i < |r.value| ==> r.value[i] == Record(FindAll(content)[i].0, FindAll(content)[i].1)
    {
      var _ :- Check();
      Ok(Records(FindAll(content)))
    }

    /** `render()` */
    method Render(round: (real, nat) -> real, show: real -> string) returns (r: Result<string>)
      ensures r == RenderOf(content, data, roundBy, round, show)
    {
      var listing := Collect(data);
      listing := Sorted(listing);
      var markdown := Tabulate(listing, roundBy, round, show);
      var rendered := Splice(Split(content, "\n"), Split(markdown, "\n"));
      if rendered.Err? {
        return Err(rendered.error);
      }
      return Ok(Join(rendered.value, "\n"));
    }
  }

  /** The loop over `data.items()`. */
  method Collect(data: Data) returns (listing: seq<Row>)
    ensures listing == Listing(data)
  {
    listing := [];
    for i := 0 to |data|
      invariant Listing(data) == listing + Listing(data[i..])
    {
      assert data[i..][0] == data[i] && data[i..][1..] == data[i + 1..];
      var (manager, packages) := data[i];
      var rows := CollectGroup(manager, packages);
      listing := listing + rows;
    }
  }

  /** The inner loop over `packages.items()`, appending one row per package. */
  method CollectGroup(manager: string, packages: seq<(string, Meta)>) returns (rows: seq<Row>)
    ensures rows == Group(manager, packages)
  {
    rows := [];
    for j := 0 to |packages|
      invariant Group(manager, packages) == rows + Group(manager, packages[j..])
    {
      assert packages[j..][0] == packages[j] && packages[j..][1..] == packages[j + 1..];
      rows := rows + [Entry(manager, packages[j])];
    }
  }

  /** The loop that appends a line per row to `markdown`. */
  method Tabulate(listing: seq<Row>, roundBy: nat, round: (real, nat) -> real, show: real -> string) returns (markdown: string)
    ensures markdown == Markdown(listing, roundBy, round, show)
  {
    markdown := Header + "\n" + Rule + "\n";
    assert Text([Rule]) == Rule + "\n" + Text([]);
    assert Text([Header, Rule]) == Header + "\n" + Text([Rule]);
    TextAppend([Header, Rule], Lines(listing, roundBy, round, show));
    for i := 0 to |listing|
      invariant markdown + Text(Lines(listing[i..], roundBy, round, show)) == Markdown(listing, roundBy, round, show)
    {
      TabulateStep(markdown, listing[i..], roundBy, round, show, Markdown(listing, roundBy, round, show));
      assert listing[i..][0] == listing[i] && listing[i..][1..] == listing[i + 1..];
      var row := listing[i];
      var credit := round(row.credit, roundBy);
      if credit == 0.0 {
        assert Line(row, roundBy, round, show) == None;
        continue;
      }
      var package := NameCell(row.package, row.url);
      var line := "|" + row.manager + "|" + package + "|" + show(credit) + "|";
      assert Line(row, roundBy, round, show) == Some(line);
      var piece := line + "\n";
      markdown := markdown + piece;
    }
    assert listing[|listing|..] == [];
  }

  /** One turn of the loop of `Tabulate`: the first row's line, if kept, moves from the rest onto `markdown`. */
  lemma TabulateStep(markdown: string, rows: seq<Row>, roundBy: nat, round: (real, nat) -> real, show: real -> string, target: string)
    requires rows != []
    requires markdown + Text(Lines(rows, roundBy, round, show)) == target
    ensures Line(rows[0], roundBy, round, show).None? ==> markdown + Text(Lines(rows[1..], roundBy, round, show)) == target
    ensures Line(rows[0], roundBy, round, show).Some? ==>
      markdown + (Line(rows[0], roundBy, round, show).value + "\n") + Text(Lines(rows[1..], roundBy, round, show)) == target
  {
    TextLinesStep(rows, roundBy, round, show);
    var rest := Text(Lines(rows[1..], roundBy, round, show));
    var line := Line(rows[0], roundBy, round, show);
    if line.Some? {
      assert markdown + (line.value + "\n" + rest) == markdown + (line.value + "\n") + rest;
    } else {
      assert "" + rest == rest;
    }
  }

  /** The text of the kept lines: that of the first row, if kept, then that of the others. */
  lemma TextLinesStep(rows: seq<Row>, roundBy: nat, round: (real, nat) -> real, show: real -> string)
    requires rows != []
    ensures Text(Lines(rows, roundBy, round, show)) ==
      (if Line(rows[0], roundBy, round, show).Some? then Line(rows[0], roundBy, round, show).value + "\n" else "")
      + Text(Lines(rows[1..], roundBy, round, show))
  {
    var line := Line(rows[0], roundBy, round, show);
    var rest := Lines(rows[1..], roundBy, round, show);
    if line.Some? {
      TextAppend([line.value], rest);
      assert Text([line.value]) == line.value + "\n" + Text([]);
    } else {
      assert Lines(rows, roundBy, round, show) == rest;
    }
  }

  lemma {:induction false} TextAppend(a: seq<string>, b: seq<string>)
    ensures Text(a + b) == Text(a) + Text(b)
  {
    if a != [] {
      assert (a + b)[0] == a[0] && (a + b)[1..] == a[1..] + b;
      TextAppend(a[1..], b);
      assert Text(a + b) == a[0] + "\n" + (Text(a[1..]) + Text(b));
    } else {
      assert a + b == b;
    }
  }

  /** The `while lines:` loop with its `pop(0)`s. */
  method Splice(all: seq<string>, table: seq<string>) returns (r: Result<seq<string>>)
    ensures r == Rewrite(all, table)
  {
    var lines := all;
    var render: seq<string> := [];
    assert Rewrite(lines, table).Ok? ==> render + Rewrite(lines, table).value == Rewrite(lines, table).value;
    while lines != []
      invariant Rewrite(all, table) == if Rewrite(lines, table).Ok? then Ok(render + Rewrite(lines, table).value) else Rewrite(lines, table)
      decreases |lines|
    {
      ghost var before := lines;
      var line := lines[0];
      lines := lines[1..];
      if Contains(line, StartBlock) {
        while !Contains(line, EndBlock)
          invariant AfterBlock(before[0], before[1..]) == AfterBlock(line, lines)
          decreases |lines|
        {
          if lines == [] {
            assert Rewrite(before, table) == Err(IndexError("pop from empty list"));
            return Err(IndexError("pop from empty list"));
          }
          line := lines[0];
          lines := lines[1..];
        }
        assert AfterBlock(before[0], before[1..]) == Ok(lines);
        ghost var tail := Rewrite(lines, table);
        assert Rewrite(before, table) == if tail.Ok? then Ok(Block(table) + tail.value) else tail;
        if tail.Ok? {
          assert render + (Block(table) + tail.value) == (render + Block(table)) + tail.value;
        }
        render := render + Block(table);
      } else {
        ghost var tail := Rewrite(lines, table);
        assert Rewrite(before, table) == if tail.Ok? then Ok([line] + tail.value) else tail;
        if tail.Ok? {
          assert render + ([line] + tail.value) == (render + [line]) + tail.value;
        }
        render := render + [line];
      }
    }
    assert render + [] == render;
    return Ok(render);
  }
}
