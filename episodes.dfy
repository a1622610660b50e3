/**
 * parse_episodes of getiplayer_interface.py: the tree listing of the
 * catalogue tool, where every line that is not an episode line names the
 * series of the episode lines that follow it.  Episodes are grouped by
 * series, each group is stably sorted by episode number, and the numbers are
 * then dropped.
 */
module Episodes {
  import opened Results
  import opened Strings

  /** One episode line: its programme index, its episode number (0 when blank) and its title. */
  datatype Episode = Episode(index: nat, number: nat, title: string)

  /** The series key: None for the episodes listed before any series line. */
  type Series = Option<string>

  // ------------------------------------------------------------ episode lines

  /** The length of the run of digits at the start of s. */
  function LeadingDigits(s: string): (n: nat)
    ensures n <= |s| && IsDigits(s[..n])
    ensures n < |s| ==> !IsDigit(s[n])
  {
    if s != [] && IsDigit(s[0]) then
      var n := 1 + LeadingDigits(s[1..]);
      assert s[..n] == [s[0]] + s[1..][..n - 1];
      n
    else 0
  }

  /** The run of digits at the start of s, and what follows it. */
  function SplitDigits(s: string): (r: (string, string))
    ensures IsDigits(r.0) && s == r.0 + r.1
    ensures r.1 == [] || !IsDigit(r.1[0])
  {
    var n := LeadingDigits(s);
    assert s == s[..n] + s[n..];
    (s[..n], s[n..])
  }

  /**
   * The episode-line pattern "  <index>: (<number>) <title>": two spaces, at
   * least one digit, ": (", any digits, ") " and the rest of the line as the
   * title.  The lazy digit groups of the pattern are followed by characters
   * that are not digits, so they take the whole run of digits.
   */
  function MatchEpisodeLine(line: string): Option<Episode>
  {
    if StartsWith(line, "  ") then MatchIndexed(line[2..]) else None
  }

  /** After the indent: "<index>: (" and the rest. */
  function MatchIndexed(a: string): Option<Episode>
  {
    var (index, rest) := SplitDigits(a);
    if index != [] && StartsWith(rest, ": (") then MatchNumbered(DigitsValue(index), rest[3..]) else None
  }

  /** After the index: "<number>) <title>", a blank number read as 0. */
  function MatchNumbered(index: nat, b: string): Option<Episode>
  {
    var (number, rest) := SplitDigits(b);
    if StartsWith(rest, ") ") then
      Some(Episode(index, if number == [] then 0 else DigitsValue(number), rest[2..]))
    else None
  }

  predicate IsEpisodeLine(line: string) { MatchEpisodeLine(line).Some? }

  /** The episode line the catalogue tool prints for an episode. */
  function EpisodeLine(e: Episode): string
  {
    "  " + ShowNat(e.index) + ": (" + ShowNat(e.number) + ") " + e.title
  }

  lemma {:induction false} LeadingDigitsOf(digits: string, rest: string)
    requires IsDigits(digits)
    requires rest == [] || !IsDigit(rest[0])
    ensures LeadingDigits(digits + rest) == |digits|
  {
    if digits != [] {
      assert (digits + rest)[1..] == digits[1..] + rest;
      LeadingDigitsOf(digits[1..], rest);
    }
  }

  lemma SplitDigitsOf(digits: string, rest: string)
    requires IsDigits(digits)
    requires rest == [] || !IsDigit(rest[0])
    ensures SplitDigits(digits + rest) == (digits, rest)
  {
    LeadingDigitsOf(digits, rest);
    assert (digits + rest)[..|digits|] == digits;
    assert (digits + rest)[|digits|..] == rest;
  }

  lemma MatchNumberedOf(index: nat, num: string, title: string)
    requires IsDigits(num)
    ensures MatchNumbered(index, num + ") " + title)
         == Some(Episode(index, if num == [] then 0 else DigitsValue(num), title))
  {
    assert num + ") " + title == num + (") " + title);
    SplitDigitsOf(num, ") " + title);
    assert (") " + title)[..2] == ") ";
    assert (") " + title)[2..] == title;
  }

  lemma MatchIndexedOf(idx: string, b: string)
    requires IsDigits(idx) && idx != []
    ensures MatchIndexed(idx + ": (" + b) == MatchNumbered(DigitsValue(idx), b)
  {
    assert idx + ": (" + b == idx + (": (" + b);
    SplitDigitsOf(idx, ": (" + b);
    assert (": (" + b)[..3] == ": (";
    assert (": (" + b)[3..] == b;
  }

  lemma MatchEpisodeLineOf(a: string)
    ensures MatchEpisodeLine("  " + a) == MatchIndexed(a)
  {
    assert ("  " + a)[..2] == "  ";
    assert ("  " + a)[2..] == a;
  }

  /** Every printed episode line reads back as the episode it was printed from. */
  lemma EpisodeLineRoundTrip(e: Episode)
    ensures MatchEpisodeLine(EpisodeLine(e)) == Some(e)
  {
    var idx, num := ShowNat(e.index), ShowNat(e.number);
    var b := num + ") " + e.title;
    assert EpisodeLine(e) == "  " + (idx + ": (" + b);
    MatchEpisodeLineOf(idx + ": (" + b);
    MatchIndexedOf(idx, b);
    MatchNumberedOf(e.index, num, e.title);
  }

  /** A blank episode number reads as 0. */
  lemma BlankNumberIsZero(index: nat, title: string)
    ensures MatchEpisodeLine("  " + ShowNat(index) + ": () " + title) == Some(Episode(index, 0, title))
  {
    var idx := ShowNat(index);
    var b := [] + ") " + title;
    assert "  " + idx + ": () " + title == "  " + (idx + ": (" + b);
    MatchEpisodeLineOf(idx + ": (" + b);
    MatchIndexedOf(idx, b);
    MatchNumberedOf(index, [], title);
  }

  // ------------------------------------------------------------- grouping

  /** The series in force after reading some lines: the last line that is not an episode line. */
  function SeriesAfter(lines: seq<string>): (s: Series)
    ensures s.Some? ==> s.value in lines && !IsEpisodeLine(s.value)
  {
    if lines == [] then None
    else if !IsEpisodeLine(lines[|lines| - 1]) then Some(lines[|lines| - 1])
    else SeriesAfter(lines[..|lines| - 1])
  }

  /** The dictionary the reading loop has built after some lines. */
  function Grouped(lines: seq<string>): map<Series, seq<Episode>>
  {
    if lines == [] then map[]
    else
      var before := lines[..|lines| - 1];
      var g := Grouped(before);
      match MatchEpisodeLine(lines[|lines| - 1])
      case None => g
      case Some(e) =>
        var series := SeriesAfter(before);
        g[series := (if series in g then g[series] else []) + [e]]
  }

  /** Reference view: the episode lines whose series is s, in line order. */
  function EpisodesUnder(lines: seq<string>, s: Series): (r: seq<Episode>)
    ensures |r| <= |lines|
  {
    if lines == [] then []
    else
      var before := lines[..|lines| - 1];
      var rest := EpisodesUnder(before, s);
      match MatchEpisodeLine(lines[|lines| - 1])
      case None => rest
      case Some(e) => if SeriesAfter(before) == s then rest + [e] else rest
  }

  /**
   * The dictionary holds exactly the series that have at least one episode
   * line (a series line with no episodes is not a key), and each holds its
   * episodes in line order.
   */
  lemma {:induction false} GroupedIsEpisodesUnder(lines: seq<string>, s: Series)
    ensures s in Grouped(lines) <==> EpisodesUnder(lines, s) != []
    ensures s in Grouped(lines) ==> Grouped(lines)[s] == EpisodesUnder(lines, s)
  {
    if lines != [] {
      GroupedIsEpisodesUnder(lines[..|lines| - 1], s);
    }
  }

  /** Reading one more line: a series line replaces the series, an episode line joins its group. */
  lemma ReadLine(lines: seq<string>, line: string)
    ensures MatchEpisodeLine(line).None? ==>
      SeriesAfter(lines + [line]) == Some(line) && Grouped(lines + [line]) == Grouped(lines)
    ensures MatchEpisodeLine(line).Some? ==>
      var series := SeriesAfter(lines);
      var g := Grouped(lines);
      SeriesAfter(lines + [line]) == series
      && Grouped(lines + [line]) == g[series := (if series in g then g[series] else []) + [MatchEpisodeLine(line).value]]
  {
    assert (lines + [line])[..|lines|] == lines;
  }

  // ------------------------------------------------------------- stable sort

  predicate SortedByNumber(s: seq<Episode>)
  {
    forall i, j :: 0 <= i < j < |s| ==> s[i].number <= s[j].number
  }

  /** The episodes numbered n, in order. */
  function Numbered(s: seq<Episode>, n: nat): (r: seq<Episode>)
    ensures |r| <= |s|
  {
    if s == [] then []
    else Numbered(s[..|s| - 1], n) + (if s[|s| - 1].number == n then [s[|s| - 1]] else [])
  }

  /** The position at which e goes into s: after every episode numbered at most e's number. */
  function InsertionPoint(s: seq<Episode>, e: Episode): (p: nat)
    ensures p <= |s|
    ensures forall i :: 0 <= i < p ==> s[i].number <= e.number
    ensures p < |s| ==> s[p].number > e.number
  {
    if s == [] || s[0].number > e.number then 0 else 1 + InsertionPoint(s[1..], e)
  }

  function Insert(s: seq<Episode>, e: Episode): seq<Episode>
  {
    var p := InsertionPoint(s, e);
    s[..p] + [e] + s[p..]
  }

  /** sorted(episodes, key=number): a stable sort by episode number. */
  function SortByNumber(s: seq<Episode>): seq<Episode>
  {
    if s == [] then [] else Insert(SortByNumber(s[..|s| - 1]), s[|s| - 1])
  }

  lemma {:induction false} NumberedAppend(a: seq<Episode>, b: seq<Episode>, n: nat)
    ensures Numbered(a + b, n) == Numbered(a, n) + Numbered(b, n)
  {
    if b == [] {
      assert a + b == a;
    } else {
      assert (a + b)[..|a + b| - 1] == a + b[..|b| - 1];
      NumberedAppend(a, b[..|b| - 1], n);
    }
  }

  lemma {:induction false} NumberedAbove(s: seq<Episode>, n: nat)
    requires forall i :: 0 <= i < |s| ==> s[i].number > n
    ensures Numbered(s, n) == []
  {
    if s != [] {
      NumberedAbove(s[..|s| - 1], n);
    }
  }

  lemma InsertKeepsSorted(s: seq<Episode>, e: Episode)
    requires SortedByNumber(s)
    ensures SortedByNumber(Insert(s, e))
    ensures multiset(Insert(s, e)) == multiset(s) + multiset{e}
  {
    InsertSorted(s, e);
    InsertPermutes(s, e);
  }

  lemma InsertSorted(s: seq<Episode>, e: Episode)
    requires SortedByNumber(s)
    ensures SortedByNumber(Insert(s, e))
  {
    var p := InsertionPoint(s, e);
    var r := Insert(s, e);
    forall i, j | 0 <= i < j < |r| ensures r[i].number <= r[j].number {
      InsertedAt(s, e, i);
      InsertedAt(s, e, j);
      if p < j - 1 && i <= p {
        assert s[p].number <= s[j - 1].number;
      }
    }
  }

  lemma InsertPermutes(s: seq<Episode>, e: Episode)
    ensures multiset(Insert(s, e)) == multiset(s) + multiset{e}
  {
    var p := InsertionPoint(s, e);
    calc {
      multiset(Insert(s, e));
      multiset(s[..p]) + multiset{e} + multiset(s[p..]);
    == { assert s == s[..p] + s[p..]; }
      multiset(s) + multiset{e};
    }
  }

  /** Where each element of Insert(s, e) comes from. */
  lemma InsertedAt(s: seq<Episode>, e: Episode, k: nat)
    requires k <= |s|
    ensures var p := InsertionPoint(s, e);
      Insert(s, e)[k] == (if k < p then s[k] else if k == p then e else s[k - 1])
  {
  }

  lemma NumberedSingle(e: Episode, n: nat)
    ensures Numbered([e], n) == (if e.number == n then [e] else [])
  {
    assert [e][..0] == [];
  }

  lemma NumberedAround(a: seq<Episode>, e: Episode, c: seq<Episode>, n: nat)
    ensures Numbered(a + [e] + c, n) == Numbered(a, n) + (if e.number == n then [e] else []) + Numbered(c, n)
    ensures Numbered(a + c, n) == Numbered(a, n) + Numbered(c, n)
  {
    NumberedAppend(a + [e], c, n);
    NumberedAppend(a, [e], n);
    NumberedAppend(a, c, n);
    NumberedSingle(e, n);
  }

  /** Putting e between episodes numbered at most e's number and episodes numbered above it. */
  lemma StableSplice(a: seq<Episode>, e: Episode, c: seq<Episode>, n: nat)
    requires forall i :: 0 <= i < |a| ==> a[i].number <= e.number
    requires forall i :: 0 <= i < |c| ==> c[i].number > e.number
    ensures Numbered(a + [e] + c, n) == Numbered(a + c, n) + (if e.number == n then [e] else [])
  {
    NumberedAround(a, e, c, n);
    var mid := if e.number == n then [e] else [];
    if n <= e.number {
      NumberedAbove(c, n);
      assert Numbered(a + [e] + c, n) == Numbered(a, n) + mid;
      assert Numbered(a + c, n) == Numbered(a, n);
    } else {
      NumberedBelow(a, n);
      assert mid == [];
      assert Numbered(a + [e] + c, n) == Numbered(c, n);
      assert Numbered(a + c, n) == Numbered(c, n);
    }
  }

  lemma InsertIsStable(s: seq<Episode>, e: Episode, n: nat)
    requires SortedByNumber(s)
    ensures Numbered(Insert(s, e), n) == Numbered(s, n) + (if e.number == n then [e] else [])
  {
    var p := InsertionPoint(s, e);
    InsertionSides(s, e);
    StableSpliceAt(s, p, e, n);
  }

  lemma StableSpliceAt(s: seq<Episode>, p: nat, e: Episode, n: nat)
    requires p <= |s|
    requires forall i :: 0 <= i < |s[..p]| ==> s[..p][i].number <= e.number
    requires forall i :: 0 <= i < |s[p..]| ==> s[p..][i].number > e.number
    ensures Numbered(s[..p] + [e] + s[p..], n) == Numbered(s, n) + (if e.number == n then [e] else [])
  {
    StableSplice(s[..p], e, s[p..], n);
    assert s[..p] + s[p..] == s;
  }

  /** Before the insertion point every number is at most e's, after it every number exceeds e's. */
  lemma InsertionSides(s: seq<Episode>, e: Episode)
    requires SortedByNumber(s)
    ensures var p := InsertionPoint(s, e);
      (forall i :: 0 <= i < |s[..p]| ==> s[..p][i].number <= e.number)
      && (forall i :: 0 <= i < |s[p..]| ==> s[p..][i].number > e.number)
  {
    var p := InsertionPoint(s, e);
    forall i | 0 <= i < |s[p..]| ensures s[p..][i].number > e.number {
      assert s[p].number <= s[p + i].number;
    }
  }

  lemma {:induction false} NumberedBelow(s: seq<Episode>, n: nat)
    requires forall i :: 0 <= i < |s| ==> s[i].number < n
    ensures Numbered(s, n) == []
  {
    if s != [] {
      NumberedBelow(s[..|s| - 1], n);
    }
  }

  /**
   * The sort is a stable sort by number: the result is sorted, holds the same
   * episodes, and the episodes sharing any one number keep their order.
   */
  lemma {:induction false} SortByNumberIsStableSort(s: seq<Episode>)
    ensures SortedByNumber(SortByNumber(s))
    ensures multiset(SortByNumber(s)) == multiset(s)
    ensures forall n: nat :: Numbered(SortByNumber(s), n) == Numbered(s, n)
  {
    if s != [] {
      var front, last := s[..|s| - 1], s[|s| - 1];
      SortByNumberIsStableSort(front);
      InsertKeepsSorted(SortByNumber(front), last);
      forall n: nat ensures Numbered(SortByNumber(s), n) == Numbered(s, n) {
        InsertIsStable(SortByNumber(front), last, n);
      }
      assert s == front + [last];
    }
  }

  // ------------------------------------------------------------- the parser

  /** The (index, title) pairs the parser keeps, numbers dropped. */
  function WithoutNumbers(s: seq<Episode>): (r: seq<(nat, string)>)
    ensures |r| == |s|
    ensures forall i :: 0 <= i < |s| ==> r[i] == (s[i].index, s[i].title)
  {
    seq(|s|, i requires 0 <= i < |s| => (s[i].index, s[i].title))
  }

  /** The value of parse_episodes, as a function of the lines it reads. */
  function SortedEpisodes(lines: seq<string>): map<Series, seq<(nat, string)>>
  {
    var g := Grouped(lines);
    map s | s in g :: WithoutNumbers(SortByNumber(g[s]))
  }

  /**
   * parse_episodes: read the lines, grouping every episode line under the
   * series in force, then sort each group by episode number and drop the
   * numbers.
   */
  method ParseEpisodes(input: string) returns (sorted: map<Series, seq<(nat, string)>>)
    ensures sorted == SortedEpisodes(SplitLines(input))
  {
    var episodes := ReadEpisodes(SplitLines(input));
    sorted := SortGroups(episodes);
  }

  /** The reading loop of parse_episodes: each episode line joins the group of the series in force. */
  method ReadEpisodes(lines: seq<string>) returns (episodes: map<Series, seq<Episode>>)
    ensures episodes == Grouped(lines)
  {
    episodes := map[];
    var series: Series := None;
    for i := 0 to |lines|
      invariant episodes == Grouped(lines[..i])
      invariant series == SeriesAfter(lines[..i])
    {
      ghost var before := lines[..i];
      var line := lines[i];
      ReadLine(before, line);
      var m := MatchEpisodeLine(line);
      if m.None? {
        series := Some(line);
      } else {
        var seriesList := if series in episodes then episodes[series] else [];
        episodes := episodes[series := seriesList + [m.value]];
      }
      PrefixExtend(lines, i);
    }
    assert lines[..|lines|] == lines;
  }

  /** The sorting loop of parse_episodes: each group sorted by number, the numbers dropped. */
  method SortGroups(episodes: map<Series, seq<Episode>>) returns (sorted: map<Series, seq<(nat, string)>>)
    ensures sorted == map s | s in episodes :: WithoutNumbers(SortByNumber(episodes[s]))
  {
    sorted := map[];
    var pending := episodes.Keys;
    while pending != {}
      invariant pending <= episodes.Keys
      invariant sorted.Keys == episodes.Keys - pending
      invariant forall s :: s in sorted ==> sorted[s] == WithoutNumbers(SortByNumber(episodes[s]))
      decreases pending
    {
      var s :| s in pending;
      sorted := sorted[s := WithoutNumbers(SortByNumber(episodes[s]))];
      pending := pending - {s};
    }
  }

  /**
   * The parser's promise in one place: a key for exactly the series that have
   * episodes, and under it those episodes sorted stably by number, as
   * (index, title) pairs.
   */
  lemma SortedEpisodesMeaning(lines: seq<string>, s: Series)
    ensures s in SortedEpisodes(lines) <==> EpisodesUnder(lines, s) != []
    ensures s in SortedEpisodes(lines) ==>
      SortedEpisodes(lines)[s] == WithoutNumbers(SortByNumber(EpisodesUnder(lines, s)))
  {
    GroupedIsEpisodesUnder(lines, s);
  }
}
