/**
 * The line-oriented parsers of getiplayer_interface.py: the facet listings,
 * the matching-programme total, the version lists and the download history.
 * Each regular expression of the source is compiled with MULTILINE and read
 * by finditer or search, so it is modelled as a recogniser of one line,
 * applied to every line in order.
 */
module Parsers {
  import opened Results
  import opened Strings

  // ------------------------------------------------------------ scanning lines

  /** The results of the lines that the recogniser accepts, in line order. */
  function Collect<T>(lines: seq<string>, recognise: string -> Option<T>): (r: seq<T>)
    ensures |r| <= |lines|
  {
    if lines == [] then []
    else
      var rest := Collect(lines[1..], recognise);
      match recognise(lines[0])
      case None => rest
      case Some(x) => [x] + rest
  }

  /** Scanning is line by line: the results for a concatenation are the results for each part, in order. */
  lemma {:induction false} CollectAppend<T>(a: seq<string>, b: seq<string>, recognise: string -> Option<T>)
    ensures Collect(a + b, recognise) == Collect(a, recognise) + Collect(b, recognise)
  {
    if a == [] {
      assert a + b == b;
    } else {
      assert (a + b)[0] == a[0];
      assert (a + b)[1..] == a[1..] + b;
      CollectAppend(a[1..], b, recognise);
    }
  }

  /** When every line is recognised, there is one result per line, in line order. */
  lemma {:induction false} CollectEvery<T>(lines: seq<string>, xs: seq<T>, recognise: string -> Option<T>)
    requires |lines| == |xs|
    requires forall i :: 0 <= i < |lines| ==> recognise(lines[i]) == Some(xs[i])
    ensures Collect(lines, recognise) == xs
  {
    if lines != [] {
      CollectEvery(lines[1..], xs[1..], recognise);
    }
  }

  /** A line the recogniser rejects adds nothing; a line it accepts adds its result in its place. */
  lemma CollectLine<T>(a: seq<string>, line: string, b: seq<string>, recognise: string -> Option<T>)
    ensures recognise(line).None? ==>
      Collect(a + [line] + b, recognise) == Collect(a, recognise) + Collect(b, recognise)
    ensures recognise(line).Some? ==>
      Collect(a + [line] + b, recognise) == Collect(a, recognise) + [recognise(line).value] + Collect(b, recognise)
  {
    CollectAppend(a + [line], b, recognise);
    CollectAppend(a, [line], recognise);
    CollectSingle(line, recognise);
  }

  lemma CollectSingle<T>(line: string, recognise: string -> Option<T>)
    ensures Collect([line], recognise) == if recognise(line).Some? then [recognise(line).value] else []
  {
    assert [line][1..] == [];
  }

  /** The first line the recogniser accepts. */
  function FirstMatch<T>(lines: seq<string>, recognise: string -> Option<T>): (r: Option<nat>)
    ensures r.Some? ==> r.value < |lines| && recognise(lines[r.value]).Some?
    ensures r.Some? ==> forall j :: 0 <= j < r.value ==> recognise(lines[j]).None?
    ensures r.None? ==> forall j :: 0 <= j < |lines| ==> recognise(lines[j]).None?
  {
    if lines == [] then None
    else if recognise(lines[0]).Some? then Some(0)
    else
      match FirstMatch(lines[1..], recognise)
      case None =>
        assert forall j :: 1 <= j < |lines| ==> lines[j] == lines[1..][j - 1];
        None
      case Some(k) =>
        assert forall j :: 1 <= j <= k + 1 ==> lines[j] == lines[1..][j - 1];
        Some(k + 1)
  }

  /** One text line per entry, joined with newlines. */
  function JoinLines(lines: seq<string>): string { Join(lines, "\n") }

  /** Newline-free lines survive being joined and split again. */
  lemma LinesOfJoin(lines: seq<string>)
    requires |lines| >= 1
    requires forall i :: 0 <= i < |lines| ==> '\n' !in lines[i]
    ensures Lines(JoinLines(lines)) == lines
  {
    UnborderedChar('\n');
    forall i | 0 <= i < |lines| ensures Lacks(lines[i], "\n") {
      LacksChar(lines[i], '\n');
    }
    SplitOnJoin(lines, "\n");
  }

  // ----------------------------------------------------------------- listings

  /** An entry of a facet listing: the value alone, or the value with its count of programmes. */
  datatype Listing = Name(name: string) | Counted(name: string, count: nat)

  /**
   * A listing line "<name> (<digits>)" split into its raw name and digits; the
   * name is at least one character and the digits run up to the closing
   * parenthesis at the end of the line.
   */
  function SplitListingLine(line: string): (r: Option<(string, string)>)
    ensures r.Some? ==> |r.value.0| >= 1 && |r.value.1| >= 1 && IsDigits(r.value.1)
  {
    match RFind(line, '(')
    case None => None
    case Some(p) =>
      if p >= 2 && line[p - 1] == ' ' && p + 2 < |line| && line[|line| - 1] == ')'
         && IsDigits(line[p + 1..|line| - 1])
      then Some((line[..p - 1], line[p + 1..|line| - 1]))
      else None
  }

  /** A split line is exactly its name, " (", its digits and ")". */
  lemma SplitListingLineSound(line: string)
    ensures SplitListingLine(line).Some? ==>
      line == SplitListingLine(line).value.0 + " (" + SplitListingLine(line).value.1 + ")"
  {
    if SplitListingLine(line).Some? {
      var p := RFind(line, '(').value;
      assert line == line[..p - 1] + " (" + line[p + 1..|line| - 1] + ")";
    }
  }

  /** Every line of the listing shape is split into the name and digits it was built from. */
  lemma SplitListingLineComplete(name: string, digits: string)
    requires |name| >= 1 && |digits| >= 1 && IsDigits(digits)
    ensures SplitListingLine(name + " (" + digits + ")") == Some((name, digits))
  {
    var line := name + " (" + digits + ")";
    ClosedDigitsLackParen(digits);
    assert line == (name + " ") + ['('] + (digits + ")");
    RFindLast(name + " ", '(', digits + ")");
    ListingShape(name, digits);
    SplitListingAt(line, |name| + 1);
  }

  lemma ClosedDigitsLackParen(digits: string)
    requires IsDigits(digits)
    ensures '(' !in digits + ")"
  {
    forall j | 0 <= j < |digits + ")"| ensures (digits + ")")[j] != '(' {
      if j < |digits| { assert IsDigit(digits[j]); }
    }
  }

  lemma SplitListingAt(line: string, p: nat)
    requires RFind(line, '(') == Some(p) && p >= 2
    requires line[p - 1] == ' ' && p + 2 < |line| && line[|line| - 1] == ')'
    requires IsDigits(line[p + 1..|line| - 1])
    ensures SplitListingLine(line) == Some((line[..p - 1], line[p + 1..|line| - 1]))
  {
  }

  lemma ListingShape(name: string, digits: string)
    ensures var line := name + " (" + digits + ")";
      var p := |name| + 1;
      && line[p - 1] == ' ' && p + 2 <= |line| && line[|line| - 1] == ')'
      && line[..p - 1] == name && line[p + 1..|line| - 1] == digits
  {
    var line := name + " (" + digits + ")";
    var p := |name| + 1;
    assert line[..p - 1] == name;
    assert line[p + 1..|line| - 1] == digits;
  }

  /** The stripped name and the count of a listing line. */
  function ListingEntry(line: string): Option<(string, nat)>
  {
    match SplitListingLine(line)
    case None => None
    case Some((name, digits)) => Some((Strip(name), DigitsValue(digits)))
  }

  function CountedListing(line: string): (r: Option<Listing>)
    ensures r.Some? ==> r.value.Counted?
  {
    match ListingEntry(line)
    case None => None
    case Some((name, count)) => Some(Counted(name, count))
  }

  function NamedListing(line: string): (r: Option<Listing>)
    ensures r.Some? ==> r.value.Name?
  {
    match CountedListing(line)
    case None => None
    case Some(entry) => Some(Name(entry.name))
  }

  /** parse_listings: one entry per listing line of the output, as (name, count) or name alone. */
  function ParseListings(input: string, withCounts: bool): (r: seq<Listing>)
    ensures |r| <= |Lines(input)|
  {
    Collect(Lines(input), if withCounts then CountedListing else NamedListing)
  }

  /** The line the catalogue tool prints for a facet value and its count. */
  function ListingLine(name: string, count: nat): string { name + " (" + ShowNat(count) + ")" }

  function ListingLines(entries: seq<(string, nat)>): seq<string>
  {
    seq(|entries|, i requires 0 <= i < |entries| => ListingLine(entries[i].0, entries[i].1))
  }

  /** A listing name as the tool prints it: not empty, no surrounding space, one line. */
  predicate PrintableName(name: string)
  {
    |name| >= 1 && !IsSpace(name[0]) && !IsSpace(name[|name| - 1]) && '\n' !in name
  }

  /** One printed listing line reads back as the entry it was printed from. */
  lemma ListingLineParses(name: string, count: nat)
    requires PrintableName(name)
    ensures CountedListing(ListingLine(name, count)) == Some(Counted(name, count))
  {
    var digits := ShowNat(count);
    var line := ListingLine(name, count);
    SplitListingLineComplete(name, digits);
    StripUnpadded(name);
    assert SplitListingLine(line) == Some((name, digits));
    assert ListingEntry(line) == Some((Strip(name), DigitsValue(digits)));
  }

  /** A printed listing line is a single line. */
  lemma ListingLineSingle(name: string, count: nat)
    requires '\n' !in name
    ensures '\n' !in ListingLine(name, count)
  {
    var digits := ShowNat(count);
    assert forall j :: 0 <= j < |digits| ==> digits[j] != '\n' by {
      forall j | 0 <= j < |digits| ensures digits[j] != '\n' { assert IsDigit(digits[j]); }
    }
  }

  /**
   * Parsing the listing the tool prints for some (name, count) entries gives
   * those entries back, in the same order.
   */
  lemma ParseListingsRoundTrip(entries: seq<(string, nat)>)
    requires |entries| >= 1
    requires forall i :: 0 <= i < |entries| ==> PrintableName(entries[i].0)
    ensures ParseListings(JoinLines(ListingLines(entries)), true)
         == seq(|entries|, i requires 0 <= i < |entries| => Counted(entries[i].0, entries[i].1))
  {
    var lines := ListingLines(entries);
    var expected := seq(|entries|, i requires 0 <= i < |entries| => Counted(entries[i].0, entries[i].1));
    forall i | 0 <= i < |lines| ensures '\n' !in lines[i] && CountedListing(lines[i]) == Some(expected[i]) {
      ListingLineParses(entries[i].0, entries[i].1);
      ListingLineSingle(entries[i].0, entries[i].1);
    }
    LinesOfJoin(lines);
    CollectEvery(lines, expected, CountedListing);
  }

  /**
   * Any line "<name> (<digits>)" is an entry: the name stripped of
   * surrounding whitespace, the count the value of the digits.
   */
  lemma ListingLineEntry(name: string, digits: string)
    requires |name| >= 1 && |digits| >= 1 && IsDigits(digits)
    ensures CountedListing(name + " (" + digits + ")") == Some(Counted(Strip(name), DigitsValue(digits)))
    ensures NamedListing(name + " (" + digits + ")") == Some(Name(Strip(name)))
  {
    SplitListingLineComplete(name, digits);
  }

  /** Without counts, the listing holds the same names, in the same order, as with counts. */
  lemma {:induction false} ListingNamesAgree(lines: seq<string>)
    ensures |Collect(lines, NamedListing)| == |Collect(lines, CountedListing)|
    ensures forall i :: 0 <= i < |Collect(lines, NamedListing)| ==>
      Collect(lines, NamedListing)[i] == Name(Collect(lines, CountedListing)[i].name)
  {
    if lines != [] {
      ListingNamesAgree(lines[1..]);
      var named, counted := Collect(lines, NamedListing), Collect(lines, CountedListing);
      var namedRest, countedRest := Collect(lines[1..], NamedListing), Collect(lines[1..], CountedListing);
      if CountedListing(lines[0]).None? {
        assert named == namedRest && counted == countedRest;
      } else {
        assert named == [Name(CountedListing(lines[0]).value.name)] + namedRest;
        assert counted == [CountedListing(lines[0]).value] + countedRest;
      }
    }
  }

  // ------------------------------------------------------------- match totals

  const TotalPrefix := "INFO: "
  const TotalSuffix := " Matching Programmes"

  /** The number in a line "INFO: <digits> Matching Programmes". */
  function MatchTotalLine(line: string): (r: Option<nat>)
    ensures r.Some? ==> StartsWith(line, TotalPrefix) && EndsWith(line, TotalSuffix)
  {
    if |line| > |TotalPrefix| + |TotalSuffix| && StartsWith(line, TotalPrefix) && EndsWith(line, TotalSuffix)
       && IsDigits(line[|TotalPrefix|..|line| - |TotalSuffix|])
    then Some(DigitsValue(line[|TotalPrefix|..|line| - |TotalSuffix|]))
    else None
  }

  function TotalLine(n: nat): string { TotalPrefix + ShowNat(n) + TotalSuffix }

  /** The total line the tool prints for n reads back as n. */
  lemma TotalLineRoundTrip(n: nat)
    ensures MatchTotalLine(TotalLine(n)) == Some(n)
  {
    var line := TotalLine(n);
    assert line[..|TotalPrefix|] == TotalPrefix;
    assert line[|line| - |TotalSuffix|..] == TotalSuffix;
    assert line[|TotalPrefix|..|line| - |TotalSuffix|] == ShowNat(n);
  }

  /**
   * parse_match_count: the number on the first total line; the source raises
   * ValueError when the output has none.
   */
  function ParseMatchCount(input: string): (r: Result<nat>)
    ensures r.Failure? <==> forall j :: 0 <= j < |Lines(input)| ==> MatchTotalLine(Lines(input)[j]).None?
    ensures r.Success? ==> exists i :: 0 <= i < |Lines(input)| && MatchTotalLine(Lines(input)[i]) == Some(r.value)
                                       && forall j :: 0 <= j < i ==> MatchTotalLine(Lines(input)[j]).None?
  {
    var lines := Lines(input);
    match FirstMatch(lines, MatchTotalLine)
    case None => Failure("Unexpected format from get_iplayer output")
    case Some(i) => Success(MatchTotalLine(lines[i]).value)
  }

  // ----------------------------------------------------------------- versions

  /**
   * parse_versions: the distinct non-empty names in comma-separated version
   * lists. The source returns list(set), whose order Python leaves open; any
   * order is allowed here.
   */
  method ParseVersions(collections: seq<string>) returns (versions: seq<string>)
    ensures forall i, j :: 0 <= i < j < |versions| ==> versions[i] != versions[j]
    ensures forall v :: v in versions <==>
      v != "" && exists i :: 0 <= i < |collections| && v in SplitOn(collections[i], ",")
  {
    var found: set<string> := {};
    for k := 0 to |collections|
      invariant found == Pieces(collections[..k])
    {
      assert collections[..k + 1][..k] == collections[..k];
      found := found + set p | p in SplitOn(collections[k], ",");
    }
    assert collections[..|collections|] == collections;
    PiecesMeaning(collections);
    versions := Listed(found - {""});
  }

  /** Every comma-separated piece of the lists. */
  function Pieces(collections: seq<string>): set<string>
  {
    if collections == [] then {}
    else
      var pieces := SplitOn(collections[|collections| - 1], ",");
      Pieces(collections[..|collections| - 1]) + set p | p in pieces
  }

  lemma {:induction false} PiecesMeaning(collections: seq<string>)
    ensures forall v :: v in Pieces(collections) <==> exists i :: 0 <= i < |collections| && v in SplitOn(collections[i], ",")
  {
    if collections != [] {
      var init := collections[..|collections| - 1];
      PiecesMeaning(init);
      forall v | v in Pieces(collections)
        ensures exists i :: 0 <= i < |collections| && v in SplitOn(collections[i], ",")
      {
        if v in Pieces(init) {
          var i :| 0 <= i < |init| && v in SplitOn(init[i], ",");
          assert collections[i] == init[i];
        }
      }
      forall v | exists i :: 0 <= i < |collections| && v in SplitOn(collections[i], ",")
        ensures v in Pieces(collections)
      {
        var i :| 0 <= i < |collections| && v in SplitOn(collections[i], ",");
        if i < |init| {
          assert init[i] == collections[i];
        }
      }
    }
  }

  /** list(set): the members of a set, each once, in some order. */
  method Listed(found: set<string>) returns (versions: seq<string>)
    ensures forall i, j :: 0 <= i < j < |versions| ==> versions[i] != versions[j]
    ensures forall v :: v in versions <==> v in found
  {
    versions := [];
    var remaining := found;
    while remaining != {}
      invariant remaining <= found
      invariant forall v :: v in versions <==> v in found && v !in remaining
      invariant forall i, j :: 0 <= i < j < |versions| ==> versions[i] != versions[j]
      decreases |remaining|
    {
      var v :| v in remaining;
      versions := versions + [v];
      remaining := remaining - {v};
    }
  }

  // ------------------------------------------------------------------ history

  /** A download-history record: (index, name, episode, version, mode, file). */
  datatype HistoryRecord = HistoryRecord(index: nat, name: string, episode: string, version: string,
                                         mode: string, location: string)

  const FieldSep := "):("

  /**
   * A history line "(<digits>):(<name>):(<episode>):(<version>):(<mode>):(<file>)".
   * The line is split at each "):(" into exactly six non-empty fields.
   */
  function MatchHistoryLine(line: string): (r: Option<HistoryRecord>)
    ensures r.Some? ==> |line| >= 2 && line[0] == '(' && line[|line| - 1] == ')'
  {
    if |line| >= 2 && line[0] == '(' && line[|line| - 1] == ')' then
      var fields := SplitOn(line[1..|line| - 1], FieldSep);
      if |fields| == 6 && (forall i :: 0 <= i < 6 ==> fields[i] != "") && IsDigits(fields[0]) then
        Some(HistoryRecord(DigitsValue(fields[0]), fields[1], fields[2], fields[3], fields[4], fields[5]))
      else None
    else None
  }

  /** os.path.basename: the text after the last '/'. */
  function Basename(path: string): string { AfterLast(path, '/') }

  /**
   * os.path.splitext(name)[0] for a name without '/': the text before the last
   * '.', unless only dots come before that '.', when the name is kept whole.
   */
  function StripExtension(name: string): (r: string)
    ensures StartsWith(name, r)
  {
    match RFind(name, '.')
    case None => name
    case Some(d) => if exists i :: 0 <= i < d && name[i] != '.' then name[..d] else name
  }

  /** The version a history record's file name ends with: the stem's text after its last '_'. */
  function GuessVersion(location: string): string
  {
    AfterLast(StripExtension(Basename(location)), '_')
  }

  /** The record of one history line, its version read off the file name. */
  function GuessedHistory(line: string): Option<HistoryRecord>
  {
    match MatchHistoryLine(line)
    case None => None
    case Some(rec) => Some(rec.(version := GuessVersion(rec.location)))
  }

  /** parse_history: one record per history line, in order. */
  function ParseHistory(input: string, guessVersions: bool): (r: seq<HistoryRecord>)
    ensures |r| <= |Lines(input)|
  {
    Collect(Lines(input), if guessVersions then GuessedHistory else MatchHistoryLine)
  }

  /** The history line the tool prints for a record. */
  function HistoryLine(rec: HistoryRecord): string
  {
    "(" + Join([ShowNat(rec.index), rec.name, rec.episode, rec.version, rec.mode, rec.location], FieldSep) + ")"
  }

  /** Text fields that print and read back unchanged: not empty and never holding "):(". */
  predicate PrintableRecord(rec: HistoryRecord)
  {
    && rec.name != "" && rec.episode != "" && rec.version != "" && rec.mode != "" && rec.location != ""
    && Lacks(rec.name, FieldSep) && Lacks(rec.episode, FieldSep) && Lacks(rec.version, FieldSep)
    && Lacks(rec.mode, FieldSep) && Lacks(rec.location, FieldSep)
  }

  lemma DigitsLackFieldSep(s: string)
    requires IsDigits(s)
    ensures Lacks(s, FieldSep)
  {
    forall j: nat | j <= |s| ensures !OccursAt(s, FieldSep, j) {
      if j + 3 <= |s| { assert s[j..j + 3][0] == s[j]; }
    }
  }

  /** A printed history line reads back as the record it was printed from. */
  lemma HistoryLineRoundTrip(rec: HistoryRecord)
    requires PrintableRecord(rec)
    ensures MatchHistoryLine(HistoryLine(rec)) == Some(rec)
  {
    var fields := [ShowNat(rec.index), rec.name, rec.episode, rec.version, rec.mode, rec.location];
    HistoryFieldsSplit(rec);
    MatchBracketed(Join(fields, FieldSep), fields);
  }

  /** A bracketed text whose "):("-fields are six non-empty texts, the first digits, matches as those fields. */
  lemma MatchBracketed(inner: string, fields: seq<string>)
    requires SplitOn(inner, FieldSep) == fields && |fields| == 6
    requires forall i :: 0 <= i < 6 ==> fields[i] != ""
    requires IsDigits(fields[0])
    ensures MatchHistoryLine("(" + inner + ")")
      == Some(HistoryRecord(DigitsValue(fields[0]), fields[1], fields[2], fields[3], fields[4], fields[5]))
  {
    var line := "(" + inner + ")";
    assert line[1..|line| - 1] == inner;
  }

  /** The fields of a printable record, joined with "):(", split back into the same six fields. */
  lemma HistoryFieldsSplit(rec: HistoryRecord)
    requires PrintableRecord(rec)
    ensures var fields := [ShowNat(rec.index), rec.name, rec.episode, rec.version, rec.mode, rec.location];
      SplitOn(Join(fields, FieldSep), FieldSep) == fields
  {
    var fields := [ShowNat(rec.index), rec.name, rec.episode, rec.version, rec.mode, rec.location];
    DigitsLackFieldSep(ShowNat(rec.index));
    FieldSepUnbordered();
    SplitOnJoin(fields, FieldSep);
  }

  /** No proper prefix of "):(" is also its suffix. */
  lemma FieldSepUnbordered()
    ensures Unbordered(FieldSep)
  {
    forall k | 0 < k < |FieldSep| ensures FieldSep[..k] != FieldSep[|FieldSep| - k..] {
      assert FieldSep[..k][0] == ')';
      assert FieldSep[|FieldSep| - k..][0] != ')';
    }
  }

  /** Without guessing, every field of a history line passes through as it was printed. */
  lemma ParseHistoryRoundTrip(recs: seq<HistoryRecord>)
    requires |recs| >= 1
    requires forall i :: 0 <= i < |recs| ==> PrintableRecord(recs[i]) && '\n' !in HistoryLine(recs[i])
    ensures ParseHistory(JoinLines(seq(|recs|, i requires 0 <= i < |recs| => HistoryLine(recs[i]))), false) == recs
  {
    var lines := seq(|recs|, i requires 0 <= i < |recs| => HistoryLine(recs[i]));
    forall i | 0 <= i < |recs| ensures MatchHistoryLine(lines[i]) == Some(recs[i]) {
      HistoryLineRoundTrip(recs[i]);
    }
    LinesOfJoin(lines);
    CollectEvery(lines, recs, MatchHistoryLine);
  }

  /** Guessing changes the version of each record and nothing else. */
  lemma GuessOnlyChangesVersion(lines: seq<string>)
    ensures |Collect(lines, GuessedHistory)| == |Collect(lines, MatchHistoryLine)|
    ensures forall i :: 0 <= i < |Collect(lines, GuessedHistory)| ==>
      Collect(lines, GuessedHistory)[i]
        == Collect(lines, MatchHistoryLine)[i].(version := GuessVersion(Collect(lines, MatchHistoryLine)[i].location))
  {
    CollectMapped(lines, MatchHistoryLine, GuessedHistory, (rec: HistoryRecord) => rec.(version := GuessVersion(rec.location)));
  }

  /**
   * When a second recogniser accepts exactly the lines the first accepts, its
   * result a fixed transformation of the first's, scanning with it gives the
   * transformed results of scanning with the first.
   */
  lemma {:induction false} CollectMapped<T, U>(lines: seq<string>, first: string -> Option<T>,
                                               second: string -> Option<U>, transform: T -> U)
    requires forall line :: second(line).Some? == first(line).Some?
    requires forall line :: first(line).Some? ==> second(line).value == transform(first(line).value)
    ensures |Collect(lines, second)| == |Collect(lines, first)|
    ensures forall i :: 0 <= i < |Collect(lines, second)| ==>
      Collect(lines, second)[i] == transform(Collect(lines, first)[i])
  {
    if lines != [] {
      CollectMapped(lines[1..], first, second, transform);
      var a, b := Collect(lines, first), Collect(lines, second);
      var aRest, bRest := Collect(lines[1..], first), Collect(lines[1..], second);
      match first(lines[0])
      case None =>
        assert a == aRest && b == bRest;
      case Some(x) =>
        assert a == [x] + aRest;
        assert b == [transform(x)] + bRest;
    }
  }

  lemma RFindLast(a: string, c: char, b: string)
    requires c !in b
    ensures RFind(a + [c] + b, c) == Some(|a|)
  {
    RFindBefore(a + [c] + b, c, |a|, b);
  }

  lemma RFindBefore(s: string, c: char, k: nat, b: string)
    requires k < |s| && s[k] == c && s[k + 1..] == b && c !in b
    ensures RFind(s, c) == Some(k)
  {
    forall j | k < j < |s| ensures s[j] != c {
      assert s[j] == b[j - k - 1];
    }
    RFindUnique(s, c, k);
  }

  /** A stem without '_' is the guessed version whole. */
  lemma GuessVersionWholeStem(location: string)
    requires '_' !in StripExtension(Basename(location))
    ensures GuessVersion(location) == StripExtension(Basename(location))
  {
  }

  /**
   * For a file "<dir>/<stem>_<version>.<ext>" whose version holds no '_', '.'
   * or '/', and whose stem and extension hold no '/' and the extension no '.',
   * the guessed version is <version>.
   */
  lemma GuessVersionOfFileName(dir: string, stem: string, version: string, ext: string)
    requires '/' !in stem && '/' !in version && '/' !in ext
    requires '.' !in version && '.' !in ext && '_' !in version
    ensures GuessVersion(dir + "/" + stem + "_" + version + "." + ext) == version
  {
    var name := stem + "_" + version + "." + ext;
    var location := dir + "/" + stem + "_" + version + "." + ext;
    assert location == dir + ['/'] + name;
    assert '/' !in name;
    RFindLast(dir, '/', name);
    assert Basename(location) == name;
    var root := stem + "_" + version;
    assert name == root + ['.'] + ext;
    RFindLast(root, '.', ext);
    assert name[|stem|] == '_' && |stem| < |root|;
    assert name[..|root|] == root;
    assert StripExtension(name) == root;
    assert root == stem + ['_'] + version;
    RFindLast(stem, '_', version);
  }
}
