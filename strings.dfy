/**
 * The Python string operations the parsers and the plugin rely on: str.split,
 * str.join, str.splitlines, str.strip, str.startswith, str.rfind, str.title,
 * str(n) and int(s). Characters are ASCII; Python's Unicode digit and
 * whitespace classes are not modelled.
 */
module Strings {
  import opened Results

  /** A prefix one element longer is the shorter prefix and that element. */
  lemma PrefixExtend<T>(s: seq<T>, i: nat)
    requires i < |s|
    ensures s[..i + 1] == s[..i] + [s[i]]
  {
  }

  /** Concatenation groups either way. */
  lemma ConcatAssociates<T>(a: seq<T>, b: seq<T>, c: seq<T>)
    ensures a + (b + c) == (a + b) + c
  {
  }

  /** A prefix of a prefix is a prefix. */
  lemma PrefixOfPrefix<T>(s: seq<T>, i: nat, j: nat)
    requires i <= j <= |s|
    ensures s[..j][..i] == s[..i]
  {
  }

  predicate IsDigit(c: char) { '0' <= c <= '9' }

  predicate IsDigits(s: string) { forall i :: 0 <= i < |s| ==> IsDigit(s[i]) }

  /** The whitespace of str.strip and of the regex class \s. */
  predicate IsSpace(c: char) {
    c == ' ' || c == '\t' || c == '\n' || c == '\r' || c == '\U{000B}' || c == '\U{000C}'
  }

  predicate IsLower(c: char) { 'a' <= c <= 'z' }

  predicate IsUpper(c: char) { 'A' <= c <= 'Z' }

  function ToUpper(c: char): char { if IsLower(c) then (c as int - 32) as char else c }

  function ToLower(c: char): char { if IsUpper(c) then (c as int + 32) as char else c }

  // ---------------------------------------------------------------- numbers

  /** The value int() gives a run of decimal digits. */
  function DigitsValue(s: string): nat
    requires IsDigits(s)
  {
    if s == [] then 0 else 10 * DigitsValue(s[..|s| - 1]) + (s[|s| - 1] as int - '0' as int)
  }

  function DigitChar(d: nat): (c: char)
    requires d < 10
    ensures IsDigit(c)
  {
    ('0' as int + d) as char
  }

  /** str(n) for a natural number: the shortest decimal numeral of n. */
  function ShowNat(n: nat): (s: string)
    ensures |s| >= 1 && IsDigits(s)
    ensures DigitsValue(s) == n
  {
    if n < 10 then [DigitChar(n)]
    else
      var s := ShowNat(n / 10) + [DigitChar(n % 10)];
      assert s[..|s| - 1] == ShowNat(n / 10);
      s
  }

  /** str(i) for any integer. */
  function ShowInt(i: int): string
  {
    if i < 0 then "-" + ShowNat(-i) else ShowNat(i)
  }

  // --------------------------------------------------------------- stripping

  /** str.lstrip(): drop the leading whitespace. */
  function LStrip(s: string): string
  {
    if s != [] && IsSpace(s[0]) then LStrip(s[1..]) else s
  }

  /** str.rstrip(): drop the trailing whitespace. */
  function RStrip(s: string): string
  {
    if s != [] && IsSpace(s[|s| - 1]) then RStrip(s[..|s| - 1]) else s
  }

  /** str.strip(): drop the whitespace at both ends. */
  function Strip(s: string): string
  {
    RStrip(LStrip(s))
  }

  /** lstrip removes exactly the leading whitespace: what is left is a suffix that starts with no whitespace. */
  lemma {:induction false} LStripMeaning(s: string)
    ensures var r := LStrip(s);
      |r| <= |s| && r == s[|s| - |r|..]
      && (forall i :: 0 <= i < |s| - |r| ==> IsSpace(s[i]))
      && (r == [] || !IsSpace(r[0]))
  {
    if s != [] && IsSpace(s[0]) {
      LStripMeaning(s[1..]);
    }
  }

  /** rstrip removes exactly the trailing whitespace: what is left is a prefix that ends with no whitespace. */
  lemma {:induction false} RStripMeaning(s: string)
    ensures var r := RStrip(s);
      |r| <= |s| && r == s[..|r|]
      && (forall i :: |r| <= i < |s| ==> IsSpace(s[i]))
      && (r == [] || !IsSpace(r[|r| - 1]))
  {
    if s != [] && IsSpace(s[|s| - 1]) {
      RStripMeaning(s[..|s| - 1]);
    }
  }

  /** A string with no whitespace at either end is its own strip. */
  lemma StripUnpadded(s: string)
    requires s == [] || (!IsSpace(s[0]) && !IsSpace(s[|s| - 1]))
    ensures Strip(s) == s
  {
  }

  /**
   * int(s) in base 10: optional surrounding whitespace, an optional sign and
   * at least one digit; None stands for the ValueError int() raises.
   */
  function ParseInt(s: string): Option<int>
  {
    var t := Strip(s);
    if |t| >= 2 && (t[0] == '-' || t[0] == '+') && IsDigits(t[1..]) then
      var magnitude: int := DigitsValue(t[1..]);
      Some(if t[0] == '-' then -magnitude else magnitude)
    else if |t| >= 1 && IsDigits(t) then
      Some(DigitsValue(t))
    else
      None
  }

  /** int(str(i)) == i for every integer i. */
  lemma ParseShowInt(i: int)
    ensures ParseInt(ShowInt(i)) == Some(i)
  {
    var s := ShowInt(i);
    StripUnpadded(s);
    if i < 0 {
      assert s[1..] == ShowNat(-i);
    }
  }

  // ------------------------------------------------------ searching, splitting

  predicate StartsWith(s: string, prefix: string) { |prefix| <= |s| && s[..|prefix|] == prefix }

  predicate EndsWith(s: string, suffix: string) { |suffix| <= |s| && s[|s| - |suffix|..] == suffix }

  /** sep occurs in s at position i. */
  predicate OccursAt(s: string, sep: string, i: nat) { i + |sep| <= |s| && s[i..i + |sep|] == sep }

  /** sep occurs nowhere in s. */
  predicate Lacks(s: string, sep: string) { forall j: nat :: j <= |s| ==> !OccursAt(s, sep, j) }

  lemma OccursShift(s: string, sep: string, k: nat)
    requires |s| >= 1
    ensures OccursAt(s[1..], sep, k) <==> OccursAt(s, sep, k + 1)
  {
    if k + 1 + |sep| <= |s| {
      assert s[1..][k..k + |sep|] == s[k + 1..k + 1 + |sep|];
    }
  }

  /** str.find(sep): the first position where sep occurs. */
  function Find(s: string, sep: string): (r: Option<nat>)
    requires |sep| > 0
    ensures r.Some? ==> OccursAt(s, sep, r.value)
    ensures r.Some? ==> forall j: nat :: j < r.value ==> !OccursAt(s, sep, j)
    ensures r.None? ==> Lacks(s, sep)
    decreases |s|
  {
    if |s| < |sep| then None
    else if s[..|sep|] == sep then Some(0)
    else
      match Find(s[1..], sep)
      case None =>
        forall j: nat ensures !OccursAt(s, sep, j) {
          if j > 0 { OccursShift(s, sep, j - 1); }
        }
        None
      case Some(k) =>
        OccursShift(s, sep, k);
        forall j: nat | j < k + 1 ensures !OccursAt(s, sep, j) {
          if j > 0 { OccursShift(s, sep, j - 1); }
        }
        Some(k + 1)
  }

  /** s.split(sep) for a non-empty separator: the pieces between the occurrences found left to right. */
  function SplitOn(s: string, sep: string): (r: seq<string>)
    requires |sep| > 0
    ensures |r| >= 1
    decreases |s|
  {
    match Find(s, sep)
    case None => [s]
    case Some(i) => [s[..i]] + SplitOn(s[i + |sep|..], sep)
  }

  /** sep.join(pieces). */
  function Join(pieces: seq<string>, sep: string): string
  {
    if |pieces| == 0 then ""
    else if |pieces| == 1 then pieces[0]
    else pieces[0] + sep + Join(pieces[1..], sep)
  }

  /** Joining the pieces of a split gives back the string. */
  lemma {:induction false} JoinSplitOn(s: string, sep: string)
    requires |sep| > 0
    ensures Join(SplitOn(s, sep), sep) == s
    decreases |s|
  {
    match Find(s, sep)
    case None =>
    case Some(i) =>
      var rest := s[i + |sep|..];
      var pieces := [s[..i]] + SplitOn(rest, sep);
      calc {
        Join(SplitOn(s, sep), sep);
        Join(pieces, sep);
      == { assert pieces[1..] == SplitOn(rest, sep); }
        s[..i] + sep + Join(SplitOn(rest, sep), sep);
      == { JoinSplitOn(rest, sep); }
        s[..i] + sep + rest;
      == { assert OccursAt(s, sep, i); }
        s;
      }
  }

  /** No piece of a split contains the separator. */
  lemma {:induction false} SplitOnPiecesLack(s: string, sep: string)
    requires |sep| > 0
    ensures forall p :: p in SplitOn(s, sep) ==> Lacks(p, sep)
    decreases |s|
  {
    match Find(s, sep)
    case None =>
    case Some(i) =>
      SplitOnPiecesLack(s[i + |sep|..], sep);
      forall j: nat ensures !OccursAt(s[..i], sep, j) {
        if j + |sep| <= i {
          assert s[..i][j..j + |sep|] == s[j..j + |sep|];
          assert !OccursAt(s, sep, j);
        }
      }
  }

  /** No proper prefix of sep is also a suffix of it, so occurrences of sep cannot overlap. */
  predicate Unbordered(sep: string) { forall k :: 0 < k < |sep| ==> sep[..k] != sep[|sep| - k..] }

  /** A piece that lacks an unbordered separator ends exactly where the separator after it starts. */
  lemma FindAfterPiece(p: string, sep: string, rest: string)
    requires |sep| > 0 && Unbordered(sep) && Lacks(p, sep)
    ensures Find(p + sep + rest, sep) == Some(|p|)
  {
    var s := p + sep + rest;
    assert OccursAt(s, sep, |p|) by { assert s[|p|..|p| + |sep|] == sep; }
    forall j: nat | j < |p| ensures !OccursAt(s, sep, j) {
      if j + |sep| <= |p| {
        assert s[j..j + |sep|] == p[j..j + |sep|];
        assert !OccursAt(p, sep, j);
      } else if j + |sep| <= |s| {
        var k := |p| - j;
        var w := s[j..j + |sep|];
        assert sep[..|sep| - k] != sep[|sep| - (|sep| - k)..];
        assert w[k..] == sep[..|sep| - k];
        assert w != sep;
      }
    }
  }

  /** Splitting joined pieces gives the pieces back, when none of them contains the separator. */
  lemma {:induction false} SplitOnJoin(pieces: seq<string>, sep: string)
    requires |sep| > 0 && Unbordered(sep) && |pieces| >= 1
    requires forall i :: 0 <= i < |pieces| ==> Lacks(pieces[i], sep)
    ensures SplitOn(Join(pieces, sep), sep) == pieces
    decreases |pieces|
  {
    if |pieces| == 1 {
      assert Find(pieces[0], sep).None?;
    } else {
      var rest := Join(pieces[1..], sep);
      FindAfterPiece(pieces[0], sep, rest);
      var s := pieces[0] + sep + rest;
      assert s[..|pieces[0]|] == pieces[0];
      assert s[|pieces[0]| + |sep|..] == rest;
      SplitOnJoin(pieces[1..], sep);
    }
  }

  /** A one-character separator is unbordered. */
  lemma UnborderedChar(c: char)
    ensures Unbordered([c])
  {
  }

  /** A text without the separator splits into itself alone. */
  lemma SplitOnLacking(s: string, sep: string)
    requires |sep| > 0 && Lacks(s, sep)
    ensures SplitOn(s, sep) == [s]
  {
    var f := Find(s, sep);
    assert f.Some? ==> OccursAt(s, sep, f.value);
  }

  /** A one-character separator is lacking exactly from the strings without that character. */
  lemma LacksChar(s: string, c: char)
    ensures Lacks(s, [c]) <==> c !in s
  {
    if c in s {
      var j :| 0 <= j < |s| && s[j] == c;
      assert OccursAt(s, [c], j);
    } else {
      forall j: nat ensures !OccursAt(s, [c], j) {
        if j + 1 <= |s| { assert s[j..j + 1] == [s[j]]; }
      }
    }
  }

  /** The lines a MULTILINE regular expression scans: the text between newlines. */
  function Lines(s: string): seq<string>
  {
    SplitOn(s, "\n")
  }

  /** str.splitlines() for text whose only line break is '\n': no trailing empty line. */
  function SplitLines(s: string): (r: seq<string>)
    ensures forall i :: 0 <= i < |r| ==> '\n' !in r[i]
  {
    var body := if s != [] && s[|s| - 1] == '\n' then s[..|s| - 1] else s;
    var r := if s == [] then [] else Lines(body);
    SplitOnPiecesLack(body, "\n");
    forall i | 0 <= i < |r| ensures '\n' !in r[i] {
      LacksChar(r[i], '\n');
    }
    r
  }

  /** str.rfind(c) on one character: the last position holding c. */
  function RFind(s: string, c: char): (r: Option<nat>)
    ensures r.Some? ==> r.value < |s| && s[r.value] == c
    ensures r.Some? ==> forall j :: r.value < j < |s| ==> s[j] != c
    ensures r.None? <==> c !in s
  {
    if s == [] then None
    else if s[|s| - 1] == c then Some(|s| - 1)
    else RFind(s[..|s| - 1], c)
  }

  /** The last c in s is at k when no c follows it. */
  lemma {:induction false} RFindUnique(s: string, c: char, k: nat)
    requires k < |s| && s[k] == c
    requires forall j :: k < j < |s| ==> s[j] != c
    ensures RFind(s, c) == Some(k)
  {
    if k < |s| - 1 {
      assert s[|s| - 1] != c;
      RFindUnique(s[..|s| - 1], c, k);
    }
  }

  /** The text after the last c, or all of s when there is none (s.rsplit(c, 1)[-1]). */
  function AfterLast(s: string, c: char): (r: string)
    ensures c !in r
    ensures |r| <= |s| && r == s[|s| - |r|..]
    ensures |r| < |s| ==> s[|s| - |r| - 1] == c
  {
    match RFind(s, c)
    case None => s
    case Some(i) => s[i + 1..]
  }

  // ---------------------------------------------------------------- title case

  /**
   * str.title() from a given state: a letter is upper-cased when the
   * previous character was not a letter and lower-cased when it was.
   */
  function TitleFrom(s: string, afterLetter: bool): (r: string)
    ensures |r| == |s|
  {
    if s == [] then []
    else
      var c := s[0];
      [if afterLetter then ToLower(c) else ToUpper(c)] + TitleFrom(s[1..], IsLower(c) || IsUpper(c))
  }

  function Title(s: string): string { TitleFrom(s, false) }

  /** After a letter, a run of lower-case letters is left as it is. */
  lemma {:induction false} TitleLowerRun(w: string)
    requires forall i :: 0 <= i < |w| ==> IsLower(w[i])
    ensures TitleFrom(w, true) == w
  {
    if w != [] { TitleLowerRun(w[1..]); }
  }

  /** The title case of a lower-case word capitalises its first letter only. */
  lemma TitleWord(w: string)
    requires |w| >= 1 && forall i :: 0 <= i < |w| ==> IsLower(w[i])
    ensures Title(w) == [ToUpper(w[0])] + w[1..]
    ensures IsUpper(Title(w)[0])
  {
    TitleLowerRun(w[1..]);
  }
}
