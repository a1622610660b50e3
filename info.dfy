/**
 * parse_info of getiplayer_interface.py: the programme information the
 * catalogue tool prints.  Only the second-to-last block of the output
 * (blocks are separated by "\n\n", an empty line after another line) is read; each "<name>: <value>"
 * line of it gives a field, a value that starts with "<version>:" for a
 * known version is filed under that version, and a field with no version
 * collapses to its plain value.
 */
module Info {
  import opened Results
  import opened Strings
  import Parsers

  /** A field of the programme information: one value, or one value per version. */
  datatype InfoValue = Plain(text: string) | Versioned(byVersion: map<string, string>)

  /** One information line after its version has been told apart. */
  datatype Field = Field(name: string, version: string, value: string)

  const BlockSep: string := "\n\n"

  // --------------------------------------------------------- information lines

  /** The number of whitespace characters at the start of s. */
  function Indent(s: string): (k: nat)
    ensures k <= |s|
    ensures forall i :: 0 <= i < k ==> IsSpace(s[i])
    ensures k < |s| ==> !IsSpace(s[k])
  {
    if s != [] && IsSpace(s[0]) then 1 + Indent(s[1..]) else 0
  }

  /**
   * The value the information-line pattern "<name>:<spaces><value>" gives
   * when its name ends just before position p: the colon, at least one
   * whitespace character taken greedily, then at least one more character.
   * When everything after the colon is whitespace, the greedy run gives the
   * last character back to the value.
   */
  function ValueAfterColon(line: string, p: nat): (r: Option<string>)
    requires p < |line|
  {
    if line[p] != ':' then None
    else
      var after := line[p + 1..];
      var k := Indent(after);
      if k == 0 then None
      else if k < |after| then Some(after[k..])
      else if k >= 2 then Some(after[k - 1..])
      else None
  }

  /** A value read after a colon is not empty, leaves at least one space after the colon, and ends the line. */
  lemma ValueIsSuffix(line: string, p: nat)
    requires p < |line| && ValueAfterColon(line, p).Some?
    ensures var value := ValueAfterColon(line, p).value;
      |value| >= 1 && |value| + 1 < |line| - p && value == line[|line| - |value|..]
  {
    var after := line[p + 1..];
    var k := Indent(after);
    var value := ValueAfterColon(line, p).value;
    if k < |after| {
      assert value == after[k..];
    } else {
      assert value == after[k - 1..];
    }
  }

  /** The first split at or after position p; the name is the shortest one that works. */
  function InfoLineFrom(line: string, p: nat): (r: Option<(string, string)>)
    requires 1 <= p
    ensures r.Some? ==> p <= |r.value.0| < |line| && r.value.0 == line[..|r.value.0|]
    ensures r.Some? ==> ValueAfterColon(line, |r.value.0|) == Some(r.value.1)
    ensures r.Some? ==> forall q :: p <= q < |r.value.0| ==> ValueAfterColon(line, q).None?
    ensures r.None? ==> forall q :: p <= q < |line| ==> ValueAfterColon(line, q).None?
    decreases |line| - p
  {
    if p >= |line| then None
    else
      match ValueAfterColon(line, p)
      case Some(value) => Some((line[..p], value))
      case None => InfoLineFrom(line, p + 1)
  }

  /** The information-line pattern on one line: a name of at least one character, as short as possible. */
  function MatchInfoLine(line: string): Option<(string, string)>
  {
    InfoLineFrom(line, 1)
  }

  lemma {:induction false} IndentOf(ws: string, value: string)
    requires forall i :: 0 <= i < |ws| ==> IsSpace(ws[i])
    requires value == [] || !IsSpace(value[0])
    ensures Indent(ws + value) == |ws|
  {
    if ws != [] {
      assert (ws + value)[1..] == ws[1..] + value;
      IndentOf(ws[1..], value);
    }
  }

  /**
   * A line "<name>:<spaces><value>" whose name holds no colon and whose value
   * does not start with whitespace reads back as that name and value.
   */
  lemma InfoLineRoundTrip(name: string, ws: string, value: string)
    requires |name| >= 1 && ':' !in name
    requires |ws| >= 1 && forall i :: 0 <= i < |ws| ==> IsSpace(ws[i])
    requires |value| >= 1 && !IsSpace(value[0])
    ensures MatchInfoLine(name + ":" + ws + value) == Some((name, value))
  {
    var line := name + ":" + ws + value;
    var p := |name|;
    forall q | 1 <= q < p ensures ValueAfterColon(line, q).None? {
      assert line[q] == name[q];
    }
    var after := line[p + 1..];
    assert after == ws + value;
    IndentOf(ws, value);
    assert after[|ws|..] == value;
    assert line[p] == ':';
    assert ValueAfterColon(line, p) == Some(value);
    assert line[..p] == name;
  }

  // ------------------------------------------------------------- versions

  /**
   * The version loop over one value, from some point of the version list on:
   * each version v in turn, when the value starts with "v:", becomes the
   * version and the value loses that prefix and the whitespace after it.
   */
  function TagFrom(version: string, value: string, versions: seq<string>): (string, string)
    decreases |versions|
  {
    if versions == [] then (version, value)
    else
      var v := versions[0];
      if StartsWith(value, v + ":") then TagFrom(v, LStrip(value[|v| + 1..]), versions[1..])
      else TagFrom(version, value, versions[1..])
  }

  /** The version loop of parse_info for one value: the version ("" for none) and the value left. */
  method TagVersion(value0: string, versions: seq<string>) returns (version: string, value: string)
    ensures (version, value) == TagFrom("", value0, versions)
  {
    version, value := "", value0;
    for i := 0 to |versions|
      invariant TagFrom(version, value, versions[i..]) == TagFrom("", value0, versions)
    {
      assert versions[i..][1..] == versions[i + 1..];
      var v := versions[i];
      if StartsWith(value, v + ":") {
        version := v;
        value := LStrip(value[|v| + 1..]);
      }
    }
    assert versions[|versions|..] == [];
  }

  /** A value that starts with no known version is kept whole under the version "". */
  lemma {:induction false} TagNoVersion(version: string, value: string, versions: seq<string>)
    requires forall i :: 0 <= i < |versions| ==> !StartsWith(value, versions[i] + ":")
    ensures TagFrom(version, value, versions) == (version, value)
  {
    if versions != [] {
      TagNoVersion(version, value, versions[1..]);
    }
  }

  /**
   * A value "<v>:<rest>" for a known version v is filed under v with the
   * prefix and the whitespace after it removed, provided no other version
   * starts the value and no version starts what is left.
   */
  lemma {:induction false} TagOneVersion(version: string, v: string, rest: string, versions: seq<string>)
    requires v in versions
    requires forall i :: 0 <= i < |versions| && versions[i] != v ==> !StartsWith(v + ":" + rest, versions[i] + ":")
    requires forall i :: 0 <= i < |versions| ==> !StartsWith(LStrip(rest), versions[i] + ":")
    ensures TagFrom(version, v + ":" + rest, versions) == (v, LStrip(rest))
  {
    var value := v + ":" + rest;
    if versions[0] == v {
      assert StartsWith(value, v + ":") by { assert value[..|v| + 1] == v + ":"; }
      assert value[|v| + 1..] == rest;
      TagNoVersion(v, LStrip(rest), versions[1..]);
    } else {
      TagOneVersion(version, v, rest, versions[1..]);
    }
  }

  // ------------------------------------------------------------- collecting

  /** The information dictionary after some fields: one inner dictionary per name, keyed by version. */
  function Accumulate(fields: seq<Field>): map<string, map<string, string>>
  {
    if fields == [] then map[]
    else
      var info := Accumulate(fields[..|fields| - 1]);
      var f := fields[|fields| - 1];
      info[f.name := (if f.name in info then info[f.name] else map[])[f.version := f.value]]
  }

  /** Reference view: the value of the last field with that name and version. */
  function LastValue(fields: seq<Field>, name: string, version: string): Option<string>
  {
    if fields == [] then None
    else
      var f := fields[|fields| - 1];
      if f.name == name && f.version == version then Some(f.value)
      else LastValue(fields[..|fields| - 1], name, version)
  }

  /** The last value is the value of a field with that name and version... */
  lemma {:induction false} LastValueFrom(fields: seq<Field>, name: string, version: string) returns (i: nat)
    requires LastValue(fields, name, version).Some?
    ensures i < |fields| && fields[i] == Field(name, version, LastValue(fields, name, version).value)
    ensures forall j :: i < j < |fields| ==> fields[j].name != name || fields[j].version != version
  {
    var f := fields[|fields| - 1];
    if f.name == name && f.version == version {
      i := |fields| - 1;
    } else {
      var front := fields[..|fields| - 1];
      i := LastValueFrom(front, name, version);
      assert fields[i] == front[i];
      forall j | i < j < |fields| ensures fields[j].name != name || fields[j].version != version {
        if j < |fields| - 1 { assert fields[j] == front[j]; }
      }
    }
  }

  /** ...and every field's name and version has a last value. */
  lemma {:induction false} LastValueFound(fields: seq<Field>, i: nat)
    requires i < |fields|
    ensures LastValue(fields, fields[i].name, fields[i].version).Some?
  {
    if i < |fields| - 1 {
      assert fields[..|fields| - 1][i] == fields[i];
      LastValueFound(fields[..|fields| - 1], i);
    }
  }

  /**
   * A repeated name and version keeps the last value; a name is a key exactly
   * when some field has it, and a version is a key of that name exactly when
   * some field has both.
   */
  lemma {:induction false} AccumulateKeepsLast(fields: seq<Field>, name: string, version: string)
    ensures name in Accumulate(fields) <==> exists i :: 0 <= i < |fields| && fields[i].name == name
    ensures name in Accumulate(fields) ==>
      (version in Accumulate(fields)[name] <==> LastValue(fields, name, version).Some?)
    ensures name in Accumulate(fields) && version in Accumulate(fields)[name] ==>
      Accumulate(fields)[name][version] == LastValue(fields, name, version).value
    ensures LastValue(fields, name, version).Some? ==> name in Accumulate(fields)
  {
    if fields != [] {
      var front := fields[..|fields| - 1];
      AccumulateKeepsLast(front, name, version);
      if exists i :: 0 <= i < |front| && front[i].name == name {
        var i :| 0 <= i < |front| && front[i].name == name;
        assert fields[i] == front[i];
      }
      if exists i :: 0 <= i < |fields| && fields[i].name == name {
        var i :| 0 <= i < |fields| && fields[i].name == name;
        if i < |front| { assert front[i] == fields[i]; }
      }
    }
  }

  /** A field stays an inner dictionary unless its only version is "", when it is the plain value. */
  function Clean(byVersion: map<string, string>): (r: InfoValue)
    ensures r.Plain? <==> byVersion.Keys == {""}
    ensures r.Plain? ==> "" in byVersion && r.text == byVersion[""]
    ensures r.Versioned? ==> r.byVersion == byVersion
  {
    if byVersion.Keys == {""} then
      assert "" in byVersion.Keys;
      Plain(byVersion[""])
    else Versioned(byVersion)
  }

  /** The fields read from the block, versions told apart. */
  function Fields(found: seq<(string, string)>, versions: seq<string>): (r: seq<Field>)
    ensures |r| == |found|
    ensures forall i :: 0 <= i < |found| ==>
      r[i] == Field(found[i].0, TagFrom("", found[i].1, versions).0, TagFrom("", found[i].1, versions).1)
  {
    seq(|found|, i requires 0 <= i < |found| =>
      var tagged := TagFrom("", found[i].1, versions);
      Field(found[i].0, tagged.0, tagged.1))
  }

  /** The second-to-last block of the output, where the information lines are. */
  function RelevantBlock(input: string): Option<string>
  {
    var blocks := SplitOn(input, BlockSep);
    if |blocks| < 2 then None else Some(blocks[|blocks| - 2])
  }

  /**
   * The output has at least two blocks exactly when it contains "\n\n".  An
   * empty first line, or a line of spaces, does not separate blocks.
   */
  lemma BlocksIffBlankLine(input: string)
    ensures |SplitOn(input, BlockSep)| >= 2 <==> !Lacks(input, BlockSep)
  {
    var f := Find(input, BlockSep);
    if f.Some? {
      assert f.value <= |input| && OccursAt(input, BlockSep, f.value);
    }
  }

  /** The information lines found in a block, in order. */
  function InfoLines(block: string): seq<(string, string)>
  {
    Parsers.Collect(Lines(block), MatchInfoLine)
  }

  /** The value of parse_info, as a function of the output and the known versions. */
  function InfoOf(input: string, versions: seq<string>): Result<map<string, InfoValue>>
  {
    match RelevantBlock(input)
    case None => Failure("list index out of range")
    case Some(block) =>
      var info := Accumulate(Fields(InfoLines(block), versions));
      Success(map name | name in info :: Clean(info[name]))
  }

  /**
   * parse_info: read the information lines of the second-to-last block,
   * file each value under its version, then collapse the fields that have
   * no version.  Output without "\n\n" has a single block, and the
   * source fails on it with an index error.
   */
  method ParseInfo(input: string, versions: seq<string>) returns (r: Result<map<string, InfoValue>>)
    ensures r == InfoOf(input, versions)
    ensures r.Failure? <==> Lacks(input, BlockSep)
  {
    var blocks := SplitOn(input, BlockSep);
    BlocksIffBlankLine(input);
    if |blocks| < 2 {
      assert Lacks(input, BlockSep);
      return Failure("list index out of range");
    }
    assert !Lacks(input, BlockSep);
    var relevant := blocks[|blocks| - 2];
    assert RelevantBlock(input) == Some(relevant);
    var info := FileValues(InfoLines(relevant), versions);
    var clean := CleanAll(info);
    r := Success(clean);
  }

  /** The filing loop of parse_info: each value under its name and version, later lines winning. */
  method FileValues(found: seq<(string, string)>, versions: seq<string>) returns (info: map<string, map<string, string>>)
    ensures info == Accumulate(Fields(found, versions))
  {
    ghost var fields := Fields(found, versions);
    info := map[];
    for i := 0 to |found|
      invariant info == Accumulate(fields[..i])
    {
      var name := found[i].0;
      var version, value := TagVersion(found[i].1, versions);
      var current := if name in info then info[name] else map[];
      info := info[name := current[version := value]];
      PrefixOfPrefix(fields, i, i + 1);
    }
    assert fields[..|found|] == fields;
  }

  /** The collapsing loop of parse_info: every field cleaned. */
  method CleanAll(info: map<string, map<string, string>>) returns (clean: map<string, InfoValue>)
    ensures clean == map name | name in info :: Clean(info[name])
  {
    clean := map[];
    var pending := info.Keys;
    while pending != {}
      invariant pending <= info.Keys
      invariant clean.Keys == info.Keys - pending
      invariant forall name :: name in clean ==> clean[name] == Clean(info[name])
      decreases pending
    {
      var name :| name in pending;
      clean := clean[name := Clean(info[name])];
      pending := pending - {name};
    }
  }

  /**
   * What parse_info promises about one field: it is present exactly when the
   * block has a line with that name, it is plain exactly when every line
   * with that name carried no version, and each version holds the value of
   * the last line with that name and version.
   */
  lemma InfoFieldMeaning(fields: seq<Field>, name: string, version: string)
    requires name in Accumulate(fields)
    ensures Clean(Accumulate(fields)[name]).Plain? <==>
      forall i :: 0 <= i < |fields| && fields[i].name == name ==> fields[i].version == ""
    ensures version in Accumulate(fields)[name] <==> LastValue(fields, name, version).Some?
  {
    AccumulateKeepsLast(fields, name, version);
    var byVersion := Accumulate(fields)[name];
    forall i | 0 <= i < |fields| && fields[i].name == name
      ensures fields[i].version in byVersion
    {
      AccumulateKeepsLast(fields, name, fields[i].version);
      LastValueFound(fields, i);
    }
    forall v | v in byVersion
      ensures exists i :: 0 <= i < |fields| && fields[i].name == name && fields[i].version == v
    {
      AccumulateKeepsLast(fields, name, v);
      var i := LastValueFrom(fields, name, v);
    }
    AccumulateKeepsLast(fields, name, "");
  }
}
