/**
 * The Totem plugin of get-iplayer.py, as far as it decides things rather
 * than draws them: the values a row of the programme tree holds, which
 * filter a level of the tree stands for and which filters a branch has
 * chosen, what expanding a row loads, how a programme's duration and its
 * recording modes are shown, how the history pane is grouped, and which
 * filters the configuration offers.
 *
 * A GTK tree store is modelled by what the plugin asks of it: each node's
 * title, parent and depth.  Widgets, gconf and the drawing itself are not
 * part of this model.
 */
module Plugin {
  import opened Results
  import opened Strings
  import Info
  import Parsers
  import Facade

  // ------------------------------------------------------------ tree values

  /** Columns of a row of the programme tree. */
  const IdxTitle := 0
  const IdxDisplay := 1
  const IdxLoadingNode := 2
  const IdxHasLoaded := 3
  const IdxProgrammeIndex := 4

  /** The filters the configuration can offer, and the order used when none is stored. */
  const AvailableFilters: seq<string> := ["channel", "category", "type", "version"]
  const DefaultFilters: seq<string> := ["type", "channel", "category"]

  /** A Python value that is neither None nor the empty string. */
  predicate Truthy(s: Option<string>)
  {
    s.Some? && s.value != ""
  }

  /** One column of a tree row. */
  datatype Cell = TitleCell(title: Option<string>) | TextCell(text: string) | FlagCell(flag: bool) | IndexCell(index: int)

  /** TreeValues: the five columns of a row of the programme tree. */
  datatype TreeValues = TreeValues(title: Option<string>, display: string, loadingNode: bool, loaded: bool, progIdx: int)
  {
    /** The columns in column order. */
    function Items(): seq<Cell>
    {
      [TitleCell(title), TextCell(display), FlagCell(loadingNode), FlagCell(loaded), IndexCell(progIdx)]
    }

    /** len(): a row always has five columns. */
    function Len(): (n: nat)
      ensures n == |Items()|
    {
      5
    }

    /**
     * values[key], with Python's negative indices counting from the end;
     * any other key is an IndexError.
     */
    function GetItem(key: int): (r: Result<Cell>)
      ensures r.Success? <==> -(Len() as int) <= key < Len()
      ensures 0 <= key < Len() ==> r == Success(Items()[key])
      ensures -(Len() as int) <= key < 0 ==> r == Success(Items()[Len() + key])
      ensures r.Failure? ==> r.message == "tuple index out of range"
    {
      var items := Items();
      if 0 <= key < |items| then Success(items[key])
      else if -(|items| as int) <= key < 0 then Success(items[|items| + key])
      else Failure("tuple index out of range")
    }
  }

  /** The word a row without a title is labelled by: the kind of value it is, or "Name". */
  function BlankLabel(infoType: Option<string>): string
  {
    "(No " + Title(if Truthy(infoType) then infoType.value else "Name") + ")"
  }

  /**
   * TreeValues(title, ...): a row shows its title, or, when it has none, a
   * label naming what is missing.
   */
  function NewTreeValues(title: Option<string>, loadingNode: bool, loaded: bool, progIdx: int,
                         infoType: Option<string>): (v: TreeValues)
    ensures v.title == title && v.loadingNode == loadingNode && v.loaded == loaded && v.progIdx == progIdx
    ensures Truthy(title) ==> v.display == title.value
    ensures !Truthy(title) ==> v.display == BlankLabel(infoType)
    ensures |v.display| >= 1
  {
    TreeValues(title, if Truthy(title) then title.value else BlankLabel(infoType), loadingNode, loaded, progIdx)
  }

  /**
   * An untitled row of a filter level reads "(No Channel)", "(No Type)"
   * and so on: its info type with a capital initial.
   */
  lemma BlankRowLabel(title: Option<string>, infoType: string)
    requires !Truthy(title)
    requires |infoType| >= 1 && forall i :: 0 <= i < |infoType| ==> IsLower(infoType[i])
    ensures NewTreeValues(title, false, false, -1, Some(infoType)).display
            == "(No " + [ToUpper(infoType[0])] + infoType[1..] + ")"
  {
    TitleWord(infoType);
  }

  /** The named column constants pick the fields they are named after. */
  lemma ColumnsNamed(v: TreeValues)
    ensures v.GetItem(IdxTitle) == Success(TitleCell(v.title))
    ensures v.GetItem(IdxDisplay) == Success(TextCell(v.display))
    ensures v.GetItem(IdxLoadingNode) == Success(FlagCell(v.loadingNode))
    ensures v.GetItem(IdxHasLoaded) == Success(FlagCell(v.loaded))
    ensures v.GetItem(IdxProgrammeIndex) == Success(IndexCell(v.progIdx))
    ensures v.GetItem(-1) == v.GetItem(IdxProgrammeIndex)
  {
  }

  // ------------------------------------------------------- the filter path

  /** A node of the programme tree. */
  type Node = nat

  /** What the plugin reads of the programme tree: each node's title, parent and depth. */
  datatype TreeStore = TreeStore(title: map<Node, string>, parent: map<Node, Node>, depth: map<Node, nat>)

  /** A node's depth is one more than its parent's; a node without a parent is at depth 0. */
  ghost predicate WellFormed(store: TreeStore)
  {
    (forall n :: n in store.depth ==> n in store.title)
    && (forall n :: n in store.parent ==> n in store.depth && store.parent[n] in store.depth
                                          && store.depth[n] == store.depth[store.parent[n]] + 1)
    && (forall n :: n in store.depth && n !in store.parent ==> store.depth[n] == 0)
  }

  /** The titles from the root down to the node. */
  function PathTo(store: TreeStore, n: Node): (path: seq<string>)
    requires WellFormed(store) && n in store.depth
    ensures |path| == store.depth[n] + 1
    ensures path[|path| - 1] == store.title[n]
    decreases store.depth[n]
  {
    if n in store.parent then PathTo(store, store.parent[n]) + [store.title[n]] else [store.title[n]]
  }

  /** The titles from the root down to the branch; none for the tree's own root. */
  function BranchPath(store: TreeStore, branch: Option<Node>): seq<string>
    requires WellFormed(store) && (branch.Some? ==> branch.value in store.depth)
  {
    if branch.None? then [] else PathTo(store, branch.value)
  }

  /** The sequence in the opposite order. */
  function Reversed<T>(s: seq<T>): (r: seq<T>)
    ensures |r| == |s|
    ensures forall i :: 0 <= i < |s| ==> r[i] == s[|s| - 1 - i]
  {
    if s == [] then [] else [s[|s| - 1]] + Reversed(s[..|s| - 1])
  }

  lemma ReversedAppend<T>(s: seq<T>, x: T)
    ensures Reversed(s + [x]) == [x] + Reversed(s)
  {
    assert (s + [x])[..|s|] == s;
  }

  /** A node's path is its parent's path followed by its own title. */
  lemma BranchPathUp(store: TreeStore, n: Node)
    requires WellFormed(store) && n in store.depth
    ensures var up := if n in store.parent then Some(store.parent[n]) else None;
      BranchPath(store, Some(n)) == BranchPath(store, up) + [store.title[n]]
  {
  }

  /** One step up the tree: the node's title moves from the path above it to the names collected. */
  lemma FilterStep(store: TreeStore, n: Node, nodeNames: seq<string>, whole: seq<string>)
    requires WellFormed(store) && n in store.depth
    requires BranchPath(store, Some(n)) + Reversed(nodeNames) == whole
    ensures var up := if n in store.parent then Some(store.parent[n]) else None;
      BranchPath(store, up) + Reversed(nodeNames + [store.title[n]]) == whole
  {
    var up := if n in store.parent then Some(store.parent[n]) else None;
    var name := store.title[n];
    var above, below := BranchPath(store, up), Reversed(nodeNames);
    calc {
      above + Reversed(nodeNames + [name]);
    == { ReversedAppend(nodeNames, name); }
      above + ([name] + below);
    == { ConcatAssociates(above, [name], below); }
      (above + [name]) + below;
    == { BranchPathUp(store, n); }
      BranchPath(store, Some(n)) + below;
    }
  }

  /**
   * _filter_at_branch: walk from the branch up to the root collecting
   * titles, then reverse them; the result is the branch's path from the root.
   */
  method FilterAtBranch(store: TreeStore, branch: Option<Node>) returns (path: seq<string>)
    requires WellFormed(store) && (branch.Some? ==> branch.value in store.depth)
    ensures path == BranchPath(store, branch)
    ensures branch.Some? ==> |path| == store.depth[branch.value] + 1
  {
    var nodeNames: seq<string> := [];
    var current := branch;
    while current.Some?
      invariant current.Some? ==> current.value in store.depth
      invariant BranchPath(store, current) + Reversed(nodeNames) == BranchPath(store, branch)
      decreases if current.Some? then store.depth[current.value] + 1 else 0
    {
      var n := current.value;
      var up := if n in store.parent then Some(store.parent[n]) else None;
      FilterStep(store, n, nodeNames, BranchPath(store, branch));
      nodeNames := nodeNames + [store.title[n]];
      current := up;
    }
    path := Reversed(nodeNames);
  }

  // ------------------------------------------------------ filters of a branch

  /** No element occurs twice. */
  predicate Distinct<T(==)>(s: seq<T>)
  {
    forall i, j :: 0 <= i < j < |s| ==> s[i] != s[j]
  }

  /** dict(zip(keys, values)) over the first n pairs. */
  function DictFrom(keys: seq<string>, values: seq<string>, n: nat): (d: map<string, string>)
    requires n <= |keys| && n <= |values|
    ensures d.Keys == set i | 0 <= i < n :: keys[i]
  {
    if n == 0 then map[] else DictFrom(keys, values, n - 1)[keys[n - 1] := values[n - 1]]
  }

  /** dict(zip(keys, values)): pairs up to the shorter of the two, a later key winning. */
  function Zip(keys: seq<string>, values: seq<string>): map<string, string>
  {
    DictFrom(keys, values, if |keys| <= |values| then |keys| else |values|)
  }

  /** A key not repeated later among the first n keeps the value it was paired with. */
  lemma {:induction false} DictFromLastWins(keys: seq<string>, values: seq<string>, n: nat, i: nat)
    requires n <= |keys| && n <= |values| && i < n
    requires forall j :: i < j < n ==> keys[j] != keys[i]
    ensures DictFrom(keys, values, n)[keys[i]] == values[i]
  {
    if i < n - 1 {
      DictFromLastWins(keys, values, n - 1, i);
    }
  }

  /**
   * _active_filters: the configured filter order paired with the titles on
   * the branch's path, so the branch at depth d has chosen d + 1 filters.
   */
  function ActiveFilters(order: seq<string>, store: TreeStore, branch: Option<Node>): map<string, string>
    requires WellFormed(store) && (branch.Some? ==> branch.value in store.depth)
  {
    Zip(order, BranchPath(store, branch))
  }

  /** The depth of the rows a load below the branch adds: 0 at the root. */
  function PopulateDepth(store: TreeStore, branch: Option<Node>): (d: nat)
    requires WellFormed(store) && (branch.Some? ==> branch.value in store.depth)
    ensures d == |BranchPath(store, branch)|
  {
    if branch.None? then 0 else store.depth[branch.value] + 1
  }

  /**
   * _populate_filter_level's choice: the filter whose values the rows at
   * that depth list, or a ValueError when the depth is past the configured
   * filters.
   */
  function FilterLevel(order: seq<string>, populateDepth: nat): (r: Result<string>)
    ensures r.Success? <==> populateDepth < |order|
    ensures r.Success? ==> r.value == order[populateDepth]
    ensures r.Failure? ==> r.message == "This level does not contain filters."
  {
    if populateDepth >= |order| then Failure("This level does not contain filters.") else Success(order[populateDepth])
  }

  /** What expanding a row starts loading. */
  datatype Expansion =
    | LoadFacet(facet: string, active: map<string, string>)
    | LoadEpisodes(active: map<string, string>)
    | NoLoad

  /**
   * _row_expanded_cb: the next filter level when there is one; the series
   * and episodes when the row is at the last filter level; nothing below that.
   */
  function Expand(order: seq<string>, store: TreeStore, n: Node): Expansion
    requires WellFormed(store) && n in store.depth
  {
    match FilterLevel(order, PopulateDepth(store, Some(n)))
    case Success(facet) => LoadFacet(facet, ActiveFilters(order, store, Some(n)))
    case Failure(_) =>
      if store.depth[n] == |order| - 1 then LoadEpisodes(ActiveFilters(order, store, Some(n))) else NoLoad
  }

  /**
   * Expanding a row at depth d loads the values of filter d + 1 restricted
   * by the filters 0..d its path has chosen, each set to the title at that
   * depth; at the last filter level it loads the episodes with every filter
   * chosen; deeper rows load nothing.
   */
  lemma ExpandKind(order: seq<string>, store: TreeStore, n: Node)
    requires WellFormed(store) && n in store.depth
    ensures var d, e := store.depth[n], Expand(order, store, n);
      && (e.LoadFacet? <==> d + 1 < |order|)
      && (e.LoadEpisodes? <==> d + 1 == |order|)
      && (e.NoLoad? <==> d + 1 > |order|)
      && (e.LoadFacet? ==> e.facet == order[d + 1])
      && (!e.NoLoad? ==> e.active == ActiveFilters(order, store, Some(n)))
  {
  }

  /**
   * The filters a row at depth d within the configured order has chosen:
   * filters 0..d, each set to the title at that depth of the row's path,
   * and not the next filter.
   */
  lemma ExpandFilters(order: seq<string>, store: TreeStore, n: Node)
    requires WellFormed(store) && n in store.depth && Distinct(order)
    requires store.depth[n] + 1 <= |order|
    ensures var d, active := store.depth[n], ActiveFilters(order, store, Some(n));
      && active.Keys == (set i | 0 <= i <= d :: order[i])
      && (forall i :: 0 <= i <= d ==> active[order[i]] == PathTo(store, n)[i])
      && (d + 1 < |order| ==> order[d + 1] !in active)
  {
    ZipDistinct(order, PathTo(store, n));
  }

  /**
   * With distinct keys and at least as many keys as values, the dictionary
   * maps the i-th key to the i-th value, and holds no key beyond the values.
   */
  lemma ZipDistinct(keys: seq<string>, values: seq<string>)
    requires Distinct(keys) && |values| <= |keys|
    ensures Zip(keys, values).Keys == set i | 0 <= i < |values| :: keys[i]
    ensures forall i :: 0 <= i < |values| ==> Zip(keys, values)[keys[i]] == values[i]
    ensures |values| < |keys| ==> keys[|values|] !in Zip(keys, values)
  {
    forall i | 0 <= i < |values| ensures Zip(keys, values)[keys[i]] == values[i] {
      DictFromLastWins(keys, values, |values|, i);
    }
  }

  /**
   * got_filters: one expandable row per value of the facet, a blank value
   * labelled by the facet's name.
   */
  function FacetRows(facet: string, names: seq<string>): (rows: seq<TreeValues>)
    ensures |rows| == |names|
    ensures forall i :: 0 <= i < |names| ==> rows[i] == NewTreeValues(Some(names[i]), false, false, -1, Some(facet))
  {
    seq(|names|, i requires 0 <= i < |names| => NewTreeValues(Some(names[i]), false, false, -1, Some(facet)))
  }

  /**
   * got_episodes: a series row, labelled "(No Series)" when the series is
   * unnamed, over one row per episode that carries the programme's index.
   */
  function SeriesRows(series: Option<string>, episodes: seq<(nat, string)>): (rows: (TreeValues, seq<TreeValues>))
    ensures rows.0 == NewTreeValues(series, false, false, -1, Some("series"))
    ensures |rows.1| == |episodes|
    ensures forall i :: 0 <= i < |episodes| ==>
      rows.1[i].progIdx == episodes[i].0 && rows.1[i].title == Some(episodes[i].1)
      && rows.1[i] == NewTreeValues(Some(episodes[i].1), false, false, episodes[i].0, Some("episode"))
  {
    (NewTreeValues(series, false, false, -1, Some("series")),
     seq(|episodes|, i requires 0 <= i < |episodes| =>
       NewTreeValues(Some(episodes[i].1), false, false, episodes[i].0, Some("episode"))))
  }

  // ---------------------------------------------------------- configuration

  /** The filters of `all`, in order, that are not in `configured`. */
  function Unconfigured(all: seq<string>, configured: seq<string>): (r: seq<string>)
    ensures forall f :: f in r <==> f in all && f !in configured
    ensures |r| <= |all|
  {
    if all == [] then []
    else
      var last := all[|all| - 1];
      Unconfigured(all[..|all| - 1], configured) + (if last in configured then [] else [last])
  }

  /**
   * config_filter_order: the stored filter order, or the default order
   * when nothing is stored; never empty.
   */
  function ConfigFilterOrder(stored: seq<string>): (order: seq<string>)
    ensures |order| >= 1
    ensures stored != [] ==> order == stored
    ensures stored == [] ==> order == DefaultFilters
  {
    if stored == [] then DefaultFilters else stored
  }

  /**
   * create_configure_dialog's lists: the available filters not in use, in
   * their standard order, and the filters in use, in the configured order.
   */
  method ConfigureLists(configured: seq<string>) returns (available: seq<string>, used: seq<string>)
    ensures available == Unconfigured(AvailableFilters, configured)
    ensures used == configured
  {
    available := [];
    for i := 0 to |AvailableFilters|
      invariant available == Unconfigured(AvailableFilters[..i], configured)
    {
      PrefixExtend(AvailableFilters, i);
      UnconfiguredSnoc(AvailableFilters[..i], AvailableFilters[i], configured);
      if AvailableFilters[i] !in configured {
        available := available + [AvailableFilters[i]];
      }
    }
    assert AvailableFilters[..|AvailableFilters|] == AvailableFilters;
    used := [];
    for i := 0 to |configured|
      invariant used == configured[..i]
    {
      PrefixExtend(configured, i);
      used := used + [configured[i]];
    }
    assert configured[..|configured|] == configured;
  }

  /**
   * Every standard filter is offered in exactly one of the two lists, and
   * the available list holds nothing else.
   */
  lemma ConfigurePartition(configured: seq<string>)
    ensures var available := Unconfigured(AvailableFilters, configured);
      && (forall f :: f in AvailableFilters ==> (f in available <==> f !in configured))
      && (forall f :: f in available ==> f in AvailableFilters && f !in configured)
      && Distinct(available)
  {
    var available := Unconfigured(AvailableFilters, configured);
    UnconfiguredDistinct(AvailableFilters, configured);
  }

  lemma UnconfiguredSnoc(all: seq<string>, f: string, configured: seq<string>)
    ensures Unconfigured(all + [f], configured) == Unconfigured(all, configured) + (if f in configured then [] else [f])
  {
    assert (all + [f])[..|all|] == all;
  }

  lemma {:induction false} UnconfiguredDistinct(all: seq<string>, configured: seq<string>)
    requires Distinct(all)
    ensures Distinct(Unconfigured(all, configured))
  {
    if all != [] {
      var init := all[..|all| - 1];
      assert Distinct(init);
      UnconfiguredDistinct(init, configured);
      var last := all[|all| - 1];
      assert last !in init;
    }
  }

  // --------------------------------------------------------------- duration

  /**
   * A "minutes:seconds" duration in whole minutes, half a minute rounding
   * up; None unless it is exactly two whole numbers around one colon.
   */
  function ClockMinutes(duration: string): Option<int>
  {
    ClockOfParts(SplitOn(duration, ":"))
  }

  /** The reading of the pieces between colons: exactly two, both whole numbers. */
  function ClockOfParts(parts: seq<string>): Option<int>
  {
    if |parts| != 2 then None else ClockOf(ParseInt(parts[0]), ParseInt(parts[1]))
  }

  /** Whole minutes from the two halves read as numbers, half a minute rounding up. */
  function ClockOf(minutes: Option<int>, seconds: Option<int>): Option<int>
  {
    if minutes.Some? && seconds.Some? then Some(if seconds.value >= 30 then minutes.value + 1 else minutes.value)
    else None
  }

  /**
   * The minutes got_info reads from a duration: a whole number of seconds
   * rounded down to whole minutes, otherwise a "minutes:seconds" reading.
   */
  function DurationMinutes(duration: string): Option<int>
  {
    match ParseInt(duration)
    case Some(seconds) => Some(seconds / 60)
    case None => ClockMinutes(duration)
  }

  /**
   * How got_info shows a duration: its minutes as "<n> minutes" when it
   * has any, otherwise the text as it is.  The flag says whether the
   * duration was understood, and so whether recording is offered.
   */
  function DurationShown(duration: string): (shown: (string, bool))
    ensures shown.1 <==> DurationMinutes(duration).Some?
    ensures !shown.1 ==> shown.0 == duration
  {
    match DurationMinutes(duration)
    case Some(minutes) => (ShowInt(minutes) + " minutes", true)
    case None => (duration, false)
  }

  /**
   * got_info's duration steps: try the whole string as seconds, and when it
   * is not a whole number, read it as "minutes:seconds".
   */
  method FormatDuration(duration0: string) returns (duration: string, hasDuration: bool)
    ensures (duration, hasDuration) == DurationShown(duration0)
  {
    var whole := ParseInt(duration0);
    if whole.Some? {
      duration := ShowInt(whole.value / 60) + " minutes";
      hasDuration := true;
      return;
    }
    duration, hasDuration := FormatClock(duration0);
  }

  /**
   * The inner attempt of got_info: the two halves of "minutes:seconds",
   * half a minute rounding up, leaving the text alone when they do not parse.
   */
  method FormatClock(duration0: string) returns (duration: string, hasDuration: bool)
    ensures hasDuration <==> ClockMinutes(duration0).Some?
    ensures hasDuration ==> duration == ShowInt(ClockMinutes(duration0).value) + " minutes"
    ensures !hasDuration ==> duration == duration0
  {
    duration := duration0;
    hasDuration := false;
    var parts := SplitOn(duration, ":");
    if |parts| != 2 {
      return;
    }
    var minutes := ParseInt(parts[0]);
    if minutes.None? {
      return;
    }
    var seconds := ParseInt(parts[1]);
    if seconds.None? {
      return;
    }
    var rounded := minutes.value;
    if seconds.value >= 30 {
      rounded := rounded + 1;
    }
    ClockReading(parts, minutes.value, seconds.value);
    duration := ShowInt(rounded) + " minutes";
    hasDuration := true;
  }


  /**
   * The duration shown for a programme's information: "Unknown" when it has
   * none, the formatted text for a plain value, and the TypeError int()
   * raises when the value differs by version.
   */
  function InfoDuration(info: map<string, Info.InfoValue>): (r: Result<(string, bool)>)
    ensures "duration" !in info ==> r == Success(("Unknown", false))
    ensures "duration" in info && info["duration"].Plain? ==> r == Success(DurationShown(info["duration"].text))
    ensures "duration" in info && info["duration"].Versioned? ==> r.Failure?
  {
    if "duration" !in info then
      UnknownNotUnderstood();
      Success(DurationShown("Unknown"))
    else match info["duration"]
      case Plain(d) => Success(DurationShown(d))
      case Versioned(_) => Failure("int() argument must be a string or a number")
  }


  /** The placeholder for a missing duration is not understood, so it is shown as it is. */
  lemma UnknownNotUnderstood()
    ensures DurationMinutes("Unknown").None?
  {
    StripUnpadded("Unknown");
    assert ParseInt("Unknown").None?;
    LacksChar("Unknown", ':');
    SplitOnLacking("Unknown", ":");
  }

  /** A number of seconds reads as the whole minutes it contains. */
  lemma DurationOfSeconds(seconds: int)
    ensures DurationMinutes(ShowInt(seconds)).Some?
    ensures var m := DurationMinutes(ShowInt(seconds)).value; 60 * m <= seconds < 60 * m + 60
  {
    ParseShowInt(seconds);
  }

  /** "m:s" reads as the nearest whole minute, half a minute rounding up. */
  lemma DurationOfClock(minutes: nat, seconds: nat)
    requires seconds < 60
    ensures DurationMinutes(ShowNat(minutes) + ":" + ShowNat(seconds)) == Some(if seconds >= 30 then minutes + 1 else minutes)
    ensures var m := DurationMinutes(ShowNat(minutes) + ":" + ShowNat(seconds)).value;
      -30 < 60 * m - (60 * minutes + seconds) <= 30
  {
    var m, s := ShowNat(minutes), ShowNat(seconds);
    ColonNotInt(m, s);
    ColonSplit(m, s);
    ParseShowInt(minutes);
    ParseShowInt(seconds);
    assert ShowInt(minutes) == m && ShowInt(seconds) == s;
    ClockReading([m, s], minutes, seconds);
    NotSeconds(m + ":" + s);
  }

  lemma ClockReading(parts: seq<string>, minutes: int, seconds: int)
    requires |parts| == 2 && ParseInt(parts[0]) == Some(minutes) && ParseInt(parts[1]) == Some(seconds)
    ensures ClockOfParts(parts) == Some(if seconds >= 30 then minutes + 1 else minutes)
  {
  }

  lemma NotSeconds(d: string)
    requires ParseInt(d).None?
    ensures DurationMinutes(d) == ClockMinutes(d)
  {
  }

  lemma ColonNotInt(m: string, s: string)
    requires |m| >= 1 && IsDigits(m) && |s| >= 1 && IsDigits(s)
    ensures ParseInt(m + ":" + s).None?
  {
    var d := m + ":" + s;
    assert d[0] == m[0] && d[|d| - 1] == s[|s| - 1] && d[|m|] == ':';
    DigitEndsNotInt(d, |m|);
  }

  /** int() refuses digits at both ends with a non-digit between them. */
  lemma DigitEndsNotInt(d: string, k: nat)
    requires 0 < k < |d| && !IsDigit(d[k]) && IsDigit(d[0]) && IsDigit(d[|d| - 1])
    ensures ParseInt(d).None?
  {
    StripUnpadded(d);
    NotAnInt(d);
  }

  /** int() refuses a string whose stripped form is neither signed digits nor digits. */
  lemma NotAnInt(s: string)
    requires Strip(s) == [] || (!IsDigits(Strip(s)) && Strip(s)[0] != '-' && Strip(s)[0] != '+')
    ensures ParseInt(s).None?
  {
  }

  lemma ColonSplit(m: string, s: string)
    requires IsDigits(m) && IsDigits(s)
    ensures SplitOn(m + ":" + s, ":") == [m, s]
  {
    assert ':' !in m && ':' !in s by {
      assert !IsDigit(':');
    }
    PairSplit(m, ':', s);
  }

  /** Splitting "a<c>b" at the one character c, which neither half holds. */
  lemma PairSplit(a: string, c: char, b: string)
    requires c !in a && c !in b
    ensures SplitOn(a + [c] + b, [c]) == [a, b]
  {
    assert Join([a, b], [c]) == a + [c] + b;
    LacksChar(a, c);
    LacksChar(b, c);
    UnborderedChar(c);
    SplitOnJoin([a, b], [c]);
  }

  // ------------------------------------------------------------ mode list

  /** An entry of the mode list before it is unpacked: a split "mode=size", or a mode alone. */
  datatype ModeEntry = Sized(parts: seq<string>) | Bare(mode: string)

  /**
   * info.get(key, {}).get(version, ""): the field's value for the version,
   * "" when the field or the version is missing, and an AttributeError when
   * the field does not differ by version.
   */
  function VersionValue(info: map<string, Info.InfoValue>, key: string, version: string): (r: Result<string>)
    ensures key !in info ==> r == Success("")
    ensures key in info && info[key].Versioned? ==>
      r == Success(if version in info[key].byVersion then info[key].byVersion[version] else "")
    ensures r.Failure? <==> key in info && info[key].Plain?
  {
    if key !in info then Success("")
    else match info[key]
      case Plain(_) => Failure("'str' object has no attribute 'get'")
      case Versioned(byVersion) => Success(if version in byVersion then byVersion[version] else "")
  }

  /**
   * The modes of a version: the "modesizes" entries split at "=" when there
   * are any, otherwise the "modes" entries alone.
   */
  function ModeEntries(info: map<string, Info.InfoValue>, version: string): (r: Result<seq<ModeEntry>>)
    ensures r.Failure? <==> (VersionValue(info, "modesizes", version).Failure?
      || (VersionValue(info, "modesizes", version) == Success("") && VersionValue(info, "modes", version).Failure?))
  {
    match VersionValue(info, "modesizes", version)
    case Failure(e) => Failure(e)
    case Success(sizes) =>
      if sizes != "" then
        var pieces := SplitOn(sizes, ",");
        Success(seq(|pieces|, i requires 0 <= i < |pieces| => Sized(SplitOn(pieces[i], "="))))
      else match VersionValue(info, "modes", version)
        case Failure(e) => Failure(e)
        case Success(modes) =>
          if modes != "" then
            var pieces := SplitOn(modes, ",");
            Success(seq(|pieces|, i requires 0 <= i < |pieces| => Bare(pieces[i])))
          else Success([])
  }

  /** `for mode, size in ...`: a split entry unpacks only when it has exactly two parts. */
  function Unpack(e: ModeEntry): (r: Result<(string, Option<string>)>)
    ensures r.Success? <==> e.Bare? || |e.parts| == 2
  {
    match e
    case Bare(mode) => Success((mode, None))
    case Sized(parts) =>
      if |parts| == 2 then Success((parts[0], Some(parts[1])))
      else if |parts| < 2 then Failure("need more than " + ShowNat(|parts|) + " value to unpack")
      else Failure("too many values to unpack")
  }

  /** A mode row: the mode and its label, with the size in brackets when it has one. */
  function ModeRow(mode: string, size: Option<string>): (row: (string, string))
    ensures row.0 == mode
    ensures size.None? ==> row.1 == mode
    ensures size.Some? ==> row.1 == mode + " (" + size.value + ")"
  {
    (mode, if size.None? then mode else mode + " (" + size.value + ")")
  }

  /**
   * The rows appended for the entries: one per entry up to the first that
   * does not unpack, where the ValueError stops the loop.
   */
  function ModeRows(entries: seq<ModeEntry>): (r: (seq<(string, string)>, Option<string>))
    ensures |r.0| <= |entries|
    ensures forall i :: 0 <= i < |r.0| ==>
      Unpack(entries[i]).Success? && r.0[i] == ModeRow(Unpack(entries[i]).value.0, Unpack(entries[i]).value.1)
    ensures r.1.None? <==> forall i :: 0 <= i < |entries| ==> Unpack(entries[i]).Success?
    ensures r.1.None? ==> |r.0| == |entries|
    ensures r.1.Some? ==> |r.0| < |entries| && Unpack(entries[|r.0|]).Failure?
  {
    if entries == [] then ([], None)
    else
      var init := entries[..|entries| - 1];
      var done := ModeRows(init);
      if done.1.Some? then done
      else match Unpack(entries[|entries| - 1])
        case Failure(e) => (done.0, Some(e))
        case Success(ms) => (done.0 + [ModeRow(ms.0, ms.1)], None)
  }

  /** _version_selected_cb's mode list: "best" first, then the version's modes. */
  function ModeList(info: map<string, Info.InfoValue>, version: string): (r: (seq<(string, string)>, Option<string>))
  {
    match ModeEntries(info, version)
    case Failure(e) => ([], Some(e))
    case Success(entries) => ModeRows([Bare("best")] + entries)
  }

  /**
   * _version_selected_cb: clear the mode list, then append "best" and one
   * row per mode; an unreadable entry ends the list with a ValueError and
   * the first row is selected only when every entry was read.
   */
  method VersionSelected(info: map<string, Info.InfoValue>, version: string)
    returns (rows: seq<(string, string)>, error: Option<string>, selected: bool)
    ensures (rows, error) == ModeList(info, version)
    ensures selected <==> error.None?
  {
    rows := [];
    var found := ModeEntries(info, version);
    if found.Failure? {
      return [], Some(found.message), false;
    }
    var entries := [Bare("best")] + found.value;
    error := None;
    var i := 0;
    while i < |entries|
      invariant 0 <= i <= |entries|
      invariant (rows, error) == ModeRows(entries[..i])
      invariant error.None?
    {
      ModeRowsNext(entries, i);
      var unpacked := Unpack(entries[i]);
      if unpacked.Failure? {
        error := Some(unpacked.message);
        ModeRowsStop(entries, i + 1);
        return rows, error, false;
      }
      rows := rows + [ModeRow(unpacked.value.0, unpacked.value.1)];
      i := i + 1;
    }
    assert entries[..|entries|] == entries;
    selected := true;
  }

  /** One more entry: its row is appended, or its ValueError ends the list. */
  lemma ModeRowsNext(entries: seq<ModeEntry>, i: nat)
    requires i < |entries| && ModeRows(entries[..i]).1.None?
    ensures ModeRows(entries[..i + 1]) ==
      match Unpack(entries[i])
      case Failure(e) => (ModeRows(entries[..i]).0, Some(e))
      case Success(ms) => (ModeRows(entries[..i]).0 + [ModeRow(ms.0, ms.1)], None)
  {
    PrefixOfPrefix(entries, i, i + 1);
  }

  /** Once an entry fails to unpack, later entries change nothing. */
  lemma {:induction false} ModeRowsStop(entries: seq<ModeEntry>, n: nat)
    requires 1 <= n <= |entries| && ModeRows(entries[..n]).1.Some?
    ensures ModeRows(entries) == ModeRows(entries[..n])
    decreases |entries| - n
  {
    if n < |entries| {
      PrefixOfPrefix(entries, n, n + 1);
      ModeRowsStop(entries, n + 1);
    } else {
      assert entries[..n] == entries;
    }
  }

  /** "best" always heads the mode list when the version's modes can be read. */
  lemma ModeListBestFirst(info: map<string, Info.InfoValue>, version: string)
    requires ModeEntries(info, version).Success?
    ensures |ModeList(info, version).0| >= 1 && ModeList(info, version).0[0] == ("best", "best")
  {
    var entries := [Bare("best")] + ModeEntries(info, version).value;
    assert Unpack(entries[0]).Success?;
  }

  /** The "mode=size" items of a mode-size list. */
  function SizeItems(sizes: seq<(string, string)>): (items: seq<string>)
    ensures |items| == |sizes|
    ensures forall i :: 0 <= i < |sizes| ==> items[i] == sizes[i].0 + "=" + sizes[i].1
  {
    seq(|sizes|, i requires 0 <= i < |sizes| => sizes[i].0 + "=" + sizes[i].1)
  }

  /** Modes and sizes free of the separators "," and "=". */
  predicate PlainSizes(sizes: seq<(string, string)>)
  {
    forall i :: 0 <= i < |sizes| ==>
      ',' !in sizes[i].0 && '=' !in sizes[i].0 && ',' !in sizes[i].1 && '=' !in sizes[i].1
  }

  /**
   * A version whose mode sizes are listed as "m1=s1,m2=s2,..." gets the
   * rows best, then "mi (si)" for each mode in order, and no error.
   */
  lemma ModeListOfSizes(info: map<string, Info.InfoValue>, version: string, sizes: seq<(string, string)>)
    requires |sizes| >= 1 && PlainSizes(sizes)
    requires "modesizes" in info && info["modesizes"].Versioned?
    requires version in info["modesizes"].byVersion
    requires info["modesizes"].byVersion[version] == Join(SizeItems(sizes), ",")
    ensures ModeList(info, version).1.None?
    ensures ModeList(info, version).0
            == [("best", "best")] + seq(|sizes|, i requires 0 <= i < |sizes| => (sizes[i].0, sizes[i].0 + " (" + sizes[i].1 + ")"))
  {
    EntriesOfSizes(info, version, sizes);
    RowsOfSizes(sizes);
  }

  /** The entries of a mode-size list: each item split into its mode and size. */
  function SizedEntries(sizes: seq<(string, string)>): (entries: seq<ModeEntry>)
    ensures |entries| == |sizes|
    ensures forall i :: 0 <= i < |sizes| ==> entries[i] == Sized([sizes[i].0, sizes[i].1])
  {
    seq(|sizes|, i requires 0 <= i < |sizes| => Sized([sizes[i].0, sizes[i].1]))
  }

  lemma EntriesOfSizes(info: map<string, Info.InfoValue>, version: string, sizes: seq<(string, string)>)
    requires |sizes| >= 1 && PlainSizes(sizes)
    requires "modesizes" in info && info["modesizes"].Versioned?
    requires version in info["modesizes"].byVersion
    requires info["modesizes"].byVersion[version] == Join(SizeItems(sizes), ",")
    ensures ModeEntries(info, version) == Success(SizedEntries(sizes))
  {
    var items := SizeItems(sizes);
    forall i | 0 <= i < |items| ensures ',' !in items[i] && SplitOn(items[i], "=") == [sizes[i].0, sizes[i].1] {
      PairSplit(sizes[i].0, '=', sizes[i].1);
    }
    assert |items[0]| >= 1;
    JoinSplitsBack(items, ',');
    assert VersionValue(info, "modesizes", version) == Success(Join(items, ","));
    var pieces := SplitOn(Join(items, ","), ",");
    var entries := seq(|pieces|, i requires 0 <= i < |pieces| => Sized(SplitOn(pieces[i], "=")));
    assert ModeEntries(info, version) == Success(entries);
    assert entries == SizedEntries(sizes);
  }

  lemma RowsOfSizes(sizes: seq<(string, string)>)
    ensures ModeRows([Bare("best")] + SizedEntries(sizes)).1.None?
    ensures ModeRows([Bare("best")] + SizedEntries(sizes)).0
            == [("best", "best")] + seq(|sizes|, i requires 0 <= i < |sizes| => (sizes[i].0, sizes[i].0 + " (" + sizes[i].1 + ")"))
  {
    var entries := [Bare("best")] + SizedEntries(sizes);
    assert forall i :: 0 <= i < |entries| ==> Unpack(entries[i]).Success?;
  }

  /** Items that are not empty and lack the separator split back out of their join. */
  lemma JoinSplitsBack(items: seq<string>, c: char)
    requires |items| >= 1 && |items[0]| >= 1
    requires forall i :: 0 <= i < |items| ==> c !in items[i]
    ensures Join(items, [c]) != "" && SplitOn(Join(items, [c]), [c]) == items
  {
    assert |Join(items, [c])| >= |items[0]|;
    UnborderedChar(c);
    forall i | 0 <= i < |items| ensures Lacks(items[i], [c]) {
      LacksChar(items[i], c);
    }
    SplitOnJoin(items, [c]);
  }

  // ---------------------------------------------------------- history pane

  /** A row of the history pane: index, name, version, mode and file location. */
  datatype HistoryRow = HistoryRow(index: int, name: string, version: string, mode: string, location: string)

  /** A top-level row of the history pane with the rows beneath it. */
  datatype HistoryBranch = HistoryBranch(row: HistoryRow, children: seq<HistoryRow>)

  /** The heading of a group: a row with no index and nothing but a name. */
  function Heading(name: string): HistoryRow
  {
    HistoryRow(-1, name, "", "", "")
  }

  /** A recording in progress, marked as such and not yet playable. */
  function RecordingRow(r: Facade.Recording): (row: HistoryRow)
    ensures row.index == -1 && row.location == ""
    ensures row.name == r.displayName + " (Recording...)"
  {
    HistoryRow(-1, r.displayName + " (Recording...)", r.version, r.mode, "")
  }

  /** A finished download under its series: the episode with its index and file. */
  function EpisodeRow(h: Parsers.HistoryRecord): HistoryRow
  {
    HistoryRow(h.index, h.episode, h.version, h.mode, h.location)
  }

  /** The rows of the series' downloads, in history order. */
  function SeriesHistory(history: seq<Parsers.HistoryRecord>, series: string): (rows: seq<HistoryRow>)
    ensures |rows| <= |history|
  {
    if history == [] then [] else SeriesHistory(history[..|history| - 1], series) + Own(history[|history| - 1], series)
  }

  /** The row a download adds to the series' group: one when it belongs to the series. */
  function Own(h: Parsers.HistoryRecord, series: string): seq<HistoryRow>
  {
    if h.name == series then [EpisodeRow(h)] else []
  }

  /** Grouping keeps order: the rows of a longer history extend those of its start. */
  lemma {:induction false} SeriesHistoryAppend(a: seq<Parsers.HistoryRecord>, b: seq<Parsers.HistoryRecord>, series: string)
    ensures SeriesHistory(a + b, series) == SeriesHistory(a, series) + SeriesHistory(b, series)
    decreases |b|
  {
    if b == [] {
      assert a + b == a;
    } else {
      var init, last := b[..|b| - 1], b[|b| - 1];
      calc {
        SeriesHistory(a + b, series);
      == { assert a + b == (a + init) + [last]; }
        SeriesHistory((a + init) + [last], series);
      == { SeriesHistorySnoc(a + init, last, series); }
        SeriesHistory(a + init, series) + Own(last, series);
      == { SeriesHistoryAppend(a, init, series); }
        (SeriesHistory(a, series) + SeriesHistory(init, series)) + Own(last, series);
        SeriesHistory(a, series) + (SeriesHistory(init, series) + Own(last, series));
      == { SeriesHistorySnoc(init, last, series); assert init + [last] == b; }
        SeriesHistory(a, series) + SeriesHistory(b, series);
      }
    }
  }

  lemma SeriesHistorySnoc(h: seq<Parsers.HistoryRecord>, x: Parsers.HistoryRecord, series: string)
    ensures SeriesHistory(h + [x], series) == SeriesHistory(h, series) + Own(x, series)
  {
    assert (h + [x])[..|h|] == h;
  }

  /** A series has a group exactly when some download belongs to it. */
  lemma {:induction false} SeriesHistoryNonEmpty(history: seq<Parsers.HistoryRecord>, series: string)
    ensures SeriesHistory(history, series) != [] <==> exists j :: 0 <= j < |history| && history[j].name == series
  {
    if history != [] {
      var init := history[..|history| - 1];
      SeriesHistoryNonEmpty(init, series);
      if exists j :: 0 <= j < |init| && init[j].name == series {
        var j :| 0 <= j < |init| && init[j].name == series;
        assert history[j] == init[j];
      }
      if exists j :: 0 <= j < |history| && history[j].name == series {
        var j :| 0 <= j < |history| && history[j].name == series;
        if j < |init| {
          assert init[j] == history[j];
        }
      }
    }
  }

  /**
   * The groups list every series that has downloads once, each headed by
   * its name over its downloads in history order.
   */
  ghost predicate SeriesListed(groups: seq<HistoryBranch>, history: seq<Parsers.HistoryRecord>)
  {
    && (forall i, j :: 0 <= i < j < |groups| ==> groups[i].row.name != groups[j].row.name)
    && (forall s :: SeriesHistory(history, s) != [] ==> HistoryBranch(Heading(s), SeriesHistory(history, s)) in groups)
    && (forall i :: 0 <= i < |groups| ==>
          var s := groups[i].row.name;
          SeriesHistory(history, s) != [] && groups[i] == HistoryBranch(Heading(s), SeriesHistory(history, s)))
  }

  /** The rows list every recording in progress once. */
  ghost predicate RecordingsListed(children: seq<HistoryRow>, recordings: map<nat, Facade.Recording>)
  {
    && |children| == |recordings|
    && (forall k :: k in recordings ==> RecordingRow(recordings[k]) in children)
    && (forall i :: 0 <= i < |children| ==> exists k :: k in recordings && children[i] == RecordingRow(recordings[k]))
  }

  /**
   * populate_store: a "Currently Recording" group, when recordings are in
   * progress, with one row per recording; then one group per series with
   * its downloads in history order.  The pane is shown when anything was
   * added.  The order of the recordings and of the series is the order of
   * Python's dictionaries, which is left open.
   */
  method PopulateHistory(recordings: map<nat, Facade.Recording>, history: seq<Parsers.HistoryRecord>)
    returns (store: seq<HistoryBranch>, visible: bool)
    ensures visible <==> store != []
    ensures recordings == map[] ==> SeriesListed(store, history)
    ensures recordings != map[] ==>
      && |store| >= 1
      && store[0].row == Heading("Currently Recording")
      && RecordingsListed(store[0].children, recordings)
      && SeriesListed(store[1..], history)
  {
    var groups := SeriesGroups(history);
    if recordings == map[] {
      store := groups;
    } else {
      var children := RecordingRows(recordings);
      store := [HistoryBranch(Heading("Currently Recording"), children)] + groups;
      assert store[1..] == groups;
    }
    visible := store != [];
  }

  /** The rows of the recordings in progress, one per recording, in dictionary order. */
  method RecordingRows(recordings: map<nat, Facade.Recording>) returns (children: seq<HistoryRow>)
    ensures RecordingsListed(children, recordings)
  {
    children := [];
    ghost var order: seq<nat> := [];
    var pending := recordings.Keys;
    while pending != {}
      invariant pending <= recordings.Keys
      invariant |children| == |order| == |recordings.Keys| - |pending|
      invariant forall k :: k in recordings && k !in pending ==> RecordingRow(recordings[k]) in children
      invariant forall i :: 0 <= i < |order| ==> order[i] in recordings && children[i] == RecordingRow(recordings[order[i]])
      decreases |pending|
    {
      var k :| k in pending;
      children := children + [RecordingRow(recordings[k])];
      order := order + [k];
      pending := pending - {k};
    }
    forall i | 0 <= i < |children| ensures exists k :: k in recordings && children[i] == RecordingRow(recordings[k]) {
      assert order[i] in recordings;
    }
  }

  /** One group per series that has downloads, headed by its name, in dictionary order. */
  method SeriesGroups(history: seq<Parsers.HistoryRecord>) returns (groups: seq<HistoryBranch>)
    ensures SeriesListed(groups, history)
  {
    var bySeries := GroupBySeries(history);
    groups := Branches(bySeries);
  }

  /** `for series, episodes in by_series.iteritems()`: one group per key, in dictionary order. */
  method Branches(bySeries: map<string, seq<HistoryRow>>) returns (groups: seq<HistoryBranch>)
    ensures forall i, j :: 0 <= i < j < |groups| ==> groups[i].row.name != groups[j].row.name
    ensures forall s :: s in bySeries ==> HistoryBranch(Heading(s), bySeries[s]) in groups
    ensures forall i :: 0 <= i < |groups| ==>
      groups[i].row.name in bySeries && groups[i] == HistoryBranch(Heading(groups[i].row.name), bySeries[groups[i].row.name])
  {
    groups := [];
    var pending := bySeries.Keys;
    while pending != {}
      invariant pending <= bySeries.Keys
      invariant forall i, j :: 0 <= i < j < |groups| ==> groups[i].row.name != groups[j].row.name
      invariant forall s :: s in bySeries && s !in pending ==> HistoryBranch(Heading(s), bySeries[s]) in groups
      invariant forall i :: 0 <= i < |groups| ==>
        && groups[i].row.name in bySeries && groups[i].row.name !in pending
        && groups[i] == HistoryBranch(Heading(groups[i].row.name), bySeries[groups[i].row.name])
      decreases |pending|
    {
      var series :| series in pending;
      groups := groups + [HistoryBranch(Heading(series), bySeries[series])];
      pending := pending - {series};
    }
  }

  /** by_series: each series' downloads, in history order, keyed by the series' name. */
  method GroupBySeries(history: seq<Parsers.HistoryRecord>) returns (bySeries: map<string, seq<HistoryRow>>)
    ensures forall s :: s in bySeries <==> SeriesHistory(history, s) != []
    ensures forall s :: s in bySeries ==> bySeries[s] == SeriesHistory(history, s)
  {
    bySeries := map[];
    for i := 0 to |history|
      invariant forall s :: s in bySeries <==> SeriesHistory(history[..i], s) != []
      invariant forall s :: s in bySeries ==> bySeries[s] == SeriesHistory(history[..i], s)
    {
      assert history[..i + 1][..i] == history[..i];
      var h := history[i];
      var rows := if h.name in bySeries then bySeries[h.name] else [];
      bySeries := bySeries[h.name := rows + [EpisodeRow(h)]];
    }
    assert history[..|history|] == history;
  }
}
