/**
 * The GetIPlayer facade of getiplayer_interface.py: how a query becomes the
 * command line of the catalogue tool, how blank facet filters are rewritten,
 * how the facet and blank-count queries are put together, and the table of
 * recordings in progress.  The tool itself is an oracle: each query takes the
 * text the tool would print as a parameter.
 */
module Facade {
  import opened Results
  import opened Strings
  import Parsers

  // --------------------------------------------------------------- arguments

  /** dict(stock, **overrides): every key of either, the override winning. */
  function Merge(stock: map<string, string>, overrides: map<string, string>): (merged: map<string, string>)
    ensures merged.Keys == stock.Keys + overrides.Keys
    ensures forall k :: k in overrides ==> merged[k] == overrides[k]
    ensures forall k :: k in stock && k !in overrides ==> merged[k] == stock[k]
  {
    map k | k in stock.Keys + overrides.Keys :: if k in overrides then overrides[k] else stock[k]
  }

  /**
   * One option of the command line: "-k" or "--key", followed by " value"
   * (one-letter key) or "=value" (longer key) when the value is not empty.
   * A one-letter key and its value stay one argument, as in the source.
   */
  function Flag(key: string, value: string): string
  {
    var short := |key| == 1;
    (if short then "-" + key else "--" + key) + (if value != "" then (if short then " " else "=") + value else "")
  }

  /** The keys the tool is given: no "=" in them, and no one-letter key "-". */
  predicate FlagKey(key: string)
  {
    '=' !in key && key != "-"
  }

  /** Reading an option back into its key and value. */
  function ReadFlag(arg: string): Option<(string, string)>
  {
    if StartsWith(arg, "--") then
      var rest := arg[2..];
      match Find(rest, "=")
      case None => Some((rest, ""))
      case Some(j) => Some((rest[..j], rest[j + 1..]))
    else if StartsWith(arg, "-") && |arg| >= 2 then
      if |arg| == 2 then Some((arg[1..2], ""))
      else if arg[2] == ' ' then Some((arg[1..2], arg[3..]))
      else None
    else None
  }

  /** Every option reads back as the key and value it was rendered from, so each key gives its own option. */
  lemma FlagRoundTrip(key: string, value: string)
    requires FlagKey(key)
    ensures ReadFlag(Flag(key, value)) == Some((key, value))
  {
    var arg := Flag(key, value);
    if |key| == 1 {
      assert key[0] != '-' by { assert key == [key[0]]; }
      assert !StartsWith(arg, "--") by { assert arg[1] == key[0]; }
      assert StartsWith(arg, "-");
      if value != "" {
        assert arg[1..2] == key && arg[3..] == value;
      } else {
        assert arg[1..2] == key;
      }
    } else {
      assert StartsWith(arg, "--");
      var rest := arg[2..];
      if value == "" {
        assert rest == key;
        LacksChar(key, '=');
      } else {
        assert rest == key + "=" + value;
        LacksChar(key, '=');
        FindAfterKey(key, value);
        assert rest[..|key|] == key && rest[|key| + 1..] == value;
      }
    }
  }

  /** The first "=" of "key=value" is the one after the key. */
  lemma FindAfterKey(key: string, value: string)
    requires '=' !in key
    ensures Find(key + "=" + value, "=") == Some(|key|)
  {
    var s := key + "=" + value;
    assert OccursAt(s, "=", |key|) by { assert s[|key|..|key| + 1] == "="; }
    forall j: nat | j < |key| ensures !OccursAt(s, "=", j) {
      assert s[j..j + 1] == [key[j]];
    }
  }

  /** The positional arguments and options of a query: str() already applied to the positionals. */
  datatype Query = Query(positional: seq<string>, options: map<string, string>)

  // ---------------------------------------------------------------- blanks

  /**
   * _fix_blank_search: a blank channel becomes ".*" with "exclude-channel"
   * set to ".+", and the same for category; nothing else changes.
   */
  method FixBlankSearch(kwargs: map<string, string>) returns (fixed: map<string, string>)
    ensures fixed == BlankFixed(kwargs)
  {
    fixed := kwargs;
    if "channel" in fixed && fixed["channel"] == "" {
      fixed := fixed["exclude-channel" := ".+"];
      fixed := fixed["channel" := ".*"];
    }
    if "category" in fixed && fixed["category"] == "" {
      fixed := fixed["exclude-category" := ".+"];
      fixed := fixed["category" := ".*"];
    }
  }

  const BlankKeys: set<string> := {"channel", "exclude-channel", "category", "exclude-category"}

  /** A blank facet filter rewritten to match anything, with every non-blank value excluded. */
  function FixBlank(kwargs: map<string, string>, facet: string, exclude: string): map<string, string>
  {
    if facet in kwargs && kwargs[facet] == "" then kwargs[exclude := ".+"][facet := ".*"]
    else kwargs
  }

  /** The options after _fix_blank_search: the channel rule, then the category rule. */
  function BlankFixed(kwargs: map<string, string>): map<string, string>
  {
    FixBlank(FixBlank(kwargs, "channel", "exclude-channel"), "category", "exclude-category")
  }

  /**
   * A blank channel becomes ".*" with "exclude-channel" set to ".+", the same
   * for category, and every other key, and a channel or category that is not
   * blank, is left as it was.
   */
  lemma BlankFixedMeaning(kwargs: map<string, string>)
    ensures var fixed := BlankFixed(kwargs);
      ("channel" in kwargs && kwargs["channel"] == "" ==>
        fixed["channel"] == ".*" && fixed["exclude-channel"] == ".+")
      && ("category" in kwargs && kwargs["category"] == "" ==>
        fixed["category"] == ".*" && fixed["exclude-category"] == ".+")
      && (!("channel" in kwargs && kwargs["channel"] == "") ==>
        Unchanged(kwargs, fixed, "channel") && Unchanged(kwargs, fixed, "exclude-channel"))
      && (!("category" in kwargs && kwargs["category"] == "") ==>
        Unchanged(kwargs, fixed, "category") && Unchanged(kwargs, fixed, "exclude-category"))
      && (forall k :: k !in BlankKeys ==> Unchanged(kwargs, fixed, k))
      && fixed.Keys <= kwargs.Keys + BlankKeys
  {
  }

  /** The key has the same presence and value in both dictionaries. */
  predicate Unchanged(before: map<string, string>, after: map<string, string>, k: string)
  {
    (k in before <==> k in after) && (k in before ==> before[k] == after[k])
  }

  /** The facet names the tool's --list option expects: "category" and "version" are plural there. */
  function ListName(filterType: string): string
  {
    if filterType == "category" then "categories"
    else if filterType == "version" then "versions"
    else filterType
  }

  /** The positional search term, present only when it is given and not empty. */
  function SearchArgs(search: Option<string>): (r: seq<string>)
    ensures r == [] <==> search.None? || search.value == ""
  {
    if search.Some? && search.value != "" then [search.value] else []
  }

  /** The facet filters of a query: type, channel, category and version. */
  datatype Filters = Filters(kind: string, channel: string, category: string, version: string)

  /**
   * The stock filters, the defaults of the source's keyword arguments type,
   * channel, category and version: every type, and any channel, category
   * and version.  A caller passes them explicitly.
   */
  const AnyFilters := Filters("all", ".*", ".*", ".*")

  /** record_programme's default version and mode. */
  const DefaultVersion := "default"
  const DefaultMode := "best"

  function FilterOptions(f: Filters): map<string, string>
  {
    map["type" := f.kind, "channel" := f.channel, "category" := f.category, "version" := f.version]
  }

  /** The plain names of a listing read without counts. */
  function ListingNames(listings: seq<Parsers.Listing>): (names: seq<string>)
    ensures |names| == |listings|
    ensures forall i :: 0 <= i < |listings| ==> names[i] == listings[i].name
  {
    seq(|listings|, i requires 0 <= i < |listings| => listings[i].name)
  }

  /** A recording in progress: its display name, version and mode. */
  datatype Recording = Recording(displayName: string, version: string, mode: string)

  /**
   * One option per key, in some order: as many options as keys, each key's
   * option among them, and each of them some key's option.
   */
  ghost predicate Rendered(flags: seq<string>, options: map<string, string>)
  {
    && |flags| == |options|
    && (forall k :: k in options ==> Flag(k, options[k]) in flags)
    && (forall i :: 0 <= i < |flags| ==> exists k :: k in options && flags[i] == Flag(k, options[k]))
  }

  /** One flag per option, each key once, in the dictionary's order. */
  method OptionFlags(options: map<string, string>) returns (flags: seq<string>)
    ensures Rendered(flags, options)
  {
    var pending := options.Keys;
    flags := [];
    ghost var order: seq<string> := [];
    while pending != {}
      invariant pending <= options.Keys
      invariant |flags| == |order| == |options.Keys| - |pending|
      invariant forall k :: k in options && k !in pending ==> Flag(k, options[k]) in flags
      invariant forall i :: 0 <= i < |order| ==> order[i] in options && flags[i] == Flag(order[i], options[order[i]])
      decreases pending
    {
      var k :| k in pending;
      flags := flags + [Flag(k, options[k])];
      order := order + [k];
      pending := pending - {k};
    }
    forall i | 0 <= i < |flags| ensures exists k :: k in options && flags[i] == Flag(k, options[k]) {
      assert order[i] in options;
    }
  }

  class GetIPlayer {
    /** The tool's location, the first argument of every command line. */
    var stockVargs: seq<string>
    /** Options given on every command line: the streamer and ffmpeg locations, when configured. */
    var stockKwargs: map<string, string>
    /** Recordings in progress, by programme index. */
    var recordings: map<nat, Recording>
    var outputLocation: string

    constructor (location: string, flvstreamer: Option<string>, ffmpeg: Option<string>, outputLocation: string)
      ensures stockVargs == [location]
      ensures "flvstreamer" in stockKwargs <==> flvstreamer.Some?
      ensures flvstreamer.Some? ==> stockKwargs["flvstreamer"] == flvstreamer.value
      ensures "ffmpeg" in stockKwargs <==> ffmpeg.Some?
      ensures ffmpeg.Some? ==> stockKwargs["ffmpeg"] == ffmpeg.value
      ensures stockKwargs.Keys <= {"flvstreamer", "ffmpeg"}
      ensures recordings == map[] && this.outputLocation == outputLocation
    {
      stockVargs := [location];
      var kw: map<string, string> := map[];
      if flvstreamer.Some? {
        kw := kw["flvstreamer" := flvstreamer.value];
      }
      if ffmpeg.Some? {
        kw := kw["ffmpeg" := ffmpeg.value];
      }
      stockKwargs := kw;
      recordings := map[];
      this.outputLocation := outputLocation;
    }

    /**
     * _parse_args: the stock arguments, the positional arguments in order,
     * then one option per key of the stock options merged with the call's
     * options (the call's value winning), in the dictionary's order.
     */
    method ParseArgs(query: Query) returns (args: seq<string>)
      ensures var base := |stockVargs| + |query.positional|;
        && |args| >= base
        && args[..base] == stockVargs + query.positional
        && Rendered(args[base..], Merge(stockKwargs, query.options))
    {
      var merged := Merge(stockKwargs, query.options);
      var flags := OptionFlags(merged);
      args := stockVargs + query.positional + flags;
      assert args[..|stockVargs| + |query.positional|] == stockVargs + query.positional;
      assert args[|stockVargs| + |query.positional|..] == flags;
    }

    /**
     * get_filters: list a facet ("category" and "version" under their plural
     * names) with the blank-fixed filters, and read the names of the listing
     * the tool prints; the version facet is further split into the distinct
     * versions.
     */
    method GetFilters(filterType: string, search: Option<string>, filters: Filters, output: string)
      returns (query: Query, names: seq<string>)
      ensures query == Query(SearchArgs(search), BlankFixed(FilterOptions(filters))["list" := ListName(filterType)])
      ensures FacetNames(filterType, output, names)
    {
      var listName := ListName(filterType);
      var fixed := FixBlankSearch(FilterOptions(filters));
      query := Query(SearchArgs(search), fixed["list" := listName]);
      var available := ListingNames(Parsers.ParseListings(output, false));
      if listName == "versions" {
        names := Parsers.ParseVersions(available);
      } else {
        names := available;
      }
    }

    /**
     * count_missing_attrib: how many programmes fit the other filters but
     * have the attribute blank.  For type and version the tool has no
     * exclusion, so the count is 0 and no query is made; otherwise the query
     * excludes every non-blank value and the total is read from the output.
     */
    method CountMissingAttrib(blankAttrib: string, search: Option<string>, filters: Filters, output: string)
      returns (query: Option<Query>, count: Result<nat>)
      ensures blankAttrib == "type" || blankAttrib == "version" ==> query.None? && count == Success(0)
      ensures blankAttrib != "type" && blankAttrib != "version" ==>
        query == Some(Query(SearchArgs(search),
          map["type" := filters.kind, "channel" := filters.channel, "category" := filters.category,
              "exclude-" + blankAttrib := ".+"]))
        && count == Parsers.ParseMatchCount(output)
    {
      if blankAttrib == "type" || blankAttrib == "version" {
        return None, Success(0);
      }
      var options := map["type" := filters.kind, "channel" := filters.channel, "category" := filters.category];
      query := Some(Query(SearchArgs(search), options["exclude-" + blankAttrib := ".+"]));
      count := Parsers.ParseMatchCount(output);
    }

    /**
     * get_filters_and_blanks: the facet's names, preceded by "" when some
     * programmes have the facet blank; an unreadable count fails the whole
     * result, as the source's ValueError does.
     */
    method GetFiltersAndBlanks(filterType: string, search: Option<string>, filters: Filters,
                               listingOutput: string, countOutput: string)
      returns (r: Result<seq<string>>)
      ensures r.Failure? <==> CountOf(filterType, countOutput).Failure?
      ensures r.Success? && CountOf(filterType, countOutput).value > 0 ==>
        |r.value| >= 1 && r.value[0] == "" && FacetNames(filterType, listingOutput, r.value[1..])
      ensures r.Success? && CountOf(filterType, countOutput).value == 0 ==>
        FacetNames(filterType, listingOutput, r.value)
    {
      var _, names := GetFilters(filterType, search, filters, listingOutput);
      var _, missing := CountMissingAttrib(filterType, search, filters, countOutput);
      if missing.Failure? {
        return Failure(missing.message);
      }
      r := Success(if missing.value > 0 then [""] + names else names);
    }

    /**
     * record_programme: note the recording (named "Programme <index>" when
     * no display name is given) and build the download command line.  The
     * source's defaults for version and mode are DefaultVersion and
     * DefaultMode, which a caller passes explicitly here.
     */
    method RecordProgramme(index: nat, displayName: Option<string>, version: string, mode: string)
      returns (query: Query)
      modifies this
      ensures recordings == old(recordings)[index := Recording(
        if displayName.Some? then displayName.value else "Programme " + ShowNat(index), version, mode)]
      ensures query == Query([ShowNat(index)],
        map["output" := outputLocation, "get" := "", "q" := "", "versions" := version, "modes" := mode])
      ensures stockVargs == old(stockVargs) && stockKwargs == old(stockKwargs) && outputLocation == old(outputLocation)
    {
      var name := if displayName.Some? then displayName.value else "Programme " + ShowNat(index);
      recordings := recordings[index := Recording(name, version, mode)];
      query := Query([ShowNat(index)],
        map["output" := outputLocation, "get" := "", "q" := "", "versions" := version, "modes" := mode]);
    }

    /** The callback of a finished recording: drop it from the table, if it is still there. */
    method RecordingFinished(index: nat)
      modifies this
      ensures recordings == old(recordings) - {index}
      ensures stockVargs == old(stockVargs) && stockKwargs == old(stockKwargs) && outputLocation == old(outputLocation)
    {
      recordings := recordings - {index};
    }
  }

  /**
   * The names get_filters gives for a facet: the names of the listing, or,
   * for the version facet, the distinct non-empty versions named in it.
   */
  ghost predicate FacetNames(filterType: string, output: string, names: seq<string>)
  {
    var listings := Parsers.ParseListings(output, false);
    if ListName(filterType) != "versions" then names == ListingNames(listings)
    else
      (forall i, j :: 0 <= i < j < |names| ==> names[i] != names[j])
      && forall v :: v in names <==>
           (v != "" && exists i :: 0 <= i < |listings| && v in SplitOn(listings[i].name, ","))
  }

  /** The blank count get_filters_and_blanks waits for. */
  function CountOf(filterType: string, countOutput: string): Result<nat>
  {
    if filterType == "type" || filterType == "version" then Success(0) else Parsers.ParseMatchCount(countOutput)
  }
}
