# get-iplayer Totem plugin: a Dafny model of its core

The get-iplayer plugin adds a sidebar to the Totem video player. The sidebar
browses, plays and records BBC iPlayer programmes by running the
`get_iplayer` command-line tool and reading what it prints. This project
models and proves the plugin's core:

- `getiplayer_interface.py`:
  - the text parsers for the tool's output: facet listings, the match count,
    the episode tree, programme information, version lists and the download
    history;
  - how a query becomes the tool's command line (`_parse_args`);
  - how blank facet filters are rewritten (`_fix_blank_search`);
  - the facet and blank-count queries;
  - the table of recordings in progress;
  - `PendingResult`, a result that is computed on demand, kept once the
    producer succeeds, and delivered to queued callbacks.
- `get-iplayer.py`, the decision logic inside the GTK plugin:
  - the columns and display label of a tree row;
  - the filter path of a branch and what expanding a row loads;
  - how a duration is shown;
  - how the recording-mode list is built;
  - how the history pane is grouped;
  - which filters the configuration dialog offers, and the default filter order.

Modules, one file each:

| module | file | contents |
|---|---|---|
| `Results` | `results.dfy` | `Option` and `Result`. These stand in for `None` and for raised exceptions. |
| `Strings` | `strings.dfy` | The Python string operations the source relies on: `strip`, `int`, `str`, `find`, `split`, `join`, `rfind`, `title`. |
| `Parsers` | `parsers.dfy` | `parse_listings`, `parse_match_count`, `parse_versions`, `parse_history`. |
| `Episodes` | `episodes.dfy` | `parse_episodes`. |
| `Info` | `info.dfy` | `parse_info`. |
| `Pending` | `pending.dfy` | The class `PendingResult`. |
| `Facade` | `facade.dfy` | The class `GetIPlayer` and its argument and filter rules. |
| `Plugin` | `plugin.dfy` | The decision logic of `get-iplayer.py`. |

The tool is an oracle. Every operation that runs it takes the text the tool
would print as a parameter and returns the command line it would run, as a
`Query` value.

The regular expressions are modelled line by line. Each one becomes a
recogniser of a single line, and `finditer` becomes `Collect`, which scans the
lines in order. The parsers that loop and fill dictionaries are methods, each
proved equal to a function of the input:
- `ParseEpisodes`, `ReadEpisodes` and `SortGroups`;
- `ParseInfo`, `FileValues` and `CleanAll`;
- `ParseVersions`.

The parsers' promises are lemmas about those functions: round trips, grouping
and stable sorting. `PendingResult` and `GetIPlayer` are classes whose methods
update their fields.

## Model

| member | source | states |
|---|---|---|
| Strings.LStripMeaning | get-iplayer/getiplayer_interface.py:80 | `lstrip` removes exactly the leading whitespace: the rest is a suffix of the input that starts with no whitespace. |
| Strings.RStripMeaning | get-iplayer/getiplayer_interface.py:39 | `rstrip`, the second half of `strip`, removes exactly the trailing whitespace: the rest is a prefix that ends with no whitespace. |
| Strings.ParseShowInt | get-iplayer/getiplayer_interface.py:40 | `int` reads back every integer that `str` prints. |
| Parsers.CollectAppend | get-iplayer/getiplayer_interface.py:36-37 | Scanning is line by line: the entries found in two stretches of output are those of the first, then those of the second. |
| Parsers.CollectLine | get-iplayer/getiplayer_interface.py:36-37 | A line the pattern rejects contributes nothing. A line it accepts contributes its entry, in place. |
| Parsers.CollectEvery | get-iplayer/getiplayer_interface.py:36-37 | When every line matches, the entries are one per line, in line order. |
| Parsers.FirstMatch | get-iplayer/getiplayer_interface.py:47 | `search` finds the first matching line: it matches and no earlier line does. None means that no line matches. |
| Parsers.SplitListingLineSound | get-iplayer/getiplayer_interface.py:29 | A line accepted as a listing entry is exactly its name, " (", its digits and ")". |
| Parsers.SplitListingLineComplete | get-iplayer/getiplayer_interface.py:29 | Every line "<name> (<digits>)" with a non-empty name and digits is accepted, and it splits into that name and those digits. |
| Parsers.ListingLineEntry | get-iplayer/getiplayer_interface.py:35-44 | Any listing line gives the name stripped of surrounding whitespace and the integer value of the digits. This holds with counts (a pair) and without them (the name alone). |
| Parsers.ListingLineParses | get-iplayer/getiplayer_interface.py:38-42 | The line the tool prints for a name and a count reads back as that (name, count). |
| Parsers.ParseListings | get-iplayer/getiplayer_interface.py:35-44 | At most one entry per line of output. What the entries are is stated by the lemmas on the rows above and below. |
| Parsers.ParseListingsRoundTrip | get-iplayer/getiplayer_interface.py:35-44 | Parsing a listing printed for any sequence of (name, count) entries gives those entries back, in order. |
| Parsers.ListingNamesAgree | get-iplayer/getiplayer_interface.py:41-44 | Without counts the listing yields the same names, in the same order, as with counts. |
| Parsers.MatchTotalLine | get-iplayer/getiplayer_interface.py:30 | A total line is one that starts with "INFO: " and ends with " Matching Programmes". |
| Parsers.TotalLineRoundTrip | get-iplayer/getiplayer_interface.py:30 | The total line printed for n reads back as n. |
| Parsers.ParseMatchCount | get-iplayer/getiplayer_interface.py:46-50 | It fails (the source's ValueError) exactly when no line is a total line. Otherwise it gives the number on the first total line. |
| Parsers.ParseVersions | get-iplayer/getiplayer_interface.py:93-98 | The result has no duplicates. A name is in it exactly when it is non-empty and is a comma-separated piece of one of the lists. |
| Parsers.PiecesMeaning | get-iplayer/getiplayer_interface.py:94-96 | The union built by the loop holds exactly the pieces of the lists. |
| Parsers.Listed | get-iplayer/getiplayer_interface.py:98 | `list(set)`: each member of the set exactly once, in some order. |
| Parsers.MatchHistoryLine | get-iplayer/getiplayer_interface.py:33 | A history line is bracketed by "(" and ")". |
| Parsers.HistoryLineRoundTrip | get-iplayer/getiplayer_interface.py:33 | A record printed in the history format reads back as the same six fields, the index as an integer. |
| Parsers.ParseHistory | get-iplayer/getiplayer_interface.py:100-108 | At most one record per line. What the records are is stated by the round-trip and guessing lemmas. |
| Parsers.ParseHistoryRoundTrip | get-iplayer/getiplayer_interface.py:100-108 | Without guessing, a history printed for any records parses back to those records, in order. Every field passes through unchanged. |
| Parsers.GuessOnlyChangesVersion | get-iplayer/getiplayer_interface.py:104-107 | With guessing, the records are the same ones in the same order. Only the version is replaced, by the one guessed from the record's file. |
| Parsers.StripExtension | get-iplayer/getiplayer_interface.py:106 | `splitext(name)[0]` is a prefix of the name. |
| Parsers.GuessVersionOfFileName | get-iplayer/getiplayer_interface.py:105-107 | For a file "<dir>/<stem>_<version>.<ext>", the guessed version is <version>. |
| Parsers.GuessVersionWholeStem | get-iplayer/getiplayer_interface.py:107 | A file stem without "_" is the guessed version as a whole. |
| Episodes.EpisodeLineRoundTrip | get-iplayer/getiplayer_interface.py:31 | The episode line printed for an (index, number, title) matches as that index, number and title. |
| Episodes.BlankNumberIsZero | get-iplayer/getiplayer_interface.py:63 | An episode line with an empty number reads as episode number 0. |
| Episodes.SeriesAfter | get-iplayer/getiplayer_interface.py:56-59 | The series in force is a line already read that is not an episode line. |
| Episodes.ReadLine | get-iplayer/getiplayer_interface.py:56-63 | A non-episode line becomes the series and leaves the groups alone. An episode line is appended to the group of the series in force, and the series stays. |
| Episodes.GroupedIsEpisodesUnder | get-iplayer/getiplayer_interface.py:55-63 | A series is a key exactly when at least one episode line follows it. Its list holds exactly its episode lines, in line order. |
| Episodes.ReadEpisodes | get-iplayer/getiplayer_interface.py:55-63 | The reading loop builds the grouping of the lines read (the reference grouping above). |
| Episodes.InsertKeepsSorted | get-iplayer/getiplayer_interface.py:67 | Inserting into a list sorted by number keeps it sorted and adds exactly that episode. |
| Episodes.InsertIsStable | get-iplayer/getiplayer_interface.py:67 | An inserted episode goes after every earlier episode with the same number. |
| Episodes.SortByNumberIsStableSort | get-iplayer/getiplayer_interface.py:67 | `sorted(key=number)` is a stable sort. The result is sorted by number and is a permutation of the input. For every number, the episodes with that number keep their relative order. |
| Episodes.WithoutNumbers | get-iplayer/getiplayer_interface.py:67 | Each episode becomes its (index, title) pair, in order. |
| Episodes.SortGroups | get-iplayer/getiplayer_interface.py:65-67 | Every group is replaced by its stable sort by number, with the numbers dropped. The keys are the same. |
| Episodes.ParseEpisodes | get-iplayer/getiplayer_interface.py:52-68 | `parse_episodes` computes, by its two loops, the sorted grouping of the input's lines. |
| Episodes.SortedEpisodesMeaning | get-iplayer/getiplayer_interface.py:52-68 | The result has a key exactly for the series that have episodes, including None for episodes before any series line. A series with no episodes is not a key. Each key holds that series' episodes, stably sorted by number, as (index, title). |
| Info.ValueIsSuffix | get-iplayer/getiplayer_interface.py:32 | A value read after a colon is non-empty and ends the line, and at least one whitespace character separates it from the colon. |
| Info.InfoLineFrom | get-iplayer/getiplayer_interface.py:32 | The lazy name is the shortest prefix that a colon, whitespace and a value can follow. No shorter name works, and None means that no name works. |
| Info.InfoLineRoundTrip | get-iplayer/getiplayer_interface.py:32 | A line "<name>:<spaces><value>" whose name has no colon reads back as that name and value. |
| Info.TagVersion | get-iplayer/getiplayer_interface.py:76-80 | The version loop over one value computes the reference tagging of that value. |
| Info.TagNoVersion | get-iplayer/getiplayer_interface.py:76-80 | A value that starts with no "<v>:" for a known v is kept whole, under the version "". |
| Info.TagOneVersion | get-iplayer/getiplayer_interface.py:77-80 | A value "<v>:<rest>" for a known v is stored under v. The value loses the prefix and the whitespace after it. |
| Info.Fields | get-iplayer/getiplayer_interface.py:74-80 | One field per information line, in order, each with its name and its tagged version and value. |
| Info.AccumulateKeepsLast | get-iplayer/getiplayer_interface.py:81-83 | A name is a key exactly when some line has it, and a version is a key under it exactly when some line has both. A repeated name and version keeps the last line's value. |
| Info.Clean | get-iplayer/getiplayer_interface.py:87-90 | A field becomes its plain value exactly when its only version is "". Otherwise it keeps its versions. |
| Info.BlocksIffBlankLine | get-iplayer/getiplayer_interface.py:71 | The output splits into at least two blocks exactly when it contains "\n\n" (an empty line after another line). An empty first line or a line of spaces does not count. |
| Info.FileValues | get-iplayer/getiplayer_interface.py:74-83 | The filing loop builds the reference dictionary of the fields, with later lines winning. |
| Info.CleanAll | get-iplayer/getiplayer_interface.py:85-90 | Every field is cleaned, and the names are the same. |
| Info.ParseInfo | get-iplayer/getiplayer_interface.py:70-91 | `parse_info` computes the reference result. It fails (the source's IndexError) exactly when the output does not contain "\n\n", and so has fewer than two blocks. |
| Info.InfoFieldMeaning | get-iplayer/getiplayer_interface.py:74-90 | A field is plain exactly when none of its lines carried a version. A version is present exactly when a line with that name carried it. |
| Pending.Deliveries | get-iplayer/getiplayer_interface.py:140-141 | The waiter's calls are one per queued callback, in queue order, each with the same result. |
| Pending.PendingResult.constructor | get-iplayer/getiplayer_interface.py:111-118 | A new result holds no value, an empty queue and no calls. The invariant holds. |
| Pending.PendingResult.HasResult | get-iplayer/getiplayer_interface.py:120-121 | `has_result` is the probe. Once the value is obtained it is true. |
| Pending.PendingResult.GetResult | get-iplayer/getiplayer_interface.py:123-130 | Every call returns the producer's outcome. A success is kept: the producer does not run again, and the probe answers true. A raise keeps nothing, so the next call runs the producer again. The invariant counts one run in all for a succeeding producer and one run per call for a raising one. |
| Pending.PendingResult.OnComplete | get-iplayer/getiplayer_interface.py:132-143 | The callback is appended to the queue. A waiter is started exactly when the queue was empty, so a queue left stuck by a dead waiter stays stuck. |
| Pending.PendingResult.RunWaiter | get-iplayer/getiplayer_interface.py:137-142 | On success the waiter calls every queued callback with the one result, in registration order, then empties the queue. When the producer raises, the waiter dies: no callback is called, and the queue stays full with no waiter, so it is stuck. |
| Pending.ProducerRunsMeaning | get-iplayer/getiplayer_interface.py:123-130 | A succeeding producer runs at most once. A raising one runs once more on every call. |
| Pending.PendingResult.Translate | get-iplayer/getiplayer_interface.py:145-146 | A fresh pending result with the same probe. Its outcome is the translation applied to this one's value, and this one's exception when the producer raises. |
| Pending.PendingResult.Then | get-iplayer/getiplayer_interface.py:148-154 | A fresh pending result that is ready when this one and the continuation's result are both ready. Its outcome is the continuation's outcome, or the first exception raised on the way. |
| Facade.Merge | get-iplayer/getiplayer_interface.py:171 | `dict(stock, **kwargs)` has the keys of both. A call's value overrides the stock value. |
| Facade.FlagRoundTrip | get-iplayer/getiplayer_interface.py:172-174 | An option reads back as its key and value: "-k", "-k v", "--key" or "--key=v", a bare switch for an empty value. So distinct keys give distinct options. |
| Facade.OptionFlags | get-iplayer/getiplayer_interface.py:171-175 | As many options as keys, every key's option among them, and each option rendered from some key and its value. |
| Facade.GetIPlayer.constructor | get-iplayer/getiplayer_interface.py:157-164 | The location is the only stock argument. "flvstreamer" and "ffmpeg" are stock options exactly when given, and there are no recordings. |
| Facade.GetIPlayer.ParseArgs | get-iplayer/getiplayer_interface.py:168-176 | The command line is the location and the positional arguments in order, then as many options as merged keys, every merged key's option (the call's value winning) among them, and nothing else. |
| Facade.FixBlankSearch | get-iplayer/getiplayer_interface.py:198-205 | The rewriting computes the reference blank fix. |
| Facade.BlankFixedMeaning | get-iplayer/getiplayer_interface.py:198-205 | A blank channel becomes ".*" and "exclude-channel" becomes ".+", and the same for category. A non-blank channel or category is left alone, and so is every other key. |
| Facade.SearchArgs | get-iplayer/getiplayer_interface.py:224 | A search term is passed exactly when it is given and not empty. |
| Facade.ListingNames | get-iplayer/getiplayer_interface.py:225 | The names of the listing entries, in order. |
| Facade.GetIPlayer.GetFilters | get-iplayer/getiplayer_interface.py:218-229 | The query lists the facet, renaming "category" to "categories" and "version" to "versions", with the blank-fixed filters. The names are those of the listing, or for versions the distinct versions named in it. |
| Facade.GetIPlayer.CountMissingAttrib | get-iplayer/getiplayer_interface.py:231-238 | For "type" and "version" the count is 0 and no query is made. Otherwise the query excludes every non-blank value of the attribute, and the count is the output's match count. |
| Facade.GetIPlayer.GetFiltersAndBlanks | get-iplayer/getiplayer_interface.py:208-216 | The facet names, preceded by "" exactly when some programmes have the facet blank. An unreadable count fails the result. |
| Facade.GetIPlayer.RecordProgramme | get-iplayer/getiplayer_interface.py:255-259 | The recording is noted under its index, named "Programme <index>" by default. The download query names the index, the output directory, the version and the mode. |
| Facade.GetIPlayer.RecordingFinished | get-iplayer/getiplayer_interface.py:260 | The finished recording is removed from the table, and nothing else changes. |
| Plugin.TreeValues.Len | get-iplayer/get-iplayer.py:62-63 | A row has as many columns as its items: five. |
| Plugin.TreeValues.GetItem | get-iplayer/get-iplayer.py:65-66 | Indexing gives the column at that position, with negative indices counting from the end. Any other index is an IndexError. |
| Plugin.NewTreeValues | get-iplayer/get-iplayer.py:49-54 | The display is the title when it is non-empty. Otherwise it is "(No <Info type>)", title-cased, with "Name" when there is no info type. The other columns are as given. |
| Plugin.BlankRowLabel | get-iplayer/get-iplayer.py:51 | An untitled row of a lower-case facet is labelled with the facet's name, capitalised. |
| Plugin.ColumnsNamed | get-iplayer/get-iplayer.py:31-35 | The IDX_ constants select the fields they are named after. |
| Plugin.FilterAtBranch | get-iplayer/get-iplayer.py:221-226 | Walking up the parents and reversing gives the titles from the root down to the branch. That is one title per level of the branch's depth. |
| Plugin.DictFrom | get-iplayer/get-iplayer.py:230 | `dict(zip(...))` has the keys paired with a value. |
| Plugin.DictFromLastWins | get-iplayer/get-iplayer.py:230 | A key that is not repeated later keeps the value it is paired with. |
| Plugin.ZipDistinct | get-iplayer/get-iplayer.py:230 | With distinct filter names, the i-th filter maps to the i-th title. The dictionary holds only as many filters as there are titles. |
| Plugin.PopulateDepth | get-iplayer/get-iplayer.py:234 | The depth populated below a branch is the length of its path: 0 at the root. |
| Plugin.FilterLevel | get-iplayer/get-iplayer.py:235-238 | A ValueError exactly when the depth is past the configured filters. Otherwise the filter at that depth. |
| Plugin.ExpandKind | get-iplayer/get-iplayer.py:149-156 | Expanding a row at depth d loads filter d + 1 while there is one. At the last filter level it loads series and episodes, and below that nothing. In each case it uses the filters the row's path has chosen. |
| Plugin.ExpandFilters | get-iplayer/get-iplayer.py:228-230 | A row at depth d has chosen filters 0..d, each set to the title at that depth of its path, and not the next filter. |
| Plugin.FacetRows | get-iplayer/get-iplayer.py:243-244 | One row per facet value, in order, labelled by the facet when blank. |
| Plugin.SeriesRows | get-iplayer/get-iplayer.py:252-256 | A series row over one row per episode, each carrying the programme's index and title. |
| Plugin.Unconfigured | get-iplayer/get-iplayer.py:525-527 | A filter is offered as available exactly when it is a standard filter that is not configured. |
| Plugin.UnconfiguredDistinct | get-iplayer/get-iplayer.py:525-527 | The available list has no repeats. |
| Plugin.ConfigureLists | get-iplayer/get-iplayer.py:520-529 | The available list is the unconfigured standard filters in standard order. The used list is the configured order. |
| Plugin.ConfigurePartition | get-iplayer/get-iplayer.py:525-529 | Every standard filter is in exactly one of the two lists, and the available list holds nothing else. |
| Plugin.ConfigFilterOrder | get-iplayer/get-iplayer.py:647-650 | The stored order, or the default order when nothing is stored. It is never empty. |
| Plugin.DurationShown | get-iplayer/get-iplayer.py:315-332 | Recording is offered exactly when the duration is understood. A duration that is not understood is shown unchanged. |
| Plugin.FormatDuration | get-iplayer/get-iplayer.py:317-332 | The step-by-step formatting gives the shown text and flag of the reference reading. |
| Plugin.FormatClock | get-iplayer/get-iplayer.py:323-332 | "m:s" gives m minutes, plus 1 when s is at least 30. Anything else is left unchanged and is not understood. |
| Plugin.InfoDuration | get-iplayer/get-iplayer.py:315-332 | A missing duration shows as "Unknown", and recording is not offered. A plain value is formatted. A value per version is the TypeError of `int()`. |
| Plugin.UnknownNotUnderstood | get-iplayer/get-iplayer.py:315 | The placeholder "Unknown" is not understood as a duration. |
| Plugin.DurationOfSeconds | get-iplayer/get-iplayer.py:318-319 | A whole number of seconds shows as the whole minutes it contains, rounded down. |
| Plugin.DurationOfClock | get-iplayer/get-iplayer.py:324-329 | "m:s" shows as the nearest whole minute, half a minute rounding up. |
| Plugin.ClockReading | get-iplayer/get-iplayer.py:324-328 | Two whole numbers around one colon read as minutes rounded by the seconds. |
| Plugin.VersionValue | get-iplayer/get-iplayer.py:197 | `info.get(key, {}).get(version, "")` gives "" when the field or the version is missing. It is an AttributeError exactly when the field does not differ by version. |
| Plugin.ModeEntries | get-iplayer/get-iplayer.py:196-203 | The version's "modesizes" entries are used when there are any, otherwise its "modes". The entries fail exactly when a lookup fails. |
| Plugin.Unpack | get-iplayer/get-iplayer.py:205 | An entry unpacks into a mode and a size exactly when it is a bare mode or splits into two parts. |
| Plugin.ModeRow | get-iplayer/get-iplayer.py:206 | A mode is shown alone, or as "mode (size)" when it has a size. |
| Plugin.ModeRows | get-iplayer/get-iplayer.py:205-207 | One row per entry, in order, up to the first entry that does not unpack. That entry's ValueError ends the list. |
| Plugin.VersionSelected | get-iplayer/get-iplayer.py:188-208 | The loop appends the reference mode rows. The first row is selected exactly when no entry failed. |
| Plugin.ModeListBestFirst | get-iplayer/get-iplayer.py:204 | "best" always heads the mode list. |
| Plugin.ModeListOfSizes | get-iplayer/get-iplayer.py:196-207 | For "m1=s1,m2=s2,...", the rows are "best", then "mi (si)" in order, with no error. |
| Plugin.RecordingRow | get-iplayer/get-iplayer.py:268 | A recording in progress shows as "<name> (Recording...)", with no index and no file. |
| Plugin.SeriesHistoryAppend | get-iplayer/get-iplayer.py:269-271 | Grouping keeps history order: the rows of a longer history extend those of the shorter one. |
| Plugin.SeriesHistoryNonEmpty | get-iplayer/get-iplayer.py:269-272 | A series has a group exactly when some download belongs to it. |
| Plugin.GroupBySeries | get-iplayer/get-iplayer.py:269-271 | The loop keys exactly the series that have downloads. Each key holds those downloads in history order. |
| Plugin.Branches | get-iplayer/get-iplayer.py:272-275 | Headings are distinct; every key's group is present; each group is its heading's key over that key's rows. |
| Plugin.SeriesGroups | get-iplayer/get-iplayer.py:269-275 | Every series with downloads is listed once, headed by its name over its downloads in history order. |
| Plugin.RecordingRows | get-iplayer/get-iplayer.py:265-268 | As many rows as recordings, every recording's row among them, and each row some recording's. |
| Plugin.PopulateHistory | get-iplayer/get-iplayer.py:261-277 | The "Currently Recording" group comes first exactly when recordings are in progress, with one row per recording. Then come the series groups. The pane is shown exactly when something was added. |

## Left out

- Running the tool is not modelled. This covers `__call`, `_call_stream`, the `Popen` and `communicate` in `_call`, `stream_programme_to_pipe` with its `os.pipe`, and `which`. Each query instead returns the command line as a `Query` and takes the tool's output as a parameter.
- `get_episodes`, `get_programme_info`, `get_history` and `stream_programme_to_external` are not separate members. Each is a tool call followed by a parser (`ParseEpisodes`, `ParseInfo`, `ParseHistory`) or by nothing, so the parsers carry their content. Their command-line options are not modelled.
- Facade.GetIPlayer.GetFilters: the `PendingResult` plumbing is collapsed. `get_filters`, `count_missing_attrib` and `get_filters_and_blanks` compute from the output directly instead of chaining `translate`.
- Facade.GetIPlayer.CountMissingAttrib: as above, the pending result is not modelled.
- Facade.GetIPlayer.GetFiltersAndBlanks: as above, the pending result is not modelled.
- Facade.GetIPlayer.constructor: it does not start the initial version query (`_version_result`). It takes the output location as already made absolute, because `abspath` and `expanduser` depend on the file system and the environment.
- Threads and the two locks of `PendingResult` are not modelled. The waiter thread is the method `RunWaiter`, called when the thread would run.
- The readiness probe is a function value. In the source it is `proc.poll() is not None`.
- Pending.PendingResult.Translate: the new result's producer calls this result's producer directly. In the source it calls this object's `get_result`, so the model does not share the memo between the two objects.
- Pending.PendingResult.Then: as for Translate, the chained producers do not share memos with the objects they came from. A readiness probe that would raise, because the producer or the continuation raises, is read as not ready.
- Pending.PendingResult.GetResult: the producer is a function of nothing. A producer that raises therefore raises again on every rerun; one whose outcome changes between runs is not modelled.
- Facade.GetIPlayer.RecordProgramme: the defaults `version="default"` and `mode="best"` are the constants DefaultVersion and DefaultMode. Callers pass them explicitly. The keyword defaults of the filter queries (`search`, `type`, `channel`, `category`, `version`) are likewise `None` for the search and AnyFilters for the rest.
- Callbacks are identified by numbers, and calling one is recorded in a list. What a callback does is not modelled.
- Parsers.ParseListings: its own contract only bounds the number of entries. What the entries are is stated by ListingLineEntry, CollectLine, ParseListingsRoundTrip and ListingNamesAgree.
- Parsers.ParseHistory: its own contract only bounds the number of records. What the records are is stated by ParseHistoryRoundTrip, GuessOnlyChangesVersion and the guessing lemmas.
- Parsers.MatchHistoryLine: a history line is split at every "):(" into exactly six fields. The regular expression backtracks, so it can also accept a line whose name, episode or file itself contains "):(". Such lines are rejected by the model.
- Info.InfoLineFrom: the information pattern is applied to one line at a time. In the source, `\s+` may run across a line break.
- Regular expressions are modelled line by line, and text is split into lines at '\n' only. `splitlines` also breaks at '\r' and other separators.
- `strip`, `title` and the digit tests use ASCII characters only.
- Parsers.ParseVersions: the order of `list(set)` is left open (any order, without repeats).
- Facade.OptionFlags: the order of dictionary iteration is left open, so the options are stated by count and membership, not by position.
- Facade.GetIPlayer.ParseArgs: as for OptionFlags, the options after the positional arguments are stated by count and membership, not by position.
- Plugin.PopulateHistory: the order of the recordings (`values()`) and of the series (`iteritems()`) is left open. Recordings are stated by count and membership; series groups by distinct headings and membership.
- `os.path.basename` and `os.path.splitext` are modelled as splits at the last '/' and the last '.'. `splitext` keeps leading dots.
- GTK, gobject, totem and gconf are not modelled:
  - widgets, signal connection and `idle_add`;
  - `load_branch` and its early return for a branch already loaded;
  - drag and drop;
  - showing and hiding panes;
  - the gconf getters and setters.
- Only the stored list and the default of `config_filter_order` are modelled.
- These plugin callbacks are not modelled: `_row_selection_changed_cb`, `_record_clicked_cb`, `_play_clicked_cb`, `_history_activated_cb`, `_load_info` apart from the duration, and `got_info`'s name, episode, description and version-list widgets. They pass values between widgets and the facade and decide nothing beyond that.
- Images are not modelled. `load_image_in_background` needs the network and `ensure_image_small` uses floating point.
- Features sometimes described for this system have no code in it: a limit on concurrent tool processes, grouping of modes into families, classification of the tool's error lines, and combinators that gather several pending results. The model follows the code, so they are not modelled.
