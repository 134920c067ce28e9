# FlexGet plugins: a Dafny model

This project models a group of FlexGet plugins and the command-line
post-processing they depend on. It proves properties about each of them.

FlexGet runs *tasks* (called *feeds* in older modules). A task gathers
*entries* (maps of fields such as `title` and `url`) and passes them through
plugin *phase handlers*. A handler accepts, rejects or fails entries, or
changes their fields. The model covers:

- **`if`**: configuration items pair a Python condition with an action. At
  process start the items are sorted into the phases their actions run in.
  At each phase, the entries that are still in the task and pass the
  condition are selected. They either receive `accept`, `reject` or `fail`,
  or are handed to other plugins' handlers through a derived task that holds
  the same entry objects. The ban on `__`, `try:` and `lambda` in
  conditions, and the key validator, are modelled too.
- **`make_rss`**: at feed exit, one database record is stored per accepted
  entry. At process end, the records of the output file are read newest
  first and kept within the item and age limits. The others are deleted, and
  written files are remembered.
- **`rlslog`** input: it reads the entry blocks of an rlslog.net page, keeps
  the ones with a resolvable link, and parses the IMDb score and vote count
  with the module's regular expressions. A malformed block (a heading
  without its link text, a link without `href`, an IMDb link at the end of
  the page) raises, and the exception ends the whole input.
- **`pogcal_acquired`**: it marks accepted episodes as watched on the
  pogdesign calendar. Show ids are cached per lower-cased show name, and the
  search pattern comes from `show_re`.
- **`rottentomatoes_list`** input: it makes one entry per movie of the
  configured lists, skipping titles it has already seen.
- **`torrent_cache`**: it adds torrent cache mirror URLs, built from the
  `btih:` info-hash, to accepted entries. URLs already listed are not added
  again.
- **`disable_builtins`**: it clears the `builtin` flag of plugins at feed
  start and restores it at feed exit.
- **options**: the conflict checks between `--test`, `--learn` and
  `--reset`, the `learn` flag implied by `--reset` or `--migrate`, and the
  `--debug` callbacks.

The engine these plugins call is modelled only as far as they use it:
entries, tasks, the session tables and the plugin registry (`engine.dfy`).
It lives in flexget/task.py, flexget/plugin.py and flexget/entry.py, which
are not part of this model. Python's dynamic values are the `Value`
datatype, and truthiness is `Truthy`.

Each plugin's loops are methods over classes (`Entry`, `Task`, `Session`,
`Registry`, `FeedConfig` and the plugin classes themselves). Each method is
proved against a specification function, and the properties are proved as
lemmas about those functions.

## Model

| member | source | states |
|---|---|---|
| IfCondition.ContainsBannedSearches | flexget/plugins/filter/if_condition.py:20 | The ban test finds `__`, `try` followed by optional whitespace and a colon, or `lambda` at any position of the statement, not only at its start. |
| IfCondition.RejectedKeyIsBanned | flexget/plugins/filter/if_condition.py:36-39 | Every condition key the validator rejects is also refused by `safer_eval`. |
| IfCondition.SingleLineKeysAgree | flexget/plugins/filter/if_condition.py:38 | On keys without a line break, the validator's reject pattern matches exactly when `safer_eval` would refuse the key. |
| IfCondition.NoRejectBeforeBreak | flexget/plugins/filter/if_condition.py:38 | The reject pattern cannot match when no banned form starts on the key's first line, since `.` does not cross a line break. |
| IfCondition.MultiLineKeyPassesValidation | flexget/plugins/filter/if_condition.py:38-39 | A key `first + "\n" + rest` whose non-empty first line starts no banned form (a `try\s*:` crossing the break counts as starting on the first line) but whose `rest` contains one passes the validator and is still refused at evaluation. |
| IfCondition.ValidatorWeakerThanEval | flexget/plugins/filter/if_condition.py:38-39 | The key `x\n__` is such a key, so the validator accepts keys that `safer_eval` refuses. |
| IfCondition.VerbNamed | flexget/plugins/filter/if_condition.py:104-107 | `accept`, `reject` and `fail` each map to their own status call. Every other string maps to none. |
| IfCondition.AllowedNames | flexget/plugins/filter/if_condition.py:43-46 | The nested-action keys are exactly the names of plugins with API version above 1, a validator and no `input` handler. |
| IfCondition.WithBuiltins | flexget/plugins/filter/if_condition.py:17-19 | The locals gain exactly the ten allowed builtins, which override same-named fields. All other fields keep their values. |
| IfCondition.EvalLocals | flexget/plugins/filter/if_condition.py:74-77 | The namespace holds the entry's fields plus `has_field`, `timedelta` and `now`. `now` is the phase's time, and other fields are copied unchanged. |
| IfCondition.BannedNeverPasses | flexget/plugins/filter/if_condition.py:78-89 | A condition containing a banned form selects no entry, whatever the evaluator would return. |
| IfCondition.RaisingNeverPasses | flexget/plugins/filter/if_condition.py:84-89 | A condition whose evaluation raises (NameError or any other exception) selects no entry. |
| IfCondition.Append | flexget/plugins/filter/if_condition.py:68 | Appending to the `defaultdict` adds the item at the end of that phase's list and leaves every other phase's list unchanged. |
| IfCondition.BucketHandlersAppends | flexget/plugins/filter/if_condition.py:59-68 | One plugin's handler loop adds one copy of the item to each phase it handles, except `process_start`. It never stops on a `TypeError`. |
| IfCondition.OneCopyPerHandledPhase | flexget/plugins/filter/if_condition.py:59-68 | When a plugin's handlers name each phase once, as the keys of `phase_handlers` do, the item lands in a handled phase other than `process_start` exactly once, and nowhere else. |
| IfCondition.BucketPluginsAppends | flexget/plugins/filter/if_condition.py:57-68 | The same holds over all plugins of a nested action, in action order. |
| IfCondition.BucketsMatchExpected | flexget/plugins/filter/if_condition.py:49-68 | When sorting finishes without an exception, each phase's list equals the reference list of item copies, in configuration order. A `TypeError` from a `process_start` handler never stops the sorting. |
| IfCondition.ProcessStartBucketStaysEmpty | flexget/plugins/filter/if_condition.py:60-66 | No item is ever queued for `process_start`: those handlers run at once. |
| IfCondition.SimpleItemsOnlyFilter | flexget/plugins/filter/if_condition.py:54-55 | Outside the `filter` phase, every queued item has a nested action. A string action is queued only for `filter`. |
| IfCondition.ValidPluginsResolve | flexget/plugins/filter/if_condition.py:57-58 | In a valid configuration whose plugins are registered under their own names, the only exception that can stop sorting a nested action is one raised by a `process_start` handler of one of its plugins. |
| IfCondition.HandlerErrorsAreRaised | flexget/plugins/filter/if_condition.py:60-66 | Any exception that stops a handler loop is raised by a `process_start` handler of that plugin. |
| IfCondition.Selected | flexget/plugins/filter/if_condition.py:110 | The selected positions are strictly increasing. A position is selected exactly when its entry is neither rejected nor failed and passes the condition. |
| IfCondition.NestedKeepsUnselected | flexget/plugins/filter/if_condition.py:118-127 | The nested plugins of an action change no entry outside the selection. |
| IfCondition.NestedCallsInOrder | flexget/plugins/filter/if_condition.py:124-127 | Nested plugins are called in action order, each at most once, and all of them when none raises. |
| IfCondition.UnselectedUntouched | flexget/plugins/filter/if_condition.py:110-111 | An entry that fails an item's condition, or is already rejected or failed, keeps its status through that item. |
| IfCondition.StringActionExact | flexget/plugins/filter/if_condition.py:112-115 | A string action makes exactly the named call, with the reason `Matched requirement: <condition>`, on exactly the selected entries. It derives no task and raises nothing. |
| IfCondition.UnknownStringActionRaises | flexget/plugins/filter/if_condition.py:115 | A string action that names no status call changes nothing. It raises KeyError exactly when some entry is selected. |
| IfCondition.NestedRejectPropagates | flexget/plugins/filter/if_condition.py:117-121 | If a nested plugin rejects every entry of the derived task, exactly the selected entries of the parent task are rejected, because the derived task holds the parent's own entries. |
| IfCondition.ValidStringActionNeverRaises | flexget/plugins/filter/if_condition.py:41 | A string action that the validator accepts never raises. |
| IfCondition.PhaseItemsSnoc | flexget/plugins/filter/if_condition.py:108-110 | Running one more item of a phase applies it to the statuses the earlier items left. |
| IfCondition.PhaseStopsAt | flexget/plugins/filter/if_condition.py:108 | Once an item has raised, the remaining items of the phase are not run. |
| IfCondition.PhaseKeepsUnmatched | flexget/plugins/filter/if_condition.py:108-115 | Over a whole phase, an entry that is already rejected or failed, or that passes none of the phase's conditions, keeps its status. |
| IfCondition.NestedStopsAt | flexget/plugins/filter/if_condition.py:123-129 | Once a nested plugin has raised, the remaining plugins of the action are not called. |
| IfCondition.SelectEntries | flexget/plugins/filter/if_condition.py:110 | The loop computes exactly the selection `Selected` defines from the entries' statuses and condition results. |
| IfCondition.ApplyToEach | flexget/plugins/filter/if_condition.py:114-115 | Each of a list of distinct entries receives the step exactly once, and its fields are unchanged. |
| IfCondition.ActOnSelected | flexget/plugins/filter/if_condition.py:114-115 | Seen from the task, exactly the selected entries change, as `Update` says, and no fields change. |
| IfCondition.RunNested | flexget/plugins/filter/if_condition.py:123-129 | The loop over a nested action's plugins leaves the statuses, the exception and the list of called plugins that `NestedRun` defines. |
| IfCondition.FilterIf.constructor | flexget/plugins/filter/if_condition.py:30-31 | A new plugin instance has no phase lists. |
| IfCondition.FilterIf.OnProcessStart | flexget/plugins/filter/if_condition.py:49-68 | The task's phase lists are stored as sorting leaves them, partly filled when an exception stopped it. The exception is returned. |
| IfCondition.FilterIf.GetAttr | flexget/plugins/filter/if_condition.py:91-98 | A handler exists exactly when some non-entry, non-input phase has a method with that name. The handler is for the first such phase. |
| IfCondition.FilterIf.RunItem | flexget/plugins/filter/if_condition.py:109-121 | For one item, the selection is `Selected`, and statuses, exception, called plugins and derived tasks are those `ItemRunOn` defines. Fields do not change. |
| IfCondition.FilterIf.NestedAction | flexget/plugins/filter/if_condition.py:117-129 | The derived task shares the task's name and session and holds exactly the selected entry objects. Running the plugins on it changes the parent's entries as `NestedRun` defines. |
| IfCondition.FilterIf.HandlePhase | flexget/plugins/filter/if_condition.py:100-129 | A task without phase lists is left alone. Otherwise the phase's items run in order as `PhaseItems` defines, and every derived task holds the selected entries of the task itself. |
| IfCondition.FilterIf.RunBucket | flexget/plugins/filter/if_condition.py:108-129 | The loop over a phase's items gives the statuses, exception, called plugins and derived tasks of `PhaseItems`. |
| IfCondition.BucketConfig | flexget/plugins/filter/if_condition.py:52-68 | The loop over configuration items computes the phase lists and exception that `BucketItems` defines. |
| IfCondition.SortNested | flexget/plugins/filter/if_condition.py:57-68 | The loop over a nested action's plugins computes what `BucketPlugins` defines. |
| IfCondition.SortHandlers | flexget/plugins/filter/if_condition.py:59-68 | The loop over one plugin's handlers computes what `BucketHandlers` defines. |
| IfCondition.ItemsStopAt | flexget/plugins/filter/if_condition.py:52-68 | Once sorting has stopped with an exception, the remaining items change nothing. |
| IfCondition.StopsAt | flexget/plugins/filter/if_condition.py:57-58 | Once an unknown plugin or a handler has stopped the plugin loop, the remaining plugins change nothing. |
| IfCondition.HandlersStopAt | flexget/plugins/filter/if_condition.py:59-66 | Once a `process_start` handler has raised, the remaining handlers change nothing. |
| OutputRss.Normalised | flexget/plugins/output_rss.py:110-119 | The link list returned always ends with `url`. A bare file name gets 7 days, no item limit, and `imdb_url`, `input_url`, `url`. |
| OutputRss.NormalisedKeepsGivenValues | flexget/plugins/output_rss.py:114-118 | Given values are kept, missing ones get their defaults, and `url` is appended to the link list. |
| OutputRss.RepeatedCallsAppendUrl | flexget/plugins/output_rss.py:112-118 | Each call appends another `url` to a dictionary configuration stored in place. A bare file name gives the same result on every call. |
| OutputRss.LinkFor | flexget/plugins/output_rss.py:130-133 | There is no link exactly when the entry has none of the listed fields. Otherwise the link is the value of the first listed field it has. |
| OutputRss.ExtraNameIsHarmless | flexget/plugins/output_rss.py:118 | An extra link name already in the list, or missing from the entry, changes no link. The repeated `url` is therefore harmless. |
| OutputRss.DescriptionFor | flexget/plugins/output_rss.py:134 | The description is `description` when present, otherwise `imdb_plot_outline` or `None`. |
| OutputRss.Records | flexget/plugins/output_rss.py:127-136 | There is one record per accepted entry, in order, with consecutive primary keys. |
| OutputRss.FileRows | flexget/plugins/output_rss.py:155 | The query returns exactly the rows of the given file, each at most as often as it is stored. |
| OutputRss.InsertAddsRow | flexget/plugins/output_rss.py:156 | Insertion adds exactly the one row. |
| OutputRss.InsertKeepsOrder | flexget/plugins/output_rss.py:156 | Inserting into a newest-first list keeps it newest first. |
| OutputRss.SortNewestFirst | flexget/plugins/output_rss.py:155-156 | An answer to the query always exists: the file's records ordered by descending publication time, as a permutation of them. |
| OutputRss.RetainLoop | flexget/plugins/output_rss.py:159-179 | The loop splits the records into those added to the feed and those deleted, as `Retain` defines. |
| OutputRss.RetainPartitions | flexget/plugins/output_rss.py:160-179 | Every record is either kept or deleted, never both, and none is lost. |
| OutputRss.RetainBounds | flexget/plugins/output_rss.py:162-167 | With an item limit `n >= 0`, at most `n + 1` records are kept. A limit below -1 keeps none. With a day limit, no kept record is older than the limit. |
| OutputRss.RetainKeepsPrefix | flexget/plugins/output_rss.py:155-179 | Read newest first, the kept records are a prefix and the deleted ones the rest. Once one record is dropped, every older one is dropped too. |
| OutputRss.Without | flexget/plugins/output_rss.py:179 | Exactly the deleted rows leave the table. |
| OutputRss.OtherFilesUntouched | flexget/plugins/output_rss.py:155-179 | Whatever arrangement of the file's records the query returns, retention never deletes a record of another file. |
| OutputRss.OutputRSS.constructor | flexget/plugins/output_rss.py:94-95 | No file has been written yet. |
| OutputRss.OutputRSS.GetConfig | flexget/plugins/output_rss.py:110-119 | Returns `Normalised` of the configuration and stores a dictionary configuration completed in place. |
| OutputRss.OutputRSS.FeedExit | flexget/plugins/output_rss.py:121-136 | Without PyRSS2Gen it raises a plugin warning and changes nothing. Otherwise it stores one record per accepted entry, in order, under fresh consecutive keys. The show cache is left alone. |
| OutputRss.OutputRSS.AddRecords | flexget/plugins/output_rss.py:127-136 | The loop appends exactly `Records` of the accepted entries and advances the key counter by their number. The show cache is left alone. |
| OutputRss.OutputRSS.AddRecord | flexget/plugins/output_rss.py:128-136 | One record, under the next primary key. The show cache is left alone. |
| OutputRss.OutputRSS.ProcessEnd | flexget/plugins/output_rss.py:138-198 | Nothing happens without PyRSS2Gen, when learning, or for a file already written. Otherwise the feed is the records retained from the query's answer, which is any newest-first arrangement of the file's records. The deleted ones leave the table. The file is remembered only when the write succeeds. The key counter and the show cache are left alone. |
| PogcalAcquired.LeftmostNone | flexget/plugins/services/pogcal_acquired.py:94 | The search for `\s+\((.*)\)$` finds nothing exactly when no position matches. |
| PogcalAcquired.LeftmostFirst | flexget/plugins/services/pogcal_acquired.py:94 | The match found is the leftmost one. |
| PogcalAcquired.LeftmostIsRunStart | flexget/plugins/services/pogcal_acquired.py:94 | The substitution starts where a run of whitespace starts. |
| PogcalAcquired.SubstitutionShape | flexget/plugins/services/pogcal_acquired.py:94 | The rewrite keeps everything before the match and ends with `( \(group\))?`, followed only by the name's final newline if it has one. |
| PogcalAcquired.NoParenthesisNoRewrite | flexget/plugins/services/pogcal_acquired.py:94 | A name without `(` is not rewritten. |
| PogcalAcquired.PlainNameIsItsOwnPattern | flexget/plugins/services/pogcal_acquired.py:92-97 | A name with neither a parenthesised suffix nor a leading `the` is its own pattern. |
| PogcalAcquired.LeadingTheMovesToEnd | flexget/plugins/services/pogcal_acquired.py:95-96 | A leading `the` is dropped, the rest stripped, and ` \[the\]` appended. |
| PogcalAcquired.CachedId | flexget/plugins/services/pogcal_acquired.py:72-74 | There is no id exactly when no row has the name. Otherwise the id is that of a row with the name. |
| PogcalAcquired.FindShow | flexget/plugins/services/pogcal_acquired.py:69-90 | A cached name is answered from the cache without change. Otherwise the cache is unchanged, or one row `(id, lower-cased name)` is appended for the id returned. An exception of the search, such as a pattern that does not compile or an option value that is not an integer, is raised and stores nothing. |
| PogcalAcquired.CacheIsStable | flexget/plugins/services/pogcal_acquired.py:72-74 | Appending rows never changes the id of a name that is already cached. |
| PogcalAcquired.AppendedRowIsFound | flexget/plugins/services/pogcal_acquired.py:87 | A row stored for an uncached name is what later queries find. |
| PogcalAcquired.FoundShowIsCached | flexget/plugins/services/pogcal_acquired.py:71-88 | After a successful lookup, any name equal up to letter case is answered from the cache with the same id, without reaching the site. |
| PogcalAcquired.MissIsNotCached | flexget/plugins/services/pogcal_acquired.py:79-90 | A failed lookup stores nothing. |
| PogcalAcquired.FindShowId | flexget/plugins/services/pogcal_acquired.py:69-90 | The method returns the id or the exception `FindShow` defines and leaves the cache as `FindShow` defines. Nothing else in the session changes. |
| PogcalAcquired.EntryExit | flexget/plugins/services/pogcal_acquired.py:49-67 | One entry gives at most one mark, and only when it is an episode with a series name, test mode is off, and nothing raised. |
| PogcalAcquired.TestModePostsNothing | flexget/plugins/services/pogcal_acquired.py:55-57 | In test mode no entry is marked. |
| PogcalAcquired.PostsComeFromEligibleEntries | flexget/plugins/services/pogcal_acquired.py:48-64 | There are at most as many marks as accepted entries. Each mark is for an eligible entry, with the show id the cache holds for its series and that entry's season and episode. |
| PogcalAcquired.CacheOnlyGrows | flexget/plugins/services/pogcal_acquired.py:51 | Handling an entry only appends rows to the show cache. |
| PogcalAcquired.OnTaskExit | flexget/plugins/services/pogcal_acquired.py:32-67 | Nothing happens when nothing is accepted outside test mode, when the login raises, or when the login page lacks `logout`. Otherwise the accepted entries are handled in order, as `ExitLoop` defines. The RSS table and its key counter are left alone in every case. |
| PogcalAcquired.ExitEntries | flexget/plugins/services/pogcal_acquired.py:48-67 | The loop gives the marks, cache and exception of `ExitLoop` and stops at the first exception. The RSS table and its key counter are left alone. |
| PogcalAcquired.ExitEntry | flexget/plugins/services/pogcal_acquired.py:49-67 | The loop body for one entry does what `EntryExit` defines. The RSS table and its key counter are left alone. |
| RottenTomatoesList.ImdbId | flexget/plugins/input/rottentomatoes_list.py:57-59 | A missing alternate id stays `None` and an empty one stays empty. Any other id gets the `tt` prefix. |
| RottenTomatoesList.EntryFor | flexget/plugins/input/rottentomatoes_list.py:60-63 | An entry has exactly the fields `title`, `rt_id`, `imdb_id`, `rt_name` and `url`. `rt_name` equals the title and `url` is the alternate link. |
| RottenTomatoesList.Requests | flexget/plugins/input/rottentomatoes_list.py:50-51 | Every requested `(type, name)` pair comes from the configuration. |
| RottenTomatoesList.OnTaskInput | flexget/plugins/input/rottentomatoes_list.py:47-67 | The entries returned are `Merged`: the fetched movies in request order, deduplicated by title. |
| RottenTomatoesList.AddLists | flexget/plugins/input/rottentomatoes_list.py:51-66 | The loop over one type's list names adds the movies of each list fetched. A list that fails adds nothing. |
| RottenTomatoesList.AddResult | flexget/plugins/input/rottentomatoes_list.py:54-63 | The loop over one result's movies adds each movie whose title is not yet present. |
| RottenTomatoesList.Seen | flexget/plugins/input/rottentomatoes_list.py:55 | The scan finds a match exactly when some entry has the title. |
| RottenTomatoesList.AddMoviesAppend | flexget/plugins/input/rottentomatoes_list.py:50-63 | Adding two results one after the other is adding their concatenation. |
| RottenTomatoesList.MergeHasEveryTitle | flexget/plugins/input/rottentomatoes_list.py:53-63 | The entries have exactly the titles of the fetched movies. |
| RottenTomatoesList.MergeIsFirstOccurrences | flexget/plugins/input/rottentomatoes_list.py:53-63 | The entries are, in order, those of the movies that are the first with their title. |
| RottenTomatoesList.MergedTitlesAreDistinct | flexget/plugins/input/rottentomatoes_list.py:55-56 | No two entries share a title. |
| RottenTomatoesList.MergeKeepsEarlierEntries | flexget/plugins/input/rottentomatoes_list.py:60 | Entries already present stay, unchanged and in place, and new ones only follow them. |
| RottenTomatoesList.FailedListAddsNothing | flexget/plugins/input/rottentomatoes_list.py:64-66 | A list that cannot be fetched contributes nothing, and later lists are still fetched. |
| RottenTomatoesList.ValidConfigRequestsChoices | flexget/plugins/input/rottentomatoes_list.py:40-45 | A configuration the validator accepts only requests lists among the choices for their type. |
| TorrentCache.HexRun | flexget/plugins/services/torrent_cache.py:25 | The result is the longest run of hexadecimal digits at the start of the text. |
| TorrentCache.BtihHashIsLeftmost | flexget/plugins/services/torrent_cache.py:25-27 | There is no hash exactly when no `btih:`, in any case, is followed by a hex digit. Otherwise the hash is the digit run after the leftmost one. |
| TorrentCache.InfoHash | flexget/plugins/services/torrent_cache.py:23-29 | A magnet URL's hash comes only from its `btih:` match. Other URLs use a truthy `torrent_info_hash`. A hash is never empty. |
| TorrentCache.MirrorUrls | flexget/plugins/services/torrent_cache.py:32 | There is one distinct address per mirror: host, upper-cased hash, `.torrent`. |
| TorrentCache.Missing | flexget/plugins/services/torrent_cache.py:34 | The result holds exactly the mirror addresses not yet listed, without repetition. |
| TorrentCache.TorrentCache.RewriteEntry | flexget/plugins/services/torrent_cache.py:23-37 | An entry without a hash is unchanged. Otherwise `urls` keeps its existing list as a prefix and gains each missing mirror address exactly once. No other field changes. |
| TorrentCache.TorrentCache.OnTaskUrlrewrite | flexget/plugins/services/torrent_cache.py:21-37 | Only accepted entries are rewritten, each as `RewriteEntry` says. Statuses do not change. |
| TorrentCache.NoDuplicateUrls | flexget/plugins/services/torrent_cache.py:33-34 | The rewrite introduces no repeated address. |
| TorrentCache.SameInfoHash | flexget/plugins/services/torrent_cache.py:31-37 | The rewrite does not change the entry's info-hash. |
| TorrentCache.AllMirrorsListed | flexget/plugins/services/torrent_cache.py:31-37 | After the rewrite, every mirror address of the hash is listed. |
| TorrentCache.RewriteIsIdempotent | flexget/plugins/services/torrent_cache.py:31-37 | A second rewrite changes nothing. |
| DisableBuiltins.ToDisableSelects | flexget/plugins/module_disable_builtins.py:18-27 | The names recorded are exactly the builtin plugins that are listed, or all builtins when the configuration is not a list. |
| DisableBuiltins.ToDisableDistinct | flexget/plugins/module_disable_builtins.py:18-27 | No name is recorded twice. |
| DisableBuiltins.PluginDisableBuiltins.constructor | flexget/plugins/module_disable_builtins.py:10-11 | Nothing is recorded yet. |
| DisableBuiltins.PluginDisableBuiltins.FeedStart | flexget/plugins/module_disable_builtins.py:17-27 | Exactly the selected plugins lose their builtin flag, and their names are appended to the record in registry order. |
| DisableBuiltins.PluginDisableBuiltins.FeedExit | flexget/plugins/module_disable_builtins.py:29-33 | Every recorded plugin gets its builtin flag back, and the record is emptied. |
| DisableBuiltins.OnlyBuiltinsAreTouched | flexget/plugins/module_disable_builtins.py:19-23 | A plugin that is not builtin, or is not listed in a list configuration, is neither recorded nor changed. |
| DisableBuiltins.NonListDisablesEveryBuiltin | flexget/plugins/module_disable_builtins.py:24-27 | A configuration that is not a list disables every builtin plugin. |
| DisableBuiltins.StartThenExitRestores | flexget/plugins/module_disable_builtins.py:17-33 | Feed start followed by feed exit gives every plugin back the flag it had. |
| Options.OptionValues.Defaults | flexget/options.py:10-56 | With no options given, test, learn and reset are off, there is no migration, and the log level is `info`. |
| Options.Conflict | flexget/options.py:67-71 | An error is reported exactly when `--test` comes with `--learn` or `--reset`. The `--learn` message takes precedence. |
| Options.OptionParser.ParseArgs | flexget/options.py:64-77 | In unit-test mode the command line is `--reset`, so every other value, the debug flags and the log level included, is its default. Conflicts are reported before `learn` is adjusted, and `learn` is forced on by a reset outside unit-test mode or by a migration. |
| Options.DebugCallback | flexget/options.py:79-85 | `--debug` sets debug and log level `debug`. `--debug-all` sets debug-all, debug and log level `debugall`. |
| Options.LearnAfterParse | flexget/options.py:74-75 | Without a conflict, `learn` ends up on exactly when it was given, or a reset outside unit-test mode or a migration forces it. |
| Options.TestWithMigrateIsAcceptedAndLearns | flexget/options.py:67-75 | `--test` with `--migrate` is accepted, and then `learn` is on too. |
| Options.UnitTestResetDoesNotLearn | flexget/options.py:65-75 | In unit-test mode the forced `--reset` neither conflicts nor turns `learn` on. |
| InputRlslog.SearchIsLeftmost | modules/input_rlslog.py:38 | The search finds nothing exactly when nothing matches. Otherwise it finds the leftmost match. |
| InputRlslog.Score | modules/input_rlslog.py:36-41 | The score, in tenths, lies between 0 and 9.9. |
| InputRlslog.DotScoreWins | modules/input_rlslog.py:37-41 | A `d.d` anywhere wins over any `d/10`, even an earlier one. The score is the leftmost `d.d`. |
| InputRlslog.SlashScoreIsWhole | modules/input_rlslog.py:36-41 | Without a `d.d`, a `d/10` gives whole points. With neither, there is no score. |
| InputRlslog.RemoveCommasSpec | modules/input_rlslog.py:42 | Removing commas leaves every other character and no comma. |
| InputRlslog.VotesAreDigits | modules/input_rlslog.py:35 | A vote count is a string of digits. |
| InputRlslog.VotesIgnoreCommas | modules/input_rlslog.py:42 | Commas anywhere in the text do not change the vote count. |
| InputRlslog.VotesOfCount | modules/input_rlslog.py:35 | `(1234 votes)` gives the whole digit string. |
| InputRlslog.VotesBacktrack | modules/input_rlslog.py:35 | `(123votes)` gives `12`, because `\d*` gives its last digit back to `.`. |
| InputRlslog.LongestFitSpec | modules/input_rlslog.py:35 | The group chosen is the longest digit prefix after which `.votes)` fits, as the backtracking matcher chooses. |
| InputRlslog.ImdbStep | modules/input_rlslog.py:82-86 | An IMDb link sets `imdb_url`. It parses a score only when neither score nor votes is set, and touches no other key. |
| InputRlslog.LinkStepUrl | modules/input_rlslog.py:88-93 | A named, resolvable link sets the url to its `href`. Any other link leaves the url alone. |
| InputRlslog.LinkStepsKeepTitle | modules/input_rlslog.py:75-93 | The links never remove a key or change the title. |
| InputRlslog.ReleaseOf | modules/input_rlslog.py:55-99 | A kept release has a title and a text url. A heading without its link or the link's text raises AttributeError, before the body is looked for. |
| InputRlslog.LinkLoopOutcome | modules/input_rlslog.py:75-93 | The links raise nothing exactly when no single link raises. A link raises when it is named but has no `href`, or when it is an IMDb link with no node two after it. Without a raise the links give `LinkSteps`. Otherwise the exception is the first raising link's. |
| InputRlslog.BlockRaises | modules/input_rlslog.py:57-93 | Reading a block raises exactly when its heading lacks the link or the link's text, or when it has a readable heading and a body and one of its links raises. |
| InputRlslog.Releases | modules/input_rlslog.py:54-101 | When no block raises, there are at most as many releases as entry blocks, and each has a text url. |
| InputRlslog.ReleasesOutcome | modules/input_rlslog.py:54-101 | A page gives its releases exactly when no block raises. Otherwise the page raises the exception of the first raising block, since `parse_rlslog` catches nothing. |
| InputRlslog.ReleasesStopAtError | modules/input_rlslog.py:55-99 | Once a block has raised, the blocks after it are never read. |
| InputRlslog.UrlIsLastResolvableLink | modules/input_rlslog.py:75-99 | A block with a title and a body is kept exactly when one of its links gives a url. The url is the `href` of the last such link. |
| InputRlslog.ScoreIsParsedOnce | modules/input_rlslog.py:69-86 | Once a score or vote count is set, later IMDb links never change either. |
| InputRlslog.ParseRlslog | modules/input_rlslog.py:48-101 | The loop over entry blocks gives `Releases`, including its exception. |
| InputRlslog.ParseEntry | modules/input_rlslog.py:56-99 | The loop body for one entry block gives `ReleaseOf`. |
| InputRlslog.ReadLinks | modules/input_rlslog.py:75-93 | The loop over a body's links gives `LinkLoop`, which ends at the first raising link. |
| InputRlslog.ReadImdbLink | modules/input_rlslog.py:82-86 | An IMDb link with no node two after it raises AttributeError. Otherwise it does the IMDb step. |
| InputRlslog.Copied | modules/input_rlslog.py:118-124 | An entry gets exactly the release's keys whose value is not `None`, under their field names, and nothing else. |
| InputRlslog.EntriesHaveUrl | modules/input_rlslog.py:115-124 | Every entry made from a release has a text url and no `None` value. |
| InputRlslog.ApplyField | modules/input_rlslog.py:118-121 | One field is copied only when present and not `None`. |
| InputRlslog.EntryOf | modules/input_rlslog.py:117-124 | A new, undecided entry holding the release's copied fields. |
| InputRlslog.Run | modules/input_rlslog.py:103-126 | Without BeautifulSoup it raises a plain exception. A page that cannot be fetched raises a `Warning` for an HTTPError, URLError or BadStatusLine, and its own exception otherwise. A block whose reading raises ends `run` with that exception, since only fetch errors are caught, and no entry is added. Otherwise one new entry per release is appended, in order, and existing entries are kept. Only the entry list changes. |
| InputRlslog.AddEntries | modules/input_rlslog.py:115-126 | The loop appends one new entry per release, in order. Only the entry list changes. |

## Left out

- flexget/plugins/output_exec.py is not part of this model.
- Python's `eval` of a condition is a function parameter. Only the textual ban and the handling of the outcome are modelled: a false result, a NameError and any other exception all select nothing.
- Phase handlers of other plugins are modelled only as the status call they make on each entry, or the exception they raise. Field changes made by nested plugins are not modelled.
- `datetime.now()` is read once per phase, not once per entry, and is an integer parameter.
- A configuration item of the `if` plugin is its first key/value pair only. Further pairs of a multi-key dictionary are ignored, as `items()[0]` and `values()[0]` do.
- IfCondition.SaferEval and IfCondition.CheckCondition: their contracts only restate their definitions. The properties are stated by `BannedNeverPasses` and `RaisingNeverPasses`.
- IfCondition.Conditions, IfCondition.Pick and IfCondition.Update: their contracts only restate their definitions. The properties are stated by `UnselectedUntouched`, `StringActionExact`, `NestedKeepsUnselected`, `PhaseKeepsUnmatched` and `ActOnSelected`.
- IfCondition.KeyValid, IfCondition.RejectMatch, IfCondition.NoRejectBeforeBreak, IfCondition.MultiLineKeyPassesValidation and IfCondition.ValidatorWeakerThanEval: the `regexp_match` validator is assumed to match its patterns at the start of the key, as `re.match` does. flexget/validator.py is not part of this model.
- IfCondition.CheckCondition: entries are assumed to have a `title`, which the engine guarantees. The log lines of `check_condition` read it. Without one, a passing condition would log an error and select nothing, and a NameError would raise KeyError.
- The configuration that nested plugins receive is checked by their own validators, which are not part of this model.
- Letter case is mapped for ASCII letters only, in `lower()`, `upper()` and `re.IGNORECASE`.
- Times are integer seconds. The `make_rss` mix of `utcnow` (the column default) and local `today` is not modelled as a timezone offset.
- Logging, HTTP requests, HTML parsing (BeautifulSoup), SQL sessions, `@cached`, XML writing (PyRSS2Gen) and file I/O are left out. Their outcomes are parameters: whether a library is present, a page or its failure, whether a write succeeded, and login page text.
- OutputRss.OutputRSS.FeedExit: requires every entry to have a `title`, which the engine guarantees; a missing title would raise KeyError in the source.
- OutputRss.OutputRSS.ProcessEnd: the session is the task's, not a fresh one. Deleting and committing are one update of the table. The query's answer is a parameter, `answer`: any arrangement of the file's records newest first. `order_by` leaves records with equal publication time in an order the database chooses. Since the column default is computed once per run, all records stored in one run tie, and that order decides which of them pass the item limit.
- OutputRss.Keep: the item limit keeps up to `items + 1` records, as the source's `>` comparison does.
- InputRlslog: the IMDb score is stored in tenths (an integer), not as a float.
- InputRlslog.Run: does not state that the new entries are fresh objects. The warning messages built from HTTP errors are passed in as given.
- InputRlslog.ReleaseOf: a rating label with no node after it is read as no rating. The source would raise AttributeError at `rating.next.string`.
- TorrentCache.TorrentCache.OnTaskUrlrewrite: assumes every accepted entry is `WellTyped`: a text `url`, a list `urls` when present, and a text or `None` `torrent_info_hash` when present. Other types raise in the source (at `startswith`, `upper` or `extend`), which is not modelled.
- PogcalAcquired: the username, the password and the login request's fields are not modelled. Marks are returned rather than posted, and errors when posting a mark are ignored, as logged in the source.
- PogcalAcquired.EntryExit: a show id of 0 is treated as not found, because the source tests `not show_id`.
- RottenTomatoesList: the `lists` API call is a parameter, and its `None` stands for an empty or missing result. IMDb ids are strings.
- DisableBuiltins.PluginDisableBuiltins.FeedStart: the flags are computed over a copy of the registry and written back after the loop. This agrees with the source, since each name is visited once.
- Options: optparse itself and the option declarations are not modelled; the parsed values are the input. An unset `--debug` value (`None`) is modelled as 0, and `error()` exiting is modelled as a returned message.
- The engine (flexget/task.py, flexget/plugin.py and flexget/entry.py) is not part of this model. Its rule that accepting never overrides a rejection or failure, while reject and fail always take effect, is an assumption of the model.
