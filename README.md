# sondagginazionali.it: poll pipeline model

This project is a Dafny model of the data core of the sondagginazionali.it
site, which charts Italian national voting-intention polls. It covers these
parts:

- **Load and clean** (`components/data_processing.py`). The `date` column is
  moved to the front. The party columns run from the first
  `Partito Democratico` column onward. Every party cell is converted: locale
  text such as `"25,5%"` becomes a number (missing when unreadable), and a
  whole number becomes a real. The conversion loop is modelled in place on an
  `array` of rows.
- **Filter**. A row is kept when both anchor parties are present, its party
  total is strictly between 90 and 110, and its date falls in the last
  3 × 365 days. The kept rows are sorted by date.
- **Chart datasets**. For each party drawn on the chart, the datasets are
  its poll scatter (only when it has points) followed by its moving-average
  line.
- **Home page** (`main.py`):
  - the three-year window and the date sort;
  - `normalize_poll_row`, which rescales the six main parties of a poll to
    sum to 100;
  - the latest-row lookup;
  - the page's own chart loop over its six-party table.
- **Configuration** (`config/party_config.py`): the party and coalition
  tables, and the display-name mapping of `moving_average.py`.
- **Disk cache** (`utils/cache_manager.py`). One slot holds a timestamped
  entry. It is served while at most six hours old. Some unpickling errors
  become a miss; others propagate.
- **Visit log** (`utils/logger.py`):
  - the Redis URL rewrite;
  - the client-address extraction from proxy headers;
  - the `visit_logs` list, newest first and capped at 1000 entries.

The table below lists the Dafny modules and their files:

| module | file |
|---|---|
| `Wrappers` | `wrappers.dfy` |
| `Frames` | `frames.dfy` |
| `PercentParsing` | `decimal.dfy` |
| `PartyRegistry` | `party_registry.dfy` |
| `DataProcessing` | `data_processing.dfy` |
| `MainPage` | `main_page.dfy` |
| `CacheManager` | `cache_manager.dfy` |
| `VisitLogger` | `visit_logger.dfy` |

Values the program takes from outside are parameters of the model:

- the clock: integer microseconds, the resolution of a Python `datetime`;
- the environment variable `REDIS_URL`;
- the request headers;
- whether a cache read or a Redis call raises.

Dates are integer day numbers at midnight.

## Model

| member | source | states |
|---|---|---|
| Frames.WithinWindow | components/data_processing.py:39-41 | with `now` on day `d`, a row is inside the 3×365-day window iff its day is at least `d - 1095` at exactly midnight, or at least `d - 1094` at any later moment |
| Frames.Where | components/data_processing.py:33-41 | a boolean mask keeps only rows that pass, and keeps each passing row exactly as often as it occurs (multiset) |
| Frames.InsertByDate | components/data_processing.py:43 | inserting into a date-sorted sequence keeps it sorted and adds exactly one copy of the row |
| Frames.SortByDate | components/data_processing.py:43 | `sort_values('date')` gives a date-sorted permutation of the rows |
| PercentParsing.IndexOf | components/data_processing.py:22 | the position of the first occurrence of a character, or the length when it is absent |
| PercentParsing.RemoveAll | components/data_processing.py:22 | `replace("%", "")` keeps exactly the other characters and never lengthens the text |
| PercentParsing.ReplaceAll | components/data_processing.py:22 | `replace(",", ".")` changes exactly the commas, position by position |
| PercentParsing.Delocalize | components/data_processing.py:22 | the text handed to `float` contains no '%' and no ',' |
| PercentParsing.ParseUnsigned | components/data_processing.py:22 | an unsigned decimal never reads as negative, and reads only when it holds a digit |
| PercentParsing.ParseDecimal | components/data_processing.py:22 | a decimal without a leading '-' never reads as negative, and any decimal reads only when it holds a digit |
| PercentParsing.ParsePercent | components/data_processing.py:22-24 | a cell text converts to a number only when it contains a digit; otherwise the cell becomes missing |
| PercentParsing.Show | components/data_processing.py:22 | the decimal spelling of a natural number is a non-empty digit string |
| PercentParsing.ShowValue | components/data_processing.py:22 | the digits of `n` denote `n` |
| PercentParsing.RemoveAllConcat | components/data_processing.py:22 | removing a character distributes over concatenation |
| PercentParsing.ReplaceAllConcat | components/data_processing.py:22 | replacing a character distributes over concatenation |
| PercentParsing.ReadDecimalDigits | components/data_processing.py:22 | `digits.digits` reads as its decimal value |
| PercentParsing.ReadWholeDigits | components/data_processing.py:22 | a run of digits reads as its whole value |
| PercentParsing.DelocalizeDigits | components/data_processing.py:22 | digits with or without a trailing '%' delocalize to the digits |
| PercentParsing.DelocalizeComma | components/data_processing.py:22 | `x,digits` with an optional '%' delocalizes to `x.digits` |
| PercentParsing.DecimalCommaRead | components/data_processing.py:19-22 | a locale decimal `digits,digits` with or without '%' reads as the number it spells |
| PercentParsing.LocaleRoundTrip | components/data_processing.py:19-22 | writing any `n` as digits, a comma, decimals and an optional '%', then converting, gives back `n` plus the decimals' value |
| PercentParsing.DigitsRead | components/data_processing.py:19-22 | digits with or without '%' read as their whole value |
| PercentParsing.WholeRoundTrip | components/data_processing.py:19-22 | any `n` written in decimal, with or without '%', converts back to exactly `n` |
| PercentParsing.CommaDecimalExample | components/data_processing.py:19-22 | `"25,5%"` converts to 25.5 |
| PercentParsing.SecondDotUnreadable | components/data_processing.py:22-24 | a second '.' after the decimal point makes `float` fail |
| PercentParsing.ThousandsSeparatorUnreadable | components/data_processing.py:22-24 | a '.' thousands separator plus a decimal comma turns into two points, and the cell becomes missing |
| PercentParsing.ThousandsSeparatorExample | components/data_processing.py:22-24 | `"1.234,5"` becomes `"1.234.5"`, which does not convert |
| PercentParsing.NoMinusNonNegative | components/data_processing.py:19-24 | a text without '-' never converts to a negative number |
| PartyRegistry.AbbreviationsDistinct | config/party_config.py:4-15 | no two parties share a key |
| PartyRegistry.DisplayNamesDistinct | config/party_config.py:4-15 | no two parties share a display name |
| PartyRegistry.CoalitionMembersAreParties | config/party_config.py:18-39 | every coalition member is a configured party |
| PartyRegistry.MemberLists | config/party_config.py:18-39 | the five coalitions and their member lists |
| PartyRegistry.CentreLeftMemberCountedOnce | config/party_config.py:19-22 | a Centrosinistra member belongs to no other coalition |
| PartyRegistry.FiveStarMemberCountedOnce | config/party_config.py:23-26 | a Movimento 5 Stelle member belongs to no other coalition |
| PartyRegistry.ThirdPoleMemberCountedOnce | config/party_config.py:27-30 | a Terzo Polo member belongs to no other coalition |
| PartyRegistry.CentreRightMemberCountedOnce | config/party_config.py:31-34 | a Centrodestra member belongs to no other coalition |
| PartyRegistry.OthersMemberCountedOnce | config/party_config.py:35-38 | an Altri member belongs to no other coalition |
| PartyRegistry.CoalitionsPartitionParties | config/party_config.py:4-39 | every configured party is a member of exactly one coalition |
| PartyRegistry.ShowFlags | config/party_config.py:5-14 | the first six parties are drawn and the last four are hidden |
| PartyRegistry.OnlyShownMembers | components/data_processing.py:49-51 | the drawn part keeps exactly the entries marked `show_in_graph` |
| PartyRegistry.AllShownKept | components/data_processing.py:49-51 | a table with every entry drawn is its own drawn part, in order |
| PartyRegistry.HiddenTailDropped | components/data_processing.py:49-51 | hidden entries after position `k` do not change the drawn part |
| PartyRegistry.ShownParties | config/party_config.py:5-14 | the drawn part of the configuration is its first six entries, whose keys are FDI, PD, M5S, FI, LEGA and AVS, in that order |
| PartyRegistry.AbbreviationOfListed | moving_average.py:26-30 | with distinct names, looking up a listed name finds the abbreviation paired with it |
| PartyRegistry.NameMappingPairs | moving_average.py:10-21 | the smoothing mapping pairs each configured display name with its key, in configuration order |
| PartyRegistry.NameMappingNamesDistinct | moving_average.py:10-21 | the smoothing mapping lists no display name twice |
| PartyRegistry.NameMappingInvertsConfig | moving_average.py:10-21 | the smoothing mapping sends every configured display name to that party's key |
| PartyRegistry.AbbreviationOf | moving_average.py:32 | `rename(columns=party_mapping)` keeps a name the mapping does not list, and gives a listed name the abbreviation paired with its first listing |
| PartyRegistry.CoalitionDeclarationOrder | config/party_config.py:18-39 | the coalitions are declared in this order |
| PartyRegistry.AnchorsAreConfiguredNames | components/data_processing.py:33 | both anchor columns of the filter are configured display names |
| DataProcessing.Without | components/data_processing.py:12 | dropping a column keeps exactly the other columns |
| DataProcessing.WithoutConcat | components/data_processing.py:12 | dropping a column preserves the order of the rest |
| DataProcessing.WithoutAbsent | components/data_processing.py:12 | dropping an absent column changes nothing |
| DataProcessing.ReorderColumns | components/data_processing.py:11-12 | `date` comes first, once; every other column is kept |
| DataProcessing.ReorderKeepsOrder | components/data_processing.py:11-12 | the non-date columns keep their order; without a prior `date` column, it is simply prepended |
| DataProcessing.FirstIndex | components/data_processing.py:15 | `get_loc` finds the first occurrence, or reports absence |
| DataProcessing.PartyColumns | components/data_processing.py:15 | the party columns are the suffix that starts at the first `Partito Democratico`; None (KeyError) when that column is absent |
| DataProcessing.ConvertCell | components/data_processing.py:19-26 | text becomes its reading or missing; a whole number is widened to a real; other cells are kept; the result is always a real or missing |
| DataProcessing.ConvertCellIdempotent | components/data_processing.py:19-26 | converting a cell twice is the same as converting it once |
| DataProcessing.CleanedReadingIsParsed | components/data_processing.py:19-26 | after cleaning, a cell reads as a number exactly when it is not missing (`notna`), and the number is the parsed text or the whole number |
| DataProcessing.ConvertColumn | components/data_processing.py:19-26 | one `df.at[i, party]` write converts exactly that cell; the date, the set of columns and the other cells are unchanged |
| DataProcessing.ConvertRow | components/data_processing.py:18-26 | exactly the listed columns of a row are converted; the date and the other cells are unchanged |
| DataProcessing.ConvertColumnInPlace | components/data_processing.py:19-26 | the inner loop converts one column in every row of the array |
| DataProcessing.ConvertPercentages | components/data_processing.py:18-26 | the nested loop leaves each row converted over all party columns, so every party cell is a real or missing |
| DataProcessing.LoadAndPreprocess | components/data_processing.py:5-28 | returns the reordered columns and the party columns with the table converted; without `Partito Democratico`, returns None and leaves the table untouched |
| DataProcessing.PartySum | components/data_processing.py:36-37 | the NaN-skipping row total: a row with no reading totals 0, and non-negative readings give a non-negative total |
| DataProcessing.AnchorsPresent | components/data_processing.py:33 | the first mask holds iff both anchor columns are in the row with a non-missing value |
| DataProcessing.PlausibleTotal | components/data_processing.py:36-37 | a row passing the total mask has at least one reading |
| DataProcessing.Keep | components/data_processing.py:33-41 | a row passing all three masks has both anchor columns, at least one reading, and a day no earlier than 1095 days before today |
| DataProcessing.FilterData | components/data_processing.py:30-43 | the result is sorted by date, every row in it passes all three masks, and each passing row appears exactly as often as in the input |
| DataProcessing.FilterTable | components/data_processing.py:30-43 | None (KeyError) iff an anchor column is missing from the table; otherwise the sorted rows passing all three masks, each as often as in the input |
| DataProcessing.TotalBoundsExclusive | components/data_processing.py:36-37 | a poll totalling exactly 90 or exactly 110 is dropped |
| DataProcessing.MissingAddsNothing | components/data_processing.py:36 | a missing value adds nothing to the row total |
| DataProcessing.ScatterPoints | components/data_processing.py:67-74 | no more points than rows |
| DataProcessing.CollectPoints | components/data_processing.py:67-74 | the scatter loop builds exactly the points of the non-missing values |
| DataProcessing.PrepareChartDatasets | components/data_processing.py:45-89 | the list-building loop yields the datasets of the configured parties, in configuration order |
| DataProcessing.ScatterPointsExact | components/data_processing.py:67-74 | there is one point per non-missing value, placed at that row's date, and no other point |
| DataProcessing.PresentIndices | components/data_processing.py:69-70 | the positions of the non-missing values: every listed position is in range and non-missing, every non-missing position is listed, and they are strictly increasing |
| DataProcessing.ScatterPointsIndexed | components/data_processing.py:67-74 | there are exactly as many points as non-missing values, and the k-th point is the k-th non-missing value in row order, placed at that row's date |
| DataProcessing.PartyDatasets | components/data_processing.py:49-87 | nothing for a hidden party; for a drawn one, its line last, preceded at most by a non-empty scatter, and only when its column exists |
| DataProcessing.ChartDatasets | components/data_processing.py:45-89 | at most two datasets per configured party |
| DataProcessing.DrawnPartyIsPlotted | components/data_processing.py:66-87 | a drawn party whose column exists and holds a value gets its scatter, with exactly its poll points, and its line |
| DataProcessing.NoColumnNoScatter | components/data_processing.py:68 | when no configured display name is a column, the chart holds lines only |
| DataProcessing.SmoothedSeriesOfShown | components/data_processing.py:56 | the drawn entries still have their moving-average column |
| DataProcessing.HiddenPartiesIgnored | components/data_processing.py:49-51 | hidden parties contribute nothing: the chart equals that of the drawn parties alone |
| DataProcessing.LineLegendsConcat | components/data_processing.py:87 | the line legends of two lists are those of the first followed by those of the second |
| DataProcessing.LinesFollowConfigOrder | components/data_processing.py:49-87 | there is exactly one line per drawn party, in configuration order |
| DataProcessing.ScatterComesBeforeItsLine | components/data_processing.py:76-87 | each scatter is non-empty and comes right before its own party's line; the list ends with a line |
| MainPage.RecentSorted | main.py:20-24 | the result is sorted by date and holds exactly the rows inside the window, with their multiplicities |
| MainPage.FilterStaysInsideWindow | main.py:20-21 | the component's filtered rows are a sub-multiset of the page's windowed rows |
| MainPage.MaxDate | main.py:30 | the maximum date is attained by some row and bounds every row |
| MainPage.FirstDated | main.py:32 | the first row carrying a given date |
| MainPage.LatestIndex | main.py:30-38 | the first row with the latest date; None (IndexError) exactly when the table is empty |
| MainPage.Rescale | main.py:67-68 | a present value is rescaled, and NaN stays NaN |
| MainPage.RescaledUpTo | main.py:66-68 | the partial loop keeps every column, and which values are NaN |
| MainPage.NormalizedRow | main.py:62-69 | normalisation keeps every column, and which values are NaN; a row whose total is 0 comes back unchanged |
| MainPage.NormalizePollRow | main.py:62-69 | the loop computes the normalised row |
| MainPage.RescaledElsewhere | main.py:66-68 | a column the loop has not yet visited keeps its value |
| MainPage.NormalizedLeavesOthers | main.py:62-69 | columns outside `party_names` come out unchanged |
| MainPage.RescaledAt | main.py:66-68 | with distinct names, each visited column holds its original value rescaled exactly once |
| MainPage.ScaledTotal | main.py:63 | scaling every listed value by a factor scales the NaN-skipping total by that factor |
| MainPage.RescaleFactor | main.py:68 | rescaling multiplies a value by 100 / total |
| MainPage.TotalOfBounds | main.py:63 | NaN values add nothing: a row with no listed value totals 0, and non-negative values give a non-negative total |
| MainPage.RescaledScales | main.py:66-68 | with distinct names, the loop multiplies every listed value by 100 / total |
| MainPage.NormalizedSumsTo100 | main.py:62-69 | when the total is not 0, the present listed values of the normalised row add up to 100 |
| MainPage.NormalizedKeepsRatios | main.py:62-69 | normalisation keeps the ratio between any two present listed values |
| MainPage.NormalizeFrame | main.py:75-79 | a copy with every row normalised; each row totals 100 or is unchanged |
| MainPage.MainPartyNamesDistinct | main.py:72 | `party_names` holds six distinct names |
| MainPage.MainTableIsShownPrefix | main.py:52-59 | the page's six-party table is the shared configuration's first six entries |
| MainPage.ShownOfPartyConfig | main.py:52-59 | the drawn part of the shared configuration is the page's six-party table |
| MainPage.MainChartMatchesComponent | main.py:99-144 | the page's chart loop yields the same datasets as `prepare_chart_datasets` over the shared configuration |
| MainPage.AbbreviationsAreNotMainNames | moving_average.py:10-21 | no abbreviation in the mapping spells one of the page's six display names |
| MainPage.RenamedTableLacksMainNames | moving_average.py:32 | after the rename, none of the page's six display names is a column |
| MainPage.NormalizeAfterRenameRaises | main.py:62-79 | on the renamed frame, `normalize_poll_row` cannot find its first display name: KeyError for every row |
| MainPage.PageChartAfterRenameHasNoScatter | main.py:115-122 | on the renamed frame, the page's chart loop finds no poll column and draws lines only |
| CacheManager.LoadOutcome | utils/cache_manager.py:27-48 | hit iff the file exists, reads cleanly and is at most 6 hours old, returning the saved data; pickle, key and value errors are misses; other read errors propagate |
| CacheManager.CacheProjection | utils/cache_manager.py:50-56 | the cached dictionary has exactly the three kept keys with their values; None (KeyError) when one is absent |
| CacheManager.DiskCache.constructor | utils/cache_manager.py:29-31 | no cache file yet |
| CacheManager.DiskCache.Save | utils/cache_manager.py:16-24 | the slot holds the data stamped with the save time |
| CacheManager.DiskCache.Load | utils/cache_manager.py:27-48 | loading answers as `LoadOutcome` and changes nothing |
| CacheManager.DiskCache.CacheData | utils/cache_manager.py:50-57 | saves the projected dictionary; when a key is missing, it raises before writing |
| CacheManager.NoFileIsMiss | utils/cache_manager.py:29-31 | with no file, every load is a miss |
| CacheManager.ExpiryBoundary | utils/cache_manager.py:38-41 | an entry exactly 6 hours old is served; one microsecond older is not |
| CacheManager.FutureEntryServed | utils/cache_manager.py:38-41 | an entry stamped in the future (the clock went back) is served |
| CacheManager.FaultsOnExistingFile | utils/cache_manager.py:46-48 | pickle, key and value errors are misses; EOFError, OSError and any other exception propagate |
| CacheManager.SaveThenLoad | utils/cache_manager.py:16-45 | saving, then loading within 6 hours, returns exactly the saved data |
| CacheManager.CachedRoundTrip | utils/cache_manager.py:50-57 | caching, then loading in time, returns exactly the keys `df`, `df_weighted_ma` and `all_party_columns` |
| VisitLogger.RewriteScheme | utils/logger.py:11-12 | the result never starts with `redis://`: a `redis://` URL becomes `rediss://` with the rest kept; any other URL is unchanged |
| VisitLogger.TlsIsNotPlain | utils/logger.py:11 | a `rediss://` URL does not start with `redis://` |
| VisitLogger.RewriteIdempotent | utils/logger.py:11-12 | rewriting twice is the same as rewriting once |
| VisitLogger.RedisUrl | utils/logger.py:7-12 | no URL when `REDIS_URL` is unset or empty; otherwise a non-empty URL that never uses the plain `redis://` scheme, and a non-plain setting is used as given |
| VisitLogger.RedisConnection | utils/logger.py:6-19 | a client exactly when `REDIS_URL` is set, non-empty and `from_url` does not raise; its URL never uses `redis://`, and a `redis://` setting is upgraded with the rest kept |
| VisitLogger.FirstHeader | utils/logger.py:33-36 | the value of the first listed header present; None iff none is present |
| VisitLogger.BeforeComma | utils/logger.py:36 | `split(',')[0]` is the longest comma-free prefix |
| VisitLogger.LeadingSpaces | utils/logger.py:36 | the length of the run of leading whitespace |
| VisitLogger.TrailingStart | utils/logger.py:36 | where the run of trailing whitespace starts |
| VisitLogger.Strip | utils/logger.py:36 | `strip()` is a contiguous piece with only whitespace cut from either end, and starts and ends with non-whitespace |
| VisitLogger.GetClientIp | utils/logger.py:21-39 | None iff no listed header is present; otherwise a comma-free, stripped address |
| VisitLogger.ClientIpPriority | utils/logger.py:33-36 | the address comes from the highest-priority header present, even when that header is empty |
| VisitLogger.BeforeFirstComma | utils/logger.py:36 | `split(',')[0]` returns exactly the text before the first comma |
| VisitLogger.FirstOfChain | utils/logger.py:36 | a proxy chain gives its first hop |
| VisitLogger.StripOfPadded | utils/logger.py:36 | padding around an address is removed |
| VisitLogger.ClientIpExamples | utils/logger.py:21-39 | a padded chain gives its first address; an empty forwarded-for header gives `""` rather than falling through |
| VisitLogger.Trimmed | utils/logger.py:61 | `LTRIM 0 999` keeps the first (newest) min(n, 1000) entries |
| VisitLogger.LoggedList | utils/logger.py:41-63 | the list is unchanged, or has the new record at its head followed by a prefix of the old list; it changes only with a client and no record or push failure; after a clean log it holds at most 1000 entries |
| VisitLogger.VisitStore.constructor | utils/logger.py:58 | an empty `visit_logs` list |
| VisitLogger.VisitStore.LogVisit | utils/logger.py:41-63 | the list after one `log_visit`: unchanged without a client or when the push fails; the record pushed otherwise; trimmed unless the trim fails |
| VisitLogger.LoggedVisitAtHead | utils/logger.py:58-61 | after a clean log, the new record is at the head, the older ones follow in order, and at most 1000 are kept |
| VisitLogger.NothingLoggedWithoutPush | utils/logger.py:42-45 | without a client, or when the push fails, the list is untouched |
| VisitLogger.FailedTrimKeepsPush | utils/logger.py:58-63 | a failed trim leaves the pushed record, so the list can exceed 1000 |
| VisitLogger.CapPreserved | utils/logger.py:61 | a list within the cap stays within it after a clean log |

## Left out

- Reading the CSV over the network, and parsing `Data Inserimento` with `to_datetime`: the table arrives already read, with dates as day numbers.
- The exponentially weighted moving average (`calculate_weighted_ma`, a 14-day half-life over `ewm`): the smoothed `_MA` series are a parameter of the chart functions. Only its name mapping is modelled.
- Coalition aggregation and the forecasting, about and chart-rendering routes: they are not part of this model.
- Floating point: values are exact reals.
  - `round(value, 1)`, `round(value, 2)` and `.round(...)` are omitted.
  - `(v / total) * 100` is exact, so a normalised row sums to exactly 100.
- PercentParsing.ParsePercent: reads a subset of Python's `float` grammar: an optional sign, digits, and at most one '.', with at least one digit. Exponents, `inf`/`nan`, underscores and surrounding whitespace read as missing.
- DataProcessing.ConvertCell:
  - a text cell that `float` cannot read becomes missing, as in the source;
  - a cell counts as a whole number when the model's cell says so, whatever numeric type pandas would hand the loop.
- Frames.Reading: a text cell that is still present when summing or plotting counts as missing. The source would raise TypeError there.
- Frames.SortByDate: the sort is a stable insertion sort, and only "sorted and a permutation" is promised. pandas' default quicksort is not stable, so the order of rows with equal dates is not modelled.
- Duplicate column names are not modelled: columns are keys of a map.
- MainPage.NormalizedRow: requires its listed columns to exist (`HasColumns`); a missing one raises KeyError in the source. The sum-to-100 and ratio lemmas assume distinct names, and the page's six names are distinct.
- The page's pipeline is not composed end to end. `df = calculate_weighted_ma(df)` (main.py:26) keeps the frame that moving_average.py:32 renamed, so the copy normalised at main.py:75-79 has abbreviated columns. The consequences are stated under "## Findings": `normalize_poll_row` raises KeyError, and the scatter check at main.py:116 never matches. Were it not for the KeyError, the second smoothing (main.py:82) would find only the four self-named parties (`+Europa`, `Azione`, `Italia Viva`, `Altri`) among the columns, so main.py:85-93 would read the six main parties' `_MA` values of the first smoothing. `normalize_poll_row` is modelled on its own, on a row that has its listed columns (`HasColumns`), which is what the page evidently means to do.
- The latest-value lookups (main.py:30-38 and main.py:85-93) are modelled once, as MainPage.LatestIndex.
- DataProcessing.FilterData: works on rows alone, where a row without an anchor column counts as missing. The KeyError of a table without the column (components/data_processing.py:33) is modelled by DataProcessing.FilterTable.
- DataProcessing.PrepareChartDatasets: requires the `_MA` series of every drawn party (`HasSmoothedSeries`); so do DataProcessing.ChartDatasets and DataProcessing.PartyDatasets. The smoothing step creates the series only for display names present in the table (moving_average.py:27), and components/data_processing.py:56 raises KeyError when it is absent; that error path is not modelled.
- Chart styling: colours are kept, but border widths, tension, point radii, `order` and `hidden` flags are not.
- The debug text, the Italian date formatting and the HTML of the page.
- Cache: `ensure_cache_dir`, the file path, pickling and `print` messages are left out.
  - Reading the file is reduced to the exception it raises, if any.
  - An OSError while saving is not modelled: a save always succeeds.
- Visit log:
  - the Redis client and its connection are reduced to the list they keep;
  - JSON encoding, and the `timestamp` as an ISO string, are replaced by an integer time;
  - `print` messages are left out;
  - any exception raised while building or encoding the record is one fault value (`RecordFails`).

## Findings

| source | as written | input that shows it | evidently intended | confidence | as-written member | corrected member |
|---|---|---|---|---|---|---|
| main.py:26 | `df = calculate_weighted_ma(df)` keeps the frame renamed at moving_average.py:32, so `normalize_poll_row` (main.py:63) indexes display names that are no longer columns, and the scatter check at main.py:116 never matches | any poll table: its `Fratelli d'Italia` column is named `FDI` after the first smoothing, and `row["Fratelli d'Italia"]` raises KeyError | normalise and plot the display-name party columns, so each poll's six parties sum to 100 | medium, not executed | MainPage.NormalizeAfterRenameRaises | MainPage.NormalizeFrame |
