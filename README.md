# Measurement aggregation of the current-transformer test bench

This project models, in Dafny, the data pipeline behind the transformer
measurements in `03_Ressourcen/messungen`. Raw logger exports (one
`ValueY` column per device and phase) are cut into load-level windows by
the interactive tools (`messdaten_selektor.py`, `plotly_chart.py`,
`manual_tagger.py`) or re-cut by `fix_duration_600.py`. They are written
as "sorted" files with one `{level}_{phase}_{device}_I` column per
channel. `create_db.py` (and its predecessor `daten_aggregator.py`) reads
these back and computes mean/deviation records against a reference
device and against the nominal current. It merges them into the
measurement store and reattaches the operator's sidecar data per base
type. `precalc.py` is the older plateau detector working directly on raw
files. `dashboard_new.py` reads the store, completes missing columns,
derives display names and writes the operator's edits back.

The modules follow that structure:

| module (file) | what it holds |
|---|---|
| `Text` (text.dfy) | strings: search, replace, split/join, strip, ASCII/Latin-1 lower-casing, ASCII upper-casing, decimal digits |
| `Ordering` (ordering.dfy) | Python's string order, sorting and duplicate-free sorted lists |
| `Domain` (domain.dfy) | load levels, phases, store cells, coerced numeric columns, `dropna`/`fillna`, mean |
| `BaseTypes` (basetypes.dfy) | `extract_base_type` |
| `FileNames` (filenames.dfy) | every `extract_metadata` variant |
| `Channels` (channels.dfy) | sorted-file column resolution, `devices_map`, reference choice |
| `Emission` (emission.dfy) | `analyze_sorted_file` record emission |
| `StoreMerge` (storemerge.dfy) | deduplication and the sidecar rescue of `main` |
| `RawDevices` (rawdevices.dfy) | `identify_devices`, device/phase column lookup, `load_all_data` |
| `Windows` (windows.dfy) | start/end callbacks, `reset_values`, default reference index |
| `Frames` (frames.dfy) | the `df_export[col] = series` data frame growth of the writers |
| `SortedFile` (sortedfile.dfy) | the column names and slices a writer emits for one level |
| `Writers` (writers.dfy) | `save_sorted_raw_data` of the three interactive tools |
| `DurationFix` (durationfix.dfy) | `fix_duration_600.py`: range recomputation, device order, export |
| `RoundTrip` (roundtrip.dfy) | writer output read back by `analyze_sorted_file` |
| `Tagging` (tagging.dfy) | prefix-based reference/DUT choice of `manual_tagger.py` and `precalc.py` |
| `Plateaus` (plateaus.dfy) | the plateau rules of `analyze_file` in `precalc.py` |
| `Dashboard` (dashboard.dfy) | `parse_filename_info`, `get_trumpet_limits`, `auto_format_name` |
| `DashboardStore` (dashboardstore.dfy) | `load_data` and the save loop of the sidecar editor |

Files and tables are in-memory values. A CSV table is a sequence of named
columns of coerced cells, `Option<real>`. The store is a map from column
name to cells. Means are arithmetic means over `real`. Standard
deviations are a function parameter, because only the emission rules
matter here and not the floating-point values. Regular expressions are
hand-written predicates for the specific patterns.

Where the loop structure of the source is the point (collecting tokens,
filling `devices_map`, the nested export loops, the save loop), the
model is a `method` with loop invariants. Each such method is proved
equal to a specification function. The properties are proved as lemmas
about that function.

Where the system's written description and its code disagree, the model
follows the code:

- The sidecar rescue of `create_db.py` keeps the FIRST old row of each
  base type (`drop_duplicates(subset=["base_type"])` at
  `create_db.py:215-217` keeps the first duplicate), not the most
  recently edited one.
- A sidecar column absent from the rescued values is reattached as `0.0`
  (`v.get(col, 0.0)` at `create_db.py:275`), the comment column included.
- `fix_duration_600.py` cuts windows to 560 samples (`NEW_DURATION` at
  `fix_duration_600.py:12`), not the 600 its file name suggests.
- The columns `create_db.py` rescues (`META_COLS`, `create_db.py:17`,
  with "L (mm)") are not the ones the dashboard edits (`META_COLS_EDIT`,
  `dashboard_new.py:26-33`, with "Nennbürde (VA)" and "T (mm)"), so
  edits to those two columns do not survive a rebuild of the store. Both
  lists are modelled as written.

## Model

| member | source | states |
|---|---|---|
| BaseTypes.ExtractBaseType | 03_Ressourcen/messungen/create_db.py:20-37 | the token loop yields `BaseTypeOf(key)`: the tokens between separator runs that are not empty, not a burden and not a wiring/phase word, joined by single spaces |
| BaseTypes.BaseTokensClean | 03_Ressourcen/messungen/create_db.py:25-36 | every base-type token is a non-empty, separator-free token of the key that is neither `\d+R\d*` (any case) nor one of parallel/dreieck/messstrecke/l1/l2/l3 |
| BaseTypes.KeptTokensOfKept | 03_Ressourcen/messungen/create_db.py:27-36 | a token list with nothing to drop passes the filter unchanged |
| BaseTypes.BaseTypeIdempotent | 03_Ressourcen/messungen/create_db.py:20-37 | normalising a base type again gives the same base type |
| BaseTypes.BaseTypeIgnoresDroppedToken | 03_Ressourcen/messungen/create_db.py:25-36 | inserting or removing a burden/wiring/phase token between separators leaves the base type unchanged |
| BaseTypes.BaseTypeIgnoresTrailingToken | 03_Ressourcen/messungen/create_db.py:25-36 | the same for such a token at the end of the key |
| BaseTypes.BurdenTokenDropped | 03_Ressourcen/messungen/create_db.py:29-30 | every token made of one or more digits, "R" or "r", and any digits (such as "8R1" or "10r") is a burden token and is dropped |
| BaseTypes.BurdenTokenShape | 03_Ressourcen/messungen/create_db.py:29 | conversely, every burden token splits into a non-empty digit run, "R" or "r", and digits |
| BaseTypes.TopologyWordDropped | 03_Ressourcen/messungen/create_db.py:32-33 | every spelling of parallel/dreieck/messstrecke/l1/l2/l3 with any of its letters upper-cased is dropped |
| BaseTypes.BurdenAndWiringVariantsShareBaseType | 03_Ressourcen/messungen/dashboard_new.py:152-164 | a key followed by a burden and a wiring token has the same base type as the key alone, so all variants share one sidecar entry |
| FileNames.Basename | 03_Ressourcen/messungen/create_db.py:41 | the file name is the "/"-free suffix after the last "/" |
| FileNames.AmpDigits | 03_Ressourcen/messungen/create_db.py:45 | the captured group is a non-empty run of digits |
| FileNames.FirstAmpMatch | 03_Ressourcen/messungen/create_db.py:45 | `re.search` finds the leftmost `[-_]\d+A[-_]` match, or there is none |
| FileNames.RatedCurrentReadBack | 03_Ressourcen/messungen/create_db.py:45-46 | a current written as `-<n>A-` after a separator-free prefix is read back as n |
| FileNames.TrailingRatedCurrentIsMissed | 03_Ressourcen/messungen/create_db.py:45-46 | a trailing `-100A` with no separator after it gives 0 |
| FileNames.FirstBrand | 03_Ressourcen/messungen/create_db.py:48-58 | the manufacturer is the name of the first keyword in priority order that occurs in the lower-cased name, else the fallback |
| FileNames.ReferenceLineOutranksBrands | 03_Ressourcen/messungen/create_db.py:49-50 | a name containing "messstrecke" is always "Messstrecke" |
| FileNames.ManufacturerCases | 03_Ressourcen/messungen/daten_aggregator.py:36-47 | the manufacturer is one of the five names, and "Andere" exactly when no keyword occurs |
| FileNames.ExtractMetadata | 03_Ressourcen/messungen/create_db.py:40-83 | file name, folder, current and manufacturer come from the name without "_sortiert.csv"; the key is the manufacturer, a space and the model name guessed from that name with that manufacturer and current |
| FileNames.ModelNameParts | 03_Ressourcen/messungen/create_db.py:61-72 | a "-" separated part of the name is kept exactly when it does not start with four digits, does not contain the manufacturer (any case) and does not contain the current's digits; kept parts are "-"-free; the model name is the kept parts joined by "_", or the whole name when none is kept |
| FileNames.LegacyModelNameParts | 03_Ressourcen/messungen/precalc.py:35-45 | a part is kept exactly when it does not start with four digits, is not the manufacturer's name (any case), does not contain the current's digits and does not contain ".csv"; the model name is the kept parts joined by "_", or "Standard" when none is kept |
| FileNames.ExtractLegacyMetadata | 03_Ressourcen/messungen/precalc.py:15-56 | the folder has every "_" replaced by " "; current and manufacturer (mbs/celsa/redur/"Unbekannt") come from the full file name; the key is `LegacyKey` of the manufacturer, the model name of that file name and the current |
| FileNames.LegacyKey | 03_Ressourcen/messungen/precalc.py:47 | the key is the manufacturer, a space, the model name and " (<current>A)", so it starts with the manufacturer and ends in the current |
| FileNames.CleanNameOfCsv | 03_Ressourcen/messungen/messdaten_selektor.py:96-101 | the clean name of `<stem>.csv` is the stem |
| FileNames.OriginalNameOfSortedFile | 03_Ressourcen/messungen/create_db.py:42 | the original name of `<stem>_sortiert.csv` is the stem |
| Channels.Search | 03_Ressourcen/messungen/create_db.py:114-115 | `re.search` on a column finds the leftmost match of the pattern, or there is none |
| Channels.DeviceOf | 03_Ressourcen/messungen/create_db.py:114-120 | a resolved device name is non-empty and holds no line break |
| Channels.NewFormatResolves | 03_Ressourcen/messungen/create_db.py:114-118 | `{prefix}_{d}_I` resolves to d |
| Channels.OldFormatResolves | 03_Ressourcen/messungen/create_db.py:115-120 | `{prefix}_I_{d}` resolves to d unless the new pattern also matches, in which case the new one wins |
| Channels.GroupColumns | 03_Ressourcen/messungen/create_db.py:93-107 | a group's columns are exactly those containing "_I" and starting with `{lvl:02d}_{phase}` |
| Channels.Assign | 03_Ressourcen/messungen/create_db.py:118-120 | dict assignment keeps an existing key's place, appends a new key, and keeps keys unique |
| Channels.BuildDevicesMap | 03_Ressourcen/messungen/create_db.py:111-120 | the column loop builds `DevicesMap(cols, prefix)` |
| Channels.DevicesMapSound | 03_Ressourcen/messungen/create_db.py:111-120 | the map's keys are unique, and every entry is one of the columns naming that entry's device |
| Channels.DevicesMapComplete | 03_Ressourcen/messungen/create_db.py:111-120 | every device a column names is a key of the map |
| Channels.DevicesMapLastWins | 03_Ressourcen/messungen/create_db.py:118-120 | of several columns naming one device, the last one is kept |
| Channels.DevicesMapEmpty | 03_Ressourcen/messungen/create_db.py:122-123 | the map is empty exactly when no column names a device, and then the group emits nothing |
| Channels.FirstWith | 03_Ressourcen/messungen/create_db.py:128-131 | the first device whose lower-cased name contains the keyword, or none |
| Channels.KeywordReference | 03_Ressourcen/messungen/create_db.py:126-133 | the reference is the first hit of the earliest keyword that hits any device; none exactly when no keyword hits |
| Channels.ReferenceIsDevice | 03_Ressourcen/messungen/create_db.py:126-139 | the reference is always a key of `devices_map` |
| Channels.FallbackIsLeast | 03_Ressourcen/messungen/create_db.py:136-137 | without a keyword hit the reference is the lexicographically least device |
| Channels.FirstKeywordWins | 03_Ressourcen/messungen/daten_aggregator.py:116-125 | if any device contains the first keyword ("pac1"), the reference contains it |
| Channels.FindFirstWith | 03_Ressourcen/messungen/create_db.py:128-131 | the inner loop with `break` finds `FirstWith` |
| Channels.SelectReference | 03_Ressourcen/messungen/create_db.py:126-137 | the nested keyword/device loop with fallback returns `Reference(keys, keywords)` |
| Emission.NominalPositive | 03_Ressourcen/messungen/create_db.py:101 | for a positive level the nominal current is positive exactly when the rated current is |
| Emission.AnalyzeSortedFile | 03_Ressourcen/messungen/create_db.py:86-198 | an unreadable file gives no records and "Lesefehler"; no "_I" column gives none and "Keine Strom-Daten gefunden"; otherwise "OK" with the records of every level and phase in order |
| Emission.FindValueColumn | 03_Ressourcen/messungen/create_db.py:93-95 | the scan reports whether some stripped name contains "_I" |
| Emission.AnalyzeLevels | 03_Ressourcen/messungen/create_db.py:99-101 | the level loop appends each level's records in order |
| Emission.AnalyzePhases | 03_Ressourcen/messungen/create_db.py:103-109 | the phase loop appends each phase's records in order |
| Emission.AnalyzeGroup | 03_Ressourcen/messungen/create_db.py:104-196 | one level and phase: build the map, choose the reference, emit the device records in map order |
| Emission.EmitEntries | 03_Ressourcen/messungen/create_db.py:146-196 | the device loop emits the records of every device of the group, in map order |
| Emission.FileRecordsWellFormed | 03_Ressourcen/messungen/daten_aggregator.py:139-188 | every record carries the file's key, folder and current, a known phase and level; a `nominal_ref` record has ref "Nennwert", std 0 and the positive nominal current; in the older generation a `device_ref` record never compares a device with itself |
| Emission.DeviceRecordsWellFormed | 03_Ressourcen/messungen/create_db.py:155-196 | the records of one device carry the file's identity and the level; a `device_ref` record has a positive reference mean and names a device other than the reference, unless it is a placeholder renamed to "<manufacturer> (Prüfling)" |
| Emission.DeviceCounts | 03_Ressourcen/messungen/create_db.py:146-196 | a device with an empty series emits nothing; otherwise one `nominal_ref` record iff the nominal current is positive, and one `device_ref` record iff the reference mean is positive and the device is not the reference |
| Emission.EntriesCounts | 03_Ressourcen/messungen/create_db.py:146-196 | over the map: as many `nominal_ref` records as devices with data (when nominal > 0), as many `device_ref` records as non-reference devices with data (when ref mean > 0) |
| Emission.GroupCounts | 03_Ressourcen/messungen/create_db.py:139-196 | per level and phase: every device with data gets a `nominal_ref` record, the reference included; every other device with data gets exactly one `device_ref` record |
| Emission.OthersWithDataOfReference | 03_Ressourcen/messungen/create_db.py:173 | with unique keys, skipping the reference drops exactly one device with data |
| Emission.EmptySeriesEmitNothing | 03_Ressourcen/messungen/create_db.py:147-149 | a group whose series are all empty emits no record |
| StoreMerge.DedupLastKeys | 03_Ressourcen/messungen/create_db.py:245-256 | `drop_duplicates(keep="last")` loses no key and keeps no key twice |
| StoreMerge.DedupLastKeepsLast | 03_Ressourcen/messungen/create_db.py:245-256 | the last occurrence of every key is kept |
| StoreMerge.DedupLastOnlyLast | 03_Ressourcen/messungen/create_db.py:245-256 | every kept row is the last occurrence of its key |
| StoreMerge.DedupLastOfUnique | 03_Ressourcen/messungen/create_db.py:245-256 | rows with distinct keys are all kept, in order |
| StoreMerge.DedupLastIdempotent | 03_Ressourcen/messungen/create_db.py:245-256 | deduplicating twice is the same as once |
| StoreMerge.SecondMeasurementSurvives | 03_Ressourcen/messungen/daten_aggregator.py:215-225 | two records differing only in the raw file both survive the seven-field key of `create_db.py`; the six-field key of `daten_aggregator.py` keeps only the later one |
| StoreMerge.CollectFile | 03_Ressourcen/messungen/create_db.py:229-235 | one pass of the file loop adds the file's records; the status is only logged |
| StoreMerge.AllRecordsStep | 03_Ressourcen/messungen/create_db.py:227-232 | `all_data` after one more file is the old list followed by that file's records |
| StoreMerge.CollectRecords | 03_Ressourcen/messungen/create_db.py:227-235 | the file loop collects the records of all files in file order |
| StoreMerge.AggregateLegacy | 03_Ressourcen/messungen/daten_aggregator.py:193-228 | nothing is written when no record was extracted; otherwise the records deduplicated on the six-field key |
| StoreMerge.Default | 03_Ressourcen/messungen/create_db.py:263-267 | a new row's operator column starts as 0.0 for "Preis"/"mm" columns and "" otherwise, never missing |
| StoreMerge.RescueSidecar | 03_Ressourcen/messungen/create_db.py:204-221 | no previous store gives an empty map; otherwise the values of the first row of every base type |
| StoreMerge.RescueFirst | 03_Ressourcen/messungen/create_db.py:215-218 | the rescued values of a base type are those of its first row in the old store |
| StoreMerge.RescueAbsent | 03_Ressourcen/messungen/create_db.py:215-218 | a base type with no old row has no rescued values |
| StoreMerge.RescueKeys | 03_Ressourcen/messungen/create_db.py:215-218 | the rescued base types are exactly those of the old rows |
| StoreMerge.RescueValues | 03_Ressourcen/messungen/create_db.py:215-218 | every rescued entry is the values of some old row of that base type |
| StoreMerge.Merged | 03_Ressourcen/messungen/create_db.py:272-281 | a merged operator cell is never missing |
| StoreMerge.PartialMetaStep | 03_Ressourcen/messungen/create_db.py:272-281 | merging one more column overwrites exactly that column |
| StoreMerge.PartialMetaEnds | 03_Ressourcen/messungen/create_db.py:263-281 | before the merge loop every row holds the defaults; after it, the merged values |
| StoreMerge.MergeColumns | 03_Ressourcen/messungen/create_db.py:259-281 | the default and merge loops produce, for every kept record, its base type and merged operator columns |
| StoreMerge.UpdateStoreMethod | 03_Ressourcen/messungen/create_db.py:201-284 | `main` writes nothing when no record was extracted, else the deduplicated records with merged columns |
| StoreMerge.RescuedValueReattached | 03_Ressourcen/messungen/create_db.py:272-281 | a row whose base type has an old row gets that first row's value for every column the old row holds (when not missing) |
| StoreMerge.AbsentColumnReadsZero | 03_Ressourcen/messungen/create_db.py:275 | a column the old store lacks reads as 0.0 for a known base type, "Kommentar" included |
| StoreMerge.UnknownBaseKeepsDefaults | 03_Ressourcen/messungen/create_db.py:263-281 | a row whose base type the old store does not know keeps 0.0 for price and dimensions and "" for the comment |
| StoreMerge.RowStable | 03_Ressourcen/messungen/create_db.py:204-218 | a written row, read back as the old store, rescues exactly the operator values it was written with |
| StoreMerge.NewStoreStable | 03_Ressourcen/messungen/create_db.py:241-283 | rebuilding from the same records with the store just written as the old store writes the same rows |
| StoreMerge.UpdateStoreStable | 03_Ressourcen/messungen/create_db.py:201-284 | running the update again on the same sorted files writes the same store: operator columns survive a rebuild |
| RawDevices.CleanHeaders | 03_Ressourcen/messungen/messdaten_selektor.py:57 | every header is stripped of white space and quotes; the cells stay |
| RawDevices.PhaseTokenLength | 03_Ressourcen/messungen/messdaten_selektor.py:66 | the match of `[_ ]?L[123][_ ]?` at the start is empty or at least two characters and never longer than the text |
| RawDevices.RemovePhaseTokens | 03_Ressourcen/messungen/messdaten_selektor.py:66 | removing phase tokens never lengthens the text |
| RawDevices.Found | 03_Ressourcen/messungen/messdaten_selektor.py:60-71 | the device set holds every non-empty name once and nothing else |
| RawDevices.IdentifiedDevices | 03_Ressourcen/messungen/messdaten_selektor.py:52-73 | the devices are strictly sorted, and a name is listed exactly when it is the non-empty cleaned name of a ValueY column |
| RawDevices.IdentifyDevices | 03_Ressourcen/messungen/fix_duration_600.py:38-48 | the set-building loop and sort return the strictly sorted list of exactly the non-empty device names of the ValueY columns |
| RawDevices.IdentifiedDevicesUnique | 03_Ressourcen/messungen/plotly_chart.py:42-62 | two strictly sorted lists naming the same devices are equal, so the device list is determined by the header |
| RawDevices.RemovePhaseTokensPrefix | 03_Ressourcen/messungen/messdaten_selektor.py:66 | a phase-free prefix survives `re.sub` unchanged |
| RawDevices.RawHeaderWithoutMarker | 03_Ressourcen/messungen/messdaten_selektor.py:63 | removing "ValueY" from `{d}{s}L{k}{s'}ValueY` leaves `{d}{s}L{k}{s'}` |
| RawDevices.RawHeaderStripped | 03_Ressourcen/messungen/messdaten_selektor.py:63 | `.strip()` then removes only a trailing blank |
| RawDevices.PhaseTailRemoved | 03_Ressourcen/messungen/messdaten_selektor.py:66-68 | the phase token and its separators are removed, leaving the device name |
| RawDevices.DeviceNameOfRawHeader | 03_Ressourcen/messungen/messdaten_selektor.py:61-71 | a device name without phase token, "ValueY" or separators at its ends is read back exactly from its raw header |
| RawDevices.MatchColumn | 03_Ressourcen/messungen/messdaten_selektor.py:172-186 | the search loop with `break` finds the first ValueY column whose cleaned name is the device and whose raw name contains the phase |
| RawDevices.PhaseMap | 03_Ressourcen/messungen/messdaten_selektor.py:170-196 | a device's entry has exactly the three phases, each with its lookup |
| RawDevices.FetchSeries | 03_Ressourcen/messungen/messdaten_selektor.py:172-196 | one lookup gives the matching column's samples with non-numbers as 0, or `None` |
| RawDevices.LoadPhases | 03_Ressourcen/messungen/messdaten_selektor.py:170-196 | the phase loop writes each phase's series and starts the time axis at the first non-empty series |
| RawDevices.LoadDevices | 03_Ressourcen/messungen/messdaten_selektor.py:163-196 | the device loop builds `full_data` for every device and phase |
| RawDevices.LoadAllData | 03_Ressourcen/messungen/fix_duration_600.py:51-79 | loading returns `None` for an unreadable file, else the time axis and the series of every device and phase |
| RawDevices.TimeLengthIsFirstNonEmpty | 03_Ressourcen/messungen/messdaten_selektor.py:192-194 | the time axis has the length of the first non-empty series looked up, and is empty exactly when every lookup gave none |
| RawDevices.DefaultReferenceIndex | 03_Ressourcen/messungen/messdaten_selektor.py:305-309 | the default reference is the first device mentioning "pac1" or "einspeisung" (any case), else index 0, always a valid index |
| RawDevices.ChartReferenceNotLater | 03_Ressourcen/messungen/plotly_chart.py:294-298 | the chart's longer keyword list finds a device whenever the selector's does, and never a later one |
| RawDevices.FixReference | 03_Ressourcen/messungen/fix_duration_600.py:141-145 | the reference is the first device mentioning pac1/einspeisung, else "PAC1" |
| RawDevices.FixReferencePresent | 03_Ressourcen/messungen/fix_duration_600.py:141-148 | the reference is a device exactly when some device mentions a keyword |
| RawDevices.FilterOnce | 03_Ressourcen/messungen/fix_duration_600.py:147 | leaving out the reference removes exactly one copy from a duplicate-free list |
| RawDevices.DeviceOrderPermutes | 03_Ressourcen/messungen/fix_duration_600.py:147-148 | the export order is a permutation of the devices; the reference leads when it is a device, and the rest is sorted |
| Windows.WindowStart | 03_Ressourcen/messungen/messdaten_selektor.py:40 | `max(0, end - length)` is never negative, at least `end - length`, and one of the two |
| Windows.ProposedWindow | 03_Ressourcen/messungen/messdaten_selektor.py:35-41 | a proposed window is exported (s > 0 and e > s) exactly when the end exceeds the length, and then holds exactly that many samples |
| Windows.FieldKeysDistinct | 03_Ressourcen/messungen/messdaten_selektor.py:27-31 | `s_{level}` and `e_{level}` keys of distinct levels never collide, and no start key is an end key |
| Windows.WithFields | 03_Ressourcen/messungen/messdaten_selektor.py:27-31 | the start-up loop gives every missing field 0 and keeps every other entry |
| Windows.WithFieldsIdempotent | 03_Ressourcen/messungen/messdaten_selektor.py:27-31 | rerunning the start-up loop on every page rerun changes nothing |
| Windows.Cleared | 03_Ressourcen/messungen/messdaten_selektor.py:44-48 | `reset_values` sets both fields of all seven levels to 0 and keeps every other entry |
| Windows.WindowsOf | 03_Ressourcen/messungen/messdaten_selektor.py:226-227 | `start_end_map` has a window for exactly the target levels |
| Windows.NothingExportedAfterReset | 03_Ressourcen/messungen/messdaten_selektor.py:44-48 | after a reset no level is exported |
| Windows.UpdatedWindow | 03_Ressourcen/messungen/plotly_chart.py:25-31 | after the callback, 0 <= start <= end, the window holds at most 500 samples, it is exported exactly when the end exceeds 500, and the other levels' windows are unchanged |
| Windows.Session.constructor | 03_Ressourcen/messungen/messdaten_selektor.py:27-31 | a fresh session holds no field |
| Windows.Session.InitFields | 03_Ressourcen/messungen/messdaten_selektor.py:27-31 | the start-up loop leaves the session at `WithFields` of the old one |
| Windows.Session.UpdateStart | 03_Ressourcen/messungen/messdaten_selektor.py:35-41 | the callback writes only the level's start field, with `max(0, end - 500)` |
| Windows.Session.ResetValues | 03_Ressourcen/messungen/messdaten_selektor.py:44-48 | the reset leaves the session at `Cleared` of the old one |
| Windows.Session.StartEndMap | 03_Ressourcen/messungen/messdaten_selektor.py:226-227 | the export's loop collects the window every level's fields show |
| Windows.Recomputed | 03_Ressourcen/messungen/fix_duration_600.py:119-125 | a recomputed range keeps its end |
| Windows.RecomputedIsProposal | 03_Ressourcen/messungen/fix_duration_600.py:121-125 | the `end == 0` special case gives what `max(0, end - 560)` gives, so it is redundant |
| Windows.RecomputedExported | 03_Ressourcen/messungen/fix_duration_600.py:12 | after the fix a level is exported exactly when its end exceeds 560 and then has exactly 560 samples; the old start plays no part |
| Windows.RecomputedIdempotent | 03_Ressourcen/messungen/fix_duration_600.py:119-125 | running the fix twice gives the ranges of running it once |
| Windows.RecomputedRanges | 03_Ressourcen/messungen/fix_duration_600.py:119-125 | `new_ranges` has the same level keys as the saved ranges |
| Windows.RecomputeRanges | 03_Ressourcen/messungen/fix_duration_600.py:119-125 | the loop builds `new_ranges` as the recomputed ranges |
| Frames.Fit | 03_Ressourcen/messungen/messdaten_selektor.py:250-251 | aligning a series to an index of n rows cuts surplus cells and pads NaN |
| Frames.Put | 03_Ressourcen/messungen/fix_duration_600.py:172-173 | storing under a name adds exactly that name |
| Frames.FrameOf | 03_Ressourcen/messungen/messdaten_selektor.py:220-251 | a frame built by column assignment has the names assigned, and every column has the first series' length |
| Frames.DictOf | 03_Ressourcen/messungen/fix_duration_600.py:151-173 | the export dict has exactly the names stored |
| Frames.MaxLength | 03_Ressourcen/messungen/fix_duration_600.py:176 | the longest series' length bounds every series and is reached |
| Frames.DictFrame | 03_Ressourcen/messungen/fix_duration_600.py:176 | `pd.DataFrame(dict)` keeps the names in order |
| Frames.FrameOfSnoc | 03_Ressourcen/messungen/messdaten_selektor.py:250-251 | assigning one more series is one more column assignment |
| Frames.DictOfSnoc | 03_Ressourcen/messungen/fix_duration_600.py:172-173 | storing one more series is one more dict store |
| Frames.FrameOfDistinct | 03_Ressourcen/messungen/messdaten_selektor.py:220-251 | with distinct names every series stays in its place, cut or padded to the first series' length |
| Frames.DictOfDistinct | 03_Ressourcen/messungen/fix_duration_600.py:151-173 | with distinct names the dict holds the series as stored |
| Frames.TableKeepsSeries | 03_Ressourcen/messungen/fix_duration_600.py:176 | a frame built from a dict keeps every series in full, followed only by NaN |
| Frames.FrameCutsLongerSeries | 03_Ressourcen/messungen/messdaten_selektor.py:250-251 | a later series longer than the first loses its tail under column assignment |
| Frames.TableOfEqualLengths | 03_Ressourcen/messungen/fix_duration_600.py:176 | a dict of equally long series becomes a frame holding them unchanged |
| Frames.FrameIsTableForEqualLengths | 03_Ressourcen/messungen/fix_duration_600.py:151-176 | when all series have one length, column assignment and the dict build the same table |
| SortedFile.GroupPrefixSeparates | 03_Ressourcen/messungen/create_db.py:105-107 | a name starting with one `{lvl:02d}_{phase}_` prefix starts with no other level/phase prefix |
| SortedFile.ColumnNameInjective | 03_Ressourcen/messungen/messdaten_selektor.py:247-248 | distinct level/phase/device/kind give distinct column names |
| SortedFile.DeviceMajor | 03_Ressourcen/messungen/messdaten_selektor.py:234-237 | the device-then-phase loops visit exactly the level's (phase, device) pairs |
| SortedFile.PhaseMajor | 03_Ressourcen/messungen/fix_duration_600.py:162-163 | the phase-then-device loops visit exactly the level's (phase, device) pairs |
| SortedFile.Slots | 03_Ressourcen/messungen/messdaten_selektor.py:226-237 | all loops together visit exactly every level, device and phase |
| SortedFile.SlotsNoRepeats | 03_Ressourcen/messungen/fix_duration_600.py:157-163 | with distinct levels and devices no slot is visited twice |
| SortedFile.TimeCells | 03_Ressourcen/messungen/messdaten_selektor.py:250 | the time column is 0..n-1 |
| SortedFile.SliceCells | 03_Ressourcen/messungen/messdaten_selektor.py:242 | the slice has e - s cells, the samples s..e-1 |
| SortedFile.SlotColumns | 03_Ressourcen/messungen/messdaten_selektor.py:240-251 | one slot writes only its time and current column |
| SortedFile.ExportHas | 03_Ressourcen/messungen/messdaten_selektor.py:226-251 | the columns written are exactly those of the slots visited |
| SortedFile.ExportAppend | 03_Ressourcen/messungen/messdaten_selektor.py:226-251 | the export of two slot runs is the concatenation of their exports |
| SortedFile.ExportSkipped | 03_Ressourcen/messungen/messdaten_selektor.py:230 | a level that is not exported contributes no column |
| SortedFile.NameFromSlot | 03_Ressourcen/messungen/messdaten_selektor.py:240-248 | every name written is a slot's time or current name, for a slot with a series and e <= len |
| SortedFile.ExportNamesDistinct | 03_Ressourcen/messungen/messdaten_selektor.py:247-248 | no two written columns share a name |
| Writers.ExportSnoc | 03_Ressourcen/messungen/messdaten_selektor.py:237-251 | visiting one more slot appends exactly that slot's columns |
| Writers.WriteSlot | 03_Ressourcen/messungen/messdaten_selektor.py:238-251 | the innermost body stores the slot's time and current column when the series exists and reaches the window's end |
| Writers.PhasesPresentAll | 03_Ressourcen/messungen/messdaten_selektor.py:237-238 | the phase loop's lookups all succeed exactly when the device has every phase |
| Writers.ExportedBeforeAll | 03_Ressourcen/messungen/messdaten_selektor.py:226-230 | some level is visited with an exported window exactly when one of the target levels has one |
| Writers.PhaseStep | 03_Ressourcen/messungen/messdaten_selektor.py:237-251 | one phase pass fails only on a missing entry in the strict writers, and otherwise extends the frame by the slot |
| Writers.WritePhases | 03_Ressourcen/messungen/messdaten_selektor.py:237-251 | the phase loop succeeds exactly when lookups cannot raise, and then adds the device's slots to the frame |
| Writers.DeviceStep | 03_Ressourcen/messungen/messdaten_selektor.py:234-251 | one device pass fails only when some device lacks a phase |
| Writers.WriteDevices | 03_Ressourcen/messungen/messdaten_selektor.py:234-251 | the device loop succeeds exactly when every device has every phase (or the writer is not strict), and then adds the level's device-major slots |
| Writers.CoversStep | 03_Ressourcen/messungen/messdaten_selektor.py:234-238 | a device without all phases makes the strict writer fail |
| Writers.SkipLevel | 03_Ressourcen/messungen/messdaten_selektor.py:230 | a level that is not exported adds no column |
| Writers.LevelStep | 03_Ressourcen/messungen/messdaten_selektor.py:226-251 | one level pass fails only when a level is exported and some device lacks a phase |
| Writers.WriteLevels | 03_Ressourcen/messungen/messdaten_selektor.py:220-259 | the three nested loops produce `WriterOutput`: the frame of every slot's columns, or nothing when a lookup raises |
| Writers.LevelsFailed | 03_Ressourcen/messungen/messdaten_selektor.py:256-259 | a strict writer with an exported level and a device missing a phase returns nothing |
| Writers.LevelsDone | 03_Ressourcen/messungen/messdaten_selektor.py:220-255 | when the level loop completes, the output is the frame built |
| Writers.SaveSelector | 03_Ressourcen/messungen/messdaten_selektor.py:213-259 | the selector writes every detected device, sorted, in the `{lvl}_{phase}_{device}_{kind}` format |
| Writers.SaveChart | 03_Ressourcen/messungen/plotly_chart.py:223-241 | the chart writes only the selected devices, skipping absent entries, and writes nothing for an empty selection |
| Writers.LoadedDataCovers | 03_Ressourcen/messungen/messdaten_selektor.py:163-196 | `full_data` as loaded has every phase of every device, so the selector always writes a file |
| Writers.ChartAgreesWithSelector | 03_Ressourcen/messungen/plotly_chart.py:226-241 | for a non-empty selection the chart always writes, and writes what the selector writes when the selector does |
| Writers.RoleData | 03_Ressourcen/messungen/manual_tagger.py:150-175 | the tagger's data seen as two devices "Einspeisung" and "Pruefling", each with the phases of `data_dict` |
| Writers.SaveTagger | 03_Ressourcen/messungen/manual_tagger.py:144-175 | the tagger writes the reference's phases, then the DUT's, in the `{lvl}_{phase}_{kind}_{role}` format |
| Writers.WrittenNamesDistinct | 03_Ressourcen/messungen/messdaten_selektor.py:247-251 | with distinct devices the frame has the names written, in order, none twice |
| Writers.WriterCutsLongerWindows | 03_Ressourcen/messungen/messdaten_selektor.py:250-251 | as written: every column is cut to the first series' length, so a longer later window loses its tail |
| Writers.FullOutputKeepsSeries | 03_Ressourcen/messungen/fix_duration_600.py:176 | the corrected frame keeps every series in full, padding only shorter ones with NaN |
| Writers.FullOutputAgreesForEqualWindows | 03_Ressourcen/messungen/messdaten_selektor.py:226-251 | when all exported windows have one length (as with the proposed 500 samples) both writers produce the same frame |
| Writers.SlotCellsLength | 03_Ressourcen/messungen/messdaten_selektor.py:242-251 | both columns of a slot hold e - s cells |
| DurationFix.LevelWindows | 03_Ressourcen/messungen/fix_duration_600.py:157-160 | a target level gets the window stored under `str(level)`, or `[0, 0]` when the key is absent |
| DurationFix.FixedConfigEntries | 03_Ressourcen/messungen/fix_duration_600.py:109-127 | the run keeps every key; entries without a raw file are unchanged; the others keep their level keys and get, per level, a window ending at the saved end that is exported exactly when that end exceeds 560, then with 560 samples |
| DurationFix.FixedConfigIdempotent | 03_Ressourcen/messungen/fix_duration_600.py:109-127 | running the fix a second time changes no configuration |
| DurationFix.OrderCovered | 03_Ressourcen/messungen/fix_duration_600.py:135-148 | `full_data[dev][phase]` never raises for the export order, which is a duplicate-free permutation of the devices |
| DurationFix.NothingLoaded | 03_Ressourcen/messungen/fix_duration_600.py:136-139 | `not full_data` holds exactly when the raw file has no devices |
| DurationFix.WriteDevices | 03_Ressourcen/messungen/fix_duration_600.py:163-173 | the device loop stores each device's slot columns in the dict |
| DurationFix.PhaseMajorStep | 03_Ressourcen/messungen/fix_duration_600.py:162-163 | one more phase adds that phase's device slots |
| DurationFix.WritePhases | 03_Ressourcen/messungen/fix_duration_600.py:162-173 | the phase loop stores the level's phase-major slot columns |
| DurationFix.SkipLevel | 03_Ressourcen/messungen/fix_duration_600.py:159-161 | a level without an exported window adds no column |
| DurationFix.WriteLevels | 03_Ressourcen/messungen/fix_duration_600.py:157-173 | the level loop stores, for every level whose key has `s > 0 and e > s`, the phase-major columns `{lvl:02d}_{phase}_t/I_{dev}` |
| DurationFix.FixFile | 03_Ressourcen/messungen/fix_duration_600.py:118-178 | steps A and B for one file: the recomputed ranges, and the sorted file or nothing when a read fails or no device is found |
| DurationFix.FileWritten | 03_Ressourcen/messungen/fix_duration_600.py:151-177 | once devices are known, the file is the dict of the export columns framed at once |
| DurationFix.Outputs | 03_Ressourcen/messungen/fix_duration_600.py:109-178 | a key has a written file exactly when it is configured and its result is a file |
| DurationFix.Run | 03_Ressourcen/messungen/fix_duration_600.py:107-182 | `main` leaves the configuration as `FixedConfig`, writes each key's own file, and counts the files written |
| DurationFix.Visit | 03_Ressourcen/messungen/fix_duration_600.py:109-178 | one pass of the key loop updates only its own entry and its own file |
| DurationFix.ProgressStep | 03_Ressourcen/messungen/fix_duration_600.py:127 | visiting a key with a raw file replaces only its entry by the recomputed ranges |
| DurationFix.ProgressDone | 03_Ressourcen/messungen/fix_duration_600.py:109-127 | before the loop the configuration is the loaded one; after it, the fixed one |
| DurationFix.OutputsStep | 03_Ressourcen/messungen/fix_duration_600.py:176-178 | visiting one more key adds its file, if any, and nothing else |
| DurationFix.FixColumnNamesDistinct | 03_Ressourcen/messungen/fix_duration_600.py:168-173 | no two columns of a written file share a name |
| DurationFix.FixColumnsLength | 03_Ressourcen/messungen/fix_duration_600.py:124-166 | after the fix every stored series holds exactly 560 samples |
| DurationFix.FixedFileHoldsColumns | 03_Ressourcen/messungen/fix_duration_600.py:176 | the frame pads nothing: the file holds the stored columns in order, each of 560 samples |
| DurationFix.RecomputedWindow | 03_Ressourcen/messungen/fix_duration_600.py:124-125 | an exported recomputed window holds exactly 560 samples |
| RoundTrip.TimeColumnIgnored | 03_Ressourcen/messungen/create_db.py:93 | a written time column holds no "_I", so the record extraction never considers it |
| RoundTrip.CurrentColumnResolves | 03_Ressourcen/messungen/create_db.py:105-120 | a written current column starts with its level/phase prefix, holds "_I", and resolves to its device in both formats |
| RoundTrip.StripKeepsName | 03_Ressourcen/messungen/create_db.py:92 | stripping the header leaves a written name unchanged |
| RoundTrip.GroupColumnFromSlot | 03_Ressourcen/messungen/create_db.py:105-120 | every column the extraction considers for a level and phase is the current column of a written slot of that level and phase, naming its device |
| RoundTrip.WrittenColumnInGroup | 03_Ressourcen/messungen/create_db.py:105-107 | the current column of every written slot is considered for its level and phase |
| RoundTrip.ReadBack | 03_Ressourcen/messungen/create_db.py:104-123 | for every level and phase the devices found are exactly those whose series were written, each with its own current column |
| RoundTrip.WriterReadBack | 03_Ressourcen/messungen/messdaten_selektor.py:226-253 | a file written by the selector, the chart or the tagger yields for every level and phase exactly the devices whose series were written |
| RoundTrip.FixedFileReadBack | 03_Ressourcen/messungen/fix_duration_600.py:157-177 | the duration fix's file yields for every level and phase exactly the raw file's devices whose series reach the recomputed window's end |
| RoundTrip.RolesReadable | 03_Ressourcen/messungen/manual_tagger.py:158-172 | the tagger's role names "Einspeisung" and "Pruefling" read back |
| Tagging.PrefixOf | 03_Ressourcen/messungen/manual_tagger.py:76 | the prefix of `<device>_<rest>` is the device |
| Tagging.Deduplicated | 03_Ressourcen/messungen/manual_tagger.py:76 | `set(...)`: the result has no repeats and holds exactly the elements of the input |
| Tagging.PrefixList | 03_Ressourcen/messungen/manual_tagger.py:76 | one prefix per value column, in order |
| Tagging.DevicePrefixes | 03_Ressourcen/messungen/manual_tagger.py:76 | the sorted prefixes are strictly ascending and are exactly the prefixes of some value column |
| Tagging.ChosenPairIsSmallest | 03_Ressourcen/messungen/manual_tagger.py:73-81 | no pair exactly when there are fewer than two value columns or all share one prefix; otherwise the reference is the smallest prefix, the device under test the next, and every other prefix is larger than both |
| Tagging.SubstringSharesColumn | 03_Ressourcen/messungen/manual_tagger.py:86-88 | with devices such as "PAC" and "PAC1", the substring test gives the reference the device under test's column, so both roles read the same samples |
| Tagging.RawNamePrefix | 03_Ressourcen/messungen/manual_tagger.py:76 | the prefix of a raw column name is its device |
| Tagging.PairOfTwoColumns | 03_Ressourcen/messungen/manual_tagger.py:76-81 | two columns with different prefixes choose the smaller prefix as the reference, whatever their order |
| Tagging.ByPrefixSeparatesRoles | 03_Ressourcen/messungen/manual_tagger.py:86-88 | matching by prefix gives each role a column of its own prefix, never the same column for both, and finds one exactly when a column of that prefix mentions the phase |
| Tagging.PairsOf | 03_Ressourcen/messungen/manual_tagger.py:86-95 | `data_dict` has exactly the three phases, each with both series or neither |
| Tagging.TimeAxis | 03_Ressourcen/messungen/manual_tagger.py:97-101 | the time axis is as long as the L1 reference series, or empty without it |
| Tagging.FillPhases | 03_Ressourcen/messungen/manual_tagger.py:86-95 | the phase loop builds the `data_dict` of `PairsOf` |
| Tagging.LoadFileData | 03_Ressourcen/messungen/manual_tagger.py:47-103 | `load_file_data` returns the value `LoadedPairs` describes |
| Tagging.LoadedShape | 03_Ressourcen/messungen/manual_tagger.py:66-103 | a file is refused exactly when it is unreadable or no pair is chosen; a loaded one has every phase, both series or neither per phase, a time axis as long as the L1 reference series, and every role and phase the tagger's writer needs |
| Tagging.PhasesCovered | 03_Ressourcen/messungen/manual_tagger.py:144-172 | a `data_dict` with every phase lets the tagger's writer find every phase of both roles |
| Tagging.LoadedSeries | 03_Ressourcen/messungen/manual_tagger.py:87-95 | a phase has series exactly when both devices match a column; they are those columns' samples with non-numbers read as 0 |
| Plateaus.Where | 03_Ressourcen/messungen/precalc.py:114 | `np.where`: exactly the positions whose sample passes, ascending and inside the series |
| Plateaus.Take | 03_Ressourcen/messungen/precalc.py:120-121 | `iloc`: one sample per position, the sample at that position |
| Plateaus.PlateauAt | 03_Ressourcen/messungen/precalc.py:107-146 | a record is labelled with its phase and target level |
| Plateaus.ZeroOutsideBand | 03_Ressourcen/messungen/precalc.py:108-110 | a sample in the band of any target level is positive |
| Plateaus.WhereAll | 03_Ressourcen/messungen/precalc.py:124-126 | where every sample passes, every position is kept |
| Plateaus.PlateauNonZero | 03_Ressourcen/messungen/precalc.py:120-124 | no sample of a plateau is 0 |
| Plateaus.ZeroFilterKeepsAll | 03_Ressourcen/messungen/precalc.py:123-129 | the zero filter keeps both plateau series unchanged |
| Plateaus.PlateauEmits | 03_Ressourcen/messungen/precalc.py:107-146 | a plateau of at least ten samples within the device under test's series yields the record of exactly those samples' statistics |
| Plateaus.EqualLengthsNeverRaise | 03_Ressourcen/messungen/precalc.py:114-121 | with at least as many device samples as reference samples a step never raises |
| Plateaus.PlateauRule | 03_Ressourcen/messungen/precalc.py:107-146 | a step records exactly when at least ten reference samples lie within 3 % of the level and the device under test has each position, raises exactly when it lacks one, and the record holds the statistics of those samples |
| Plateaus.Grid | 03_Ressourcen/messungen/precalc.py:96-107 | the steps are exactly the pairs of a phase and a target level |
| Plateaus.Row | 03_Ressourcen/messungen/precalc.py:107 | the steps of one phase follow the target levels in order |
| Plateaus.ResultsSnoc | 03_Ressourcen/messungen/precalc.py:96-148 | one more step skips, appends its record, or raises; after a raise nothing changes |
| Plateaus.RaisedStays | 03_Ressourcen/messungen/precalc.py:149-150 | once raised, later steps change nothing |
| Plateaus.SkippedSteps | 03_Ressourcen/messungen/precalc.py:99-100 | steps that all skip add no record |
| Plateaus.StepsKeyedAndStamped | 03_Ressourcen/messungen/precalc.py:132-146 | every record a step emits carries its step's phase and level and the file's metadata |
| Plateaus.ResultsKeys | 03_Ressourcen/messungen/precalc.py:96-148 | the records are those of the emitting steps, in step order |
| Plateaus.ResultsStamped | 03_Ressourcen/messungen/precalc.py:134-144 | every record carries the file's key, folder, rated current and file name |
| Plateaus.GridDistinct | 03_Ressourcen/messungen/precalc.py:96-107 | distinct phases and levels give distinct steps |
| Plateaus.GridRecords | 03_Ressourcen/messungen/precalc.py:96-148 | the records of a file are at most one per phase and level, each of the grid and stamped with the file's metadata |
| Plateaus.StepIsPlateau | 03_Ressourcen/messungen/precalc.py:102-107 | with both columns found, each step of the phase is the plateau rule on their series |
| Plateaus.RowSkipped | 03_Ressourcen/messungen/precalc.py:97-100 | with a column missing, every step of the phase skips |
| Plateaus.CollectTargets | 03_Ressourcen/messungen/precalc.py:107-146 | the target loop extends the results by the steps of one phase |
| Plateaus.RowRest | 03_Ressourcen/messungen/precalc.py:149-150 | leaving the target loop early on a raise gives the result of the whole row |
| Plateaus.CollectPlateaus | 03_Ressourcen/messungen/precalc.py:96-146 | the phase loop yields the results of the whole grid |
| Plateaus.GridRest | 03_Ressourcen/messungen/precalc.py:149-150 | leaving the phase loop early on a raise gives the result of the whole grid |
| Plateaus.AnalyzeFile | 03_Ressourcen/messungen/precalc.py:59-150 | `analyze_file` returns the records and status `Analysis` describes |
| Plateaus.AnalysisRecords | 03_Ressourcen/messungen/precalc.py:59-150 | every status but "OK" comes without records; "Kein Nennstrom" exactly for a rated current of 0; with "OK" at most one record per phase and level, each carrying the file's metadata |
| Dashboard.LastIndexOf | 03_Ressourcen/messungen/dashboard_new.py:171 | the position found holds the character and no later one does; none exactly when the character is absent |
| Dashboard.DecimalValue | 03_Ressourcen/messungen/dashboard_new.py:179 | `float(strom_str)` of an accepted field is never negative |
| Dashboard.DecimalOfParts | 03_Ressourcen/messungen/dashboard_new.py:179 | digits, ".", digits (at least one digit) pass the `isdigit` test and read as the whole part plus the fraction digits divided by ten to their number |
| Dashboard.CurrentField | 03_Ressourcen/messungen/dashboard_new.py:178-179 | the field is upper-cased and stripped of every "A"; the result is its decimal value when that passes the `isdigit` test and 0.0 otherwise, never negative |
| Dashboard.CurrentFieldOfFraction | 03_Ressourcen/messungen/dashboard_new.py:178-179 | a field such as "2.5A" or "2.5a" reads as its fractional value |
| Dashboard.ParseFilenameInfo | 03_Ressourcen/messungen/dashboard_new.py:167-184 | a missing cell, or a base name with fewer than five "-" fields once the extension is stripped, gives the "Unbekannt" row; otherwise the current is read from field 3, the burden is field 4, and manufacturer and model are fields 1 and 2 with every "_" shown as " "; the rated current is never negative |
| Dashboard.BasenameIgnoresFolder | 03_Ressourcen/messungen/dashboard_new.py:170 | `os.path.basename` drops the folder |
| Dashboard.ParseIgnoresFolder | 03_Ressourcen/messungen/dashboard_new.py:170-184 | the fields read from a path do not depend on its folder |
| Dashboard.StripExtensionOf | 03_Ressourcen/messungen/dashboard_new.py:171 | `splitext` removes exactly a dot-free extension |
| Dashboard.CurrentFieldOfAmps | 03_Ressourcen/messungen/dashboard_new.py:178-179 | a digit string followed by "A" or "a" reads as the digits' value |
| Dashboard.FieldsReadBack | 03_Ressourcen/messungen/dashboard_new.py:170-172 | five dash-free fields joined by "-" with an extension split back into the same five fields |
| Dashboard.ParseFilenameReadsFields | 03_Ressourcen/messungen/dashboard_new.py:167-182 | a name `date-maker-model-<digits>A-burden.ext` reads back as the maker and model with "_" shown as " ", the digits as the rated current and the burden field |
| Dashboard.ClassLimits | 03_Ressourcen/messungen/dashboard_new.py:229-239 | one limit per load point |
| Dashboard.Mirrored | 03_Ressourcen/messungen/dashboard_new.py:240 | one mirrored limit per limit |
| Dashboard.MirroredTwice | 03_Ressourcen/messungen/dashboard_new.py:240 | mirroring is its own inverse and keeps a missing limit missing |
| Dashboard.TrumpetShape | 03_Ressourcen/messungen/dashboard_new.py:228-241 | three curves over the five load points; the lower is the negated upper; limits are positive and never widen as the load rises; from the rated current on a known class's limit is the class itself; any other class is drawn as class 0.5 |
| Dashboard.ScanTokens | 03_Ressourcen/messungen/dashboard_new.py:250-256 | the token loop collects the name tokens and the label of the last burden token |
| Dashboard.AppendComment | 03_Ressourcen/messungen/dashboard_new.py:267-270 | the comment step appends the shown comment, if any |
| Dashboard.AutoFormatName | 03_Ressourcen/messungen/dashboard_new.py:244-271 | `auto_format_name` returns the name `FormattedName` describes |
| Dashboard.LastBurdenIsLast | 03_Ressourcen/messungen/dashboard_new.py:250-254 | the burden shown is a burden token of the key and no later token is one; without any there is none |
| Dashboard.BaseNameWords | 03_Ressourcen/messungen/dashboard_new.py:247-257 | the base name's words are exactly the key's non-empty, non-burden tokens, in order |
| Dashboard.FormattedNameMentionsDevice | 03_Ressourcen/messungen/dashboard_new.py:258-260 | the display name always mentions the device under test, ignoring case |
| Dashboard.DeviceMentioned | 03_Ressourcen/messungen/dashboard_new.py:259-260 | after the device step the name mentions the device, ignoring case |
| Dashboard.BurdenShownIsLast | 03_Ressourcen/messungen/dashboard_new.py:253-262 | the name ends in the last burden token of the key, with "R" written as ",", followed by " Ω" |
| Dashboard.WiringShown | 03_Ressourcen/messungen/dashboard_new.py:263-266 | "Parallel" exactly when the folder says so; "Dreieck" exactly when it says "dreieck" and not "parallel"; nothing otherwise |
| Dashboard.ZeroCommentHidden | 03_Ressourcen/messungen/dashboard_new.py:267-270 | a blank comment and a "0.0" comment, with any surrounding blanks, are never shown |
| Dashboard.CommentShown | 03_Ressourcen/messungen/dashboard_new.py:267-270 | a comment that is shown ends the name, stripped |
| DashboardStore.Fill | 03_Ressourcen/messungen/dashboard_new.py:205-210 | a default column holds its value in every row |
| DashboardStore.CleanedRawFiles | 03_Ressourcen/messungen/dashboard_new.py:192-196 | every `raw_file` cell becomes its text with a list literal unwrapped |
| DashboardStore.DerivedBaseTypes | 03_Ressourcen/messungen/dashboard_new.py:203-204 | every row's base type is derived from its `wandler_key` |
| DashboardStore.NormalisedComments | 03_Ressourcen/messungen/dashboard_new.py:211-214 | every comment becomes text with "nan" and "None" read as "" |
| DashboardStore.FillMissing | 03_Ressourcen/messungen/dashboard_new.py:205-210 | only the missing listed columns are added, each with its default; every column keeps one cell per row |
| DashboardStore.Prepare | 03_Ressourcen/messungen/dashboard_new.py:192-204 | fails exactly without `base_type` and `wandler_key`; otherwise unwraps `raw_file`, derives a missing `base_type`, and keeps every other column |
| DashboardStore.ColumnListsDisjoint | 03_Ressourcen/messungen/dashboard_new.py:205-210 | no catalogue column is an operator column |
| DashboardStore.StoreColumnsApart | 03_Ressourcen/messungen/dashboard_new.py:192-210 | `raw_file` and `base_type` are neither catalogue nor operator columns |
| DashboardStore.FillDefaults | 03_Ressourcen/messungen/dashboard_new.py:205-210 | a missing catalogue column gets its fixed default, a missing operator column 0.0 (its comment ""); present columns stay |
| DashboardStore.Complete | 03_Ressourcen/messungen/dashboard_new.py:205-214 | the defaults are filled and the comments normalised; no other column changes |
| DashboardStore.LoadData | 03_Ressourcen/messungen/dashboard_new.py:188-215 | `None` exactly without a store; a `KeyError` exactly without `base_type` and `wandler_key`; otherwise the completed table with every column and cell as `LoadedColumns` and `LoadedCells` state |
| DashboardStore.EmptyCommentsStay | 03_Ressourcen/messungen/dashboard_new.py:208-214 | the "" a missing comment column gets survives the normalisation |
| DashboardStore.CommentsNormalised | 03_Ressourcen/messungen/dashboard_new.py:211-214 | after loading no comment reads "nan" or "None", and normalising again changes nothing |
| DashboardStore.CharAbsentNotContained | 03_Ressourcen/messungen/dashboard_new.py:195 | a pattern with a character the text lacks is not found |
| DashboardStore.CleanRawFileUnwrapsList | 03_Ressourcen/messungen/dashboard_new.py:194-196 | `"['name']"` reads back as `name` |
| DashboardStore.Mask | 03_Ressourcen/messungen/dashboard_new.py:1338 | a row is selected exactly when its `raw_file` equals the key |
| DashboardStore.Assign | 03_Ressourcen/messungen/dashboard_new.py:1343 | selected rows take the value, the others keep theirs |
| DashboardStore.ColumnOf | 03_Ressourcen/messungen/dashboard_new.py:1343 | the column written has one cell per row |
| DashboardStore.ApplyEdit | 03_Ressourcen/messungen/dashboard_new.py:1337-1343 | applying one key keeps the height, the shape and `raw_file` |
| DashboardStore.Applied | 03_Ressourcen/messungen/dashboard_new.py:1337-1343 | applying the keys in order keeps the height, the shape and `raw_file` |
| DashboardStore.Matched | 03_Ressourcen/messungen/dashboard_new.py:1339-1340 | at most one count per key |
| DashboardStore.RawFileKept | 03_Ressourcen/messungen/dashboard_new.py:1341-1343 | the edits never change a row's `raw_file` |
| DashboardStore.WriteColumns | 03_Ressourcen/messungen/dashboard_new.py:1341-1343 | each listed column the edit carries is assigned in the selected rows; every other column stays |
| DashboardStore.WrittenIsApplied | 03_Ressourcen/messungen/dashboard_new.py:1338-1343 | what the column loop leaves for a matching key is that key's edit applied |
| DashboardStore.SaveOne | 03_Ressourcen/messungen/dashboard_new.py:1337-1343 | one pass of the key loop extends the applied table by that key's edit and counts the key exactly when its stripped name matches a row of the stored table |
| DashboardStore.EditColumnsDistinct | 03_Ressourcen/messungen/dashboard_new.py:26-33 | the operator columns are listed once each |
| DashboardStore.SaveEdits | 03_Ressourcen/messungen/dashboard_new.py:1333-1349 | the count is the number of keys that match a row, and the table is saved, with every key applied in order, exactly when that count is positive |
| DashboardStore.NothingMatched | 03_Ressourcen/messungen/dashboard_new.py:1344-1349 | nothing is saved exactly when no key names a file of the store |
| DashboardStore.AppliedCells | 03_Ressourcen/messungen/dashboard_new.py:1337-1343 | each cell ends with the value of the last key naming its row's file that carries that column, else keeps what it held |
| DashboardStore.NewColumnUnwritten | 03_Ressourcen/messungen/dashboard_new.py:1341-1343 | a column absent after saving was absent before and never written |
| DashboardStore.OtherColumnsKept | 03_Ressourcen/messungen/dashboard_new.py:1341-1343 | saving changes only operator columns; every other column keeps all its cells |

## Left out

- Reading and writing files: the CSV encoding and separator probing (`try_read_csv`, the read loops of the tools, of `precalc.py` and of `manual_tagger.py`), parquet, JSON and CSV output, and `glob`/`os.walk` discovery. A file is an in-memory table, `None` when no encoding and separator gives more than one column; the store is an optional table.
- Streamlit and plotly: session state beyond the window numbers, widgets, figures, colours, the zip/PDF export, the MATLAB script template and the economic-zone statistics of `dashboard_new.py`, which are presentation and floating-point statistics.
- `dashboard.py`, `hysterese.py` and `cleanup_project.py` are not part of this model: a second UI, floating-point curve drawing and file moves.
- Mean and standard deviation: the mean is the arithmetic mean over `real`, the standard deviation a function parameter, so only which records are emitted and from which samples is proved, not their floating-point values.
- Python's `str` of a float is a parameter (`repr`) wherever a number is turned into text.
- Regular expressions are hand-written predicates for the patterns used. `\d` is modelled for ASCII digits, `\s` and `strip()` for ASCII whitespace plus U+001C-U+001F, U+0085 and U+00A0 (not the other Unicode spaces Python also strips), `lower()` for ASCII and Latin-1 capitals and `upper()` for ASCII letters only; the rest of Unicode is not modelled.
- `os.path.basename` and `splitext` are modelled for "/"-separated paths; the Windows separator is not modelled.
- pandas dtype coercion: cells are `Option<real>` or text, and `pd.to_numeric(..., errors="coerce")` is a given column coercion rather than a number parser.
- Dashboard.ParseFilenameInfo: does not model the `except Exception` branch (the "Fehler" row, `dashboard_new.py:183-184`). It is reached when the current field holds a character that `str.isdigit()` accepts but `float()` rejects, such as a superscript "²" in "2024-MBS-X-²A-5R.csv"; the model only knows ASCII digits, so for such a name it gives 0.0 through the non-decimal branch instead of the "Fehler" row.
- DashboardStore.LoadData: does not model the `trace_id` column and the `target_load` coercion (`dashboard_new.py:197-202`), which only feed the charts.
- The "Infos aus Dateinamen neu einlesen" button (`dashboard_new.py:1307-1321`) is not modelled beyond `parse_filename_info`, which it applies to a column.
- `save_db` success and the cache clearing are left out: saving is the returned table.
- Console and UI messages (`print`, `st.success`, `st.warning`) are not modelled; the statuses they report are.

## Findings

| source | as written | input that shows it | evidently intended | confidence | as-written member | corrected member |
|---|---|---|---|---|---|---|
| 03_Ressourcen/messungen/messdaten_selektor.py:250-251 | `df_export[col] = series` aligns every column on the index the first column gave the empty frame, so a later, longer window is cut to the first window's length | level 5 % exported with window (100, 600) and level 20 % with (700, 1300): the 20 % columns keep only 500 of their 600 samples | every exported series written in full, shorter columns padded, as `fix_duration_600.py:176` does by framing a dict | not executed | Writers.WriterCutsLongerWindows | Writers.FullOutputKeepsSeries |
| 03_Ressourcen/messungen/manual_tagger.py:87-88 | a column is taken for a device when the device's name occurs anywhere in it (`dev_ref in c`) | value columns `PAC1_L1_ValueY` then `PAC_L1_ValueY`: the reference "PAC" and the device under test "PAC1" both get `PAC1_L1_ValueY` (the same lines are at `precalc.py:97-98`) | each role reads a column of its own prefix, never the other role's | not executed | Tagging.SubstringSharesColumn | Tagging.ByPrefixSeparatesRoles |
