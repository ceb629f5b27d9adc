# Solarman Config Manager — a verified model of its core

Solarman Config Manager is a Home Assistant integration. It exports the
configuration of the entities of the `solarman` platform to JSON snapshots
in a backup directory (`solarman_config_backups`). It compares two
snapshots and saves the result as a comparison report. Three sensors show
the saved files, the latest comparison and the latest restore outcome.

This project models that logic in Dafny and proves what it promises:

- `wrappers.dfy` — `Option` and `Result`.
- `json.dfy` — JSON values as the integration loads and stores them. Also
  the Python operations used on them: `dict.get` with and without a
  default, truthiness, `== 0`, and rendering inside an f-string.
- `file_names.dfy` — the two file-name sanitisers, one of the export
  service and one of the compare service.
- `exporter.dfy` — the export service's selection of entities and the
  document it builds.
- `comparator.dfy` — the compare service:
  - indexing both documents by entity id;
  - added, removed and common ids;
  - the writable-domain filter under `config_only`;
  - per-field and per-attribute differences, run as the service runs them
    (field by field, popping the volatile attributes, looping over the
    union of attribute keys) and proved equal to a map specification;
  - the `changed` loop and the report.
- `report_format.dfy` — the `differences` dict and the `changed` list as
  the service builds them in memory, and the report as it is saved.
- `listing.dfy` — the files sensor: glob matching, stems, a descending
  sort and the sensor's update.
- `sensors.dfy` — the comparison-result sensor and the restore-result
  sensor:
  - summary keys with the legacy fallback;
  - the state label;
  - normalisation of list-form `changes`;
  - the timestamp chain;
  - the restore label.
- `round_trip.dfy` — what the comparison sensor shows for what the
  compare service wrote.

## Model

| member | source | states |
|---|---|---|
| Json.Get | custom_components/solarman_config_manager/__init__.py:225 | defines `d.get(key)`: a missing key reads as `None` |
| Json.GetOr | custom_components/solarman_config_manager/sensor.py:140 | defines `d.get(key, default)`: the default replaces only a missing key |
| Json.Truthy | custom_components/solarman_config_manager/sensor.py:158 | defines Python truthiness |
| Json.PyEq | custom_components/solarman_config_manager/__init__.py:248-253 | defines Python `==` on JSON values: `True == 1`, `False == 0`, lists element by element, dicts key by key |
| Json.PyEqReflexive | custom_components/solarman_config_manager/__init__.py:248 | every value equals itself to Python |
| Json.PyEqSymmetric | custom_components/solarman_config_manager/__init__.py:248 | Python equality is symmetric |
| Json.PyEqCommutes | custom_components/solarman_config_manager/__init__.py:248 | `a == b` iff `b == a` |
| Json.PyEqTransitive | custom_components/solarman_config_manager/__init__.py:248 | Python equality is transitive |
| Json.PyEqExamples | custom_components/solarman_config_manager/__init__.py:253 | only `None` equals `None`; `True == 1`, also inside a list; `True != 2` and `"1" != 1` |
| Json.EqualsZeroValues | custom_components/solarman_config_manager/sensor.py:147 | exactly `0` and `False` equal `0` |
| Json.Show | custom_components/solarman_config_manager/sensor.py:150 | defines `f"{v}"`, with placeholders for lists and dicts |
| Json.IntToString | custom_components/solarman_config_manager/sensor.py:150 | defines `str(n)` of a Python integer, with `-` before a negative one |
| FileNames.KeepAllowed | custom_components/solarman_config_manager/__init__.py:61 | the result keeps exactly the input's characters that are ASCII alphanumeric or one of `._- `, and is no longer than the input |
| FileNames.IsAllowed | custom_components/solarman_config_manager/__init__.py:61 | defines the characters the sanitisers keep: ASCII letters and digits and `._- ` |
| FileNames.KeepAllowedFixpoint | custom_components/solarman_config_manager/__init__.py:61 | filtering changes a name exactly when it holds a disallowed character |
| FileNames.KeepAllowedAppend | custom_components/solarman_config_manager/__init__.py:61 | filtering a concatenation filters each part |
| FileNames.StripLeft | custom_components/solarman_config_manager/__init__.py:62 | the result is a suffix of the input; what was removed is all whitespace; the result does not start with whitespace |
| FileNames.StripRight | custom_components/solarman_config_manager/__init__.py:62 | the result is a prefix of the input; what was removed is all whitespace; the result does not end with whitespace |
| FileNames.Strip | custom_components/solarman_config_manager/__init__.py:62 | the result is a slice of the input with only whitespace before and after it, and has no whitespace at either end |
| FileNames.TrimmedAt | custom_components/solarman_config_manager/__init__.py:62 | defines a slice of a name with only whitespace around it |
| FileNames.StripUntrimmed | custom_components/solarman_config_manager/__init__.py:62 | a name without whitespace at either end is not changed by strip |
| FileNames.WithJsonSuffix | custom_components/solarman_config_manager/__init__.py:67-68 | the result ends with `.json`; it is the input or the input plus `.json`; a name already ending in `.json` is unchanged |
| FileNames.ExportFileNameIsSafe | custom_components/solarman_config_manager/__init__.py:56-72 | the export file name has only allowed characters, ends in `.json`, has no whitespace at either end, and is a single path component (non-empty, not `.` or `..`, no `/`, `\` or NUL) |
| FileNames.SafeNameIsComponent | custom_components/solarman_config_manager/__init__.py:71-72 | a non-empty name of allowed characters ending in `.json` is a single path component, so `backup_dir / name` stays in the backup directory |
| FileNames.DefaultExportNameIsSafe | custom_components/solarman_config_manager/__init__.py:57-58 | the generated `solarman_export_<stamp>.json` has only allowed characters, ends in `.json` and has no whitespace at its ends |
| FileNames.CleanedIsAllowed | custom_components/solarman_config_manager/__init__.py:61-62 | filtering then stripping leaves only allowed characters |
| FileNames.SuffixedIsSafe | custom_components/solarman_config_manager/__init__.py:64-68 | adding `.json` to a non-empty filtered and stripped name keeps it safe and untrimmed |
| FileNames.ExportFileNameDefault | custom_components/solarman_config_manager/__init__.py:56-58 | a missing or empty name yields the generated `solarman_export_<stamp>.json` |
| FileNames.ExportFileNameOfGiven | custom_components/solarman_config_manager/__init__.py:61-68 | a given name that is non-empty after filtering and stripping is used, with `.json` added if missing |
| FileNames.ExportFileNameFallback | custom_components/solarman_config_manager/__init__.py:64-65 | a non-empty given name that filters and strips to nothing, such as `" /"`, yields the generated `solarman_export_<stamp>.json` |
| FileNames.ExportFileNameIdempotent | custom_components/solarman_config_manager/__init__.py:56-68 | sanitising an already sanitised export name gives the same name |
| FileNames.ExportFileName | custom_components/solarman_config_manager/__init__.py:56-68 | defines the export sanitiser: default name, filter, strip, fallback, `.json` |
| FileNames.DefaultExportName | custom_components/solarman_config_manager/__init__.py:57-58 | defines `solarman_export_<stamp>.json` |
| FileNames.ComparisonFileName | custom_components/solarman_config_manager/__init__.py:295-296 | defines `comparison_<stamp>.json`, the name of a saved comparison report |
| FileNames.IsPathComponent | custom_components/solarman_config_manager/__init__.py:71-72 | defines a name that `backup_dir / name` keeps inside the directory: non-empty, not `.` or `..`, no separator or NUL |
| FileNames.ExportFileNameStripsSpaces | custom_components/solarman_config_manager/__init__.py:61-68 | example on one input: the export path strips surrounding spaces, `" a"` becomes `a.json` |
| FileNames.StripLeadingSpace | custom_components/solarman_config_manager/__init__.py:62 | strip removes the leading space of a space followed by one non-whitespace character, such as `" a"` |
| FileNames.StripSkipsWhitespace | custom_components/solarman_config_manager/__init__.py:62 | whitespace in front of a name does not change what strip returns |
| FileNames.CompareFileName | custom_components/solarman_config_manager/__init__.py:156-162 | the compare name has only allowed characters, ends in `.json`, and is the filtered input with at most `.json` added (no strip, no default) |
| FileNames.CompareFileNameIsSafe | custom_components/solarman_config_manager/__init__.py:156-165 | every compare name is a single path component |
| FileNames.CompareFileNameIdempotent | custom_components/solarman_config_manager/__init__.py:156-162 | sanitising a sanitised compare name changes nothing |
| FileNames.CompareFileNameOfDisallowed | custom_components/solarman_config_manager/__init__.py:156-162 | an input made only of disallowed characters becomes exactly `.json` |
| FileNames.KeepNothing | custom_components/solarman_config_manager/__init__.py:156-157 | filtering a string of disallowed characters leaves nothing |
| FileNames.CompareFileNameKeepsSpaces | custom_components/solarman_config_manager/__init__.py:156-162 | example on one input: the compare path keeps surrounding spaces, `" a"` becomes `" a.json"` |
| Exporter.SelectedMembers | custom_components/solarman_config_manager/__init__.py:91-109 | a record is exported iff it is the snapshot of a registry entry with platform `solarman`, a state, and not (state `unavailable` without `include_unavailable`); at most one record per entry |
| Exporter.SelectedAppend | custom_components/solarman_config_manager/__init__.py:92-109 | selection preserves registry order: it distributes over concatenation |
| Exporter.IncludeUnavailableAddsOnly | custom_components/solarman_config_manager/__init__.py:96-97 | `include_unavailable` only adds records |
| Exporter.BuildExport | custom_components/solarman_config_manager/__init__.py:91-116 | the loop collects exactly the selected records in registry order; `total_entities` is their number; the timestamp is the given export time |
| Exporter.Included | custom_components/solarman_config_manager/__init__.py:93-97 | defines which candidates are exported |
| Exporter.Snapshot | custom_components/solarman_config_manager/__init__.py:99-108 | defines the record written for an entity, with name `original_name or name` |
| Exporter.Selected | custom_components/solarman_config_manager/__init__.py:91-109 | defines the exported records in registry order |
| Comparator.Index | custom_components/solarman_config_manager/__init__.py:200-201 | the index's keys are the ids of the entities, and each id maps to an entity with that id |
| Comparator.IndexLastWins | custom_components/solarman_config_manager/__init__.py:200-201 | with duplicate ids, the last occurrence is the one indexed |
| Comparator.Domain | custom_components/solarman_config_manager/__init__.py:218 | the domain is the longest prefix of the id without `.`: the whole id, or the text before its first `.` |
| Comparator.Retained | custom_components/solarman_config_manager/__init__.py:217-220 | defines which common ids are compared: all, or under `config_only` those whose domain is writable |
| Comparator.FieldDeltas | custom_components/solarman_config_manager/__init__.py:225-237 | defines the field deltas: state and tracked fields whose `.get` values differ to Python |
| Comparator.Field | custom_components/solarman_config_manager/__init__.py:225-237 | defines `e.get(key)` for the state and the tracked fields `name`, `device_class` and `unit_of_measurement` |
| Comparator.AttributeDeltas | custom_components/solarman_config_manager/__init__.py:250-257 | defines the attribute deltas: keys of the union whose `.get` values differ to Python |
| Comparator.Stable | custom_components/solarman_config_manager/__init__.py:244-246 | defines the attributes with `last_changed`, `last_updated` and `context_id` popped |
| Comparator.Diff | custom_components/solarman_config_manager/__init__.py:222-259 | defines the `differences` of two snapshots, after dropping the volatile attributes |
| Comparator.SameView | custom_components/solarman_config_manager/__init__.py:225-253 | defines when Python sees the same state, tracked fields and non-`None` stable attributes |
| Comparator.SameViewSymmetric | custom_components/solarman_config_manager/__init__.py:225-253 | seeing the same view does not depend on the order of the snapshots |
| Comparator.AttributeDeltasEmptyNonNull | custom_components/solarman_config_manager/__init__.py:248-259 | no attribute delta implies the non-`None` attributes are equal to Python |
| Comparator.TrueEqualsOneAttribute | custom_components/solarman_config_manager/__init__.py:248-253 | example on one input: `{"x": True}` against `{"x": 1}` records no attribute delta |
| Comparator.CompareFields | custom_components/solarman_config_manager/__init__.py:225-237 | the field loop records a delta for exactly the state and tracked fields whose values differ to Python (`True == 1`), with their old and new values |
| Comparator.PopVolatile | custom_components/solarman_config_manager/__init__.py:238-246 | popping leaves both attribute maps without `last_changed`, `last_updated` and `context_id` and otherwise unchanged |
| Comparator.CompareAttributes | custom_components/solarman_config_manager/__init__.py:248-259 | when the attribute dicts differ to Python, the loop records a delta for exactly the keys of the union whose values differ to Python, a missing key reading as `None`; equal dicts give no delta |
| Comparator.EntityDifferences | custom_components/solarman_config_manager/__init__.py:212-258 | the differences of one entity equal the map specification `Diff` |
| Comparator.AttributeDeltasEmptyIff | custom_components/solarman_config_manager/__init__.py:248-259 | no attribute delta iff the two sides, with `None`-valued attributes dropped, are equal dicts to Python |
| Comparator.NoDifferencesIffSameView | custom_components/solarman_config_manager/__init__.py:222-261 | an entity has no differences iff state, tracked fields and non-`None` stable attributes are equal to Python |
| Comparator.ChangedIdsIff | custom_components/solarman_config_manager/__init__.py:212-265 | an id is changed iff it is common, passes the writable-domain filter, and Python sees different views of the two snapshots |
| Comparator.ChangedIdsSymmetric | custom_components/solarman_config_manager/__init__.py:212-265 | the changed ids do not depend on which document comes first |
| Comparator.ChangedIds | custom_components/solarman_config_manager/__init__.py:211-265 | defines the changed ids: common, retained, with non-empty differences |
| Comparator.FieldDeltasSwap | custom_components/solarman_config_manager/__init__.py:223-236 | comparing fields the other way round exchanges each old and new value |
| Comparator.AttributeDeltasSwap | custom_components/solarman_config_manager/__init__.py:248-258 | comparing attributes the other way round exchanges each old and new value |
| Comparator.DiffSwap | custom_components/solarman_config_manager/__init__.py:220-261 | the differences the other way round are the same deltas with old and new exchanged |
| Comparator.DistinctIdsCardinality | custom_components/solarman_config_manager/__init__.py:262-265 | a list of distinct ids is as long as its set of ids |
| Comparator.IdsOfAppend | custom_components/solarman_config_manager/__init__.py:262-265 | appending a new id keeps the ids distinct and adds it to the id set |
| Comparator.VisitOne | custom_components/solarman_config_manager/__init__.py:212-265 | visiting one more common id adds it to the changed ids exactly when it is changed |
| Comparator.VisitedAll | custom_components/solarman_config_manager/__init__.py:212 | once every common id is visited, the collected ids are the changed ids |
| Comparator.CollectChanged | custom_components/solarman_config_manager/__init__.py:211-265 | the loop lists each changed id exactly once, with its differences, and nothing else |
| Comparator.ChangesMap | custom_components/solarman_config_manager/__init__.py:285-291 | the `changes` map is keyed by the listed ids; with distinct ids each entry is the state's old/new (or `None`) and the changed attribute keys |
| Comparator.ChangesMapOfEntries | custom_components/solarman_config_manager/__init__.py:285-291 | with distinct ids, the `changes` map holds exactly the listed ids, each with the summary of its recorded differences |
| Comparator.ChangesMapOfCollected | custom_components/solarman_config_manager/__init__.py:285-291 | built from a list of distinct ids each carrying its differences (as the `changed` loop collects it), `changes` maps each of those ids to the summary of its differences |
| Comparator.Summarize | custom_components/solarman_config_manager/__init__.py:286-290 | defines one `changes` entry: the state's old and new values (`None` when the state did not change) and the changed attribute keys |
| Comparator.ReportFor | custom_components/solarman_config_manager/__init__.py:268-292 | defines the saved report of two documents |
| Comparator.CompareExports | custom_components/solarman_config_manager/__init__.py:150-291 | the service's steps build exactly the report `ReportFor` of the sanitised names and the two documents |
| Comparator.ReportPartitionsIds | custom_components/solarman_config_manager/__init__.py:204-206 | added, removed and common ids are pairwise disjoint and cover both documents' ids; the added and removed counts are their sizes |
| Comparator.SplitIds | custom_components/solarman_config_manager/__init__.py:204-206 | set difference and intersection split two id sets |
| Comparator.ReportCountsConsistent | custom_components/solarman_config_manager/__init__.py:276-291 | the changed count is the number of `changes` entries, which are common ids; `unchanged = \|common\| - \|changed\|` is never negative |
| Comparator.SubsetCardinality | custom_components/solarman_config_manager/__init__.py:281 | a subset is no larger than its superset, so `unchanged` is not negative |
| Comparator.ReportEmptyIff | custom_components/solarman_config_manager/__init__.py:276-282 | nothing added, removed or changed iff both documents hold the same ids and no retained common entity differs |
| Comparator.CompareSwap | custom_components/solarman_config_manager/__init__.py:200-291 | comparing the other way round exchanges added and removed ids and the totals, keeps the changed ids and counts, and exchanges each entry's old and new state |
| ReportFormat.DeltasJson | custom_components/solarman_config_manager/__init__.py:252-256 | a delta dict has exactly the keys of the deltas |
| ReportFormat.DifferencesJson | custom_components/solarman_config_manager/__init__.py:222-259 | the `differences` dict has an `attributes` entry exactly when some attribute changed |
| ReportFormat.ChangedListJson | custom_components/solarman_config_manager/__init__.py:262-265 | the in-memory `changed` list as JSON has one `{"entity_id", "changes"}` item per entry, in order |
| ReportFormat.Enumerate | custom_components/solarman_config_manager/__init__.py:283-284 | a set written as a list holds each element exactly once |
| ReportFormat.ReportJsonNames | custom_components/solarman_config_manager/__init__.py:269-270 | the report holds `file1` and `file2` as given |
| ReportFormat.ReportJsonMode | custom_components/solarman_config_manager/__init__.py:271-274 | the report holds `config_only` and `comparison_time` as given |
| ReportFormat.ReportJsonBody | custom_components/solarman_config_manager/__init__.py:275-291 | the report holds its summary dict and its `changes` dict |
| ReportFormat.SummaryDictCounts | custom_components/solarman_config_manager/__init__.py:275-282 | the summary dict holds the four counts under their current keys |
| ReportFormat.SummaryJson | custom_components/solarman_config_manager/__init__.py:286-290 | defines one entry of the report's `changes` dict |
| ReportFormat.ReportJson | custom_components/solarman_config_manager/__init__.py:268-292 | defines the saved report as a JSON dict |
| Listing.LexLe | custom_components/solarman_config_manager/sensor.py:70-77 | defines Python's `<=` on strings: by code point, a prefix first |
| Listing.LexLeTotal | custom_components/solarman_config_manager/sensor.py:70-77 | Python's string order is total |
| Listing.LexLeReflexive | custom_components/solarman_config_manager/sensor.py:70-77 | Python's string order is reflexive |
| Listing.LexLeTransitive | custom_components/solarman_config_manager/sensor.py:70-77 | Python's string order is transitive |
| Listing.LexLeAntisymmetric | custom_components/solarman_config_manager/sensor.py:70-77 | Python's string order is antisymmetric |
| Listing.Insert | custom_components/solarman_config_manager/sensor.py:70-77 | insertion adds exactly one element |
| Listing.InsertDescending | custom_components/solarman_config_manager/sensor.py:70-77 | insertion keeps a list descending |
| Listing.BelowHead | custom_components/solarman_config_manager/sensor.py:70-77 | every element of a descending list is at most its first |
| Listing.ConsDescending | custom_components/solarman_config_manager/sensor.py:70-77 | an upper bound put in front keeps a list descending |
| Listing.SortDescending | custom_components/solarman_config_manager/sensor.py:70-77 | `sorted(..., reverse=True)` is descending and a permutation of its input |
| Listing.DescendingUnique | custom_components/solarman_config_manager/sensor.py:70-77 | two descending orders of the same stems are equal, so the listing does not depend on directory order |
| Listing.HeadIsGreatest | custom_components/solarman_config_manager/sensor.py:70-77 | the first element of a descending list is at least every element |
| Listing.HeadsEqual | custom_components/solarman_config_manager/sensor.py:70-77 | two descending orders of the same stems start alike |
| Listing.TailsAgree | custom_components/solarman_config_manager/sensor.py:70-77 | their tails are again descending orders of the same stems |
| Listing.Stems | custom_components/solarman_config_manager/sensor.py:70-77 | the stems of the matched files start with the glob's prefix, at most one per entry |
| Listing.StemsOne | custom_components/solarman_config_manager/sensor.py:71 | one directory entry gives its stem exactly when it matches the glob |
| Listing.StemsAppend | custom_components/solarman_config_manager/sensor.py:71 | the stems of a listing are the stems of its parts in order, so each matching entry gives exactly one stem, duplicates kept |
| Listing.Matches | custom_components/solarman_config_manager/sensor.py:71 | defines the glob `<prefix>*.json`: the name starts with the prefix and ends with `.json`, without overlap |
| Listing.Stem | custom_components/solarman_config_manager/sensor.py:71 | defines `Path.stem`: the name without its `.json` |
| Listing.FileList | custom_components/solarman_config_manager/sensor.py:67-77 | defines one list of the sensor: empty without the directory, else the stems sorted descending |
| Listing.StemsMembers | custom_components/solarman_config_manager/sensor.py:70-77 | a stem is listed iff some directory entry matching `<prefix>*.json` has it |
| Listing.FileListSpec | custom_components/solarman_config_manager/sensor.py:67-78 | each list is descending, holds every matching stem as often as the directory does, and is empty without the directory |
| Listing.PrefixesExclusive | custom_components/solarman_config_manager/sensor.py:70-77 | no name starts with both `solarman_export_` and `comparison_` |
| Listing.ListsDisjoint | custom_components/solarman_config_manager/sensor.py:70-77 | no stem is both an export and a comparison report |
| Listing.DefaultExportListed | custom_components/solarman_config_manager/sensor.py:70-73 | an export saved under the generated name is listed as `solarman_export_<stamp>` |
| Listing.ComparisonListed | custom_components/solarman_config_manager/sensor.py:74-77 | a saved comparison report is listed as `comparison_<stamp>` |
| Listing.FilesSensor.constructor | custom_components/solarman_config_manager/sensor.py:41-47 | the sensor starts with no files and value 0 |
| Listing.FilesSensor.Update | custom_components/solarman_config_manager/sensor.py:63-81 | the update replaces both lists by the listings and the value by the number of export stems |
| Sensors.SummaryCount | custom_components/solarman_config_manager/sensor.py:142-145 | a count is the current key if present, else the legacy `*_entities` key, else 0 |
| Sensors.CountsLabel | custom_components/solarman_config_manager/sensor.py:147-150 | defines the state label: "No changes", or the three counts in an f-string |
| Sensors.CountsLabelNoChangesIff | custom_components/solarman_config_manager/sensor.py:147-150 | the label is "No changes" iff changed, added and removed all equal 0 |
| Sensors.CountsLabelOfNumbers | custom_components/solarman_config_manager/sensor.py:147-150 | for integer counts: "No changes" iff all three are 0 |
| Sensors.CountsLabelDistinct | custom_components/solarman_config_manager/sensor.py:133-150 | a count label is never "No comparison yet" or "Error processing comparison" |
| Sensors.NormalizeItem | custom_components/solarman_config_manager/sensor.py:156-164 | a non-dict item is an error; a dict item with a missing or falsy `entity_id` is dropped; one with a truthy id is kept iff `changes`, `state` and `attributes` are dicts and the id hashable, keyed by its own `entity_id`, with `changes.state.old`/`new` (`None` when missing) and the keys of `changes.attributes` (none when missing) |
| Sensors.WellFormedItem | custom_components/solarman_config_manager/sensor.py:159-164 | defines the shape the sensor can read: `changes`, its `state` and `attributes` are dicts and the id is hashable |
| Sensors.Hashable | custom_components/solarman_config_manager/sensor.py:160 | defines the ids that can key the normalised dict: anything but a list or a dict |
| Sensors.NormalizeList | custom_components/solarman_config_manager/sensor.py:154-164 | normalising succeeds iff every item does; every key is a truthy hashable id |
| Sensors.NormalizeListKeys | custom_components/solarman_config_manager/sensor.py:156-160 | the normalised map holds exactly the ids of the kept items |
| Sensors.NormalizeListLastWins | custom_components/solarman_config_manager/sensor.py:160 | each id holds the summary of the last item kept under it: a later duplicate replaces an earlier one |
| Sensors.NormalizeListFailurePersists | custom_components/solarman_config_manager/sensor.py:156-164 | once an item fails, the whole list fails with that error |
| Sensors.NormalizeChanges | custom_components/solarman_config_manager/sensor.py:154-164 | the loop filling `normalized_changes` gives exactly the normalised map, or the first item's error |
| Sensors.ProcessComparison | custom_components/solarman_config_manager/sensor.py:138-188 | processing succeeds iff the report and its `summary` are dicts and a list-form `changes` normalises; the timestamp is `comparison_time`, else `export2_timestamp`, else "" |
| Sensors.RawChanges | custom_components/solarman_config_manager/sensor.py:153 | `changes`, else the legacy `changed_entities`, else an empty dict |
| Sensors.ProcessComparisonShows | custom_components/solarman_config_manager/sensor.py:140-183 | a processed report shows the label of its counts, each count under its current or legacy key, `file1`/`file2`/`config_only` and the added and removed lists with their defaults, normalised or passed-through `changes`, and the file name |
| Sensors.ProjectComparison | custom_components/solarman_config_manager/sensor.py:131-188 | defines the sensor's state and attributes after an update |
| Sensors.ProjectComparisonOutcomes | custom_components/solarman_config_manager/sensor.py:133-188 | "No comparison yet" iff nothing was loaded; "Error processing comparison" iff processing failed; attributes shown iff processing succeeded |
| Sensors.ComparisonResultSensor.constructor | custom_components/solarman_config_manager/sensor.py:91-96 | the sensor starts at "No comparison yet" with empty attributes |
| Sensors.ComparisonResultSensor.Update | custom_components/solarman_config_manager/sensor.py:131-188 | the update leaves state and attributes as `ProjectComparison` of the loaded report |
| Sensors.RestoreLabel | custom_components/solarman_config_manager/sensor.py:246-249 | the label is "Dry Run Complete" iff `dry_run` is truthy, else "Restore Complete" |
| Sensors.RestoreRefresh | custom_components/solarman_config_manager/sensor.py:243-249 | defines one refresh of the restore sensor from the stored result |
| Sensors.RestoreRefreshIdempotent | custom_components/solarman_config_manager/sensor.py:243-249 | refreshing twice with the same stored result ends in the same state as refreshing once |
| Sensors.RestoreRefreshOutcome | custom_components/solarman_config_manager/sensor.py:243-249 | with no stored result nothing changes; a stored dict is shown with a completion label; any truthy result is shown |
| Sensors.RestoreResultSensor.constructor | custom_components/solarman_config_manager/sensor.py:198-204 | the sensor starts at "No restore yet" with empty data |
| Sensors.RestoreResultSensor.Update | custom_components/solarman_config_manager/sensor.py:240-249 | the refresh leaves the sensor in `RestoreRefresh` of its old state and reports whether reading `dry_run` raised |
| RoundTrip.KeyedById | custom_components/solarman_config_manager/sensor.py:160 | the report's `changes` keyed by the ids as JSON strings: same ids, same entries |
| RoundTrip.KeyedByIdUpdate | custom_components/solarman_config_manager/sensor.py:160 | re-keying commutes with updating one entry |
| RoundTrip.NormalizeChangedEntity | custom_components/solarman_config_manager/sensor.py:157-164 | an item of the in-memory `changed` list normalises to its id and its report entry |
| RoundTrip.NormalizeChangedList | custom_components/solarman_config_manager/sensor.py:153-164 | normalising the in-memory `changed` list, read as the list form, gives exactly the report's `changes` map, with the later item winning as in the report |
| RoundTrip.DiffHasNoAttributesField | custom_components/solarman_config_manager/__init__.py:223-236 | no field delta is keyed `attributes` |
| RoundTrip.ReadReport | custom_components/solarman_config_manager/sensor.py:138-183 | a saved report is processed without error; its counts, names, mode and comparison time are shown as written, `changes` is passed through, and the label is that of its counts |
| RoundTrip.SensorShowsNoChangesIff | custom_components/solarman_config_manager/sensor.py:147-150 | after a comparison is saved the sensor reads "No changes" iff both exports hold the same ids and no retained common entity differs |
| RoundTrip.ReadListFormChanges | custom_components/solarman_config_manager/sensor.py:153-166 | a report whose `changes` is the list form is shown with the normalised map the current format would hold |

## Left out

- File reads and writes, `json.load`/`json.dump` and the executor are not modelled. The services take the loaded documents as inputs. The sensors take the directory listing or the loaded report as input. A read error is modelled as "nothing loaded".
- The `resolve().is_relative_to` check is not modelled, because it depends on the filesystem. The model proves what it protects instead: every sanitised name is a single path component.
- The entity registry and the state store are given as one sequence of candidates, each with the state lookup's result.
- The service schemas and their defaults are not modelled: `config_only` defaulting to true and `include_unavailable` to false, read with `call.data.get`. The services take both flags as plain booleans, so a call that leaves one out is modelled by passing its default.
- Clocks: each `datetime.now()` reading is an input string. FileNames.ExportFileName: the two readings the export path may take (lines 57 and 65) are one `stamp` in the model.
- Persistent notifications, logging, service registration, the event-bus listener, `async_write_ha_state` and platform setup are host calls and are not modelled.
- The restore service is not part of this model; only the sensor that reads its stored result is.
- The choice of the latest comparison file by modification time (`stat().st_mtime`) is not modelled: the loaded report is an input.
- FileNames.KeepAllowed: `str.isalnum` is modelled for ASCII only. Unicode letters and digits that Python also keeps are not modelled.
- FileNames.Strip: only ASCII whitespace is modelled. Only the space survives the filter, so this does not change a sanitised name.
- Export documents are typed records, with a missing field reading as `None`. Malformed documents are not modelled, such as an entity without `entity_id` or `attributes` set to something other than a dict. They make the compare service fail with an error notification.
- Numbers are integers. Floating-point values are not modelled. Python's `True == 1` is modelled for comparisons (`Json.PyEq`) but not for dict keys, where it would merge the two keys.
- RoundTrip.ReadListFormChanges: the service never writes `changes` as a list; it writes a dict. The model assumes the legacy list form that the sensor accepts has the shape of the service's in-memory `changed` list. Sensors.NormalizeList states what the sensor does for any list.
- Comparator.Report: `added_entities`, `removed_entities` and each `changed_attributes` are sets. Python writes them as lists in hash or insertion order, which the model does not fix.
- Json.Show: in the state label, lists and dicts are rendered by a placeholder rather than by Python's `repr`.
- Sensors.ComparisonView: the key order of the attribute dicts is not modelled.
- Sensors.NormalizeItem: when one list item fails, the sensor gives the same outcome whatever the failure was. The model keeps the first failing item's message, which the sensor never shows.
- Listing.Matches: directories and hidden files matching the glob are treated like files.
