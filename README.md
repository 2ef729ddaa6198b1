# fit-analyst, modelled in Dafny

fit-analyst is a browser application for exploring the recordings of a
sports watch (FIT files). A file is decoded into per-second records. The
records are then normalised: each gets a time in seconds, the GPS track and
its bounding box are extracted, and the numeric fields worth charting are
catalogued. Each field is drawn as a time-series chart. A map shows the
track. A drag across a chart selects a time range: the summary table then
shows averages over that range, the map draws the range's part of the track
in red, and hovering over a chart moves a marker on the map.

The repository holds two iterations of the application, and both are
modelled:

- the first, one script (`app.js`) keeping its whole state in one `APP`
  object, with the helpers `parse.js` and `charts.js`;
- the later one, `src/`, split into `src/parse.js`, `src/map.js`,
  `src/charts.js` and `src/app.js`.

Modules follow the source files:

| module | models |
|---|---|
| `JsValue` | the JavaScript values found in a record, with truthiness, `typeof`, `??`, `||`, NaN comparisons, `new Date(x).getTime()` |
| `Text` | `sort()`, `indexOf`/`includes`, string `replace`, `join`, `toString`, `padStart` |
| `PropertyOrder` | the order of `Object.keys`: array indices first, numerically, then the other keys as created (section 10.1.11.1 of ECMA-262) |
| `Labels` | the part of `formatLabel` every variant shares, and what it guarantees |
| `Activity` | epoch-second times, the GPS track, its bounds and the field catalog, shared by both parsers |
| `Stats` | the inclusive time window and the per-field mean that every selection goes through |
| `Durations` | `formatDuration`, identical in both iterations |
| `Parse`, `SrcParse` | `parseFitData` of parse.js and of src/parse.js, as loops proved against these definitions |
| `SrcMap` | the `MapManager` class of src/map.js |
| `Charts`, `SrcCharts` | the `ChartManager` classes, and the translation of uPlot hooks into callbacks |
| `SrcApp` | the selection logic and application state of src/app.js |
| `App`, `AppUtils` | the `APP` state and the handlers of app.js, and its pure helpers (`toCSV`, `formatLabel`, `getChartColor`) |

The model has these parameters:

- The decoder's output is a `FitFile` value.
- Parsing of date strings is an uninterpreted parameter `parseDate`.
- uPlot's pixel-to-value conversion is represented by the values it returns.
- The DOM is the handful of visibility flags and texts the handlers set.

## Model

| member | source | states |
|---|---|---|
| Activity.EpochSecondsIsNewDate | src/parse.js:23-26 | the `instanceof Date` branch gives the same seconds as `new Date(r.timestamp).getTime() / 1000`, so both branches, and the plain `new Date` of app.js, read one time |
| Activity.GpsTrackSound | src/parse.js:36-49 | every GPS point is built from the record its `i` names, that record has two valid (numeric, non-NaN) coordinates, and the `i`s strictly increase |
| Activity.GpsTrackComplete | parse.js:16-37 | every record with two valid coordinates has its point in the track |
| Activity.FoldMinIsMin | parse.js:32-34 | the running `if (x < m) m = x` fold ends at the least of the sentinel and every value |
| Activity.FoldMaxIsMax | parse.js:33-35 | the running `if (x > m) m = x` fold ends at the greatest of the sentinel and every value |
| Activity.TrackBoundsSpec | parse.js:74-79 | the bounds are null exactly when there is no GPS point; otherwise each corner is the min or max of its sentinel (±90, ±180) and all point coordinates |
| Activity.TrackBoundsContainPoints | src/parse.js:76-81 | every GPS point lies inside the reported bounding box |
| Activity.NumericKeysSpec | src/parse.js:64-69 | a key is catalogued iff it is not ignored and some record holds a number (NaN included) under it |
| Activity.CollectNumericKeys | parse.js:56-63 | the Set built key by key holds exactly the catalog, each key once |
| Parse.ParseFitData | parse.js:3-82 | records, laps and sessions pass through (`|| []`), `raw` is the decoder output, gps is the valid-position track, the bounds are its box, and fields are the catalog strictly sorted |
| Parse.AltitudeCharted | parse.js:41-54 | `altitude` is declared ignored but then deleted, so a record holding a number under it makes it a chart field |
| Parse.SameCatalogAsLaterParser | src/parse.js:53-69 | src/parse.js offers the same chart fields as parse.js: its records carry added `ts` and `i`, and both are in its ignore set |
| SrcParse.ParseFitData | src/parse.js:3-86 | records are the raw ones normalised, gps and bounds as in the first parser, start/end are the Infinity-seeded folds of the times, fields are the catalog strictly sorted; a missing records array yields the empty result with ±Infinity times |
| SrcParse.NormalizedSpec | src/parse.js:29-30 | record k is raw record k with `i = k` and its epoch-seconds `ts` added, every other property kept |
| SrcParse.CatalogIgnoresAddedKeys | src/parse.js:64-69 | adding `ts` and `i` to every record does not change the catalog |
| SrcParse.FieldsSpec | src/parse.js:64-69 | a key is a field iff it is not ignored and some raw record holds a number under it |
| SrcParse.GpsAlignedWithRecords | src/parse.js:36-42 | each GPS point carries the `i`, `ts` and coordinates of the normalised record it was taken from |
| SrcParse.EarliestSpec | src/parse.js:17-32 | `startTime` stays `Infinity` iff every time is NaN, is never `-Infinity`, and otherwise is a time of some record and no later than any non-NaN time |
| SrcParse.LatestSpec | src/parse.js:18-33 | `endTime` stays `-Infinity` iff every time is NaN, is never `Infinity`, and otherwise is a time of some record and no earlier than any non-NaN time |
| Text.SortStringsCorrect | parse.js:66 | `Array.from(set).sort()` is strictly ascending in code-unit order and holds exactly the set's elements |
| Text.SortedUnique | src/parse.js:82 | a strictly sorted list is determined by its elements, so the field order does not depend on the order records were read |
| Text.IndexOfSpec | app.js:741-745 | `key.includes(word)` holds exactly when `word` occurs somewhere in `key`; the search behind it stops at the first occurrence |
| Text.NatToStringReadsBack | app.js:733-738 | `toString` of a whole number is a non-empty run of digits that reads back as the number, one digit below 10 and at most two below 100 |
| PropertyOrder.CanonicalReadsBack | app.js:108 | a key that is an array index is the decimal rendering of its own value, so sorting by value reproduces the keys |
| PropertyOrder.KeysElems | app.js:108 | `Object.keys` lists exactly the keys the object holds |
| PropertyOrder.KeysDistinct | app.js:108 | `Object.keys` lists no key twice |
| PropertyOrder.KeysIndexFirst | app.js:108 | array-index keys come before all others, in ascending numeric order |
| PropertyOrder.KeysCreationOrder | app.js:108 | the keys that are not array indices keep the order they were created in |
| PropertyOrder.KeysHead | app.js:112 | `Object.keys(...)[0]` is the smallest array index when there is one, otherwise the first key created |
| PropertyOrder.IndexKeyFirst | app.js:108 | a key `7` created after `b.fit` is listed ahead of it |
| Labels.TitledShape | src/app.js:278-281 | the underscore-to-space and `\b\w` upper-casing steps keep the length, remove every underscore and capitalise every word |
| Labels.ReplacePreserves | charts.js:127-129 | replacing the first occurrence of a pattern by an abbreviation keeps a label free of underscores and every word capitalised |
| Labels.ReplaceEachPreserves | app.js:729-730 | a chain of such replacements keeps both properties |
| Labels.Label | charts.js:123-130 | every `formatLabel` variant yields a label without underscores whose words all start with a capital |
| Labels.TitledHeartRate | src/charts.js:109-110 | `heart_rate` is title-cased to `Heart Rate` |
| Labels.TitledWord | src/charts.js:109-110 | a lower-case word gets only its first letter upper-cased |
| Labels.ReplaceWhole | src/app.js:282 | a label equal to the pattern is replaced as a whole |
| Labels.ReplaceMissing | app.js:729-730 | a label the pattern cannot occur in is left unchanged |
| Labels.LabelUnabbreviated | src/app.js:278-283 | a key whose title no pattern touches is labelled by its title alone |
| Labels.LabelAbbreviated | charts.js:123-130 | a key whose title is the k-th pattern gets the k-th abbreviation, when no earlier pattern touches the title and no later one the abbreviation |
| SrcCharts.FormatLabel | src/charts.js:107-114 | the label has no underscore and capitalised words |
| SrcCharts.FormatLabelExamples | src/charts.js:111-113 | heart_rate, cadence and altitude become HR, Cad and Alt |
| Charts.FormatLabel | charts.js:123-130 | the label has no underscore and capitalised words |
| Charts.FormatLabelExamples | charts.js:127-129 | heart_rate, cadence and altitude become HR, Cad and Alt |
| AppUtils.FormatLabel | app.js:725-731 | the label has no underscore and capitalised words |
| AppUtils.FormatLabelExamples | app.js:729-730 | heart_rate and cadence become HR and Cad; altitude stays Altitude |
| SrcApp.FormatLabel | src/app.js:278-283 | the label has no underscore and capitalised words |
| SrcApp.FormatLabelExamples | src/app.js:282 | only heart_rate is abbreviated (HR); cadence and altitude are spelled out |
| Stats.WindowSpec | src/map.js:74-76 | an element is kept iff its time is a number in the inclusive range, so NaN times and NaN bounds select nothing; the kept elements come from the input |
| Stats.WindowAll | src/app.js:83 | a range holding every record returns the records unchanged |
| Stats.WindowNone | app.js:249-251 | a range holding no element returns nothing |
| Stats.WindowNarrowing | src/app.js:83 | filtering by a narrower range after a wider one gives what the narrower gives alone |
| Stats.WindowSorted | src/map.js:74-76 | a window of time-ordered elements is time-ordered |
| Stats.NumbersAtSpec | app.js:408 | the values averaged are exactly the numbers the records hold under the key |
| Stats.SumNaN | app.js:410 | the `reduce` sum is NaN iff a NaN is among the values |
| Stats.SumBounds | src/app.js:190 | a sum of n values within `[lo, hi]` lies within `[n*lo, n*hi]` |
| Stats.MeanDefined | app.js:407-411 | the mean is absent (`null`) iff no record holds a number under the key, and NaN when one holds NaN |
| Stats.MeanWithin | src/app.js:188-191 | when every number under the key is finite and in `[lo, hi]`, so is the mean |
| Durations.FormatDurationDash | app.js:734 | the dash is shown exactly for a falsy input, 0 or NaN |
| Durations.FormatDurationReadsBack | src/app.js:285-290 | for a positive duration the `m:ss` rendering reads back as the input's whole seconds |
| Durations.DurationParts | app.js:735-737 | for a positive input the two parts are the whole minutes and the remaining whole seconds (below 60), the seconds padded to two digits |
| Durations.NegativeDuration | src/app.js:287-289 | a negative input such as -90 renders as `-2:-30`, because `Math.floor` and `%` both keep the sign |
| SrcMap.FindPointSpec | src/map.js:89 | `find` gives the first point with the index, and nothing exactly when no point has it |
| SrcMap.MarkerFollowsRecord | src/map.js:88-94 | hovering record idx of a parsed file finds that record's own GPS point, and nothing when the record has no valid position |
| SrcMap.HighlightAfterSpec | src/map.js:58-86 | without a track nothing changes; a reset clears the highlight; a range draws exactly the points whose time lies between the first and last selected records, or keeps the old highlight when there are none or the subset is empty |
| SrcMap.HighlightIdempotent | src/map.js:58-86 | repeating the same selection leaves the highlight as the first call set it |
| SrcMap.MapManager.constructor | src/map.js:2-35 | empty layers and data, the marker at `[0, 0]` and transparent |
| SrcMap.MapManager.Load | src/map.js:37-56 | stores the track and bounds; without GPS hides the container and keeps the layers, otherwise draws the whole trace and clears the highlight |
| SrcMap.MapManager.UpdateHighlight | src/map.js:58-86 | the highlight follows the selection as `HighlightAfterSpec` states; track, bounds, trace and marker unchanged |
| SrcMap.MapManager.SetMarker | src/map.js:88-94 | the marker moves to and shows the point of record idx when there is one, and is left alone otherwise |
| SrcCharts.GetColorCycle | src/charts.js:116-125 | colours repeat every six charts and six neighbouring charts never share one |
| SrcCharts.HoverIndexIsRecordIndex | src/charts.js:14-22 | over a parsed file, position k of each chart is record k: x is its seconds, its `i` is k, y is its raw value or null |
| SrcCharts.TrackOnChartAxis | src/charts.js:14 | every GPS point sits at the x value of the chart position its `i` names |
| SrcCharts.DispatchSpec | src/charts.js:55-83 | only a double-click resets (`onSelect(null, null)`); a drag of positive width calls `onSelect` with its own two ends and one of width 0 sends nothing; the cursor calls `onHover` with its index exactly when the index is truthy, so index 0 never reaches the map |
| SrcCharts.ChartsUpTo | src/charts.js:17-23 | the i-th chart is the i-th field's chart on colour i |
| SrcCharts.ChartManager.constructor | src/charts.js:2-6 | no charts, the placeholder shown |
| SrcCharts.ChartManager.Clear | src/charts.js:89-94 | no charts, the placeholder shown |
| SrcCharts.ChartManager.Render | src/charts.js:8-87 | one chart per field in catalog order; the placeholder is shown iff there is no field |
| SrcCharts.ChartManager.BuildCharts | src/charts.js:17-86 | the loop builds the i-th field's chart at position i |
| Charts.GetColorCycle | charts.js:132-144 | colours repeat every seven charts and seven neighbouring charts never share one |
| Charts.TrackOnChartAxis | charts.js:20-35 | both series are as long as the records, and every GPS point sits at the x value of the chart position its `i` names |
| Charts.DispatchSpec | charts.js:74-92 | every selection calls `onSelect`: with nulls when the width is 0, otherwise with the selection's own two ends; the cursor calls `onHover` with its index, only when the index is truthy |
| Charts.ChartsUpTo | charts.js:30-36 | the i-th chart is the i-th field's chart on colour i |
| Charts.ChartManager.constructor | charts.js:2-6 | no charts, no notice |
| Charts.ChartManager.Clear | charts.js:104-110 | no charts, empty container, placeholder shown |
| Charts.ChartManager.Render | charts.js:8-102 | without fields the notice "No chartable data found." with the placeholder kept; otherwise one chart per field and the placeholder hidden |
| Charts.ChartManager.BuildCharts | charts.js:30-101 | the loop builds the i-th field's chart at position i |
| SrcApp.SelectionSubsetSpec | src/app.js:72-84 | a reset selects every record unchanged; a range keeps a record iff its `ts` is a number in the inclusive range |
| SrcApp.SelectionNarrowing | src/app.js:83 | selecting a narrower range from a selection equals selecting it from all records |
| SrcApp.AverageRow | src/app.js:179-192 | the row holds the duration, the distance and each field's average, a field named `duration` or `dist` overwriting the computed one; no row for an empty subset |
| SrcApp.AveragesSummary | src/app.js:186-192 | the two computed entries with every field's average laid over them form the summary row |
| SrcApp.DurationWithinRange | src/app.js:181-183 | the duration of a range selection is finite, no larger in magnitude than the range, and not negative on time-ordered records |
| SrcApp.FieldAverageSpec | src/app.js:187-191 | a field's average is 0 when no selected record holds a number there, NaN when one holds NaN, and otherwise within its values' bounds |
| SrcApp.HighlightCoversSelection | src/map.js:70-76 | on time-ordered records, a GPS point is highlighted iff its time is in the range iff its record is selected |
| SrcApp.SelectedBetweenEnds | src/map.js:70-71 | on time-ordered records, a time lies between the first and last selected times iff it lies in the range iff its record is selected |
| SrcApp.PointTimeIsRecordTime | src/parse.js:36-42 | a GPS point carries the `ts` of the normalised record it came from |
| SrcApp.AppState.constructor | src/app.js:6-10 | no data, fresh empty map and chart managers, nothing shown |
| SrcApp.AppState.UpdateSelectionState | src/app.js:72-100 | without data nothing changes; otherwise the summary shows the subset with its title, the map highlight follows, and the detail table is shown with its count badge for a range only |
| SrcApp.AppState.HandleUpload | src/app.js:33-69 | a decoded file is parsed (normalised records, track, bounds, start and end times, the sorted field catalog, laps and sessions), reloads the map, whose container is hidden exactly when there is no track, selects everything and draws one chart per field; a decoder error raises `Error: message` and changes nothing else, neither the data, the summary nor the detail table; no file changes nothing |
| SrcApp.AppState.OnChartEvent | src/app.js:58-62 | a hover moves the marker to the record's point, or leaves it where it is when there is none; without a loaded file a selection changes nothing; otherwise it shows the summary of the selected records, highlights them on the map, and shows the detail table with its count badge (hidden on a reset); the file, the map's bounds, trace and visibility never change |
| AppUtils.UnescapeEscape | app.js:719 | the quote-doubled text followed by a closing quote reads back as the original text |
| AppUtils.ReadRowQuoted | app.js:717-721 | with a one-character delimiter other than `"`, a joined line of quoted cells reads back as exactly those cells |
| AppUtils.ToCSVSpec | app.js:714-723 | the export is empty iff the array is; each data line reads back as the object's values under the header keys, nullish values as empty texts |
| AppUtils.GetChartColorSpec | app.js:740-747 | each colour is chosen iff its word is the first of heart, speed, power, cadence, alt contained in the key; grey iff none is |
| App.GpsIndexSound | app.js:152-162 | every indexed point is built from the record its `i` names, that record has truthy coordinates, and the `i`s increase |
| App.GpsIndexComplete | app.js:153-161 | every record with truthy coordinates is indexed |
| App.ZeroCoordinateExcluded | app.js:154 | a record at latitude or longitude 0 is never indexed |
| App.TruthyTestDiffers | app.js:154 | the truthiness test and the parsers' numeric test disagree both ways (a 0 coordinate, coordinate strings) |
| App.SelectionAfterSpec | app.js:364-386 | width 0 clears the selection; a range with no record keeps the old one; otherwise it holds exactly the records timed in the range |
| App.DurationWithinRange | app.js:402-403 | the duration is the time from the first to the last selected record, finite and no longer than the range |
| App.DurationOfEnds | app.js:402-403 | the duration is the difference of the end records' seconds |
| App.DistanceSpec | app.js:404-405 | the distance is 0 unless both end distances are truthy, and then agrees with src/app.js |
| App.DistanceFromStartDiffers | app.js:404-405 | a selection starting at distance 0 reports 0 here and the last distance in src/app.js |
| App.SummaryRowAverages | app.js:407-421 | each average is null iff no selected record holds a number in its field |
| App.ChartKeysSpec | app.js:288-299 | a key is charted iff the first record has it, it is not ignored and some record holds a number there |
| App.ChartAlignedWithRecords | app.js:301-305 | both series are indexed like the records: x is each record's seconds, y its value or null for a nullish one |
| App.HighlightAfterSpec | app.js:236-263 | on a track, a reset empties the highlight, a range draws exactly the vertices of its points, or keeps the highlight when it holds none |
| App.HighlightMatchesSelection | app.js:249-251 | on a file's index, a range highlights the points of exactly the records it selects |
| App.FindSpec | app.js:269-271 | `find` gives the first element passing the test, and nothing exactly when none does |
| App.CursorPointSpec | app.js:265-279 | the cursor lands on the point of record idx if there is one, else on a point fewer than five records away, else nowhere |
| App.CursorOnRecord | app.js:269-270 | hovering a record with truthy coordinates puts the marker on that record's own position |
| App.Loaded | app.js:97-116 | the count of files decoded before the first failure: all before it parsed, the one at it rejected |
| App.CreationOrderSpec | app.js:98-100 | the keys of `APP.files` are created once each, the first decoded file's name first |
| App.NamesOfSpec | app.js:108-112 | `Object.keys(APP.files)` lists each stored file once, array-index names first in ascending numeric order; the file shown is the first decoded one unless some name is an array index, and then the numerically smallest such name |
| App.IndexNameListedFirst | app.js:108-112 | uploading `b.fit` and then `7` lists `7` first |
| App.FilesOfLatest | app.js:100 | each name holds the data of the last file decoded under it |
| App.LoadedAt | app.js:97-116 | an upload that stops at file k loaded exactly the k files before it |
| App.StoreFiles | app.js:98-106 | the loop stores each decoded file under its name, noting the order its keys are created in, and ends at the first failure with its message |
| App.IndexGps | app.js:152-162 | the loop builds exactly the GPS index |
| App.BuildCharts | app.js:304-361 | the loop builds one chart per key |
| App.MapView.constructor | app.js:4-20 | no map layers yet |
| App.AppState.constructor | app.js:4-20 | no files, records, selection or charts |
| App.AppState.InitMap | app.js:185-234 | without points the map is hidden with no layers; otherwise the full trace, an empty highlight and a transparent marker at [0, 0] |
| App.AppState.RenderCharts | app.js:282-362 | nothing for no records; otherwise the placeholder hidden and one chart per charted key |
| App.AppState.LoadFile | app.js:145-172 | the file's records and GPS index, no selection, no charts, the placeholder shown and the tables hidden |
| App.AppState.ClearViews | app.js:164-172 | no charts, the placeholder shown, the summary and the selection table hidden |
| App.AppState.SwitchFile | app.js:145-182 | the file is on show with its map layers and charts |
| App.AppState.HandleUpload | app.js:89-120 | files stored until the first failure, which raises `Error: message` and leaves the view alone (file, records, selection, charts, placeholder, summary, table, map); otherwise the first key `Object.keys` reports is shown, with the map hidden when it has no track and otherwise drawing the full trace, an empty highlight and a new marker |
| App.AppState.SyncMapSelection | app.js:236-263 | without a track nothing changes; a reset empties the highlight; a range with points in it draws their vertices, one without keeps the highlight; the trace and marker are untouched |
| App.AppState.SyncMapCursor | app.js:265-279 | with a track, the marker moves to and shows the point the cursor finds (record idx, else one within five records), or turns transparent where there is none; trace and highlight untouched |
| App.AppState.UpdateSelectionStats | app.js:364-394 | width 0 hides the tables, clears the selection and resets the map; an empty range changes nothing; otherwise the selection, its summary row, its table (count badge, detail columns) and the map highlight |
| App.AppState.ShowSelection | app.js:386-390 | the selection becomes current with its summary row and its table shown |
| App.AppState.OnChartEvent | app.js:342-354 | every non-null cursor index, 0 included, moves the marker; a selection of width 0 hides the tables, clears the selection and resets the highlight, an empty range changes nothing, and otherwise the summary row, the table with its count badge and the highlight show the range; the file, the charts, the trace and the map's visibility never change |

## Left out

- Decoding the FIT binary (`runParser`, `parseFitFile`, the FileReader and the Promise around it): the decoder's output is a `FitFile` parameter, and a failure is a rejected upload carrying its message.
- Date-string parsing is the uninterpreted `parseDate` parameter. Only TimeClip and the Date-object branch are spelled out.
- The DOM, Leaflet, uPlot and DataTables themselves are not modelled; what remains is the visibility flags, texts, polyline vertices, marker and chart series the handlers set.
- Map viewport calls (`fitBounds`, `getBounds`, `invalidateSize`, zoom) and `setTimeout` are left out: they move the view only.
- uPlot's `posToVal` and cursor sync across charts are left out: the selection ends arrive as numbers.
- `renderLaps`, `renderExplorer`, `renderTables`, the columns and cell renderers of `renderRecordTable` and `renderAvgTable`, the clipboard and zip download functions, the file-select options and the loader are presentation only and are not modelled.
- `toFixed`, `Math.round` and `toLocaleTimeString` formatting in the table renderers is not modelled.
- Real numbers stand for IEEE doubles: rounding and overflow of sums are not modelled.
- `Infinity` is not a value a record can hold. It appears only as the start/end time sentinel.
- JsValue.ToNumber: a string operand of `-`, `<` or `>=` yields NaN instead of its numeric reading. Records decoded from FIT files hold numbers and Dates.
- Text.SortStrings: orders by character code. Code points above U+FFFF are not split into UTF-16 units.
- AppUtils.ToCSV: the header order `Object.keys(arr[0])` is a parameter required to list the first object's keys. The header line itself is built but not read back.
- AppUtils.CellText: numbers and Dates are rendered by a `show` parameter (`String(v)` is not modelled).
- App.ChartKeys: a set, because a `Record` is a map and carries no key creation order, so the order `Object.keys(records[0])` would report cannot be derived from it.
- App.SelectionTable: its `columns` are the set `s[0].Keys * DetailKeys`, so the column order of `Object.keys(data[0]).filter(...)` (app.js:547-557) is not represented, for the same reason.
- App.AppState.RenderCharts: `APP.charts` is a map keyed by field, not an array in key order.
- Charts.Chart, SrcCharts.Chart: the axis label is the derived `Title()` (formatLabel of the field) rather than a stored string.
- The initial visibility of page elements comes from the HTML, which is not part of this model. The constructors start with the map container and the chart placeholder shown, and the summary and the tables hidden.
- SrcApp.AppState.HandleUpload: only the decoder failing is caught. An exception thrown later in the try block (in rendering) is not modelled.
- App.AppState.HandleUpload: the file-select options, the enabled download button and the selector wrapper are not modelled, only `APP.files` and the order of `Object.keys(APP.files)`.
