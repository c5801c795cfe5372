# All The Places dashboard — a verified model of its data handling

The dashboard is a set of browser pages over JSON that the All The Places
scraping project publishes. Every page starts from the list of runs (builds)
in one or more run histories. The spiders page pivots the statistics of the
latest runs into one row per spider and scores each spider's stability. The
Wikidata page loads an insights file and highlights suspicious rows. The
builds page lists the runs with their download sizes. The preview map shows
a popup with a point's properties.

This project models the logic behind those pages in Dafny and proves what it
promises:

- `History` (shared.js): `fetchHistoryList`. The configured histories are
  fetched one after the other. Each run record is normalised in place:
  relative URLs are made absolute, missing fields are created as null and a
  display name is derived. The runs are then sorted by run id, newest first.
- `Spiders` (src/spiders.js):
  - the stability score and its colour;
  - truncation to the five newest runs;
  - the run-to-spider pivot;
  - decoding of the `link_format` URL parameter;
  - the link that each count cell gets.
- `Wikidata` (src/wikidata.js):
  - `isInt`, with its 32-bit truncation;
  - the back-fill, recount and rename steps of `loadInsights`;
  - the four highlighting rules of `createdRow`;
  - the Q-code column.
- `Builds` (src/builds.js): `formatBytes` and the statistics and download
  columns.
- `Preview` (src/preview.js):
  - the property table of the popup;
  - the longitude wrap loop;
  - the sticky-popup flag, kept with the popup in a class.
- `Strings` and `Common`: the JavaScript semantics that these modules rely on:
  - string `<`, `trim`, `parseFloat` and truthiness;
  - `undefined` as opposed to `null`;
  - an insertion sort standing in for `Array.prototype.sort`.

The browser's services are parameters:

- `Math.sqrt` is `sqrt`.
- `new URL(rel, base).toString()` is `resolve(rel, base)`.
- `window.fetch` is `fetch` for history lists. The other fetches are inputs:
  the config answer, the statistics list and the insights rows.

Numbers are exact reals.

Where the code's own comments and the code disagree, the model follows the
code. The comment before the pivot (src/spiders.js:99) speaks of a standard
deviation, but `calculateStability` measures the root-mean-square deviation
from the maximum (10000), not from the mean (src/spiders.js:53-60), and so
does `Spiders.StabilityScore`.

Two facts about `fetchHistoryList` shape the model:

- It rewrites each run record in place; see `History.NormaliseRunInPlace`.
- Only a failure to load `config.json` is caught. A history list whose fetch
  fails, or whose body is not JSON, makes it reject. So does a run with a
  non-string URL field or `start_time`. The model returns `Err` in each case.

## Model

| member | source | states |
|---|---|---|
| `History.ChooseHistories` | shared.js:5-18 | A `config.json` answered with status 200 replaces the histories; anything else (other status, network or JSON failure) leaves the single default ATP history |
| `History.MatchStart` | shared.js:49 | The first match of `/T.*$/` at or after a position: every earlier position fails to match, and a position found does match |
| `History.StripFromT` | shared.js:49 | `replace(/T.*$/, "")` keeps a prefix of the string that ends exactly where the first match starts |
| `History.StripFromTSingleLine` | shared.js:49 | On a single-line `start_time`, the name part is everything before the first `T`, and it contains no `T` |
| `History.ResolveField` | shared.js:36-41 | A present URL field that is not a string throws, naming that field; otherwise the field is made absolute through `resolve` unless it starts with "http", and no other field changes |
| `History.ResolveFields` | shared.js:35-42 | Resolving the URL fields never adds or removes a field, and a failure names one of the listed fields that is present |
| `History.ResolveFieldsMeaning` | shared.js:35-42 | Resolution succeeds iff every present URL field is a string; it then rewrites exactly the listed fields that do not start with "http" through `resolve` against the response URL, and leaves every other field alone |
| `History.DefaultFieldsMeaning` | shared.js:44-48 | Defaulting adds the listed fields as null where absent and leaves every present field alone |
| `History.NormaliseSteps` | shared.js:35-48 | Resolution runs before defaulting: the normalised field map is null for defaulted-absent keys, the resolved value for URL fields and the raw value otherwise |
| `History.NormaliseRun` | shared.js:35-49 | A normalised run keeps its run id and has a `name`; normalising fails only on a present non-string URL field or a non-string `start_time` |
| `History.NormaliseRunFails` | shared.js:35-49 | Normalising a run throws iff some present URL field is not a string or `start_time` is missing or not a string |
| `History.NormaliseRunValue` | shared.js:35-50 | A normalised run keeps its run id and has exactly the fields described field by field (resolved, defaulted, renamed) |
| `History.NormaliseRunUrls` | shared.js:35-48 | Present URL fields are resolved; absent `insights_url` and `output_url` stay absent; `stats_url` is always present and null when it was absent, so a defaulted null is never resolved |
| `History.NormaliseRunFields` | shared.js:44-49 | `size_bytes`, `spiders` and `total_lines` are present, keep their value, and are null only where absent; `name` is the `start_time` before its `T`, then " (", the history name, ")" |
| `History.NormaliseRunKeepsOthers` | shared.js:31-50 | The run id and every field that normalisation does not name are unchanged, present or absent alike |
| `History.NormalisedUrlShapes` | shared.js:35-48 | After normalisation `stats_url` is a string or null and a present `output_url` is a string, which is what the render callbacks assume |
| `History.NormaliseEach` | shared.js:31-51 | The record loop yields one result per record |
| `History.NormaliseEachMeaning` | shared.js:31-51 | The record loop succeeds iff its step succeeds on every record, and then holds each record's result at that record's position |
| `History.NormaliseAll` | shared.js:31-51 | A history whose runs all normalise contributes one run per record |
| `History.NormaliseAllMeaning` | shared.js:31-51 | A history list normalises iff each of its records does, and then holds each record's normal form, in the records' order |
| `History.AddHistory` | shared.js:28-52 | A failed fetch throws with the history's URL; a status other than 200 adds nothing; a non-JSON body throws; otherwise the runs collected so far are kept, and the history's normalised records follow them iff every record normalises |
| `History.NormaliseAllSnoc` | shared.js:31-51 | Normalising one more record appends its normalised run, or stops at its error |
| `History.NormaliseAllErr` | shared.js:31-51 | The first record that throws decides the outcome: later records are never reached |
| `History.ResolveFieldsErr` | shared.js:35-42 | Once a URL field throws, the remaining URL fields do not change the outcome |
| `History.Collect` | shared.js:25-53 | When no fetch fails, the collected list has exactly one run per record of the histories answered with status 200 |
| `History.AddHistoryPrefix` | shared.js:28-52 | What a history contributes does not depend on the runs collected before it |
| `History.CollectAppend` | shared.js:25-53 | The collected runs are those of the first n histories followed by those of the rest, in the order listed; collecting fails iff either part does |
| `History.CollectErr` | shared.js:25-53 | The first history that fails stops the collection with its error |
| `History.SortRunsSpec` | shared.js:55 | The sorted runs are a permutation of the collected runs, in non-increasing `run_id` order |
| `History.NormaliseRunInPlace` | shared.js:32-50 | The in-place field loops compute exactly the normalised run, or the exception the first bad field raises |
| `History.AppendHistoryRuns` | shared.js:28-52 | One pass of the outer loop: a failed fetch or non-JSON body throws, a status other than 200 adds nothing, otherwise each record is normalised and pushed in order |
| `History.FetchHistoryList` | shared.js:3-57 | The result is the sorted collection or its first error; on success it is a permutation of the collected runs, counts every record of every status-200 history, and is in non-increasing `run_id` order |
| `Spiders.TruncateHistory` | src/spiders.js:78 | `splice(NUM_BUILDS)` keeps the first min(n, 5) runs, as a prefix |
| `Spiders.ColorGradient` | src/spiders.js:5-18 | Above 98 the colour is pure green, below 70 pure red, and blue is always 0 |
| `Spiders.GradientBand` | src/spiders.js:14-17 | Between 70 and 98 red lies in [214.2, 255] and green is at least 255; at or below 90 red is 255 and the raw green is at least 357, so the CSS channel shows green 255 throughout the band |
| `Spiders.GradientMonotone` | src/spiders.js:5-18 | A higher score never shows more red nor less green (on the clamped CSS channels) |
| `Spiders.MaxFeatures` | src/spiders.js:42-48 | `maxFeatures` is at least 0, bounds every present count in the window, and is 0 or one of those counts |
| `Spiders.RunCount` | src/spiders.js:55-60 | `runCount` never exceeds the number of runs in the window |
| `Spiders.SumSqDeviations` | src/spiders.js:53-60 | The sum of squared deviations is never negative |
| `Spiders.StabilityScore` | src/spiders.js:48-62 | The score is never negative, and it is exactly 100 iff the root-mean-square deviation of the normalised counts from the maximum is 0 |
| `Spiders.RunCountPositive` | src/spiders.js:55-60 | A present count in the window makes `runCount` at least 1 |
| `Spiders.MaxPositiveHasRun` | src/spiders.js:48-60 | A positive maximum implies `runCount >= 1`, so the division by `runCount` is defined |
| `Spiders.StabilityInRange` | src/spiders.js:61-63 | The stability score lies in [0, 100], because the deviation is clamped to 10000 |
| `Spiders.SumSqZero` | src/spiders.js:53-60 | When every present count equals the maximum, every deviation is 0 |
| `Spiders.SumSqPositive` | src/spiders.js:53-60 | One present count below the maximum makes the sum of squared deviations positive |
| `Spiders.StabilityPerfect` | src/spiders.js:39-64 | The score is exactly 100 iff every present count in the window equals the maximum |
| `Spiders.StabilityColour` | src/spiders.js:165-170 | Only a finite score gets a colour: above 98 pure green, below 70 pure red |
| `Spiders.FindMaxFeatures` | src/spiders.js:42-48 | The first loop computes `maxFeatures` |
| `Spiders.SumDeviations` | src/spiders.js:53-60 | The second loop computes the sum of squared deviations and `runCount` |
| `Spiders.CalculateStability` | src/spiders.js:39-64 | The row's name and counts are unchanged; its stability is left as it was when the maximum is 0 and set to the score otherwise |
| `Spiders.LastEntry` | src/spiders.js:88-95 | The entry a run's results leave for a spider is its last entry for that spider: no later entry names it; there is none iff the run has no entry for it |
| `Spiders.AddEntry` | src/spiders.js:88-95 | Recording an entry sets that spider's cell for the run to the entry's features and leaves every other cell; the spider's filename becomes the entry's and no other spider comes or goes; the spider order only grows, by at most that spider |
| `Spiders.AddEntryWellFormed` | src/spiders.js:89-97 | Adding one entry keeps the spider order duplicate-free and in step with the dictionary, and adds exactly that spider |
| `Spiders.AddEntriesWellFormed` | src/spiders.js:89-97 | A run's results add exactly the spiders they name, keeping order and dictionary in step |
| `Spiders.AddEntriesCell` | src/spiders.js:89-97 | After a run, a spider's cell for that run holds the features of its last entry in the run, and every other cell is unchanged |
| `Spiders.PivotRuns` | src/spiders.js:85-97 | The pivot of any list of runs keeps its spider order free of duplicates and in step with both dictionaries |
| `Spiders.PivotSpiders` | src/spiders.js:86-99 | The pivot has a key for exactly the spiders that appear in some run |
| `Spiders.PivotNames` | src/spiders.js:86-99 | A run name that no run has gives no count for any spider |
| `Spiders.PivotCell` | src/spiders.js:86-110 | With distinct run names, the cell of spider s for run k is s's feature count in run k, null when s is absent from run k and 0 when it counted 0 |
| `Spiders.PivotSameNameCollision` | src/spiders.js:88-97 | Two runs with the same name (same day, same history) share one cell, so the later run's count also shows under the earlier run |
| `Spiders.FillBuilds` | src/spiders.js:86-99 | The nested `forEach` computes the pivot of all runs |
| `Spiders.FillRun` | src/spiders.js:89-97 | The inner `forEach` adds one run's results in order |
| `Spiders.FillEntry` | src/spiders.js:88-95 | The body of the inner `forEach` records exactly one entry's effect on both dictionaries |
| `Spiders.RunCounts` | src/spiders.js:107-110 | A spider's row gets its count in each run, null where it has none |
| `Spiders.BuildRows` | src/spiders.js:101-113 | One row per spider of the pivot, in the pivot's order, each with its counts and its stability |
| `Spiders.PivotBySpider` | src/spiders.js:83-113 | One row per spider seen in any run, no spider twice, each row with one count per run and its stability; `spiderToFilename` has exactly those spiders; with distinct run names each count is the spider's count in that run |
| `Spiders.DecodeLinkFormat` | src/spiders.js:116-119 | The format is never empty; a missing parameter gives "geojson"; the format is one of the four options or the trimmed text of a non-numeric parameter |
| `Spiders.DecodeNumber` | src/spiders.js:116-119 | Any value `parseFloat` reads as a number v selects option v when v is a whole number from 1 to 4, and falls back to "geojson" for every other number (negative, fractional, 0, above 4) |
| `Spiders.OptionAtShift` | src/spiders.js:117 | `LINK_FORMAT_OPTIONS[v - 1]?.[0]` exists exactly for a whole v from 1 to 4, and is then the v-th option, never empty |
| `Spiders.DecodeNumeral` | src/spiders.js:20-25 | `link_format=n` for a natural number n written in decimal selects option n for 1 to 4 and falls back to "geojson" otherwise |
| `Spiders.DecodeTextual` | src/spiders.js:116-119 | A non-numeric parameter is used trimmed, an all-blank one gives "geojson", and decoding is stable under a second `trim` |
| `Spiders.LinkForExists` | src/spiders.js:214-225 | A count cell gets a link iff the format is one of the four and the base URL it needs (`stats_url` for statistics, `output_url` otherwise) is truthy |
| `Spiders.LinkFor` | src/spiders.js:214-225 | A link is only built for one of the four formats; it is a map-viewer link iff the format is "map", and it needs its base URL (`stats_url` for statistics, `output_url` otherwise) |
| `Spiders.RowCallback` | src/spiders.js:211-240 | Of the six count cells, exactly the non-null counts (0 included) are rendered; each gets the format's link if any, and the JOSM link only for GeoJSON links with JOSM available |
| `Spiders.ThrowingColumn` | src/spiders.js:211-234 | As written: the first count cell, from a given column on, that gets a link, where assigning the undeclared `linkHtml` throws; none iff no such cell gets a link |
| `Spiders.RowCallbackAsWrittenThrows` | src/spiders.js:229-230 | A GeoJSON row with a count and an `output_url` reaches the throwing assignment at its first count cell |
| `Spiders.PerfectSpiderIsGreen` | src/spiders.js:165-170 | A spider at its maximum in every shown run is drawn pure green |
| `Wikidata.Truncate` | src/wikidata.js:10 | Rounding toward zero, the first step of ToInt32 |
| `Wikidata.ToInt32` | src/wikidata.js:10 | The bitwise or with 0 gives a signed 32-bit integer congruent to the truncated value modulo 2^32 |
| `Wikidata.IsInt` | src/wikidata.js:5-11 | A value that passes `isInt` is a whole number in the signed 32-bit range |
| `Wikidata.IsIntMeaning` | src/wikidata.js:5-11 | A number passes `isInt` iff it is whole and in the signed 32-bit range |
| `Wikidata.CountryMax` | src/wikidata.js:38-44 | A country's maximum is at least 0, bounds every spider's count, and is 0 or one of them |
| `Wikidata.CountryMaxBound` | src/wikidata.js:38-44 | A country's maximum never exceeds the sum of its positive counts |
| `Wikidata.SumOfCountryMaxima` | src/wikidata.js:36-46 | The recomputed count lies between 0 and the sum of all positive split counts |
| `Wikidata.SumOfCountryMaximaCovers` | src/wikidata.js:36-46 | Every single spider count in any country is at most the recomputed count |
| `Wikidata.RecountRow` | src/wikidata.js:35-48 | A falsy `atp_count` leaves the row unchanged; a truthy one without `atp_splits` throws; otherwise only `atp_count` changes, to the sum over countries of each country's largest count, which lies in [0, sum of positive split counts] |
| `Wikidata.RecountAll` | src/wikidata.js:34-49 | The recount keeps the number of rows, and its only failure is a row without splits |
| `Wikidata.RecountAllRows` | src/wikidata.js:34-49 | A successful recount recounts each row independently |
| `Wikidata.RecountAllFails` | src/wikidata.js:34-49 | The recount throws iff some row has a truthy `atp_count` and no splits, and then it reports the first such row |
| `Wikidata.RecountAllSnoc` | src/wikidata.js:34-49 | Recounting one more row appends it or stops at its error |
| `Wikidata.RecountAllErr` | src/wikidata.js:34-49 | After the first failing row, later rows do not change the outcome |
| `Wikidata.LoadedRows` | src/wikidata.js:20-60 | Loading keeps the number of rows; an empty file throws; otherwise loading throws iff the first row has `atp_country_count` and the recount throws |
| `Wikidata.LoadedRowsFacts` | src/wikidata.js:21-60 | Loading keeps every row's code, OSM count, brands, splits and description; the first row decides both legacy paths: back-fill with "" and no recount, or the recount; and the rename of `nsi_brand`/`nsi_description` into `q_title`/`q_description` |
| `Wikidata.BackFillRows` | src/wikidata.js:24-27 | The back-fill loop applies the back-fill to every row |
| `Wikidata.RenameRows` | src/wikidata.js:56-59 | The rename loop applies the rename to every row |
| `Wikidata.FindCountryMax` | src/wikidata.js:38-44 | The inner loop computes the country maximum |
| `Wikidata.SumCountryMaxima` | src/wikidata.js:36-46 | The country loop computes the new `atp_count` |
| `Wikidata.RecountRows` | src/wikidata.js:34-49 | The row loop computes the recount or stops at the first row it throws on |
| `Wikidata.LoadInsights` | src/wikidata.js:15-63 | `loadInsights` hands the table exactly the loaded rows, or throws on an empty file or a missing split |
| `Wikidata.RowFlags` | src/wikidata.js:155-177 | Each of the four highlights is raised iff its rule holds: code not starting with "Q"; `isInt(atp_count)` and OSM count above it; both brands present and NSI not starting with ATP; `atp_count > 0` and no NSI brand |
| `Wikidata.LoadingKeepsFlags` | src/wikidata.js:21-60 | Back-fill and rename never change a row's highlights, and the recount changes only the two count-based ones |
| `Wikidata.LargeCountNeverUnderOsm` | src/wikidata.js:161-165 | A count of 2^31 or more never raises the OSM-exceeds-ATP highlight, whatever the OSM count |
| `Wikidata.RenderCode` | src/wikidata.js:94-99 | The code is returned unchanged iff it is not displayed as a link; a link ends with the code and the closing tag |
| `Builds.Pow1024` | src/builds.js:14 | `Math.pow(1024, i)` is positive for every integer i |
| `Builds.Pow1024Monotone` | src/builds.js:12-14 | Powers of 1024 grow with the exponent |
| `Builds.UnitIndex` | src/builds.js:12 | The unit index of a positive size is the exponent i with 1024^i <= bytes < 1024^(i+1) |
| `Builds.UnitIndexUnique` | src/builds.js:12 | That bracketing exponent is unique |
| `Builds.Scale` | src/builds.js:14 | The number shown times 1024^i gives back the size |
| `Builds.FormatBytes` | src/builds.js:5-15 | 0 gives "0 Bytes"; a negative size gives "NaN undefined"; a negative `decimals` counts as 0; a positive size is scaled by its own unit, so the number shown lies in [1, 1024) and times 1024^i gives back the size, with a unit iff its index is within the 9-entry table, and then that entry |
| `Builds.FormatBytesUnit` | src/builds.js:10-14 | From 1 byte to below 1024 YB the label is the unit whose power brackets the size and the number shown lies in [1, 1024) |
| `Builds.FormatBytesOutOfTable` | src/builds.js:10-14 | Below one byte, and from 1024 YB up, the unit is `undefined` |
| `Builds.RenderStats` | src/builds.js:36-44 | For display, a non-empty `stats_url` becomes a Summary link and anything else an empty cell; other types get the raw value |
| `Builds.RenderDownload` | src/builds.js:69-78 | For display, a positive size becomes a link to `output_url` captioned with `formatBytes(size)` at 2 decimals; anything else an empty cell; other types get the raw value |
| `Strings.LessIrreflexive` | src/preview.js:102 | String `<` is irreflexive |
| `Strings.LessTransitive` | src/preview.js:102 | String `<` is transitive |
| `Strings.LessTotal` | src/preview.js:102 | Any two distinct strings are ordered by `<` one way or the other |
| `Strings.LessAsymmetric` | src/preview.js:102 | String `<` is asymmetric |
| `Strings.PrecedesTotal` | shared.js:55 | The ascending and descending comparisons are total |
| `Strings.PrecedesTransitive` | shared.js:55 | The ascending and descending comparisons are transitive |
| `Strings.Insert` | shared.js:55 | Insertion adds exactly one element to the multiset |
| `Strings.SortBy` | shared.js:55 | Sorting is a permutation |
| `Strings.InsertSorted` | shared.js:55 | Inserting into a sorted list keeps it sorted |
| `Strings.SortBySorted` | shared.js:55 | Sorting yields a sorted permutation |
| `Strings.Trim` | src/spiders.js:118 | `trim` removes leading and trailing whitespace: the result is a substring with only whitespace around it and no whitespace at either end |
| `Strings.TrimUnchanged` | src/spiders.js:118 | A string without whitespace at either end is its own trim |
| `Strings.TrimIdempotent` | src/spiders.js:118 | Trimming twice is trimming once |
| `Strings.ParseFloatDecimal` | src/spiders.js:116-117 | `parseFloat` of a decimal numeral gives its value |
| `Strings.DecimalValue` | src/spiders.js:116-117 | The digits of a numeral read back as its value |
| `Preview.CellValue` | src/preview.js:105-115 | A value cell is the bare value iff the value is neither a URL nor under a `:wikidata` key, and is never shorter than the value |
| `Preview.CellValueMeaning` | src/preview.js:105-115 | A value cell always contains the value; when both rules apply the Wikidata link wraps the URL link |
| `Preview.UrlLinkContains` | src/preview.js:107-109 | The URL link contains the value |
| `Preview.WikidataLinkContains` | src/preview.js:113-115 | The Wikidata link contains the value |
| `Preview.ContainsTransitive` | src/preview.js:107-115 | Containment composes, so a doubly wrapped value is still in the cell |
| `Preview.SortedPropertiesOrder` | src/preview.js:101-104 | The sorted properties are a permutation of the properties, in ascending key order |
| `Preview.TableRowsAppend` | src/preview.js:105-118 | The rows of two lists of properties are the rows of each, one after the other |
| `Preview.DescribeRows` | src/preview.js:105-118 | The loop emits one `<tr><th>key</th><td>value</td></tr>` per property, in order |
| `Preview.DescribeProperties` | src/preview.js:99-119 | The description is `<table>`, the rows of the sorted properties, `</table>` |
| `Preview.WrapStepCloser` | src/preview.js:124-126 | Each turn of the wrap loop brings the copy closer to the pointer, so the loop ends |
| `Preview.WrapTurns` | src/preview.js:124-126 | A whole number of turns of 360 brings the longitude within 180 of the pointer, and none are taken when it already is |
| `Preview.WrappedLongitude` | src/preview.js:124-126 | The wrapped longitude is within 180 of the pointer, differs by a whole multiple of 360, and is unchanged when already within 180 |
| `Preview.WrapLongitude` | src/preview.js:124-126 | The loop sets `coordinates[0]` to the wrapped longitude and changes no other coordinate |
| `Preview.Step` | src/preview.js:95-149 | After an event the popup is sticky iff it was clicked, or was sticky and not closed; it is shown iff the pointer entered a point, or it was shown and neither closed nor left while not sticky |
| `Preview.LeaveHidesUnlessSticky` | src/preview.js:146-149 | Mouse-leave hides an open popup iff it is not sticky, and never changes the flag |
| `Preview.StickyUntilClosed` | src/preview.js:135-149 | A sticky open popup stays open and sticky through any events other than close |
| `Preview.NeverStickyWithoutClick` | src/preview.js:93-149 | Without a click the flag never becomes true and mouse-leave always hides the popup |
| `Preview.PreviewPopup.constructor` | src/preview.js:89-93 | The popup starts closed and not sticky |
| `Preview.PreviewPopup.OnMouseEnter` | src/preview.js:95-132 | Mouse-enter opens the popup with the property table, at the point's coordinates with the longitude wrapped and the rest unchanged |
| `Preview.PreviewPopup.OnClick` | src/preview.js:135-138 | A click on a point makes the popup sticky and changes nothing else |
| `Preview.PreviewPopup.OnClose` | src/preview.js:141-143 | Closing the popup clears the sticky flag |
| `Preview.PreviewPopup.OnMouseLeave` | src/preview.js:146-149 | Mouse-leave removes the popup only when it is not sticky |

## Left out

- Network I/O is not modelled. This covers every `fetch` (the JOSM probe, statistics, insights) and the async `Promise.all` orchestration. Their answers are inputs. Fetching history lists is the parameter `fetch`.
- URL resolution (`new URL`) is the parameter `resolve`. The URL the map viewer link is built from is kept as the resolved `show` value.
- `Math.sqrt` is the parameter `sqrt`. The lemmas that need it ask only that it is 0 at 0 and positive on positive numbers.
- Floating point is not modelled: numbers are exact reals. `toFixed` and `toLocaleString` formatting is not modelled. Neither are `Infinity`, overflow or `NaN` beyond the cases named here.
- The `errors` and `elapsed` fields of a pivot cell are not modelled. Only `features` is read back.
- Key order of JavaScript objects is not modelled. Integer-like keys come first in `Object.keys`, which could reorder spiders, runs or properties with numeric names. The model keeps insertion order, and ascending order for the sorted properties.
- String comparison is by code point of Dafny characters. UTF-16 surrogate pairs are not modelled.
- The DataTables and jQuery configuration is not modelled: page length, layout, search, `createdCell` CSS, the selector HTML, the footer totals and `onLinkFormatChange`. Neither is the rest of the page's DOM work.
- The other render callbacks of the Wikidata page (countries, NSI brand, Q-description) are not modelled, nor are the spider and feature count columns of the builds page. They only decorate values with links or locale formatting.
- src/map.js, map/viewer.js and src/main.js are not part of this model.
- The map library's own behaviour is not modelled. In particular, removing a popup, or re-adding one that is open, fires its `close` event. `Close` is modelled as an event of its own, so the model does not clear the flag when a sticky popup is re-added on mouse-enter.
- `History.FetchHistoryList`: a `config.json` without a `histories` list, and a history body that is JSON but not an array, are not modelled. `run_id` is taken as a string.
- `Wikidata.IsIntMeaning`: strings are never ints in this model, although `isInt("12")` holds in the browser. Insights files hold numbers in `atp_count`.
- `Wikidata.RowFlags`: `Greater` compares numbers, and null as 0. A string operand is taken as not greater, whereas the browser would coerce it. The brand test needs both brands to be strings.
- `Strings.SortBy` stands in for `Array.prototype.sort`. `History.SortRunsSpec` claims order and permutation but not stability.
- `Builds.FormatBytes` computes the unit index exactly. The browser's `Math.log` quotient can round just below a whole number at an exact power of 1024, which this does not capture. The number shown is not rounded to `decimals`. A `size_bytes` string is treated as no link by `Builds.RenderDownload`.
- `Builds.RenderStats` takes `stats_url` as a string or null, which `History.NormalisedUrlShapes` proves of every normalised run.
- `Preview.WrapLongitude` needs at least one coordinate, as every GeoJSON point has. Property values are modelled as strings.
- `Spiders.DecodeLinkFormat`: a numeral too large for a double, such as `?link_format=1e400`, makes the browser's `parseFloat` return `Infinity`, so the trimmed text is used there; the model reads it as an exact number and gives "geojson".
- `Strings.ParseFloatDecimal` covers decimal numerals. The rest of `parseFloat`'s grammar is modelled in `Strings.ParseFloat`, but only numerals are proved about.
- `Spiders.RowCallback` needs at least as many runs as the row has counts. `Spiders.PivotBySpider` builds rows that way.

## Findings

| source | as written | input that shows it | evidently intended | confidence | as-written member | corrected member |
|---|---|---|---|---|---|---|
| src/spiders.js:230 | `linkHtml` is assigned without a declaration; the file is an ES module, so strict mode makes the assignment throw `ReferenceError` and the row callback stops at the first count cell that gets a link | a row with count 3 in its first run, format "geojson", and that run's `output_url` set | declare `linkHtml` with `let`, so the cell shows the link (and the JOSM link where available) | not executed | `Spiders.ThrowingColumn`, `Spiders.RowCallbackAsWrittenThrows` | `Spiders.RowCallback` |
