# Smart-Gardening sensor pipeline in Dafny

A model of the logic at the heart of the Smart-Gardening dashboard, with proofs about it. The dashboard stores readings from greenhouse and outdoor thermometers/hygrometers and then shows them:

- **Server side.**
  - **Stores.** The server keeps one SQLite store per sensor group, each with three tables: `temperature`, `humidity` and `linkage`. The model covers how a store gets its file name, creating stores, inserting readings and clearing stores.
  - **History.** Reading the history averages each series per minute, merges the two series on the minute key, sorts them and numbers the points 1..n.
  - **Tables and state string.** The server also turns the history into a weekly table of daily averages. It writes the current states of the configured sensors as `1:s1;2:s2;…`.
- **Client side.**
  - **Details.** The details page re-buckets each store's history:
    - by hour for the selected day;
    - by day for the last 7 days;
    - by day for the last 30 days.
  - **Dashboard.** The dashboard parses the state string, keeps a bounded watering counter, renders a five-star rating and asks the server for the weekly summary.
  - **Settings.** The settings page edits the plant list and the weekly watering frequency, then saves a normalised payload.
  - **Garden.** The garden page describes the daily solar irradiance by tier.

## Modules

- **`Text` and `Calendar`**: JavaScript's string and `Date` behaviour, written out.
  - `Text` covers `split`/`join`, `trim`, `includes`, decimal rendering and `padStart`.
  - `Calendar` covers calendar arithmetic, the day of the week, the key formats and the parsing of those keys back into dates.
  - `DateText` covers what `new Date(key)` makes of the keys and how the page formats them, including the `NaN` output for an unparsable key.
- **`Grouping`**: the group-by-and-average fold that the server and both client aggregations share. A JavaScript object is modelled as its keys in insertion order plus a map.
- **`StoreNaming`**: the store file names and which table a reading goes to.
- **`SensorStore`**: the store folder.
  - It is a class `DbFolder` whose `files` map each file name to either:
    - a bare file: SQLite creates an empty database when it opens a missing path;
    - a store with tables: the sequences `temperature`, `humidity` and `linkage`, plus the AUTOINCREMENT counters.
  - The operations are methods that are proved against specification functions.
- **`History`**: `fetchSensorData`, with its `calculateAverages`, the merge and the ordering.
- **`Buckets`, `Details` and `Tables`**: the client and table re-aggregations.
  - `Details.DetailsView` is the page object; `aggregateData` and its companions are methods on it.
- **`ApiHandler`, `Dashboard`, `Settings` and `Garten`**: the state string and the three pages.
  - The watering counter, the settings view and the dashboard view are classes whose handlers update fields in place.
- **External inputs are parameters.** The network answers, the current time (`now`) and the hub (a function from sensor id to response) are all passed in.

## Model

| member | source | states |
|---|---|---|
| StoreNaming.MainPartDropsFirstSegment | server/database.js:12-13 | With a `.` in the id, the store name is everything after the first `.`; without one, it is the whole id |
| StoreNaming.DbFilenameShape | server/database.js:11-16 | The file name ends in `.db`; a main part ending in `_temperature` in any letter case has that ending replaced by `_humidity` |
| StoreNaming.PairSharesStore | server/database.js:11-16 | `sensor.X_temperature` (in any letter case) and `sensor.X_humidity` map to the same file `X_humidity.db` |
| StoreNaming.InitStoreNameAgrees | server/database.js:41 | For a group listed humidity-first, the name `initDatabase`/`createSensorDatabase` derive is the `createDbFilename` of each of its ids |
| StoreNaming.TemperatureFirstGroupDisagrees | server/database.js:208 | For a group listed temperature-first, creation makes `X_temperature.db` while inserts write to `X_humidity.db` |
| StoreNaming.TableFor | server/database.js:235 | A reading goes to the humidity table exactly when its entity id contains `humidity` |
| SensorStore.DbFolder.InsertSensorData | server/database.js:223-276 | The folder afterwards is the insert specification applied to the old folder |
| SensorStore.InsertTouchesOneStore | server/database.js:241-247 | An insert affects the file `createDbFilename` names and no other file |
| SensorStore.InsertAppendsOneRow | server/database.js:253-265 | Appends one row with the next id to the selected table, even if an equal row exists; leaves the other table unchanged; puts the timestamp in `linkage` exactly once |
| SensorStore.LinkOnce | server/database.js:68-73 | `INSERT OR IGNORE` on the UNIQUE linkage timestamp keeps `linkage` duplicate-free and holds the timestamp exactly once |
| SensorStore.InsertTwice | server/database.js:54-73 | Inserting the same reading twice adds two value rows but only one linkage row |
| SensorStore.InsertWithoutValue | server/database.js:238-265 | A non-numeric state (NULL in a NOT NULL column) adds no value row but still links the timestamp; a missing timestamp changes nothing |
| SensorStore.InsertFailsQuietly | server/database.js:247-269 | Inserting into a file without tables leaves a bare file and nothing else changed |
| SensorStore.InsertPreservesValid | server/database.js:54-73 | An insert keeps the ids positive, increasing and within the AUTOINCREMENT counters, and the linkage duplicate-free |
| SensorStore.DbFolder.CreateSensorDatabase | server/database.js:39-85 | The store named after the group gets the three tables; a store that already has them is left as it is |
| SensorStore.DbFolder.InitDatabase | server/database.js:202-221 | The folder afterwards is the init specification: every non-empty group whose file is missing is created |
| SensorStore.InitCreatesStores | server/database.js:206-218 | Existing files are never touched, only named group stores appear, and every non-empty group has a file afterwards |
| SensorStore.InitIdempotent | server/database.js:212-217 | Running `initDatabase` twice gives the same folder as running it once |
| SensorStore.InitNoOp | server/database.js:212-217 | When every group's file exists, `initDatabase` changes nothing |
| SensorStore.DbFolder.ClearDatabase | server/database.js:279-301 | The folder afterwards is the clear specification |
| SensorStore.ClearEmpties | server/database.js:280-300 | Every store whose deletes succeed is emptied but keeps its tables; a failing store or a bare file is unchanged; no file appears or disappears |
| SensorStore.IdsContinueAfterClear | server/database.js:286-289 | The counters survive a clear (`sqlite_sequence` is skipped), so the next id exceeds every id handed out before |
| History.CalculateAverages | server/database.js:135-160 | The forEach fold and the map produce the minute averages of the specification, each minute keyed by the date `new Date(getFullYear(), …)` rebuilds |
| History.MinuteAveragesShape | server/database.js:138-159 | One average per minute that has readings, with distinct keys; each average is sum/count with count ≥ 1 |
| History.MinuteAveragesMeaning | server/database.js:138-159 | A minute's average equals the sum of that minute's values divided by their number, and is absent when the minute has no reading |
| History.PlaceAll | server/database.js:167-181 | The in-place merge loop equals the specification of one `forEach` |
| History.PlaceMeaning | server/database.js:167-181 | A merge pass adds exactly the series' keys, keeps the keys distinct, and sets only its own side |
| History.MergeMeaning | server/database.js:165-181 | `combinedData` has one entry per minute of either series, with the temperature and humidity average or null |
| History.SortSorted | server/database.js:183-184 | Sorting distinct keys gives a strictly ascending permutation |
| History.PointsOfMeaning | server/database.js:183-190 | The points are the sorted keys numbered 1..n, with `T` replaced by a space and both sides taken from `combinedData` |
| History.StoreMinutes | server/database.js:135-190 | A store's history has one point per minute in which either series has a reading, in strictly ascending order |
| History.StorePointsMeaning | server/database.js:135-190 | Point i has id i+1 and its minute's temperature and humidity averages, or null for a side without readings |
| History.StoreHistory | server/database.js:95-192 | The per-store body computes the specified history |
| History.FetchSensorData | server/database.js:87-199 | The loop over the files yields the fetch specification |
| History.FetchMeaning | server/database.js:87-199 | Rejects exactly when some file has no tables or holds a timestamp that is not a date; otherwise every file maps to its history |
| History.FetchRejects | server/database.js:115-133 | One unreadable store makes the whole fetch reject |
| Grouping.Accumulate | client/Details.js:105-119 | The in-place `groupedData` loop equals the fold specification |
| Grouping.FoldTotals | client/Details.js:112-117 | The fold has an accumulator exactly for the keys present; each holds the count and the per-column sums of that key's samples |
| Grouping.FoldOrder | client/Details.js:112-114 | Keys appear in first-seen order |
| Grouping.RowsMeaning | client/Details.js:121-125 | One row per distinct key in first-seen order; each value is sum/count with count ≥ 1 |
| Buckets.DaysBefore | client/Details.js:98-99 | `setDate(getDate() - n)` is n calendar days earlier and strictly before the present for n > 0 |
| Buckets.Candidate | client/Details.js:102-107 | A point takes part exactly when it has a timestamp, both values and a timestamp at or after the start |
| Buckets.GroupEntries | client/Details.js:101-125 | Filtering and grouping one store gives that store's bucket averages |
| Buckets.BucketKeys | client/Details.js:105-125 | There is exactly one bucket per key of a kept point, the keys are distinct, and they appear in first-seen order |
| Buckets.BucketValues | client/Details.js:115-124 | Each bucket's temperature and humidity are the sum of its kept points' values divided by their number (at least 1) |
| Buckets.NoUpperBound | client/Details.js:107 | Every kept point has its bucket, however late its timestamp: the window has no upper end |
| Buckets.DroppedPointIgnored | client/Details.js:102 | A point the filter drops changes no bucket |
| Details.WindowStart | client/Details.js:97-99 | The day view starts at the selected date; the week view starts 7 calendar days before now and the month view 30, both strictly before now |
| Details.AggregateSpec | client/Details.js:101-126 | Every store of the data appears in the result |
| Details.AggregateBuckets | client/Details.js:95-129 | A store's buckets in a view are exactly the keys of its points kept by that view's window, at the view's resolution |
| Details.DetailsView.AggregateData | client/Details.js:95-129 | The loop over the stores yields the aggregate specification |
| Details.DetailsView.AggregateAllData | client/Details.js:88-92 | Daily, weekly and monthly are the aggregates of `Tag`, `Woche` and `Monat`; the data and the selected date are unchanged |
| Details.DetailsView.ChangeDate | client/Details.js:58-63 | Moves the selected date by `direction` calendar days and marks the view as processing; no aggregate changes yet |
| Details.DetailsView.DateChangeSettles | client/Details.js:64-68 | The timer callback recomputes only the daily aggregate and ends processing |
| Details.DetailsView.OnInit | client/Details.js:37-56 | A response replaces the data, recomputes all three views and marks the page loaded; a failure only ends processing |
| Details.DetailsView.Initialize | client/Details.js:15-34 | Same as `oninit`, but nothing changes when the page is already loaded |
| Details.MonthStartsBeforeWeek | client/Details.js:98-99 | The month window starts 23 days before the week window |
| Details.WeekDaysInMonth | client/Details.js:97-110 | Every day the week view shows for a store, the month view shows too |
| Calendar.AddDaysInverse | client/Details.js:58-60 | Moving the date forward by n days and back by n days restores it |
| Calendar.WeekdayRepeatsWeekly | server/tables.js:17-20 | The weekday name repeats every seven days |
| Calendar.EpochIsThursday | server/tables.js:9 | The weekday table is anchored correctly: 1 January 1970 is a Thursday (index 4 from Sunday) |
| Calendar.TwoDigitYearKey | server/database.js:140-146 | A reading dated in the years 0..99 is bucketed under `19YY`, because the `Date` constructor reads such a year as 1900..1999; the hour and minute are kept |
| Calendar.ParseDisplayMinuteRoundTrip | client/Details.js:106 | A history timestamp `YYYY-MM-DD HH:MM` parses back to its minute |
| Calendar.ParseDayKeyRoundTrip | server/tables.js:36-38 | A day key `YYYY-MM-DD` parses back to midnight of that day |
| Calendar.FormatDateShape | client/Details.js:71-74 | `formatDate` gives `DD.MM.YY`: two-digit day and month and the last two digits of the year |
| Calendar.FormatTimeShape | client/Details.js:76-79 | `formatTime` gives `HH:MM` with the hour and minute zero-padded |
| DateText.HourKeyRoundTrip | client/Details.js:108-109 | An hour key `YYYY-MM-DD HH:00:00` parses back to the top of that hour |
| DateText.FormatDayKey | server/tables.js:49-51 | Formatting a day key gives that day's date, its weekday and the time `00:00` |
| DateText.FormatHourKey | client/Details.js:71-85 | Formatting an hour key gives that day's date, its weekday and the time `HH:00` |
| DateText.FormatDisplayMinute | client/Details.js:71-79 | Formatting a history timestamp gives its date and its hour and minute |
| Tables.TransformSpec | server/tables.js:3-67 | Fails with the single generic message exactly when the fetch rejected; otherwise there is one table per store |
| Tables.TransformSensorData | server/tables.js:22-62 | The map over the stores yields the transform specification |
| Tables.RowsDescribeKeptDays | server/tables.js:23-51 | Every row's `datum` and `wochentag` describe the day of a point from the last seven days |
| Tables.RowsAverage | server/tables.js:40-53 | Each row's temperature and humidity, before `toFixed`, are its day's sum/count with count ≥ 1 |
| ApiHandler.FetchSensorState | server/apiHandler.js:13-32 | Fails exactly when the request fails or the answer has no `state`; otherwise returns that state |
| ApiHandler.FetchAllSensorStates | server/apiHandler.js:34-49 | The result is the `;`-join of one `i:state` segment per sensor in order, with `null` for a failed fetch |
| ApiHandler.SegmentSplits | server/apiHandler.js:41-44 | A segment splits on `:` into the position and the state text when the state has no colon |
| ApiHandler.SegmentsRecovered | server/apiHandler.js:37-48 | An empty id list gives `""`; otherwise the string splits on `;` back into one segment per sensor |
| Dashboard.CollectKeys | client/Dashboard.js:25-29 | The parsed map's keys are exactly the first parts of the segments |
| Dashboard.CollectLastWins | client/Dashboard.js:27 | A key maps to the value of its last segment: later entries overwrite earlier ones |
| Dashboard.StatesRoundTrip | client/Dashboard.js:25-29 | When no state holds `:` or `;`, parsing the server's state string maps exactly `"1"`..`"n"` and gives `"k"` the state of sensor k |
| Dashboard.Stars | client/Dashboard.js:212-214 | The star string has length 5 and holds only `★` and `☆` |
| Dashboard.StarsCount | client/Dashboard.js:222-224 | A rating e, whole or fractional, shows ⌈e⌉ full stars clamped to 0..5 (3.5 shows four); an undefined rating shows none |
| Dashboard.CountOr | client/Dashboard.js:46-47 | A falsy counter takes the default; a non-zero number is kept |
| Dashboard.SavePayload | client/Dashboard.js:53-57 | The payload is the settings with only `alreadyWatered` written over |
| Dashboard.DashboardView.LoadData | client/Dashboard.js:19-33 | A response replaces the states with the parsed map; a failure keeps them; nothing else changes |
| Dashboard.DashboardView.LoadSettings | client/Dashboard.js:38-51 | Takes the settings and the location, with `remainingWatering` defaulting to 3 and `alreadyWatered` to 0 |
| Dashboard.DashboardView.WaterOnce | client/Dashboard.js:161-167 | Adds one watering and saves only while below the frequency; otherwise nothing changes; a counter within 0..frequency stays within it |
| Dashboard.DashboardView.UndoWatering | client/Dashboard.js:171-177 | Removes one watering and saves only while above 0; otherwise nothing changes; a counter within 0..frequency stays within it |
| Dashboard.DashboardView.SendWeeklyData | client/Dashboard.js:73-109 | An empty week sets the error and sends nothing; an answer replaces the summary and clears the error; a failure sets the AI error |
| Settings.SettingsView.constructor | client/Settings.js:5-11 | The defaults are no plants, empty texts and frequency 3 |
| Settings.SettingsView.LoadData | client/Settings.js:17-30 | Every key the answer has replaces the current value, the others stay, and a failure changes nothing |
| Settings.SettingsView.DecrementFrequency | client/Settings.js:68-72 | Decrements only above 0 and keeps a frequency in 0..7 within 0..7 |
| Settings.SettingsView.IncrementFrequency | client/Settings.js:76-80 | Increments only below 7 and keeps a frequency in 0..7 within 0..7 |
| Settings.SettingsView.AddPlant | client/Settings.js:106 | Appends an unnamed plant with count 1 and keeps the earlier plants |
| Settings.SettingsView.RemovePlant | client/Settings.js:101 | Deletes exactly plant `index` (nothing past the end) and keeps the others in order |
| Settings.RemoveKeepsOthers | client/Settings.js:101 | After a removal, each remaining plant is the one from before at the same or the next position |
| Settings.SettingsView.SaveSettings | client/Settings.js:32-41 | The loop produces the payload specification |
| Settings.NumberOr1 | client/Settings.js:36 | A missing, NaN or 0 count is saved as 1; any other count is kept |
| Settings.PayloadPlants | client/Settings.js:34-37 | Each saved plant is the plant at the same place, with its name trimmed and its count made truthy |
| Settings.SaveLoadSave | client/Settings.js:32-41 | Saving what the server gives back after a save posts the same payload: the normalisation is idempotent |
| Text.TrimMeaning | client/Settings.js:35-39 | `trim()` keeps a slice of the text with only white space before and after it, and the slice starts and ends with a non-space |
| Text.TrimIdempotent | client/Settings.js:35-39 | Trimming twice is trimming once |
| Garten.Interpret | client/Garten.js:15-21 | The result is the name of a tier whose range holds kw, followed by ` (kw kW)` |
| Garten.OneTier | client/Garten.js:16-20 | Exactly one tier applies to any value |
| Garten.InterpretTier | client/Garten.js:15-21 | Each tier's range gives that tier's name, and every result ends with ` (kw kW)` |

## Left out

- SQLite, `fs` and `path` plumbing:
  - `runQuery`, `getQuery`, `readdirSync` and the open/close callbacks are not modelled;
  - a store folder is a map from file name to store;
  - "file exists" is a map lookup;
  - a failed `DELETE` in a store is a parameter (`failing`);
  - a partial failure in the middle of one store's deletes is not modelled.
- Time zones and DST: local time and UTC are treated as the same. `toISOString` after the local-time `new Date(...)` therefore keeps the rebuilt date's fields; the rebuild itself maps the years 0..99 to 1900..1999 (`Calendar.Rebuilt`).
- Dates and floats:
  - Years are limited to four digits in the parsing lemmas.
  - `new Date` of a key is modelled only for the three key shapes the code produces; anything else is treated as an invalid date.
  - `parseFloat`, `toFixed` and `roundValue` are not modelled. Values are reals, and a NaN reading is a missing value.
- Timers and async behaviour:
  - the 500 ms `setTimeout` in `changeDate` is split into two methods, `ChangeDate` and `DateChangeSettles`;
  - `reloadWithTimer`, `canReload` and any interleaving of concurrent requests are not modelled.
- Parts outside this model:
  - `server/initialize.js`, `server/server.js`, the OpenAI handler, `client/notification.js`, `client/Notizen.js` and `client/main.js`;
  - chart rendering (`renderChart`), the views and the Garten demo tables.
  - The sensor group list and the hub responses are parameters.
- `getWeeklyData` only returns `Details.aggregatedData.weekly`. `Dashboard.DashboardView.SendWeeklyData` takes that map as a parameter.
- History.FetchSensorData: the `ORDER BY timestamp` of both queries is not modelled; the readings are averaged in the order they were inserted. This changes only the first-seen order of `calculateAverages`, not the averages, and the merged keys are sorted afterwards. The result is a map from file name to history, so the `readdirSync` order of `result` is not modelled.
- Details.DetailsView.AggregateData: the result is a map from store name to buckets, so the `Object.entries` order in which the view renders the stores is not modelled.
- Tables.TransformSensorData: the result is a map from store name to rows. The source builds an array in the order of the store names, and that order is not modelled.
- Dashboard.CountOr: settings numbers are integers. A truthy value that is not a number (a string, say) is treated as falling back to the default rather than being kept.
- Dashboard.DashboardView.constructor: `alreadyWatered` starts at 0 instead of `undefined`. Before settings load, both buttons are no-ops in either case.
- Garten.Interpret: irradiance is an integer number of kW. The rendering of fractional JavaScript numbers is not modelled.
- History.SortSorted: string order is code-point order over `char`. Sorting by UTF-16 code units differs only outside the Basic Multilingual Plane, which cannot occur in the digit-and-dash keys.
- The plant name and count input handlers (`oninput`) are plain field writes and are not modelled.
- The repository's own description calls repeated inserts idempotent, but the code is not. Only `linkage.timestamp` is UNIQUE, so the value tables receive duplicate rows. The model follows the code (`SensorStore.InsertTwice`).
