# Monnit API manager, modelled in Dafny

`APIManager.py` defines the class `Monnit`, which exports sensor readings from the
Monnit cloud API to CSV files. This project models the core of that class:

- **the window check** (`check_for_big_window`): a request window longer than one
  week is split into week-long cover ranges, `big_window` is set, and the settings
  window becomes the first range;
- **the catalogue refresh** (`get_network_list`, `get_sensor_list`) and **the network
  lookup** (`find_network_id`);
- **the export sequence** (`get_data_for_sensor_id`, `get_data_for_sensor_list`,
  the two `process_*_based_on_window` methods, `run`, `progressbar`): which
  (sensor, window) pairs are requested and in what order, which CSV file each
  non-empty answer goes to, and the pacing wait after each request that did not raise.

Modules:

- `Windows` (`windows.dfy`): timestamps as whole seconds, a week as 604800 s, the
  cover ranges as a function `Cover`, and their shape (contiguous, at most a week,
  partition of the window, count).
- `FileNames` (`file_names.dfy`): the CSV file name `output/<D(start)>_<D(end)>_<sensor>.csv`,
  where `D` keeps the text before the first space and drops the dashes.
- `Catalog` (`catalog.dfy`): networks, catalogue rows, and the reply of a catalogue
  request (the `Result` member, or a request error).
- `Sequencing` (`sequencing.dfy`): the events of an export (`Fetch`, `WriteCsv`,
  `Sleep(10)`) as functions of the work items and of the answers the server gives,
  the range-major order of work items, and what a trace shows (requests in order,
  files written, seconds slept).
- `ApiManager` (`monnit.dfy`): the class `Monnit` with the fields the methods update
  (`settings`, `sensorList`, `networkList`, `bigWindow`, `coverRanges`), a request
  counter, and a ghost `trace` of events. Each method is proved to leave the trace
  equal to the old trace followed by the events the `Sequencing` functions give.

The server is a parameter of the object: `server(k)` is the answer of the `k`-th data
request (an exception, or the rows of `Result`). The text `strftime` gives a
timestamp is the parameter `dateText`.

## Model

| member | source | states |
|---|---|---|
| Windows.Cover | APIManager.py:127-134 | The splitting loop builds no range exactly when the cursor has reached `end`; otherwise the first range starts at the cursor and the last ends at `end`. |
| Windows.CoverIsWeekChain | APIManager.py:127-134 | Every cover range is non-empty and at most a week long, all but the last are exactly a week, and each range ends where the next starts. |
| Windows.CoverWithin | APIManager.py:127-134 | Every cover range lies inside the original window. |
| Windows.CoverOrdered | APIManager.py:127-134 | Cover ranges are in chronological order and do not overlap. |
| Windows.CoverLocates | APIManager.py:127-134 | Every instant of `[start, end)` falls in some cover range. |
| Windows.CoverPartitions | APIManager.py:127-134 | Every instant of `[start, end)` falls in exactly one cover range. |
| Windows.CoverCount | APIManager.py:127-134 | There are ceil((end - start) / week) cover ranges. |
| Windows.FirstCoverIsSmall | APIManager.py:121-137 | The first cover range is never more than a week long, so the window the split leaves in the settings is not split again. |
| Windows.CoverOfDecemberWindow | APIManager.py:362-364 | The script's window, 2023-12-01 16:30:00 to 2023-12-25 05:00:00, splits into three full weeks and a last range of 2 days 12 h 30 min. |
| FileNames.BeforeSpace | APIManager.py:271 | `split(' ')[0]` gives a prefix of the text that holds no space and stops at the first space. |
| FileNames.WithoutDashes | APIManager.py:271 | `replace('-', '')` leaves no dash and never lengthens the text. |
| FileNames.BeforeSpaceOfHead | APIManager.py:271 | The text before the first space of `head + " " + rest` is `head` when `head` has no space. |
| FileNames.WithoutDashesAppend | APIManager.py:271 | Dropping dashes works piecewise over a concatenation. |
| FileNames.WithoutDashesKeeps | APIManager.py:271 | A text without dashes is unchanged by dropping dashes. |
| FileNames.DatePartOfStamp | APIManager.py:271 | The date stem of `Y-M-D rest` is `YMD` when the parts hold neither a dash nor a space. |
| FileNames.DatePartExample | APIManager.py:271 | The date stem of `2023-12-01 16:30:00` is `20231201`. |
| FileNames.Decimal | APIManager.py:271 | The decimal text of a sensor id is a non-empty string of digits. |
| FileNames.DecimalRoundTrip | APIManager.py:271 | Reading back the decimal text of a sensor id gives the id. |
| FileNames.CsvPathsDistinct | APIManager.py:271-272 | Two different sensors exported on the same window never write to the same file. |
| Sequencing.ObserveSleeps | APIManager.py:152-156 | `n` pacing steps request nothing, write nothing, and sleep `10 * n` seconds. |
| Sequencing.ItemFetches | APIManager.py:249-254 | One `get_data_for_sensor_id` requests exactly its own sensor and window, whatever the answer. |
| Sequencing.ItemWrites | APIManager.py:261-276 | One `get_data_for_sensor_id` writes exactly one file, `output/<D(start)>_<D(end)>_<sensor>.csv`, when the answer makes a non-empty frame (some row has a field), and no file otherwise. |
| Sequencing.ItemSleeps | APIManager.py:278-282 | One `get_data_for_sensor_id` sleeps `10 * pause` seconds when the request did not raise, with or without rows, and not at all when it raised. |
| Sequencing.RunEventsAround | APIManager.py:281-282 | The events of a run are those of the items before item `i`, then those of item `i`, then those of the items after it: a raised request neither stops the run nor changes the later items. |
| Sequencing.RunFetchesInOrder | APIManager.py:296-298 | A run requests every work item exactly once and in the given order, whatever the answers. |
| Sequencing.RunPacing | APIManager.py:278-282 | A run sleeps `10 * pause` seconds per request that did not raise, and no more. |
| Sequencing.RunWrites | APIManager.py:261-276 | A run writes exactly the CSV files of the requests whose answer made a non-empty frame, in request order, with each file named after its own sensor and window; their number is the number of such answers. |
| Sequencing.PauseIsInterval | APIManager.py:31 | With `interval_seconds = interval_minutes * 60`, the `interval_seconds // 10` steps of 10 s last exactly `interval_minutes` minutes; a setting of zero or less means no wait. |
| Sequencing.RangeMajorLength | APIManager.py:324-329 | The split plan holds `|ranges| * |sensors|` work items. |
| Sequencing.RangeMajorAt | APIManager.py:324-329 | In the split plan, position `i * |sensors| + j` is sensor `j` on cover range `i` (range-major, sensor-minor). |
| Sequencing.RangeMajorWindows | APIManager.py:324-329 | Every item of the split plan is on one of the cover ranges. |
| Sequencing.SplitRunShape | APIManager.py:333-340 | `run` on a window longer than a week issues ceil(span / week) requests per sensor, each on a window of more than zero seconds and at most a week. |
| Sequencing.TenDaysTwoSensors | APIManager.py:333-340 | `run` on a 10-day window with sensors A and B requests A then B on the first week, then A then B on the last 3 days. |
| ApiManager.SplitWindow | APIManager.py:127-134 | The splitting loop returns exactly the cover ranges of the window. |
| ApiManager.Monnit.constructor | APIManager.py:18-31 | The object starts with the loaded settings, their sensor list, no split, `interval_seconds = interval_minutes * 60`, no request made, and an empty trace. |
| ApiManager.Monnit.CheckForBigWindow | APIManager.py:108-140 | A window strictly longer than a week sets the flag, stores its cover ranges, and replaces the settings window by the first range. Any other window, including exactly a week or a negative span, changes nothing, and the flag is never cleared. Once set, the cover ranges form a week chain. |
| ApiManager.CheckForBigWindowTwice | APIManager.py:108-140 | Checking the window twice changes only the flag, the cover ranges and the settings, and leaves them as one check does. |
| ApiManager.Monnit.Progressbar | APIManager.py:142-156 | The trace grows by exactly `seconds // 10` sleeps of 10 s (600 s by default), or by none when that is not positive. |
| ApiManager.Monnit.GetNetworkList | APIManager.py:158-185 | After a request error the network list is empty; after an answer it is the id and name of each `Result` row in order, or empty when `Result` is absent. |
| ApiManager.Monnit.FindNetworkId | APIManager.py:187-206 | Returns the id of the first network with that name, and `None` exactly when no network has it; nothing is modified. |
| ApiManager.Monnit.GetSensorList | APIManager.py:208-235 | After a request error the sensor list is empty; after an answer it is the `SensorID` of each `Result` row in order, or empty when `Result` is absent. |
| ApiManager.Monnit.GetDataForSensorId | APIManager.py:237-282 | One more data request. The trace grows by the request, then by the CSV write if the answer makes a non-empty frame, then by the pacing sleeps unless the request raised. |
| ApiManager.Monnit.GetDataForSensorList | APIManager.py:284-298 | One request per sensor of the list, in list order, all on the given window; the trace is the events of those items under the next answers of the server. |
| ApiManager.Monnit.ProcessDataForSensorIdBasedOnWindow | APIManager.py:300-317 | When the window was split, one request per cover range, in order; otherwise one request on the settings window. The trace is the events of those items. |
| ApiManager.Monnit.ProcessDataForSensorListBasedOnWindow | APIManager.py:319-331 | When the window was split, all sensors on the first cover range, then on the next, and so on; otherwise all sensors on the settings window. The trace is the events of those items. |
| ApiManager.Monnit.SplitPlanIsWeekly | APIManager.py:319-329 | Once the window was split, every request of the export plan is on a window of more than zero seconds and at most a week. |
| ApiManager.Monnit.Run | APIManager.py:333-340 | The window check followed by the export of every sensor on every window of the plan it leaves: the cover ranges of the original window when it is longer than a week. |

## Left out

- HTTP and JSON: `requests.get`, `raise_for_status` and `response.json` are not modelled. A data request is an answer `server(k)` indexed by its position among all data requests; a catalogue request is a `Reply` parameter. The request URLs and the authorization token are not modelled.
- Exceptions other than `RequestException` are not modelled. Examples: a `KeyError` on a row without `NetworkID`, `NetworkName` or `SensorID`, or an I/O error while writing the CSV. A non-JSON answer counts as a request error.
- pandas: the DataFrame, the `MessageDate` re-formatting and the CSV contents are not modelled. A `WriteCsv` event carries the answer's rows as received and the file name. Of the frame only its emptiness is modelled: `HasData` holds when some row has a field. An absent `Result` is an empty row list, which gives an empty frame as `pd.DataFrame(None)` does.
- `convert_timestamp_to_datetime`: timezone conversion with pytz is not modelled.
- `strptime`/`strftime`: dates are whole seconds, and the text of a date is the parameter `dateText`. `Windows.CoverOfDecemberWindow` reads the naive dates as UTC seconds.
- ApiManager.Monnit.GetDataForSensorId: on an unsplit window the source names the file after the raw settings strings. The model uses `dateText` of the settings timestamps, which carries the same date but may differ in padding (the script's `5:00:00`).
- `log` and `strip_ansi`: console and log-file output is a side channel and is not modelled.
- `handle_settings_file`: reading `settings.json` and exiting on a bad file are not modelled. The constructor takes the settings that would have been loaded: sensor list, interval in minutes, start and end.
- `interval_minutes`: it is taken as an integer. A float setting would make `interval_seconds // 10` a float.
- ApiManager.Monnit.Progressbar: the `tqdm` display and the real sleeping are not modelled. Only the number and length of the sleeps are recorded in the trace.
- ApiManager.Monnit.constructor: the source leaves `network_list` and `cover_ranges` unset until the first refresh or split, while the model starts them empty. The source reads `cover_ranges` only after a split has set it.
- ApiManager.Monnit.CheckForBigWindow: the loop appends to `self.cover_ranges` one range at a time. The model builds the list in `SplitWindow` and stores it once, so its intermediate states are not modelled.
- Sensor ids are natural numbers and network ids are integers. A sensor id of another JSON type is not modelled.
- `os.path.join` is modelled with the POSIX separator `/`.
- The `__main__` script is not modelled as a whole. Its window is `Windows.CoverOfDecemberWindow`, and its date stem is `FileNames.DatePartExample`.
