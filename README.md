# homebridge-ahoy-dtu: a Dafny model of the solar reporting core

This project models the data handling of a Homebridge plugin. The plugin reads a Kostal
inverter over HTTP and AHOY-DTU micro-inverters over MQTT. It keeps per-day production
statistics, stores sampled sensor values, builds daily energy reports and sends them as push
messages. There is one Dafny module per source file:

- `KostalInverter` (`kostal.dfy`) covers `src/kostal-inverter-platform.ts`:
  - the seven-pass extraction of the inverter state from the process-data modules;
  - the state-code names;
  - the authentication headers;
  - the fifteen-minute throttle on detailed log lines.
- `AhoyDtu` (`ahoy_dtu.dfy`) covers `src/ahoy-dtu-platform.ts`:
  - parsing of topics and payloads;
  - the per-device records;
  - the offline check;
  - creation of accessories from the discovered topics.
- `DailyReports` (`daily_reports.dfy`) covers `src/daily-reports.ts`:
  - the running day statistics (trapezoid energy, peak, production window, 24-hour buffer);
  - the report time and the once-a-day gate;
  - comparison, efficiency, weather and the weekly average.
- `I18n` (`i18n.dfy`) covers `src/i18n/index.ts`:
  - locale selection;
  - dotted-key lookup with fallback to the key;
  - `{{name}}` interpolation;
  - the comparison line.
- `DataStorage` (`data_storage.dfy`) covers `src/data-storage-manager.ts`:
  - throttled appends;
  - retention pruning;
  - the 1 % change compression;
  - window statistics.
- `BatchEnergy` (`batch_energy.dfy`) covers the energy and production-period computations of
  `generate-daily-report.js` and `daily-energy-report.py`.
- `DailyReportGenerator` (`daily_report_generator.dfy`) covers the report literal of
  `generate-daily-report.js`.
- `DailyEnergyReport` (`daily_energy_report.dfy`) covers the report dictionary of
  `daily-energy-report.py`. Its lemmas tie it to the JavaScript twin.
- `PushNotifications` (`push_notifications.dfy`) covers `push-notifications.js`: the Markdown
  message, the HomeKit message, the service fan-out, the e-mail options and the cron expression.
- `IosPush` (`ios_push.dfy`) covers `src/ios-push-service.ts`: its HomeKit message and the status
  written to the push accessory.
- Helper modules:
  - `Sequences` (`sequences.dfy`): options, sums, maxima, absolute values, subsequences.
  - `Text` (`text.dfy`): digits, decimal rendering, split, join, character removal and replacement.
  - `JsMath` (`js_math.dfy`): JavaScript numbers with NaN, `Math.round`-style half-up rounding
    and Python's half-even `round`.

Classes whose fields the source updates in place are Dafny classes with `modifies` clauses:
`DailyReportsManager`, `SolarReportI18n`, `DataStorageManager`, `AhoyDtuPlatform` and
`LogThrottle`. Their loops are methods proved against recursive specification functions. The
remaining code is datatypes and functions.

All files form one program and are verified together, from this directory:

    dafny verify *.dfy

Parameters stand in for the things the model cannot see:

- **Time.** Points in time are integer milliseconds since the epoch. "Now" is always a
  parameter. Calendar days are UTC day numbers: `toISOString().split('T')[0]` maps one-to-one
  onto them. Local wall-clock time is a fixed offset `tzOffsetMs`.
- **Library formatting.** `Intl`, `toFixed`, `toLocaleTimeString`, base64 and `String(number)`
  are function-typed parameters.
- **Inverter readings.** They carry the value already parsed by `parseFloat`, as a
  `JsNumber`: a finite real or NaN.

## Model

| member | source | states |
|---|---|---|
| KostalInverter.MapInverterState | src/kostal-inverter-platform.ts:883-898 | Codes 0 to 9 give their fixed state names; any other reading gives `unknown_` followed by its rendering |
| KostalInverter.StateNamesDistinct | src/kostal-inverter-platform.ts:886-896 | Two different state codes never share a name |
| KostalInverter.RunningIsCodeTwo | src/kostal-inverter-platform.ts:886-896 | The status is `running` exactly for code 2 |
| KostalInverter.PvCandidateMeaning | src/kostal-inverter-platform.ts:693 | An id qualifies as a PV string power exactly when it contains the letter P |
| KostalInverter.ExtractInverterState | src/kostal-inverter-platform.ts:630-881 | The seven guarded passes over every module produce the state defined by the fold `Extracted` |
| KostalInverter.ScanEntries | src/kostal-inverter-platform.ts:645-866 | One pass over one module's entries equals the per-entry fold of that pass |
| KostalInverter.PowerPositive | src/kostal-inverter-platform.ts:631-880 | The extracted power is always strictly positive, whatever the modules contain |
| KostalInverter.PowerFloor | src/kostal-inverter-platform.ts:654-679 | Unless a local PV_P reading lies strictly between 0 and 0.0001, the power is at least the 0.0001 floor |
| KostalInverter.PowerBelowFloor | src/kostal-inverter-platform.ts:780-785 | A single local PV_P of 0.00005 yields power 0.00005, below the floor of the first pass |
| KostalInverter.LastValue | src/kostal-inverter-platform.ts:647-650 | A reading is found exactly when some entry carries one of the ids |
| KostalInverter.LastFinite | src/kostal-inverter-platform.ts:660-672 | A finite reading is found exactly when some entry with one of the ids is not NaN |
| KostalInverter.LastValueAppend | src/kostal-inverter-platform.ts:645-685 | Over a concatenation, the later part's reading wins when it has one |
| KostalInverter.LastFiniteAppend | src/kostal-inverter-platform.ts:660-672 | Over a concatenation, the later part's finite reading wins when it has one |
| KostalInverter.LocalValuesReadings | src/kostal-inverter-platform.ts:645-685 | The first local pass sets the status, the energy in kWh and the temperature from the last matching entries, and otherwise keeps them |
| KostalInverter.OtherPassesKeep | src/kostal-inverter-platform.ts:691-866 | Only the first local pass touches status, energy and temperature; only the battery pass touches battery power |
| KostalInverter.BatteryReading | src/kostal-inverter-platform.ts:827-840 | The battery power is the last P entry of the battery module, with NaN read as 0 |
| KostalInverter.ReadModuleReadings | src/kostal-inverter-platform.ts:645-840 | One module sets status, energy, temperature and battery power from its own last matching entries |
| KostalInverter.LastReadingsWin | src/kostal-inverter-platform.ts:631-880 | Over all modules, those four fields are the last matching readings, or the initial unknown, 0, 20 and 0 |
| KostalInverter.StatusNeedsLocalState | src/kostal-inverter-platform.ts:647-650 | Without an `Inverter:State` entry in the local module the status stays `unknown` |
| KostalInverter.NoLocalState | src/kostal-inverter-platform.ts:647-650 | Such modules hold no state reading at all |
| KostalInverter.GetAuthHeaders | src/kostal-inverter-platform.ts:615-628 | The JSON headers are always present; Basic authorization is present exactly when both credentials are non-empty, and it encodes `user:password` |
| KostalInverter.LogThrottle.constructor | src/kostal-inverter-platform.ts:136-138 | The throttle starts in the first-log state with no detailed log |
| KostalInverter.LogThrottle.LogCurrentData | src/kostal-inverter-platform.ts:149-155 | A detailed log is written exactly on the first call or 15 minutes after the last one; detailed logs stay at least 15 minutes apart |
| AhoyDtu.ExtractDeviceId | src/ahoy-dtu-platform.ts:176-179 | An id exists exactly for topics starting `AHOY-DTU_` followed by a non-slash; it is non-empty and slash-free |
| AhoyDtu.DeviceIdOfTopic | src/ahoy-dtu-platform.ts:176-179 | Prefix, id and a slash-led tail give back that id |
| AhoyDtu.DeviceIdShape | src/ahoy-dtu-platform.ts:176-179 | Every extracted id is followed in its topic by the end or a slash |
| AhoyDtu.ExtractParameter | src/ahoy-dtu-platform.ts:184-187 | The second slash-separated piece, when there is one; the two lemmas below state its meaning |
| AhoyDtu.ParameterExists | src/ahoy-dtu-platform.ts:184-187 | A parameter exists exactly when the topic has a slash, and it is slash-free |
| AhoyDtu.ParameterOfTopic | src/ahoy-dtu-platform.ts:184-187 | The parameter is the second slash-separated segment |
| AhoyDtu.TotalPowerTopic | src/ahoy-dtu-platform.ts:176-187 | `AHOY-DTU_TOTAL/power` gives device `TOTAL`, parameter `power` |
| AhoyDtu.ParseValue | src/ahoy-dtu-platform.ts:192-204 | Numbers first, then the flag words, else the text; `ParseValueKinds` states the cases |
| AhoyDtu.ParseValueKinds | src/ahoy-dtu-platform.ts:192-204 | Numeric payloads become numbers, `true`/`false` become flags, all else stays a string |
| AhoyDtu.OneAndZeroAreNumbers | src/ahoy-dtu-platform.ts:194-200 | `1` and `0` are caught by the numeric test, never by the boolean one |
| AhoyDtu.ParseDecimal | src/ahoy-dtu-platform.ts:194-196 | Decimal renderings of integers, signed or not, parse to their value |
| AhoyDtu.RecordedFields | src/ahoy-dtu-platform.ts:155-162 | A message stores its parameter, stamps `lastUpdate` and sets `online`, keeping every other field |
| AhoyDtu.ThresholdMinutes | src/ahoy-dtu-platform.ts:256 | The threshold is 5 exactly when it is unset, 0 or 5; any other non-zero setting is used as given |
| AhoyDtu.MarkOfflineMeaning | src/ahoy-dtu-platform.ts:262-266 | A stale record gets `online` false and nothing else changes; a fresh one is untouched |
| AhoyDtu.AccessoryName | src/ahoy-dtu-platform.ts:275 | `AHOY-DTU Gesamt` for the total, else `AHOY-DTU` and the id; `AccessoryNames` states when two names clash |
| AhoyDtu.AccessoryNames | src/ahoy-dtu-platform.ts:275 | Only `TOTAL` and `Gesamt` share a display name |
| AhoyDtu.FindAccessory | src/ahoy-dtu-platform.ts:210 | Finds the first accessory with the device id, or none when none has it |
| AhoyDtu.UpdateAccessory | src/ahoy-dtu-platform.ts:209-217 | At most one update, to the first matching accessory, and only when it has a handler |
| AhoyDtu.DiscoveredIdsMeaning | src/ahoy-dtu-platform.ts:236-243 | The discovered ids are distinct and are exactly the ids of the discovered topics |
| AhoyDtu.CreatedCovers | src/ahoy-dtu-platform.ts:245-249 | Creation only appends handler-less accessories named for their id, and afterwards every id has one |
| AhoyDtu.CreatedNothingNew | src/ahoy-dtu-platform.ts:245-249 | When every id already has an accessory nothing is created |
| AhoyDtu.CreatedTwice | src/ahoy-dtu-platform.ts:235-250 | Running the creation twice is the same as running it once |
| AhoyDtu.OfflineDataMeaning | src/ahoy-dtu-platform.ts:262-267 | The offline check marks each known device's record and keeps the set of devices |
| AhoyDtu.OfflineUntouched | src/ahoy-dtu-platform.ts:262-267 | Devices outside the scanned list keep their records |
| AhoyDtu.AhoyDtuPlatform.constructor | src/ahoy-dtu-platform.ts:9-14 | The platform starts with no accessories, device data or topics |
| AhoyDtu.AhoyDtuPlatform.HandleMqttMessage | src/ahoy-dtu-platform.ts:142-170 | Records the topic once; for topics with device and parameter it updates that device's record and notifies its accessory; otherwise nothing else changes |
| AhoyDtu.AhoyDtuPlatform.CheckOffline | src/ahoy-dtu-platform.ts:258-268 | Marks every stale device offline against now minus the threshold and notifies its accessory |
| AhoyDtu.AhoyDtuPlatform.CreateAccessoriesFromDiscoveredTopics | src/ahoy-dtu-platform.ts:235-250 | Appends one accessory per discovered id that has none |
| AhoyDtu.AhoyDtuPlatform.ConfigureAccessory | src/ahoy-dtu-platform.ts:297-304 | A cached accessory is appended with a handler |
| DailyReports.NewDayStats | src/daily-reports.ts:69-80 | A new day's record: no energy, no peak, no production window and an empty buffer, the peak time set to the creation time; `UpdateDailyStats` states what each sample then adds |
| DailyReports.DateKey | src/daily-reports.ts:319-321 | The day key is the UTC day containing the instant |
| DailyReports.DateKeyShift | src/daily-reports.ts:336-338 | Going back i whole days lowers the day key by i |
| DailyReports.FilterRecentKeeps | src/daily-reports.ts:112-113 | The 24-hour filter keeps, in order, exactly the samples newer than the cutoff |
| DailyReports.UpdateDailyStats | src/daily-reports.ts:83-119 | Adds the trapezoid energy of the gap under an hour, keeps the peak and its time, the first and last producing time with their span in minutes, and the pruned buffer |
| DailyReports.UpdateBuffer | src/daily-reports.ts:109-113 | The buffer ends with the new sample and keeps, in order, every earlier sample from the last 24 hours |
| DailyReports.PeakIndex | src/daily-reports.ts:95-98 | Locates the first strict maximum above the starting peak |
| DailyReports.FirstProducing | src/daily-reports.ts:101-103 | Locates the first sample with positive power |
| DailyReports.LastProducing | src/daily-reports.ts:104-106 | Locates the last sample with positive power |
| DailyReports.ReplayPeak | src/daily-reports.ts:95-98 | After a run of samples, the peak and its time are those of the first strict maximum |
| DailyReports.ReplayProduction | src/daily-reports.ts:101-118 | After a run, the production window spans the first to the last producing sample, and the minutes measure it |
| DailyReports.ProductionMinutesNonNegative | src/daily-reports.ts:116-118 | With ordered samples the production minutes are never negative |
| DailyReports.ReplayBufferLatest | src/daily-reports.ts:109-113 | After a run, the buffer ends with the latest sample and holds only the last 24 hours |
| DailyReports.ReplayBufferOrder | src/daily-reports.ts:109-113 | After a run, the buffer is an ordered subsequence of all samples seen |
| DailyReports.EnergyNeverDecreases | src/daily-reports.ts:85-92 | With non-negative powers the day energy never decreases |
| DailyReports.ReplayEnergy | src/daily-reports.ts:85-92 | The day energy is the trapezoid sum over consecutive gaps under an hour |
| DailyReports.ParseInt | src/daily-reports.ts:173-174 | Digit strings parse to their value and `-` digit strings to its negation; NaN exactly for the empty string, a string not starting with a digit or sign, or a sign not followed by a digit |
| DailyReports.ReportClock | src/daily-reports.ts:155-181 | The named settings give 19:00, 19:30 and 20:00; anything else without one colon gives the 19:30 default; with one colon the two pieces give hour and minute, and the time is NaN exactly when either piece is NaN |
| DailyReports.CustomReportClock | src/daily-reports.ts:171-176 | An `H:M` setting gives that hour and minute |
| DailyReports.CalculateReportTime | src/daily-reports.ts:150-185 | The report time is on the same local day, at the configured hour and minute, or NaN when the setting does not parse |
| DailyReports.LocalClock | src/daily-reports.ts:183 | Setting hours and minutes stays on the day at that clock time |
| DailyReports.CalculateComparison | src/daily-reports.ts:223-237 | Percent change against yesterday when it produced, else against the weekly average when positive, else 0 |
| DailyReports.CalculateEfficiency | src/daily-reports.ts:239-243 | Efficiency is the day energy as a percentage of 10 kWh, capped at 100 |
| DailyReports.VariabilityBelowMeaning | src/daily-reports.ts:264-273 | The variance test is the coefficient-of-variation test for any standard deviation |
| DailyReports.DetectWeather | src/daily-reports.ts:245-262 | From 10 samples on: sunny exactly with a peak over 2 kW, a mean over 800 W and variation under 0.3; otherwise partly cloudy exactly with a peak over 1 kW and variation under 0.5; otherwise cloudy exactly with a peak under 500 W; mixed in every other case, including fewer than 10 samples |
| DailyReports.FlatCurveIsSunny | src/daily-reports.ts:250-256 | A constant curve above 2 kW is sunny |
| DailyReports.PriorDayEnergies | src/daily-reports.ts:333-342 | At most n energies are collected, all of them positive |
| DailyReports.WeeklyAveragePositive | src/daily-reports.ts:329-346 | The weekly average is positive exactly when one of the previous seven days produced |
| DailyReports.WeeklyAverageOfEqualDays | src/daily-reports.ts:329-346 | Seven equal productive days average to their energy |
| DailyReports.DailyReportsManager.constructor | src/daily-reports.ts:38-47 | No statistics, gate open, locale from the configuration or English |
| DailyReports.DailyReportsManager.YesterdayStats | src/daily-reports.ts:323-327 | The statistics of the day before, when recorded |
| DailyReports.DailyReportsManager.GetTodayStats | src/daily-reports.ts:356-359 | The statistics of the current day, when recorded |
| DailyReports.DailyReportsManager.ShouldSendReport | src/daily-reports.ts:133-148 | Due exactly when the report time parses and has passed and today's last production is at least 30 minutes old; never due when the setting does not parse |
| DailyReports.DailyReportsManager.CalculateWeeklyAverage | src/daily-reports.ts:329-346 | The loop computes the average over the productive days of the previous week |
| DailyReports.DailyReportsManager.GenerateReportData | src/daily-reports.ts:208-221 | The report data from the day, yesterday and the weekly average |
| DailyReports.DailyReportsManager.SendDailyReport | src/daily-reports.ts:187-206 | Delivers the day's report exactly when the day is recorded |
| DailyReports.DailyReportsManager.CheckForDailyReport | src/daily-reports.ts:121-131 | Sends at most once per day, when enabled and due, and closes the gate when it does |
| DailyReports.DailyReportsManager.UpdatePowerData | src/daily-reports.ts:53-68 | A new day reopens the gate; the day's statistics absorb the sample; then the daily check runs |
| DailyReports.DailyReportsManager.TriggerManualReport | src/daily-reports.ts:349-353 | A manual report reopens the gate and sends today's report when recorded |
| I18n.NestedValueFollowsKeys | src/i18n/index.ts:77-79 | Looking up a dotted key walks the nested catalog key by key |
| I18n.GetNestedValue | src/i18n/index.ts:77-79 | A dot-free key is a plain lookup, `undefined` when missing; `NestedValueFollowsKeys` covers dotted keys |
| I18n.StringOr | src/i18n/index.ts:68-75 | A non-empty string entry, else the key itself |
| I18n.WordRun | src/i18n/index.ts:110-112 | Finds the longest run of word characters |
| I18n.TokenAt | src/i18n/index.ts:110-112 | A token is `{{`, a non-empty word and `}}` |
| I18n.Interpolate | src/i18n/index.ts:110-112 | Replaces each `{{name}}` token left to right; the lemmas below state its behaviour on plain text, tokens and missing values |
| I18n.InterpolateNoToken | src/i18n/index.ts:110-112 | A template without tokens is unchanged |
| I18n.InterpolateNoValues | src/i18n/index.ts:110-112 | With no values every template is unchanged |
| I18n.InterpolatePlainPrefix | src/i18n/index.ts:110-112 | Text without braces passes through unchanged |
| I18n.InterpolatePlainChar | src/i18n/index.ts:110-112 | A character at which no `{{word}}` token starts passes through, a brace that opens no token included |
| I18n.InterpolateToken | src/i18n/index.ts:110-112 | A token is replaced by its non-empty value, else kept verbatim |
| I18n.ComparisonSign | src/i18n/index.ts:115 | Plus for non-negative changes, nothing for negative ones |
| I18n.ComparisonKey | src/i18n/index.ts:117-118 | Yesterday's key, or above/below average by the sign of the change |
| I18n.SolarReportI18n.constructor | src/i18n/index.ts:55-57 | Five catalogs loaded, English selected |
| I18n.SolarReportI18n.SetLocale | src/i18n/index.ts:59-66 | Supported locales are selected, any other falls back to English |
| I18n.SolarReportI18n.T | src/i18n/index.ts:68-75 | With a current catalog: the string at the dotted key when it is a non-empty string, else the key; without one, the flat English entry or the key; never empty for a non-empty key |
| I18n.SolarReportI18n.ComparisonValues | src/i18n/index.ts:114-125 | Exactly the keys sign, percent and percentUnit: the sign is `+` for a non-negative change and empty for a negative one, then the rounded absolute percent, and the translated percent unit |
| I18n.SolarReportI18n.FormatComparison | src/i18n/index.ts:114-125 | The phrase of `ComparisonKey` interpolated with `ComparisonValues` |
| I18n.ReportMap | src/i18n/index.ts:98-107 | Exactly the eight template keys, each holding its own value |
| I18n.SolarReportI18n.ReportValues | src/i18n/index.ts:96-108 | Exactly the eight template keys: energy, efficiency, peak and peak time formatted for the locale, the translated kWh, percent and kW units, and the formatted comparison |
| I18n.SolarReportI18n.GenerateDailyReport | src/i18n/index.ts:96-108 | The `templates.dailyComplete` template interpolated with `ReportValues`; the two lemmas below state what reaches it |
| I18n.SolarReportI18n.ReportIgnoresWeatherAndHours | src/i18n/index.ts:96-108 | The daily text does not depend on weather or production hours |
| I18n.SolarReportI18n.DailyTemplateFromCatalog | src/i18n/index.ts:68-79 | `templates.dailyComplete` reads the nested template |
| DataStorage.AfterExactly | src/data-storage-manager.ts:77-87 | Retention keeps, in order, exactly the points newer than the cutoff |
| DataStorage.SignificantMeaning | src/data-storage-manager.ts:110-113 | A change is significant when it exceeds 1 % of the previous value |
| DataStorage.Compress | src/data-storage-manager.ts:92-120 | The compression loop computes the specified compressed series |
| DataStorage.CompressPrefixShape | src/data-storage-manager.ts:99-117 | The compressed prefix is an ordered subsequence starting at the first point, each kept point a significant change; `KeptIndexSurvives` gives the converse for dropped points |
| DataStorage.KeptIndices | src/data-storage-manager.ts:99-117 | The positions the compression loop keeps lie before the visited count and start at position 0 |
| DataStorage.KeptIndicesPick | src/data-storage-manager.ts:99-117 | The compressed prefix is exactly the points at the kept positions |
| DataStorage.KeptIndicesSettled | src/data-storage-manager.ts:99-117 | Whether a position is kept is decided when the loop visits it |
| DataStorage.KeptIndexSurvives | src/data-storage-manager.ts:109-116 | A later point is kept exactly when it changes significantly against the last point kept before it, or is the last point |
| DataStorage.CompressedShape | src/data-storage-manager.ts:92-120 | Short series stay; longer ones keep first and last point and only significant changes between, and are exactly the points at the kept positions |
| DataStorage.CompressedSurvivors | src/data-storage-manager.ts:109-116 | From 10 points on, an inner point is dropped exactly when it is within 1 % of the last point kept before it |
| DataStorage.WindowStatistics | src/data-storage-manager.ts:135-158 | No statistics for an empty window; else count, latest, true min and max, and a mean with at most two decimals lying at most half a step above the true mean and less than half a step below it, which is the half-up rounding to two places |
| DataStorage.PointCountZero | src/data-storage-manager.ts:170-188 | The total is zero exactly when every series is empty |
| DataStorage.PointCountConcat | src/data-storage-manager.ts:172-176 | The total over two lists of sensors is the sum of their totals |
| DataStorage.PointCountUnlisted | src/data-storage-manager.ts:172-176 | Changing an unlisted sensor's series leaves the total alone |
| DataStorage.PointCountUpdate | src/data-storage-manager.ts:172-176 | Replacing one listed sensor's series changes the total by the change in its length |
| DataStorage.PointCountOrder | src/data-storage-manager.ts:172-176 | The total over the map does not depend on the order the sensors are listed in |
| DataStorage.DataStorageManager.constructor | src/data-storage-manager.ts:22-29 | Storage starts empty |
| DataStorage.DataStorageManager.Accepts | src/data-storage-manager.ts:35-46 | A value is accepted exactly when storage is enabled and at least the sampling interval (in minutes) has passed since the sensor's last sample |
| DataStorage.DataStorageManager.CleanupOldData | src/data-storage-manager.ts:77-87 | Prunes one series to the retention window |
| DataStorage.DataStorageManager.CompressData | src/data-storage-manager.ts:92-120 | Compresses one series |
| DataStorage.DataStorageManager.StoreData | src/data-storage-manager.ts:34-72 | Rejected values change nothing; accepted ones are appended, pruned, optionally compressed, and stamp the sensor |
| DataStorage.DataStorageManager.GetHistoricalData | src/data-storage-manager.ts:125-130 | Exactly the stored points inside the window, in order |
| DataStorage.DataStorageManager.GetStatistics | src/data-storage-manager.ts:135-158 | The statistics of the window, or none when it is empty |
| DataStorage.DataStorageManager.GetAvailableSensors | src/data-storage-manager.ts:163-165 | Every stored sensor once |
| DataStorage.DataStorageManager.GetStorageStats | src/data-storage-manager.ts:170-188 | Sensor count, the total of all series lengths (`PointCount`, zero exactly when all are empty) and 32 bytes per point |
| DataStorage.DataStorageManager.ClearAllData | src/data-storage-manager.ts:201-205 | Everything is forgotten |
| BatchEnergy.CalculateTotalEnergy | generate-daily-report.js:64-84 | The loop computes the trapezoid energy in kWh |
| BatchEnergy.TrapezoidNonNegative | generate-daily-report.js:64-84 | Ordered readings with non-negative power give non-negative energy |
| BatchEnergy.LiveAndBatchAgree | generate-daily-report.js:64-84 | With gaps under an hour the batch energy equals the live day energy |
| BatchEnergy.PairAgrees | generate-daily-report.js:72-79 | One gap gives the same energy in both computations |
| BatchEnergy.CalculateProductionTimes | generate-daily-report.js:86-121 | The scan computes the specified production periods |
| BatchEnergy.RunEndFrom | generate-daily-report.js:97-108 | Finds where a producing run ends |
| BatchEnergy.ScanInvariant | generate-daily-report.js:93-113 | Every prefix of the scan has closed the finished runs and holds the open one |
| BatchEnergy.PeriodsAreRuns | generate-daily-report.js:86-121 | The periods are exactly the maximal producing runs |
| BatchEnergy.RunsForward | generate-daily-report.js:113-118 | Periods of ordered readings run forward and total non-negative hours |
| BatchEnergy.ProductionTimesMeaning | generate-daily-report.js:113-120 | Start and end are the first run's start and the last run's end, present exactly when a run exists |
| BatchEnergy.NoProductionNoPeriods | generate-daily-report.js:93-113 | No producing reading means no period |
| DailyReportGenerator.CreateEmptyReport | generate-daily-report.js:247-260 | A dated NO_DATA report with no points, times or comparisons |
| DailyReportGenerator.GenerateDailyReport | generate-daily-report.js:123-161 | The report of the day's readings |
| DailyReportGenerator.ReportStatus | generate-daily-report.js:129-155 | NO_DATA exactly without readings, SUCCESS exactly with positive energy, point count and comparisons carried |
| DailyReportGenerator.ReportFigures | generate-daily-report.js:134-149 | Energy, peak power and mean temperature are the exact values rounded half-up to 3, 1 and 1 decimals: on the decimal grid, at most half a step above and less than half a step below; the peak bounds every reading |
| DailyReportGenerator.ReportProduction | generate-daily-report.js:138-151 | Production start and end come from the first and last run; the hours are the runs' total hours rounded half-up to two decimals: on the grid, at most half a step above and less than half a step below |
| DailyReportGenerator.IdleDay | generate-daily-report.js:153 | An idle day with readings is NO_PRODUCTION without a start |
| DailyEnergyReport.CreateEmptyReport | daily-energy-report.py:292-304 | A dated NO_DATA report with no points, times or comparisons |
| DailyEnergyReport.GenerateDailyReport | daily-energy-report.py:103-142 | The report of the day's readings |
| DailyEnergyReport.ReportStatus | daily-energy-report.py:111-137 | NO_DATA exactly without readings, SUCCESS exactly with positive energy |
| DailyEnergyReport.ReportFigures | daily-energy-report.py:116-131 | Energy, peak power and mean temperature are the exact values rounded half-even to 3, 1 and 1 decimals: on the decimal grid, within half a step, and an even number of steps on a tie; the production hours are the runs' total hours rounded the same way to two decimals |
| DailyEnergyReport.TwinsAgree | daily-energy-report.py:103-142 | The Python and JavaScript reports agree on status, count and production times |
| DailyEnergyReport.TwinsEnergy | daily-energy-report.py:128 | Their energies differ by at most one rounding step, and not at all off ties |
| PushNotifications.FormatReportMessage | push-notifications.js:136-172 | The Markdown message: the message pieces joined; `MessageLines` states which lines it has |
| PushNotifications.FormatHomeKitMessage | push-notifications.js:294-330 | The same lines without Markdown; `HomeKitIsStripped` ties it to the Markdown message |
| PushNotifications.TrendRules | push-notifications.js:159-167 | Up, down or level arrow by the sign of the change; plus only for gains |
| PushNotifications.MessageLines | push-notifications.js:136-172 | The message has six summary lines, times when present, and the comparisons shown |
| PushNotifications.StripSummary | push-notifications.js:137-152 | The summary without asterisks is the HomeKit summary |
| PushNotifications.StripTimes | push-notifications.js:147-152 | The time lines without asterisks are the HomeKit ones |
| PushNotifications.StripComparisons | push-notifications.js:155-168 | The comparison lines without asterisks are the HomeKit ones |
| PushNotifications.HomeKitIsStripped | push-notifications.js:294-330 | The HomeKit message is the Markdown message with asterisks removed |
| PushNotifications.MailOptionsFor | push-notifications.js:252-258 | Sender and recipient are the configured ones; the subject names the date; the text is the message with every asterisk removed; text and HTML hold no asterisk |
| PushNotifications.MailTextIsHomeKit | push-notifications.js:256 | The mail's plain text equals the HomeKit message |
| PushNotifications.Fanout | push-notifications.js:103-126 | Each of the five services gets its delivery exactly when enabled, one delivery per enabled service |
| PushNotifications.Deliveries | push-notifications.js:94-127 | Nothing when disabled; otherwise exactly one delivery per enabled service |
| PushNotifications.CronExpression | push-notifications.js:336-339 | Minutes, hours and three stars from the `HH:MM` setting; the three lemmas below state its values |
| PushNotifications.CronOfClock | push-notifications.js:336-339 | `HH:MM` becomes minute, hour, then three stars |
| PushNotifications.CronDefault | push-notifications.js:336-339 | 20:00 schedules `0 20 * * *` |
| PushNotifications.CronLeadingZeros | push-notifications.js:336-339 | Leading zeros disappear: 08:05 gives `5 8 * * *` |
| IosPush.FormatHomeKitMessage | src/ios-push-service.ts:127-163 | The service's own message, built line by line; `SameAsNotificationManager` shows it equals the notification manager's |
| IosPush.SameSummary | src/ios-push-service.ts:128-136 | The service's summary equals the notification manager's |
| IosPush.SameTimes | src/ios-push-service.ts:138-143 | Its time lines equal the notification manager's |
| IosPush.SameComparisons | src/ios-push-service.ts:146-160 | Its comparison lines equal the notification manager's |
| IosPush.SameAsNotificationManager | src/ios-push-service.ts:127-163 | The service's HomeKit message is the notification manager's for every report |
| IosPush.ContactFor | src/ios-push-service.ts:108-110 | Contact detected exactly for a successful report |
| IosPush.SendIOSNotification | src/ios-push-service.ts:77-124 | Succeeds exactly with an accessory, pulses its motion service and writes the contact state when those services exist |
| JsMath.RoundHalfUp | generate-daily-report.js:146-149 | The result has at most k decimals and lies at most half a step above the value and less than half a step below it |
| JsMath.RoundHalfUpUnique | generate-daily-report.js:146-149 | Any number with at most k decimals within those bounds is the half-up rounding, so the contract fixes `Math.round` |
| JsMath.RoundHalfEven | daily-energy-report.py:128-131 | The result has at most k decimals, lies within half a step of the value, and is an even number of steps when the value is a tie |
| JsMath.RoundHalfEvenUnique | daily-energy-report.py:128-131 | Any number with at most k decimals within half a step, even on a tie, is the half-even rounding, so the contract fixes Python's `round` |
| JsMath.RoundingRulesDiffer | daily-energy-report.py:128 | The two rounding rules differ at 0.5 |
| JsMath.RoundingAgreeOffTies | daily-energy-report.py:128-131 | Off ties the two rounding rules agree |

## Left out

- Network I/O is not modelled:
  - MQTT connection and subscription;
  - HTTP login and fetch against the inverter;
  - the Python bridge, Pushover, Telegram, webhook, SMTP and node-cron.
  These are I/O. Each delivery is a value naming the message it would send.
- HomeKit is not modelled: services, characteristics and the timed motion and doorbell pulses.
  Registering accessories, `setupPushAccessory` and the delivery styles of `deliverReport` are
  Homebridge calls. A push accessory is represented only by which services it has.
- File, database and sqlite I/O are not modelled:
  - the JSON data files;
  - `loadDailyData`;
  - the comparison queries;
  - `saveDailySummary`;
  - loading of the locale catalogs.
  The readings, the comparisons object and the catalogs are parameters. The catalogs are
  treated as opaque nested objects.
- `formatBytes` and `process.memoryUsage` in the storage statistics are left out. The byte
  estimate is kept as a number.
- Library formatting is a parameter: `Intl`, `toFixed`, `toLocaleTimeString`, `btoa` and
  `String(number)`.
- `parseInt` is modelled for optional signs and decimal digits. Leading whitespace and hex
  prefixes are left out.
- The inverter's `parseFloat` is applied at the boundary: each entry carries its parsed number
  or NaN.
- `Number()` of a non-digit string in the cron expression is a parameter.
- Infinity is not modelled.
- Daylight-saving changes are not modelled: local time is a fixed offset.
- ISO timestamp strings are integer milliseconds.
- `I18n.SolarReportI18n.T`: JavaScript's `getNestedValue(...) || key` returns any truthy value found at the path, an object included, and stepping into a string indexes it. The model returns only non-empty strings and falls back to the key otherwise, so a path that ends at a nested object gives the key rather than the object. `I18n.Walk` and `I18n.StringOr` carry that restriction.
- `I18n.InterpolateToken`: the JavaScript `values[key] || match` also finds inherited object keys
  such as `constructor`. The model looks up only the values given.
- `BatchEnergy.CalculateProductionTimes`: timestamps are database strings in the source. An
  empty string would be falsy in JavaScript. The model carries instants as integers and treats
  every present one as set. The same holds for the start and end tests of
  `PushNotifications.MessageLines`.
- Caught exceptions are not modelled: no modelled operation can throw. Two of the source's
  `catch` blocks do more than log:
- `IosPush.SendIOSNotification`: the `catch` of src/ios-push-service.ts:120-123 returns false
  when a HomeKit call throws. The model's HomeKit writes cannot fail, so it reports success
  exactly when a push accessory exists.
- `KostalInverter.ExtractInverterState`: the `catch` of src/kostal-inverter-platform.ts:868-870
  returns the state as far as the passes had set it before the throw. The model's entries are
  well-formed and its passes cannot throw, so it always returns the state after all seven passes.
- `JsMath.RoundHalfUp`, `JsMath.RoundHalfEven`: numbers are exact reals, not IEEE doubles.
  Rounding is exact decimal rounding of the exact value, so it can differ from the source's
  binary arithmetic. JavaScript's `Math.round(1.005 * 100) / 100` is 1 because `1.005 * 100` is
  100.49999999999999 in binary, while `RoundHalfUp(1.005, 2)` is 1.01. Python's `round(2.675, 2)`
  is 2.67 for the same reason, while `RoundHalfEven(2.675, 2)` is 2.68. Every report figure
  inherits this.
- Log output is left out. This includes `logCurrentData`'s summary line, `logDetailedData`
  itself and every console and logger call.
- `updateMainAccessoryData` is left out. It clamps the power again, with a floor of 0.0001, before
  it writes to HomeKit.
- `KostalInverter.PowerFloor`: requires that no local PV_P reading lies between 0 and 0.0001. The
  second local pass assigns any positive PV_P without the floor (lines 780-785).
  `KostalInverter.PowerBelowFloor` exhibits the case. `KostalInverter.PowerPositive` is the bound
  that holds unconditionally.
- `DataStorage.DataStorageManager.StoreData` stamps `lastSampleTime` before pruning rather than
  after. Pruning never reads the stamp, so the resulting state is the same.
- `DailyReports.DailyReportsManager.CheckForDailyReport` closes the once-a-day gate before
  building the delivery rather than after sending. Sending cannot fail in the model.
- `AhoyDtu.RecordedFields`: a parameter named `lastUpdate` or `online` is overwritten by the
  stamps that follow it, as in the source. The contract states the stored value only for other
  names.
- `AhoyDtu.AhoyDtuPlatform.HandleMqttMessage`: the JavaScript `Set` of topics and the `Map` of
  devices are a duplicate-free sequence plus a map. Insertion order is kept as `forEach` sees it.
- The Kostal accessory objects, `web-interface.ts` and the UI files are not part of this model.
