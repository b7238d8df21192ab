# G7SensorKit: manager snapshot, endpoint catalog and settings decisions, in Dafny

This project models three sequential pieces of the G7 continuous-glucose-monitor
driver and proves properties of them:

- **The durable manager snapshot** (`G7CGMManagerState`), in `state_snapshot.dfy`.
  It holds five optional fields: sensor ID, activation date, latest reading,
  the date that reading was received, and the last connect date. It is written
  to the host's string-keyed raw-state dictionary and read back from it. Each
  field is read with a type-checked cast, so a missing or ill-typed entry gives
  an absent field. The latest reading is stored as its wire bytes and parsed
  again from them.
- **The endpoint catalog** (`BluetoothServices.swift`), in `bluetooth_services.dfy`.
  It covers the transmitter's service and characteristic UUIDs and their raw-value
  parsing. It also covers the single `dexcomG7` peripheral configuration, which
  expects four characteristics under the CGM service.
- **The settings view model's decision logic** (`G7SettingsViewModel`), in
  `settings_screen.dfy`. This is how the manager's six-valued lifecycle
  state becomes a progress-bar state, a label colour, a bar colour, a
  remaining time and a progress fraction. It also covers which text replaces
  the last glucose value, and which manager values `updateValues` and the two
  observer callbacks copy.

Supporting modules:

- `wrappers.dfy` defines `Option`.
- `clock.dfy` defines `Date` and `TimeInterval` as whole seconds, and
  `timeIntervalSinceNow` with an explicit `now`.
- `glucose_messages.dfy` defines the glucose message as the view model and
  the snapshot see it: three decoded fields plus the `data` bytes it was
  parsed from. The parser `G7GlucoseMessage(data:)` is a function passed in
  by the caller.

The message's byte layout is not part of this model. A message's wire form is
its `data`, which is what the snapshot writes. The one property of the parser
that the model relies on is `KeepsData`: a parsed message stores the bytes it
was parsed from as its `data`. Under it every parsed message re-parses from
its own bytes (`ParsesFromOwnData`), so every snapshot that was read from a
dictionary survives a write and a read.

## Model

| member | source | states |
|---|---|---|
| StateSnapshot.Initial | G7SensorKit/G7CGMManager/G7CGMManagerState.swift:16-23 | `init()` leaves all five fields absent |
| StateSnapshot.StringEntry | G7SensorKit/G7CGMManager/G7CGMManagerState.swift:26 | `as? String` yields a value exactly when the key is present and holds a string, and that value is the stored string |
| StateSnapshot.DateEntry | G7SensorKit/G7CGMManager/G7CGMManagerState.swift:27 | `as? Date` yields a value exactly when the key is present and holds a date, and that value is the stored date |
| StateSnapshot.DataEntry | G7SensorKit/G7CGMManager/G7CGMManagerState.swift:28 | `as? Data` yields bytes exactly when the key is present and holds bytes, and they are the stored bytes |
| StateSnapshot.FromRawValue | G7SensorKit/G7CGMManager/G7CGMManagerState.swift:25-33 | each field is present exactly when its own key holds a value of the right type, and then it is that value. The reading is absent when its entry is not bytes; otherwise it is exactly the parser's result for those bytes, so unparsable bytes give absent |
| StateSnapshot.Assign | G7SensorKit/G7CGMManager/G7CGMManagerState.swift:37-41 | assigning an optional to a dictionary key sets the key when the value is present and removes it when absent; every other key is untouched |
| StateSnapshot.ToRawValue | G7SensorKit/G7CGMManager/G7CGMManagerState.swift:35-43 | only the five keys are ever written. A key is present exactly when its field is, and holds that field's value; the reading is stored as its own `data` bytes |
| StateSnapshot.EmptyRoundTrip | G7SensorKit/G7CGMManager/G7CGMManagerState.swift:22-43 | the empty snapshot is written as the empty dictionary, and the empty dictionary reads back as the empty snapshot |
| StateSnapshot.RoundTrip | G7SensorKit/G7CGMManager/G7CGMManagerState.swift:25-43 | reading back what was written gives the same snapshot, for every snapshot whose reading (if any) is what its own `data` parses to |
| StateSnapshot.RoundTripExactlyWhenReadingDoes | G7SensorKit/G7CGMManager/G7CGMManagerState.swift:28-39 | for any parser, a snapshot survives write-then-read if and only if its reading (when present) is what its own `data` parses to; the key names match in both directions, including `latestConnect` |
| StateSnapshot.ReadSnapshotsParse | G7SensorKit/G7CGMManager/G7CGMManagerState.swift:28-29 | for a parser that keeps its input as `data`, every snapshot read from a dictionary has a reading (if any) that re-parses from its own bytes, so it meets the round trip's hypothesis |
| StateSnapshot.RetainedEntries | G7SensorKit/G7CGMManager/G7CGMManagerState.swift:26-32 | the entries a read keeps: those under the five keys whose type matches the cast, with reading bytes that parse |
| StateSnapshot.RewriteKeepsRetainedEntries | G7SensorKit/G7CGMManager/G7CGMManagerState.swift:25-43 | for a parser that keeps its input as `data`, read-then-write gives exactly the retained entries of the dictionary. Foreign keys, ill-typed entries and unparsable reading bytes are dropped; nothing else changes |
| StateSnapshot.WellFormedRawStateRoundTrip | G7SensorKit/G7CGMManager/G7CGMManagerState.swift:25-43 | for a parser that keeps its input as `data`, a dictionary made only of well-typed entries under the five keys, with reading bytes that parse, is unchanged by read-then-write |
| StateSnapshot.ReadWriteReadIsRead | G7SensorKit/G7CGMManager/G7CGMManagerState.swift:25-43 | for a parser that keeps its input as `data`, reading, writing and reading again gives the first read |
| StateSnapshot.FieldsDecodeIndependently | G7SensorKit/G7CGMManager/G7CGMManagerState.swift:26-32 | each field depends only on the entry under its own key: two dictionaries that agree on a key decode to the same value for that field |
| StateSnapshot.ForeignKeysIgnored | G7SensorKit/G7CGMManager/G7CGMManagerState.swift:26-32 | adding, replacing or removing an entry under any key other than the five does not change the decoded snapshot |
| StateSnapshot.IllTypedEntriesReadAsAbsent | G7SensorKit/G7CGMManager/G7CGMManagerState.swift:26-32 | an entry of the wrong type under one of the five keys decodes exactly as if the key were missing |
| BluetoothServices.ServiceUuid | G7SensorKit/BluetoothServices.swift:19-25 | the raw values of deviceInfo and advertisement are 16-bit short UUIDs (four characters); those of cgmService and serviceB are full 128-bit UUIDs (36 characters) |
| BluetoothServices.ParseService | G7SensorKit/BluetoothServices.swift:19-25 | `TransmitterServiceUUID(rawValue:)` succeeds exactly on the four declared strings and returns the case whose raw value is the input |
| BluetoothServices.DeviceInfoUuid | G7SensorKit/BluetoothServices.swift:28-32 | the manufacturer-name characteristic's raw value is a 16-bit short UUID |
| BluetoothServices.ParseDeviceInfo | G7SensorKit/BluetoothServices.swift:28-32 | `DeviceInfoCharacteristicUUID(rawValue:)` succeeds exactly on "2A29" and returns the case whose raw value is the input |
| BluetoothServices.CGMUuid | G7SensorKit/BluetoothServices.swift:35-54 | each of the four CGM-service characteristics has a full 128-bit UUID as its raw value |
| BluetoothServices.ParseCGM | G7SensorKit/BluetoothServices.swift:35-54 | `CGMServiceCharacteristicUUID(rawValue:)` succeeds exactly on the four declared strings and returns the case whose raw value is the input |
| BluetoothServices.ServiceBUuid | G7SensorKit/BluetoothServices.swift:57-62 | both service-B characteristics have a full 128-bit UUID as their raw value |
| BluetoothServices.ParseServiceB | G7SensorKit/BluetoothServices.swift:57-62 | `ServiceBCharacteristicUUID(rawValue:)` succeeds exactly on the two declared strings and returns the case whose raw value is the input |
| BluetoothServices.ServiceRawValueRoundTrip | G7SensorKit/BluetoothServices.swift:19-25 | `init(rawValue: s.rawValue) == s` for every service, and no two services share a raw value |
| BluetoothServices.DeviceInfoRawValueRoundTrip | G7SensorKit/BluetoothServices.swift:28-32 | `init(rawValue: c.rawValue) == c` for the device-info characteristic |
| BluetoothServices.CGMRawValueRoundTrip | G7SensorKit/BluetoothServices.swift:35-54 | `init(rawValue: c.rawValue) == c` for every CGM-service characteristic, and their raw values are distinct |
| BluetoothServices.ServiceBRawValueRoundTrip | G7SensorKit/BluetoothServices.swift:57-62 | `init(rawValue: c.rawValue) == c` for both service-B characteristics, and their raw values are distinct |
| BluetoothServices.AllUuidsDistinct | G7SensorKit/BluetoothServices.swift:19-62 | the eleven service and characteristic UUID strings in the file are pairwise distinct |
| BluetoothServices.NoCharacteristicIsAService | G7SensorKit/BluetoothServices.swift:19-62 | no characteristic UUID parses as a service, and no device-info or service-B UUID parses as a CGM characteristic |
| BluetoothServices.DexcomG7 | G7SensorKit/BluetoothServices.swift:66-79 | `dexcomG7` lists exactly one service, the CGM service. Under it are four distinct UUIDs, each a CGM-service characteristic, and every CGM-service characteristic is among them. The notifying-characteristic and macro tables are empty |
| BluetoothServices.DexcomG7Services | G7SensorKit/BluetoothServices.swift:66-79 | `dexcomG7` has exactly one service key, the CGM service. It lists communication, authentication, control and backfill, in that order. Every other service expects nothing, and the notifying-characteristic and macro tables are empty |
| BluetoothServices.ConfiguredIffExpected | G7SensorKit/BluetoothServices.swift:68-75 | for any configuration, a UUID is listed under some service key exactly when some service expects it, where a service the table omits expects nothing |
| BluetoothServices.ConfiguredInDexcomG7 | G7SensorKit/BluetoothServices.swift:68-75 | a UUID appears under some service of `dexcomG7` exactly when it is one of the four listed characteristics |
| BluetoothServices.DexcomG7CharacteristicsAreCGM | G7SensorKit/BluetoothServices.swift:35-54 | a UUID is configured in `dexcomG7` if and only if it is a `CGMServiceCharacteristicUUID` raw value |
| BluetoothServices.OtherEndpointsNotConfigured | G7SensorKit/BluetoothServices.swift:19-77 | no device-info characteristic, service-B characteristic or service UUID is configured in `dexcomG7` |
| BluetoothServices.CharacteristicsBelongToTheirService | G7SensorKit/BluetoothServices.swift:66-75 | every CGM characteristic is expected under the `dexcomG7` entry of the service it belongs to |
| Clock.IntervalSinceNow | G7SensorKitUI/G7CGMManager/G7SettingsViewModel.swift:184 | `timeIntervalSinceNow` is positive exactly for a future date, and adding it to `now` gives the date |
| SettingsScreen.ProgressBarStateOf | G7SensorKitUI/G7CGMManager/G7SettingsViewModel.swift:81-96 | each lifecycle state maps to exactly one bar state, and each bar state comes from exactly one lifecycle state: searching→searchingForSensor, ok→lifetimeRemaining, warmup→warmupProgress, failed→sensorFailed, gracePeriod→gracePeriodRemaining, expired→sensorExpired |
| SettingsScreen.ProgressBarStateIsBijective | G7SensorKitUI/G7CGMManager/G7SettingsViewModel.swift:81-96 | the map is a bijection: `LifecycleStateOf` is its two-sided inverse |
| SettingsScreen.LabelsDistinct | G7SensorKitUI/G7CGMManager/G7SettingsViewModel.swift:23-38 | different bar states show different (English) labels |
| SettingsScreen.LabelColor | G7SensorKitUI/G7CGMManager/G7SettingsViewModel.swift:40-47 | the label colour is critical exactly for sensorExpired and normal for every other state |
| SettingsScreen.ProgressValue | G7SensorKitUI/G7CGMManager/G7SettingsViewModel.swift:176-196 | absent for expired, failed and searching, and absent when the state's deadline is absent. Otherwise present and never negative; it is positive exactly when the deadline is in the future, and then `now` plus it is the deadline |
| SettingsScreen.RemainingUntil | G7SensorKitUI/G7CGMManager/G7SettingsViewModel.swift:184-194 | `max(0, deadline.timeIntervalSinceNow)` guarded by the deadline: present exactly when the deadline is. It is never negative, it is positive exactly when the deadline is in the future, and then `now` plus it is the deadline |
| SettingsScreen.ProgressValueNonIncreasing | G7SensorKitUI/G7CGMManager/G7SettingsViewModel.swift:176-196 | with the manager unchanged, the remaining time never grows as `now` advances, and it neither appears nor disappears |
| SettingsScreen.ProgressBarColorStyle | G7SensorKitUI/G7CGMManager/G7SettingsViewModel.swift:126-148 | warmup→glucose; searching and failed→dimmed; expired and grace→critical. In lifetimeRemaining: dimmed when the remaining time is absent, glucose exactly when it exceeds 24h, warning exactly when it is at most 24h. The bar colour is never normal |
| SettingsScreen.LifetimeColourThreshold | G7SensorKitUI/G7CGMManager/G7SettingsViewModel.swift:136-144 | in the ok state with a known expiry, the bar is glucose-coloured exactly when expiry is more than 24h away and warning-coloured otherwise (exactly 24h is a warning) |
| SettingsScreen.ProgressBarProgress | G7SensorKitUI/G7CGMManager/G7SettingsViewModel.swift:150-174 | 0 for searching, 1 for expired, 0.5 for failed. For the three timed states: 0 when the remaining time is absent or not positive; otherwise below 1, and non-negative exactly when the remaining time is at most the state's full duration |
| SettingsScreen.ElapsedFraction | G7SensorKitUI/G7CGMManager/G7SettingsViewModel.swift:155-168 | the guard-then-`1 - value/duration` step shared by the three timed states: 0 without a positive value, otherwise below 1 and non-negative exactly when the value is within the duration |
| SettingsScreen.ProgressNonDecreasing | G7SensorKitUI/G7CGMManager/G7SettingsViewModel.swift:150-196 | in a timed state, while time still remains, the bar never empties as `now` advances |
| SettingsScreen.LastGlucoseString | G7SensorKitUI/G7CGMManager/G7SettingsViewModel.swift:202-215 | dashes exactly when there is no reading or it has no quantity. LOW exactly for a quantity tagged belowRange, HIGH exactly for a quantity tagged aboveRange. Otherwise the reading's own quantity, formatted |
| SettingsScreen.MissingQuantityWinsOverRange | G7SensorKitUI/G7CGMManager/G7SettingsViewModel.swift:203-209 | the missing-quantity check comes before the range check: a reading without a quantity shows dashes even when tagged out of range |
| SettingsScreen.UpdateValues | G7SensorKitUI/G7CGMManager/G7SettingsViewModel.swift:106-124 | scanning, connected, name, activation, last connect, reading and reading date are copied from the manager. The trend text is replaced only when the reading has a trend rate the formatter can format; otherwise, including when the reading has no trend rate, it keeps its previous value |
| SettingsScreen.UpdateValuesIsDeterminedByItsContract | G7SensorKitUI/G7CGMManager/G7SettingsViewModel.swift:106-124 | copying the manager's values and following the trend rule determine the updated view model completely, so the contract of `UpdateValues` leaves nothing out |
| SettingsScreen.UpdateValuesIdempotent | G7SensorKitUI/G7CGMManager/G7SettingsViewModel.swift:106-124 | updating twice from the same manager gives the same view model as updating once |
| SettingsScreen.UpdateValuesForgetsThePast | G7SensorKitUI/G7CGMManager/G7SettingsViewModel.swift:106-124 | the result depends on the previous view model only through its trend text |
| SettingsScreen.Initial | G7SensorKitUI/G7CGMManager/G7SettingsViewModel.swift:98-104 | construction mirrors the manager. The trend text follows the `updateValues` rule starting from no text: it is the formatted rate when the reading has a trend rate that formats, and absent otherwise |
| SettingsScreen.StateDidUpdate | G7SensorKitUI/G7CGMManager/G7SettingsViewModel.swift:220-222 | after the state-update callback the view model mirrors the manager and the trend text follows the `updateValues` rule |
| SettingsScreen.ConnectionStatusDidChange | G7SensorKitUI/G7CGMManager/G7SettingsViewModel.swift:224-226 | after the connection-status callback the view model mirrors the manager and the trend text follows the `updateValues` rule |
| SettingsScreen.CallbacksAreUpdateValues | G7SensorKitUI/G7CGMManager/G7SettingsViewModel.swift:219-227 | both callbacks give exactly the result of `updateValues`, and the state-update callback ignores the state it is passed |

## Left out

- The glucose message's byte layout and its parser (`G7GlucoseMessage(data:)`) are not part of this model. The parser is a parameter. The properties that need it assume only that it keeps its input as the message's `data` (`KeepsData`).
- How the lifecycle state and the three deadlines are derived from the activation date, the latest reading and the sensor durations is not part of this model. They are inputs in the `Manager` record.
- The values of `G7Sensor.warmupDuration`, `.lifetime` and `.gracePeriod` are not part of this model. They are inputs, required to be positive as the real constants are.
- SettingsScreen.ProgressBarProgress: the fraction `1 - value/duration` is computed in exact `real` arithmetic, so no claim about Double rounding is made. The result is not claimed to lie in [0,1], because the code does not guarantee it.
- Dates are whole seconds rather than Foundation's floating-point `Date`. The current time is an explicit `now` instead of repeated `timeIntervalSinceNow` reads.
- SettingsScreen.LastGlucoseString: the formatted case is the tag `Formatted(q)`. The number formatter's output, and its `?? ""` fallback when formatting fails, are not modelled.
- SettingsScreen.UpdateValues: the trend text is the tag `PerMinute(formatted)`. The HealthKit unit conversion and the formatter are a parameter that may fail; the localized "%@/min" template is not modelled.
- Localized label text is modelled only as fixed English strings, in `Label`.
- BluetoothServices.ServiceUuid: the contract states the UUID form by its length only (4 or 36 characters). That the characters are hex digits in the 8-4-4-4-12 grouping is not proved.
- BluetoothServices.DeviceInfoUuid: the contract states the UUID form by its length only (4 or 36 characters). That the characters are hex digits in the 8-4-4-4-12 grouping is not proved.
- BluetoothServices.CGMUuid: the contract states the UUID form by its length only (4 or 36 characters). That the characters are hex digits in the 8-4-4-4-12 grouping is not proved.
- BluetoothServices.ServiceBUuid: the contract states the UUID form by its length only (4 or 36 characters). That the characters are hex digits in the 8-4-4-4-12 grouping is not proved.
- UUIDs are plain strings. `CBUUID(string:)` parsing and normalisation are CoreBluetooth behaviour and are not modelled.
- `valueUpdateMacros` holds closures in the source. Here only the presence of an entry is modelled, and the table is empty anyway.
- Observer registration on the main queue, `@Published` change propagation, and `scanForNewSensor()` are not modelled. The last only forwards to the manager, whose session logic is not part of this model.
- The settings view (SwiftUI layout, date and duration formatters, colour resolution) is presentation only, and is not modelled.
