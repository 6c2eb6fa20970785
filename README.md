# Motor monitoring dashboard: the motors provider, the add-motor form and the sensor-data selection

This project is a Dafny model of the state-keeping core of a React dashboard
that monitors industrial motors over MQTT, with proofs about that model.

The centre of it is the **motors provider** (`MotorsContext` module, class
`MotorsProvider`). It keeps five pieces of state:

- the motor registry, a list of motor records;
- a per-motor chart history, three parallel series of at most 60 samples;
- an append-only audit log;
- the set of MQTT topics the client believes it is subscribed to;
- the connected flag.

The provider's operations are these:

- the start-up load from local storage;
- `addMotor`, which refuses a motor whose id or name is taken;
- `removeMotor`, which drops the motor and its chart series and unsubscribes its topic;
- the MQTT message handler, which decodes the payload with defaults, updates the registry through change detection, and appends one chart sample and one log entry;
- the subscription effect, which reconciles the tracked topics with the topics `motors/<id>/data` of the registered motors;
- the cleanup, which forgets every tracked topic.

The state updaters the provider hands to React are pure functions in their own
modules:

- `Registry`: add, remove, apply a sample;
- `Telemetry`: decoding;
- `ChartHistory`: the 60-sample window;
- `EventLog`: the log entry and the name it shows;
- `Persistence`: the load and save coercions;
- `Subscriptions`: topic names and the tracked set a reconciliation pass should reach.

Beside the provider sit two more pieces:

- **The dashboard's add-motor form** (`MotorIds`, and `Dashboard` with class `AddMotorForm`). The `MotorIds` part suggests the next id: the largest trailing number of the existing ids plus one, zero-padded to three digits after `MOTOR-`. The submit handler trims its inputs, checks that a user is signed in, and looks the (motor id, company id) pair up in the database. It then inserts the row, re-fetches the company's motors into the provider, adds the new motor, and clears and hides the form.
- **The sensor-data selection** (`SensorData`). It filters a realtime-database snapshot to one motor, tags each entry with its key, sorts newest first, and for the latest-reading query takes the first.

The MQTT broker and the databases are oracles. Whether a subscribe, unsubscribe,
lookup or insert succeeds is a parameter, and messages are handed in one at a
time. Timestamps are integer milliseconds. Measurements are integers.

Behaviour of the code worth noting:

- Topics are `motors/<id>/data`.
- Every decoded message appends a chart sample and a log entry. This holds even when the registry did not change or does not know the id, so a duplicate delivery still grows the log (`MotorsContext.DuplicateDeliveryClient` proves this). Ids that name inherited JavaScript object members are the exception; see "Left out".
- No sample is rejected for being older than the stored one.
- A stored date is carried over as stored, with no coercion of invalid dates. In the source, a stored string that does not parse as a date becomes an Invalid Date, and the next save throws a RangeError in `toISOString` (src/context/MotorsContext.jsx:40); the model has no invalid instants, so it has no such failure (see "Left out").

## Model

| member | source | states |
|---|---|---|
| Registry.InsertMotor | src/context/MotorsContext.jsx:178-198 | the result extends the registry by at most one record; it grows exactly when no motor has the id or the name; the appended record is the default one (null readings, status `Disconnected`, confidence 0, no update time); afterwards the id or name is present |
| Registry.InsertKeepsUnique | src/context/MotorsContext.jsx:179-197 | an add keeps ids and names pairwise distinct |
| Registry.InsertAllKeepsUnique | src/context/MotorsContext.jsx:179-197 | any series of adds from a registry with distinct keys keeps them distinct |
| Registry.InsertAllSnoc | src/pages/Dashboard.jsx:75-84 | handing the rows to `addMotor` one by one is the series of adds, row after row |
| Registry.InsertAll | src/pages/Dashboard.jsx:75-84 | a series of adds keeps the old registry as a prefix and adds at most one record per request |
| Registry.InsertAllCovers | src/pages/Dashboard.jsx:75-84 | after a series of adds, every requested id or name is present |
| Registry.DeleteMotor | src/context/MotorsContext.jsx:200-201 | a motor is kept exactly when its id differs, as many times as the registry holds it (multiset count), in the registry's order (subsequence); an absent id changes nothing |
| Registry.DeleteKeepsUnique | src/context/MotorsContext.jsx:200-201 | removing keeps ids and names pairwise distinct |
| Registry.UpdateMotor | src/context/MotorsContext.jsx:73-90 | a record keeps its id, name and location; the sample's motor shows the sample afterwards; a record of another motor, or one already showing the sample, is returned as it was |
| Registry.ApplySample | src/context/MotorsContext.jsx:72-91 | the length is kept; ids, names and locations never change; records of other motors are left as they are |
| Registry.ApplySampleShows | src/context/MotorsContext.jsx:72-91 | each record of the sample's motor shows the sample afterwards; a record already equal on all five fields (null update time read as 0) is returned unchanged |
| Registry.ApplySampleUnknownId | src/context/MotorsContext.jsx:72-91 | a sample for an id the registry lacks leaves the registry unchanged |
| Registry.ApplySampleIdempotent | src/context/MotorsContext.jsx:72-91 | the same sample applied twice gives what it gives once |
| Registry.ApplySampleKeepsUnique | src/context/MotorsContext.jsx:72-91 | telemetry keeps ids and names pairwise distinct |
| Telemetry.Decode | src/context/MotorsContext.jsx:60-69 | no sample exactly when the payload does not parse or its `motor_id` is missing or empty; readings are copied; status is the given one when non-empty, else `Unknown`; confidence is the given one or 0; the time is `timestamp * 1000` when the timestamp is present and non-zero, else the receipt time |
| Telemetry.DecodeEncode | src/context/MotorsContext.jsx:60-69 | a sample with an id, a status and a whole non-zero number of seconds, sent as a sensor sends it, decodes to itself at any receipt time |
| ChartHistory.LastN | src/context/MotorsContext.jsx:101-103 | the result is the last min(length, n) elements |
| ChartHistory.Window | src/context/MotorsContext.jsx:100-103 | one step keeps the last 60 of the series plus the new value, and the new value is last |
| ChartHistory.Push | src/context/MotorsContext.jsx:100-103 | each of the three series becomes the last 60 of itself plus the new value; equal lengths of at most 60 are kept |
| ChartHistory.RecordSample | src/context/MotorsContext.jsx:94-105 | the motor's series is created with one sample when absent, else pushed; every other motor's series is untouched; the key set gains only the id; well-formedness of every series is kept |
| ChartHistory.LastNOfSuffix | src/context/MotorsContext.jsx:101-103 | the last n of a long enough suffix are the last n of the whole |
| ChartHistory.WindowStep | src/context/MotorsContext.jsx:101-103 | one window step loses nothing the last 60 of the whole run still need |
| ChartHistory.PushAllKeepsLatest | src/context/MotorsContext.jsx:94-105 | after any number of samples, the window holds exactly the last 60 samples seen, in arrival order |
| ChartHistory.SixtyFiveSamples | src/context/MotorsContext.jsx:100-103 | 65 samples into an empty window leave 60, starting with the sixth |
| EventLog.DisplayName | src/context/MotorsContext.jsx:108 | the first motor with the id decides: its name when non-empty, else the id; with no such motor, the id |
| EventLog.DisplayNameOfRegistered | src/context/MotorsContext.jsx:108 | with distinct ids, a registered motor with a name is logged under that name |
| EventLog.EntryFor | src/context/MotorsContext.jsx:109-120 | the entry carries the sample's time, status, confidence and readings, the receipt time and id that make up its key, and the display name |
| Persistence.NumberOrNull | src/context/MotorsContext.jsx:16-17 | a number is kept; anything else becomes null |
| Persistence.NumberOrZero | src/context/MotorsContext.jsx:18 | a number is kept; anything else becomes 0 |
| Persistence.LoadMotor | src/context/MotorsContext.jsx:13-19 | one stored motor as loaded: text fields and update time kept, a non-number reading as null, a non-number confidence as 0 |
| Persistence.SaveMotor | src/context/MotorsContext.jsx:37-42 | one motor as saved: the confidence is a number, and loading the saved motor gives the motor back |
| Persistence.LoadMotors | src/context/MotorsContext.jsx:9-22 | missing storage gives an empty registry; otherwise one motor per stored motor, with the text fields and update time kept, non-number readings as null and a non-number confidence as 0 |
| Persistence.SaveMotors | src/context/MotorsContext.jsx:36-43 | one stored motor per motor, with the id kept, the confidence a number and a missing update time kept as null |
| Persistence.LoadLog | src/context/MotorsContext.jsx:24-27 | missing storage gives an empty log; otherwise the stored log |
| Persistence.LoadSaveRoundTrip | src/context/MotorsContext.jsx:9-43 | what the provider saves it loads back unchanged |
| Persistence.SaveLoadStable | src/context/MotorsContext.jsx:9-43 | a second save and load after a load changes nothing |
| Subscriptions.Topic | src/context/MotorsContext.jsx:148 | the topic is `motors/` then the id then `/data`, and the id can be read back from it |
| Subscriptions.TopicInjective | src/context/MotorsContext.jsx:148 | distinct ids have distinct topics |
| Subscriptions.DesiredTopics | src/context/MotorsContext.jsx:148 | exactly the topics of the registered motors |
| Subscriptions.Reconciled | src/context/MotorsContext.jsx:144-175 | the tracked set after a pass lies within the desired set, keeps every tracked desired topic, and gains a missing topic exactly when its subscribe succeeds |
| Subscriptions.ReconciledComplete | src/context/MotorsContext.jsx:163-174 | when every subscribe succeeds, the tracked set becomes the desired set |
| Subscriptions.FailedSubscribeRetried | src/context/MotorsContext.jsx:144-175 | a failed subscribe is asked for again on the next pass, so a fully accepted second pass reaches the desired set |
| Subscriptions.RemovedTopicNotDesired | src/context/MotorsContext.jsx:200-208 | after a removal, the removed motor's topic is no longer desired |
| MotorsContext.MotorsProvider.constructor | src/context/MotorsContext.jsx:9-33 | registry and log are loaded from storage; no chart series, no client, nothing tracked, not connected |
| MotorsContext.MotorsProvider.CreateClient | src/context/MotorsContext.jsx:50-52 | the mount effect leaves a client in place |
| MotorsContext.MotorsProvider.SetConnected | src/context/MotorsContext.jsx:54-57 | the `connect`, `error` and `close` events set the connected flag |
| MotorsContext.MotorsProvider.Cleanup | src/context/MotorsContext.jsx:137-140 | the tracked set is emptied |
| MotorsContext.MotorsProvider.HandleMessage | src/context/MotorsContext.jsx:59-125 | a message that does not decode changes nothing; otherwise the registry becomes `ApplySample`, the chart history `RecordSample`, and the log gains exactly one entry at the end; series stay well formed and distinct keys stay distinct |
| MotorsContext.MotorsProvider.Record | src/context/MotorsContext.jsx:72-120 | the three updates of a decoded sample, as in `HandleMessage` |
| MotorsContext.MotorsProvider.RecordChart | src/context/MotorsContext.jsx:94-105 | the chart history becomes `RecordSample` of the old one, and every series stays well formed |
| MotorsContext.MotorsProvider.RecordRegistryAndLog | src/context/MotorsContext.jsx:72-120 | the registry becomes `ApplySample` of the old one; the log gains one entry named from the registry as it was |
| MotorsContext.MotorsProvider.ReconcileSubscriptions | src/context/MotorsContext.jsx:144-175 | with no client or no connection nothing happens; otherwise the unsubscribes issued are exactly the tracked undesired topics, the subscribes exactly the desired untracked ones, and the tracked set becomes `Reconciled`, within the desired set |
| MotorsContext.MotorsProvider.DropUnwanted | src/context/MotorsContext.jsx:151-161 | an unsubscribe is issued for each tracked topic no motor wants, and the tracked set keeps only the wanted ones |
| MotorsContext.MotorsProvider.RequestMissing | src/context/MotorsContext.jsx:163-166 | a subscribe is requested for exactly the desired topics not tracked |
| MotorsContext.MotorsProvider.ApplySubscribeOutcomes | src/context/MotorsContext.jsx:166-172 | exactly the requested topics whose subscribe succeeds are added |
| MotorsContext.MotorsProvider.AddMotor | src/context/MotorsContext.jsx:178-198 | the registry becomes `InsertMotor` of the old one; distinct keys stay distinct |
| MotorsContext.MotorsProvider.RemoveMotor | src/context/MotorsContext.jsx:200-218 | the registry becomes `DeleteMotor` and the motor's series is gone; an unsubscribe is issued exactly when connected and the topic is tracked, and the topic is forgotten only when that unsubscribe succeeds; distinct keys stay distinct |
| MotorIds.TrailingDigits | src/pages/Dashboard.jsx:40 | the result is the longest run of digits ending the id: a digit suffix preceded by a non-digit or by nothing |
| MotorIds.DigitsValue | src/pages/Dashboard.jsx:41 | the base-10 value of a digit run is below 10 to the run's length |
| MotorIds.TrailingNumber | src/pages/Dashboard.jsx:37-42 | an id not ending in a digit contributes 0; otherwise the value of its trailing run, below 10 to the run's length |
| MotorIds.MaxOf | src/pages/Dashboard.jsx:45 | the maximum of a non-empty list is in it and bounds it; an empty list gives 0 |
| MotorIds.NextNumber | src/pages/Dashboard.jsx:45-46 | at least 1, above every id's trailing number, and 1 for no ids |
| MotorIds.Decimal | src/pages/Dashboard.jsx:47 | `String(n)` is a non-empty digit string without a leading zero |
| MotorIds.PadStart | src/pages/Dashboard.jsx:47 | the result has length max(length, width), ends with the text, and is filled on the left; it never cuts |
| MotorIds.SuggestId | src/pages/Dashboard.jsx:45-48 | the suggestion is `MOTOR-` followed by at least three digits |
| MotorIds.DecimalValue | src/pages/Dashboard.jsx:41-47 | reading `String(n)` back in base 10 gives n |
| MotorIds.LeadingZerosValue | src/pages/Dashboard.jsx:41-47 | leading zeros do not change a digit string's value |
| MotorIds.TrailingDigitsAfterPrefix | src/pages/Dashboard.jsx:40-48 | behind `MOTOR-`, the trailing digit run is exactly the digits appended |
| MotorIds.SuggestedNumber | src/pages/Dashboard.jsx:36-48 | the suggested id's own trailing number is the next number |
| MotorIds.SuggestionIsFresh | src/pages/Dashboard.jsx:36-48 | the suggestion differs from every existing id |
| MotorIds.SuggestForEmpty | src/pages/Dashboard.jsx:45-48 | no motors gives `MOTOR-001` |
| MotorIds.SuggestAfter999 | src/pages/Dashboard.jsx:45-48 | after `MOTOR-999` comes `MOTOR-1000`, printed in full |
| MotorIds.NextAfter999 | src/pages/Dashboard.jsx:36-46 | the next number after `MOTOR-999` is 1000 |
| MotorIds.NextOfOne | src/pages/Dashboard.jsx:36-46 | with one id, the next number follows its trailing number |
| Dashboard.TrimStart | src/pages/Dashboard.jsx:92-94 | drops exactly the leading white space: what remains is a suffix not starting with a blank |
| Dashboard.TrimEnd | src/pages/Dashboard.jsx:92-94 | drops exactly the trailing white space: what remains is a prefix not ending with a blank |
| Dashboard.Trim | src/pages/Dashboard.jsx:92-94 | the trimmed text neither starts nor ends with a blank |
| Dashboard.TrimSlice | src/pages/Dashboard.jsx:92-94 | the trimmed text is the slice of the input between a blank prefix and a blank suffix |
| Dashboard.TrimEndOfSuffix | src/pages/Dashboard.jsx:92-94 | trimming the end of a suffix leaves a slice followed only by blanks |
| Dashboard.TrimEmptyIffBlank | src/pages/Dashboard.jsx:92-98 | the trimmed text is empty exactly when the input is all white space |
| Dashboard.Prepare | src/pages/Dashboard.jsx:92-95 | a field is empty after trimming exactly when its input was all white space; the company is present exactly when the user id is a non-empty string, and is that id |
| Dashboard.SubmitDecision | src/pages/Dashboard.jsx:98-141 | the early returns in source order: a missing field before any database call, then a failed lookup, then a duplicate (id, company) pair, then a failed insert; success exactly when none applies |
| Dashboard.AddedExactly | src/pages/Dashboard.jsx:92-141 | a submission is inserted exactly when every input has a non-blank character, a user is signed in, lookup and insert succeed, and the store has no row with that id for that company |
| Dashboard.BlankInputRejected | src/pages/Dashboard.jsx:92-101 | a blank input stops the submission before any database call |
| Dashboard.InsertedThenDuplicate | src/pages/Dashboard.jsx:105-121 | once inserted, the same id for the same company is refused as a duplicate |
| Dashboard.FetchMotors | src/pages/Dashboard.jsx:75-84 | the provider's registry becomes the series of adds of the fetched rows, in order |
| Dashboard.RefetchedAddIsNoop | src/pages/Dashboard.jsx:143-150 | when the re-fetch already returns the new row, the explicit add that follows changes nothing |
| Dashboard.AddMotorForm.constructor | src/pages/Dashboard.jsx:12-25 | empty inputs, hidden form, the signed-in user's email as user id |
| Dashboard.AddMotorForm.SetShowForm | src/pages/Dashboard.jsx:175 | the toggle sets the form's visibility |
| Dashboard.AddMotorForm.SyncInputs | src/pages/Dashboard.jsx:33-56 | an open form gets the suggested id, which differs from every registered id, and keeps name and location; a closed form has all three inputs cleared |
| Dashboard.AddMotorForm.Submit | src/pages/Dashboard.jsx:89-157 | the outcome is the first failing check in source order; any early return leaves store, registry and form unchanged; on success the store gains the (id, company) row, the registry gets the re-fetched rows and then the new motor, and the form is cleared and hidden |
| Dashboard.AddMotorForm.Commit | src/pages/Dashboard.jsx:143-156 | after the insert: re-fetch, add, clear and hide |
| SensorData.Matching | src/services/databaseService.js:77-79 | exactly the entries of the requested motor, each tagged with its key and otherwise unchanged, each as many times as the snapshot holds it (multiset count), in enumeration order (subsequence of the tagged entries) |
| SensorData.InsertNewestFirst | src/services/databaseService.js:80 | inserting into a newest-first list keeps it newest first and adds exactly the one element |
| SensorData.SortNewestFirst | src/services/databaseService.js:80 | the result is newest first and a permutation of the input |
| SensorData.MotorReadings | src/services/databaseService.js:77-80 | newest first, holding exactly the requested motor's entries tagged with their keys, each as many times as the snapshot holds it |
| SensorData.SensorFeed | src/services/databaseService.js:70-84 | a null snapshot gives null; otherwise the motor's tagged readings, newest first, each as many times as the snapshot holds it |
| SensorData.HeadIsLatest | src/services/databaseService.js:94-99 | the motor's list is empty exactly when no entry matches; otherwise its head is no older than any matching entry |
| SensorData.LatestReading | src/services/databaseService.js:87-104 | null exactly when the snapshot is null or no entry is the motor's; otherwise a tagged entry of that motor whose timestamp is at least every matching entry's |
| SensorData.LatestIsFeedHead | src/services/databaseService.js:77-99 | the latest reading is the head of what the subscription callback receives |

## Left out

- The MQTT transport: connecting, the broker URL, `client.end`, and the timing of the subscribe and unsubscribe callbacks. Outcomes are parameters. `ReconcileSubscriptions` applies all subscribe outcomes after the pass, as the asynchronous callbacks would.
- MotorsContext.MotorsProvider.ReconcileSubscriptions: the client's own `connected` flag and the provider's `mqttConnected` state are one flag here. The source reads the first in the effect and sets the second in the event handlers.
- React scheduling: updater batching, effect dependency timing, and the log name being looked up in the registry captured when the handler was registered. The model looks the name up in the registry as it stands.
- MotorIds.NextNumber: the source parses, compares and adds in IEEE doubles; the model uses unbounded integers, so it agrees with the source only while every trailing number is below 2^53 (9007199254740992). From 2^53 on, `lastNumber + 1` can round back to `lastNumber`.
- MotorIds.Decimal: `String(n)` prints plain digits only below 10^21; from there it prints exponent notation (`1e+21`), and a trailing run whose value exceeds `Number.MAX_VALUE` (about 1.8e308) parses to `Infinity`. The model always prints plain digits, which matches the source below 2^53, the range `NextNumber` is faithful in.
- MotorIds.DigitsValue: `parseInt` rounds to the nearest double, so above 2^53 the source's value can differ from the exact one the model computes (`"9999999999999999"` parses to 10^16, which is not below 10^16 as the model's bound states); the two agree only below 2^53.
- MotorIds.TrailingNumber: inherits the rounding of `parseInt` above 2^53 and the `Infinity` beyond `Number.MAX_VALUE`; its contract holds of the source only while the trailing number is below 2^53.
- MotorIds.SuggestId: from a next number of 10^21 the source prints it in exponent notation (`MOTOR-1e+21`), which is not all digits, and beyond `Number.MAX_VALUE` it suggests `MOTOR-Infinity`; the contract holds of the source only while every trailing number is below 2^53.
- Dashboard.AddMotorForm.SyncInputs: its freshness clause holds of the source only while every trailing number is below 2^53; for `MOTOR-9007199254740992` the source pre-fills that existing id.
- MotorIds.SuggestionIsFresh: holds of the model; it holds of the source only while every trailing number is below 2^53. For `MOTOR-9007199254740992` the source suggests that same id again.
- ChartHistory.RecordSample: the history is a plain JavaScript object, so an id naming an inherited `Object.prototype` member (`constructor`, `toString`, `__proto__`, ...) finds that member instead of a missing series; the updater then reads `.slice` of undefined and throws, which fails the provider's render. The model treats every id as absent until a series is stored under it, so it creates a one-sample series.
- MotorsContext.MotorsProvider.HandleMessage: for the same inherited-member ids the source's chart updater throws outside the handler's `try`, so no sample or log entry takes effect and the provider fails; the model records one chart sample and one log entry for them as for any id.
- ChartHistory.RecordSample: the history is modelled as a value. The source's `{ ...prev }` is a shallow copy, so for a motor that already has a series the updater writes the new arrays into the previous state's series object too; that aliasing, and the doubled sample it causes when React calls an updater twice (Strict Mode in development), are not modelled.
- Two clock reads are one parameter: `receivedAt` stands both for `new Date()` when the message is handled (the fallback sample time) and for `Date.now()` when the log entry's key is built. The source reads the clock twice, and the two values can differ by a few milliseconds.
- Floating point and `parseFloat`: readings are integers, so NaN, and NaN's effect on change detection, are not modelled.
- Telemetry.Decode: the source builds `new Date(data.timestamp * 1000)`. A truthy timestamp that is not a number (`"now"`, an object) cannot be written in the model's payload, and a numeric one beyond 8.64e12 seconds in absolute value gives an Invalid Date, whose time is NaN. The model decodes every numeric timestamp to `timestamp * 1000` milliseconds with no range limit, so it agrees with the source only for times within ±8.64e15 ms.
- EventLog.EntryFor: the source formats the sample time with `toISOString()` (src/context/MotorsContext.jsx:113), which throws a RangeError for an Invalid Date; the model always builds the entry.
- MotorsContext.MotorsProvider.HandleMessage: for a sample time outside ±8.64e15 ms (or a non-numeric truthy timestamp) the source's log updater throws while React renders, outside the handler's `try`, so the provider fails; the registry update would also store the Invalid Date (the NaN time makes change detection always fire), and the next save would throw at `toISOString` (src/context/MotorsContext.jsx:40). The model appends a chart sample and a log entry as for any other time.
- Dates and text formats: `toISOString`, `toLocaleTimeString` and `new Date(...)` parsing. Instants are integer milliseconds, and the chart keeps the instant instead of the clock label.
- JSON text and local storage I/O: what the loader receives and the saver writes are values of the `Persistence` types.
- Supabase and Firebase calls: the lookup, the insert and the company's rows returned by the re-fetch are parameters of `Submit`. A failed re-fetch is an empty list of rows, since it alerts and adds nothing.
- Dashboard.AddMotorForm.Submit: the inserted row's company is the signed-in user's email, read from the auth instance at that point. The model uses the form's user id, which the mount effect sets from the same email. `installed_at` and the extra arguments passed to `addMotor` are ignored, as `addMotor` ignores them.
- Telemetry.Decode: a `motor_id` that is a number, or another non-string JSON value, is not modelled; the id is text or absent.
- SensorData.SortNewestFirst: the contract states order and permutation but not stability. The insertion it uses puts an element before equal timestamps, which matches JavaScript's stable sort. Entries without a timestamp, which make the comparator yield NaN, are not modelled.
- SensorData.SensorFeed: the realtime database reports an empty node as null. A snapshot of no entries is still modelled as the code reads it, as a truthy empty object: the subscriber gets an empty list and the latest-reading query gets null.
- The rendering of the dashboard, the motor cards and the other pages is outside this model.
