# Measurement recorder

A Dafny model of the measurement screen of a React Native data-logging app
(`src/screens/Measurement.tsx`). The screen records accelerometer and GPS readings during a
session. This model keeps everything except the rendering:

- **Session toggle.** A start/stop button flips `isMonitoring`.
  - A start stamps a session id into `onStartDate` and creates the directory
    `{documentDirectory}files/{id}`.
  - A stop writes the accelerometer buffer to `{dir}/{id}-Acc.txt`, then the GPS buffer to
    `{dir}/{id}-GPS.txt`.
- **Two append-only text buffers,** one for the accelerometer and one for the GPS.
  - Each is grown by an effect that runs when monitoring switches and when the values it
    depends on change.
  - While monitoring, an empty buffer receives its header (`x;y;z;date` or
    `lat;lon;kmh;date`). A non-empty buffer receives one line-break-prefixed, `;`-joined
    record.
- **Elapsed-time counter.** It adds 1000 ms per tick while monitoring and is reset to zero
  otherwise. It is shown as `hh:mm:ss`.
- **Sensor enabled flags.** A sensor is enabled when its upper-case name is in the sensor
  list.
- **Interval fallbacks.** The accelerometer interval is `(1/rate)*1000 || 1000` and the
  location-watch interval is `Number(gpsRate) || 5000`. Both use JavaScript number
  semantics, NaN and Infinity included.
- **Location adapter.** A refused permission sets an error message. A granted one creates a
  watch only while no watch handle exists.

## Modules

| module | file | contents |
|---|---|---|
| `Wrappers` | `wrappers.dfy` | `Option`. |
| `Text` | `text.dfy` | Joining strings with a separator and splitting them again. Split undoes Join for separator-free parts. |
| `Settings` | `settings.dfy` | JavaScript numbers (`JsNum`), truthiness and `\|\|`, the two interval expressions, `indexOf` and the enabled flags. |
| `Buffers` | `buffers.dfy` | One effect run on a buffer (`EffectRun`). A buffer's document, made of its header and its records. An abstract stream view of a buffer, and reading a document back. |
| `Elapsed` | `elapsed.dfy` | Two-character zero padding and the `hh:mm:ss` display. |
| `Measurement` | `measurement.dfy` | Session paths, and the class `Recorder`. Its fields are the screen's state, and its methods are the handlers, effects and sensor callbacks. |
| `Scenarios` | `scenarios.dfy` | Whole sessions driven through `Recorder`'s contracts. |

`Recorder` records file-system effects in `fsLog`, a list of `MakeDirectory(path)` and
`WriteFile(path, content)` entries, instead of performing them.

### Representation choices

- Sensor readings, fixes, speeds, dates and session ids are strings, already formatted as
  JavaScript prints them. The caller supplies them.
- The location permission answer is a method input.
- A JavaScript number is `NaN`, `Infinity(negative)` or `Finite(value)`, with exact reals.

### Where the code departs from what the screen appears to promise

The model follows the code in each of these cases:

- There is no gyroscope subscription. `gyroEnabled` is computed and never used.
- The `-Config.txt` file name is computed at stop and never written.
- Both files are written at every stop, whichever sensors are enabled.
  - A disabled GPS, or one whose permission was refused, gets a file holding its header
    alone: its effect writes the header at the first start and throws at every later one.
  - A disabled accelerometer never gets a reading and keeps `(0,0,0)`. Its file holds the
    header, and every later start appends a `0;0;0;{date}` line.
- Neither buffer is ever cleared. A second session therefore continues the first session's
  text without a new header. Its start appends the last reading of the previous session,
  dated at the new start.
- An accelerometer rate of `"0"` gives an infinite update interval (`1/0` is `Infinity`,
  which is truthy), not the 1000 ms fallback.
- `clientLocation` is never reset. After the first stop, the watch is removed but its handle
  stays, so later sessions never get a live watch again.
- The GPS effect reads `location.latitude` and throws a `TypeError` when three things hold at
  once: monitoring starts, the GPS buffer is already non-empty, and no fix has ever arrived.
  This happens, for example, on the second session when GPS is disabled or the permission
  was refused.
  `RunGpsEffect`, `SetMonitoring`, `Start` and `Press` return this as `threw` and leave the
  GPS buffer unchanged.
- The sensor-settings screen stores lower-case names. The recorder checks upper-case names,
  so any stored list of those names enables no sensor.

## Model

| member | source | states |
|---|---|---|
| Settings.AccelerometerUpdateIntervalMeaning | src/screens/Measurement.tsx:59-60 | The interval is never falsy. It is exactly 1000 ms iff the rate is missing/unparseable (NaN), infinite or 1 Hz. A 0 Hz rate gives +Infinity, not the fallback. Any other finite rate gives the interval whose product with the rate is 1000. |
| Settings.TwoHertzIsFiveHundredMilliseconds | src/screens/Measurement.tsx:59 | A 2 Hz rate asks for a reading every 500 ms. |
| Settings.GpsTimeInterval | src/screens/Measurement.tsx:110 | The watch interval is never falsy. It is 5000 iff the rate is NaN, zero or 5000 itself. Otherwise it is the rate unchanged, negative and infinite rates included. |
| Settings.IndexOf | src/screens/Measurement.tsx:48-50 | `indexOf`: -1 iff the name is absent. Otherwise the name is at the result and at no earlier position. |
| Settings.EnabledIffListed | src/screens/Measurement.tsx:48-50 | A sensor is enabled iff its exact name is in the list. |
| Settings.DefaultEnablesAll | src/screens/Measurement.tsx:28-30 | The initial sensor list enables the accelerometer, the GPS and the gyroscope. |
| Settings.LowerCaseListEnablesNothing | src/screens/SensorSettings.tsx:6-19 | A list made only of the lower-case names the settings screen stores enables no sensor. |
| Text.SplitJoin | src/screens/Measurement.tsx:171 | Splitting a separator-joined list of separator-free parts gives back the parts. |
| Text.JoinSnoc | src/screens/Measurement.tsx:172 | Joining a list with one more part appends the separator and that part to the joined text. |
| Buffers.EffectRun | src/screens/Measurement.tsx:164-175 | An effect run changes the buffer iff monitoring. |
| Buffers.EffectRunExtends | src/screens/Measurement.tsx:164-188 | A run never removes text. The old content is a prefix of the new one. On a non-empty buffer the added suffix is exactly a line break and one record line. |
| Buffers.EffectRunStartsDocument | src/screens/Measurement.tsx:167-169 | While monitoring, a run on an empty buffer gives the header alone: a document with no record, so its reading is dropped. |
| Buffers.EffectRunAppendsRecord | src/screens/Measurement.tsx:170-173 | While monitoring, a run on a started buffer appends the reading as its last record. |
| Buffers.EffectRunAdvances | src/screens/Measurement.tsx:164-188 | The text of an effect run equals the rendering of the abstract stream step, whatever the flag and the buffer state. |
| Buffers.DocumentNonEmpty | src/screens/Measurement.tsx:167 | A buffer that holds a header is never empty, so it never receives a second header. |
| Buffers.LineOfFour | src/screens/Measurement.tsx:171 | A record line of four fields is `a;b;c;d`. |
| Buffers.ReadBack | src/screens/Measurement.tsx:164-188 | A buffer's text splits back into exactly its header and its records, in order, when no field holds `;` or a line break. |
| Buffers.RunAllRecordsInOrder | src/screens/Measurement.tsx:164-175 | On a started buffer, consecutive runs while monitoring record every reading, in order, after the existing records. |
| Buffers.RunAllFromEmpty | src/screens/Measurement.tsx:167-173 | From an empty buffer, the first run writes only the header. Every later reading is recorded, in order. |
| Elapsed.Pad2Value | src/screens/Measurement.tsx:203 | `('0' + n).slice(-2)` is two digits whose value is `n mod 100`. |
| Elapsed.PaddedFieldsRead | src/screens/Measurement.tsx:203-205 | Three padded fields joined by colons are 8 characters. The colons are at positions 2 and 5, and the fields read back as their values mod 100. |
| Elapsed.ElapsedDisplayFields | src/screens/Measurement.tsx:203-205 | The display is `hh:mm:ss`: its fields read back as `floor(t/3600000)%60`, `floor(t/60000)%60` and `floor(t/1000)%60`. |
| Elapsed.ElapsedDisplayDigits | src/screens/Measurement.tsx:203-205 | The display is 8 characters, and every character except the colons at positions 2 and 5 is a decimal digit. |
| Elapsed.ElapsedAfterTicks | src/screens/Measurement.tsx:151-162 | After `k` one-second ticks the display shows `k` seconds as hours (wrapping at 60), minutes and seconds. |
| Measurement.SessionFilesInDirectory | src/screens/Measurement.tsx:76-82 | Both files of a session lie directly in the session's directory, under different names. |
| Measurement.StopWritesNoConfigFile | src/screens/Measurement.tsx:76-82 | Neither write of a stop targets the `-Config.txt` path, whatever the contents. |
| Measurement.SessionDirectoryDeterminesId | src/screens/Measurement.tsx:80 | Distinct session ids give distinct directories. |
| Measurement.Recorder.constructor | src/screens/Measurement.tsx:26-50 | The initial state: not monitoring, time 0, empty buffers, reading (0,0,0), speed 0, no fix, no subscription, no watch, no error, empty log. The sensor list is the stored one or the default, and the flags are computed from it. |
| Measurement.Recorder.SubscribeToAccelerometer | src/screens/Measurement.tsx:57-64 | Subscribes with the update interval computed from the stored accelerometer rate. |
| Measurement.Recorder.UnsubscribeFromAccelerometer | src/screens/Measurement.tsx:52-55 | Removes and forgets the subscription. |
| Measurement.Recorder.StartLocationTracking | src/screens/Measurement.tsx:99-124 | A refused permission sets "Sem permissão" and leaves the watch alone. A grant keeps the error message and creates a live watch at the configured interval only when no handle exists. |
| Measurement.Recorder.StopLocationTracking | src/screens/Measurement.tsx:126-130 | Removes the watch if a handle exists, and keeps the handle. |
| Measurement.Recorder.RunTimerEffect | src/screens/Measurement.tsx:151-162 | Leaving monitoring resets the counter to zero. Entering it leaves the counter as it is. |
| Measurement.Recorder.Tick | src/screens/Measurement.tsx:154-156 | A tick while monitoring adds exactly 1000. No tick changes the counter while idle, where it stays 0. |
| Measurement.Recorder.RunAccelerometerEffect | src/screens/Measurement.tsx:164-175 | The buffer becomes the effect run of the current reading and date. |
| Measurement.Recorder.RunGpsEffect | src/screens/Measurement.tsx:177-188 | The effect throws iff monitoring, the buffer is non-empty and no fix exists; the buffer is then unchanged. Otherwise the buffer becomes the effect run of the fix, the speed and the date. |
| Measurement.Recorder.SetMonitoring | src/screens/Measurement.tsx:96 | Flipping the flag runs the timer, accelerometer and GPS effects in that order, with the results above. It requires a real change, since React runs no effect when state is set to its current value. |
| Measurement.Recorder.SubscribeEnabled | src/screens/Measurement.tsx:84-90 | Subscribes the accelerometer only if enabled. Starts location tracking only if the GPS is enabled. |
| Measurement.Recorder.UnsubscribeEnabled | src/screens/Measurement.tsx:68-74 | Unsubscribes the accelerometer only if enabled. Removes the watch only if the GPS is enabled. |
| Measurement.Recorder.Stop | src/screens/Measurement.tsx:67-82 | A stop logs both buffers, accelerometer first, to `{dir}/{id}-Acc.txt` and `{dir}/{id}-GPS.txt` of the current session, and nothing else. Buffers, readings and session id are kept, the counter is reset and the listener is removed. |
| Measurement.Recorder.Start | src/screens/Measurement.tsx:83-94 | A start subscribes the enabled sensors, sets the new session id, and logs exactly the creation of its directory. It then runs each buffer effect once while monitoring. |
| Measurement.Recorder.Press | src/screens/Measurement.tsx:66-97 | Every press flips `isMonitoring` exactly once and keeps the invariant. A press while monitoring is a stop and never throws; any other press is a start. |
| Measurement.Recorder.OnAccelerometerReading | src/screens/Measurement.tsx:164-175 | A reading arrives only while subscribed. It runs the accelerometer effect iff an axis changed; an unchanged reading leaves the buffer as it is. |
| Measurement.Recorder.OnLocationUpdate | src/screens/Measurement.tsx:177-188 | A fix arrives only while the watch is live. It runs the GPS effect iff latitude, longitude, timestamp or speed changed (not altitude). |
| Scenarios.RatesFromSettings | src/screens/Measurement.tsx:57-64 | With 2 Hz and 1000 ms stored, a start subscribes at 500 ms and creates a live 1000 ms watch. |
| Scenarios.AccelerometerAndGpsSession | src/screens/Measurement.tsx:164-188 | After a start, two distinct readings and one fix leave each buffer as its header followed by the readings, in order. |
| Scenarios.SecondSessionContinuesBuffers | src/screens/Measurement.tsx:66-97 | With only the accelerometer enabled, the first stop writes a header-only GPS file. The second start appends to the old text without a new header, and the GPS effect throws. |
| Scenarios.SecondSessionHasNoWatch | src/screens/Measurement.tsx:107-130 | With only the GPS enabled, the second session has no live watch. Its fixes are ignored, and its start appends the first session's last fix. |
| Scenarios.RefusedPermissionSession | src/screens/Measurement.tsx:99-105 | A refused permission sets the error message and creates no watch. The stop still writes both header-only files. |

## Left out

- Rendering, navigation and the other screens (settings forms, folder and file lists). They are UI and storage wrappers with no recorder logic.
- The sensor and location libraries. Readings, fixes and the permission answer are method inputs. A subscription is a flag, a watch a handle value.
- File-system and storage I/O. Directory creation and file writes are log entries that always succeed, with no asynchronous interleaving.
- The asynchronous settings load. The stored sensor list and rates are constructor inputs, as the button is not shown while loading.
- The GPS permission request and the watch creation are asynchronous and not awaited by the toggle. The model performs them at once, before the flag changes.
- Date formatting. Session ids and line dates are opaque strings from the caller. Two stops with the same id would write to the same paths; that is not modelled further.
- Floating point. Axis values, the speed in km/h (`speed * 3.6`) and their printing are caller-supplied strings. The interval arithmetic uses exact reals, so IEEE rounding and the sign of zero are not modelled.
- `Number()` parsing of the stored rates. A rate is given as an already-parsed `JsNum`, NaN for a missing or unparseable one.
- Measurement.Recorder.OnAccelerometerReading: compares axes as formatted strings, not with `Object.is` on numbers, so `0` and `-0` count as unchanged here.
- Measurement.Recorder.OnLocationUpdate: compares latitude, longitude, timestamp and speed as formatted strings, not with `Object.is` on numbers, so `0` and `-0` count as unchanged here. It also applies the new fix and the new speed as one state update before the GPS effect runs. If a renderer did not batch the two updates from the native callback, a fix that changes both position and speed would append two lines: the new position with the old speed, then the new speed.
- What React does after the GPS effect throws (an error boundary or unmounting the screen). The model only reports `threw` and leaves the buffer unchanged.
- Timer scheduling (`setInterval`/`clearInterval`). A tick is an explicit method call.
- The displayed sensor values and the loading indicator.
