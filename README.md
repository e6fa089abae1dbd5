# SunFace watch-face engine, modelled in Dafny

This project models the non-drawing logic of the `Engine` of the SunFace digital watch face
(`wear/src/main/java/tech/rithm/udacitysunwearable/SunFace.java`). The engine is a
single-threaded state machine. Host callbacks drive it: visibility and ambient-mode changes,
time ticks, taps, the update-time handler, the companion connection and data-change batches.

The project has five modules:

- `Clock` (`clock.dfy`): the time text drawn by `onDraw`. It is `H:MM` in ambient mode and
  `H:MM:SS` otherwise, built from the `Calendar` fields HOUR (0..11), MINUTE and SECOND.
  Java's `%d` and `%02d` are written out as `Decimal` and `Pad2`. A parser for the text is its
  partner: reading a time text back gives the fields it was made from.
- `Scheduler` (`scheduler.dfy`): the timer rule (visible and not ambient) and the re-arm
  delay `1000 - now % 1000`. Java's truncating `%` on `long` is modelled as `JavaRem`.
- `Sync` (`sync.dfy`): the data items pushed by the phone (`DataMap`, `DataEvent`) and
  `Ingest`, the fold of a batch into the four weather fields. The fold keeps the code's filter
  (`TYPE_CHANGED` on path `/weather`), last-write-wins, and the `IllegalArgumentException` for a
  missing asset.
- `Face` (`engine.dfy`): the `Engine` class. Its fields are `visible`, `ambient`,
  `lowBitAmbient`, `isRound`, `textAntiAlias`, `registeredReceiver`, the weather fields,
  `pending` and `log`. `pending` is the handler's queue of update-time messages, one delay per
  message. `log` records every call into the host, in order, as an abstract `Action`: connect,
  disconnect, listener changes, message sends, receiver registration, time-zone refresh,
  redraw (`invalidate`), the tap toast, timer cancel and arm, and icon fetches. The invariant
  `Valid()` says one update message is pending exactly when the face is visible and not
  ambient, and otherwise none, and that the time-zone receiver is registered exactly while the
  face is visible. Every host notification (`Dispatch`) keeps it. `HandleUpdateTimeMessage`
  runs only after the delivered message has been removed from the queue
  (`DeliverUpdateTimeMessage`), so it is the pair that keeps it.
- `Scenarios` (`scenarios.dfy`): short host-event sequences and what the callbacks'
  contracts let a caller conclude about them.

Where the design description of the system and the code disagree, the model follows the code:

- A matching data event overwrites all four weather fields with whatever its `DataMap` holds.
  `getString` gives `null` for an absent key and `getLong` gives 0, so a missing field does not
  keep its prior value. The text fields are therefore `Option<string>`, with `None` as `null`.
- `onAmbientModeChanged` runs `updateTimer` on every call, even when the mode does not change.
  A repeated call adds no redraw, but it still cancels and re-sends the update message.
- `onVisibilityChanged` re-evaluates the timer last, after the connection and receiver steps,
  not first.
- A matching event without an asset throws `IllegalArgumentException` after its four fields
  are written. The rest of the batch and the batch's redraw are skipped.
- Before the epoch, Java's `%` is negative. The re-arm delay is then 1000..1999 ms, and a
  clock 1 ms before the epoch waits 1001 ms.

The host's `isVisible()` and `isInAmbientMode()` are merged with the engine's own copies
(`mAmbient`). `super.onVisibilityChanged` and `super.onAmbientModeChanged` set the host state
before the engine's body runs, so the two always agree.

## Model

| member | source | states |
|---|---|---|
| `Clock.Decimal` | wear/src/main/java/tech/rithm/udacitysunwearable/SunFace.java:352-356 | `%d` of a non-negative number: all digits, one digit exactly below 10, no leading zero unless the number is 0 |
| `Clock.Pad2` | wear/src/main/java/tech/rithm/udacitysunwearable/SunFace.java:352-356 | `%02d`: all digits, at least two, exactly two below 100 |
| `Clock.TimeText` | wear/src/main/java/tech/rithm/udacitysunwearable/SunFace.java:352-356 | the text holds only digits and colons, and splits at its colons into two parts in ambient mode and three otherwise |
| `Clock.FieldsAt` | wear/src/main/java/tech/rithm/udacitysunwearable/SunFace.java:349-356 | HOUR < 12, MINUTE < 60, SECOND < 60, and together they are the second of the half day of the local instant |
| `Clock.ValueOfDecimal` | wear/src/main/java/tech/rithm/udacitysunwearable/SunFace.java:352-356 | reading the digits of `%d` back gives the number |
| `Clock.ValueOfPad2` | wear/src/main/java/tech/rithm/udacitysunwearable/SunFace.java:352-356 | reading the zero-padded digits back gives the number |
| `Clock.TimeTextRoundTrip` | wear/src/main/java/tech/rithm/udacitysunwearable/SunFace.java:352-356 | parsing the time text gives [hour, minute] in ambient mode and [hour, minute, second] otherwise |
| `Clock.TimeTextShape` | wear/src/main/java/tech/rithm/udacitysunwearable/SunFace.java:352-356 | for a calendar reading the hour is unpadded (4 or 5 characters ambient), and the interactive text is the ambient text plus `:SS` |
| `Clock.NineOhFiveOhSeven` | wear/src/main/java/tech/rithm/udacitysunwearable/SunFace.java:352-356 | 9:05:07 reads `9:05:07` interactive and `9:05` ambient |
| `Scheduler.ShouldTimerBeRunning` | wear/src/main/java/tech/rithm/udacitysunwearable/SunFace.java:426-432 | the timer runs only while visible, never in ambient mode, and always when visible and interactive |
| `Scheduler.JavaRem` | wear/src/main/java/tech/rithm/udacitysunwearable/SunFace.java:441-442 | Java's `%` by 1000: magnitude below 1000, sign of the dividend, and the dividend minus it is a multiple of 1000 |
| `Scheduler.Delay` | wear/src/main/java/tech/rithm/udacitysunwearable/SunFace.java:440-443 | the delay is at least 1 and lands on a whole second; it is at most 1000 from the epoch on, 1000..1999 before it |
| `Scheduler.DelayReachesNextBoundary` | wear/src/main/java/tech/rithm/udacitysunwearable/SunFace.java:437-445 | from the epoch on, no whole second lies strictly between now and now + delay |
| `Scheduler.DelaySkipsBoundaryBeforeEpoch` | wear/src/main/java/tech/rithm/udacitysunwearable/SunFace.java:440-443 | before the epoch and off a whole second, the delay passes a whole second and lands on the next one |
| `Scheduler.DelayOneBeforeEpoch` | wear/src/main/java/tech/rithm/udacitysunwearable/SunFace.java:440-443 | 1 ms before the epoch the delay is 1001 ms |
| `Sync.GetString` | wear/src/main/java/tech/rithm/udacitysunwearable/SunFace.java:486-489 | a text exactly when the key holds a string, and then that string; null otherwise |
| `Sync.GetLong` | wear/src/main/java/tech/rithm/udacitysunwearable/SunFace.java:488 | the key's long when it holds one; 0 when it is absent or holds another type |
| `Sync.GetAsset` | wear/src/main/java/tech/rithm/udacitysunwearable/SunFace.java:490 | an asset exactly when the key holds one, and then that asset; null otherwise |
| `Sync.Matches` | wear/src/main/java/tech/rithm/udacitysunwearable/SunFace.java:481-483 | deleted events and other paths never match; a change on `/weather` always does |
| `Sync.Received` | wear/src/main/java/tech/rithm/udacitysunwearable/SunFace.java:484-489 | each field takes its key's value; an absent key, or one holding another type, gives null (time stamp 0) |
| `Sync.Step` | wear/src/main/java/tech/rithm/udacitysunwearable/SunFace.java:480-505 | after a throw and on a non-matching event nothing changes; a matching event replaces the whole weather with what it carries and throws exactly when it has no asset; the fetches only grow, by at most one, and not on a throw |
| `Sync.Ingest` | wear/src/main/java/tech/rithm/udacitysunwearable/SunFace.java:480-495 | a batch starts at most one fetch per matching event |
| `Sync.ThrowNeedsMissingAsset` | wear/src/main/java/tech/rithm/udacitysunwearable/SunFace.java:502-505 | a batch throws only if some matching event carries no asset |
| `Sync.WeatherComesFromAnEvent` | wear/src/main/java/tech/rithm/udacitysunwearable/SunFace.java:484-489 | the weather after a batch is the weather before it or exactly what one matching event carried |
| `Sync.IgnoredEventsChangeNothing` | wear/src/main/java/tech/rithm/udacitysunwearable/SunFace.java:480-495 | a batch of deleted events and other paths leaves the weather as it was, fetches nothing and does not throw |
| `Sync.IgnoredEventAnywhere` | wear/src/main/java/tech/rithm/udacitysunwearable/SunFace.java:480-495 | a non-matching event can be removed from any position of a batch without changing the outcome |
| `Sync.NoThrowWithoutMissingAsset` | wear/src/main/java/tech/rithm/udacitysunwearable/SunFace.java:480-491 | with no matching event lacking an asset, nothing throws and one icon fetch starts per matching event |
| `Sync.LastMatchWins` | wear/src/main/java/tech/rithm/udacitysunwearable/SunFace.java:480-491 | when the batch does not throw, the weather is what the last matching event carried |
| `Sync.ThrownStaysThrown` | wear/src/main/java/tech/rithm/udacitysunwearable/SunFace.java:502-505 | after the exception no later event of the batch is read |
| `Sync.FirstMissingAssetThrows` | wear/src/main/java/tech/rithm/udacitysunwearable/SunFace.java:486-505 | the first matching event without an asset throws, after its four fields were written; the batch ends there |
| `Face.Engine.TimerShouldRun` | wear/src/main/java/tech/rithm/udacitysunwearable/SunFace.java:430-432 | the engine's timer runs only while visible, never in ambient mode, and always when visible and interactive |
| `Face.Engine.Valid` | wear/src/main/java/tech/rithm/udacitysunwearable/SunFace.java:229-264 | at most one update message is pending, one exactly when visible and not ambient, and the receiver is registered exactly while visible |
| `Face.Engine.constructor` | wear/src/main/java/tech/rithm/udacitysunwearable/SunFace.java:121-127 | initial state: hidden, interactive, not registered, anti-aliased text, nothing pending, weather "99"/"11"/0/"..awaiting" |
| `Face.Engine.OnPropertiesChanged` | wear/src/main/java/tech/rithm/udacitysunwearable/SunFace.java:283-286 | the low-bit flag is the host's value, false when absent |
| `Face.Engine.OnApplyWindowInsets` | wear/src/main/java/tech/rithm/udacitysunwearable/SunFace.java:267-280 | records the round-shape flag and nothing else |
| `Face.Engine.RegisterReceiver` | wear/src/main/java/tech/rithm/udacitysunwearable/SunFace.java:249-256 | afterwards registered; the host call happens only if not registered before |
| `Face.Engine.UnregisterReceiver` | wear/src/main/java/tech/rithm/udacitysunwearable/SunFace.java:258-264 | afterwards unregistered; the host call happens only if registered before |
| `Face.Engine.UpdateTimer` | wear/src/main/java/tech/rithm/udacitysunwearable/SunFace.java:419-432 | every pending message removed, then exactly one immediate message iff visible and not ambient; the receiver flag is untouched |
| `Face.Engine.OnVisibilityChanged` | wear/src/main/java/tech/rithm/udacitysunwearable/SunFace.java:229-247 | shown: connect, weather request, registration (if needed), zone refresh, redraw; hidden: listener removal, disconnect, unregistration (if needed); both end with one `updateTimer` |
| `Face.Engine.OnTimeTick` | wear/src/main/java/tech/rithm/udacitysunwearable/SunFace.java:289-292 | one redraw, nothing else |
| `Face.Engine.OnTimeZoneChanged` | wear/src/main/java/tech/rithm/udacitysunwearable/SunFace.java:139-145 | zone refresh and one redraw |
| `Face.Engine.OnAmbientModeChanged` | wear/src/main/java/tech/rithm/udacitysunwearable/SunFace.java:295-308 | mode recorded; redraw only on a change; anti-alias set to not-ambient only on a change on low-bit displays; always ends with `updateTimer`, which restores the invariant |
| `Face.Engine.OnTapCommand` | wear/src/main/java/tech/rithm/udacitysunwearable/SunFace.java:315-331 | a completed tap shows the toast; every tap command redraws |
| `Face.Engine.HandleUpdateTimeMessage` | wear/src/main/java/tech/rithm/udacitysunwearable/SunFace.java:437-445 | always one redraw; a message with the next-second delay is queued only while the timer should run |
| `Face.Engine.DeliverUpdateTimeMessage` | wear/src/main/java/tech/rithm/udacitysunwearable/SunFace.java:94-104 | while the timer runs, a firing redraws and leaves exactly one message pending, due at the next whole second; otherwise nothing is pending and nothing happens |
| `Face.Engine.OnConnected` | wear/src/main/java/tech/rithm/udacitysunwearable/SunFace.java:448-452 | adds the data listener, then sends the `CounterRequest` probe |
| `Face.Engine.ApplyReceived` | wear/src/main/java/tech/rithm/udacitysunwearable/SunFace.java:523-538 | the four weather fields become what the data map holds, absent or mistyped keys giving null (0 for the stamp); nothing else changes |
| `Face.Engine.ConsumeEvent` | wear/src/main/java/tech/rithm/udacitysunwearable/SunFace.java:481-494 | one event of the loop: a matching event writes the four fields and starts its icon fetch, or throws when it has no asset; any other event changes nothing |
| `Face.Engine.OnDataChanged` | wear/src/main/java/tech/rithm/udacitysunwearable/SunFace.java:478-505 | weather becomes `Ingest` of the batch; one fetch per matching event; one redraw unless it threw; throws exactly when `Ingest` does; only weather fields and log change |
| `Face.Engine.TimeTextAt` | wear/src/main/java/tech/rithm/udacitysunwearable/SunFace.java:348-356 | the drawn text reads back as the calendar's hour and minute, plus the second only when not ambient; 4..5 characters ambient, up to 8 otherwise |
| `Face.Engine.Dispatch` | wear/src/main/java/tech/rithm/udacitysunwearable/SunFace.java:107-110 | any host notification keeps the timer invariant; only a data-change batch can throw |
| `Face.Engine.Run` | wear/src/main/java/tech/rithm/udacitysunwearable/SunFace.java:426-432 | after any sequence of host events, at most one update message is pending, and one is pending iff visible and not ambient |
| `Scenarios.AmbientTwice` | wear/src/main/java/tech/rithm/udacitysunwearable/SunFace.java:295-308 | the same mode reported twice gives at most one redraw, none if unchanged; `updateTimer` still runs twice |
| `Scenarios.HideThenShow` | wear/src/main/java/tech/rithm/udacitysunwearable/SunFace.java:229-264 | hiding then showing issues one disconnect then one connect, re-registers the receiver, and leaves the timer running iff interactive |
| `Scenarios.ReceiverTwice` | wear/src/main/java/tech/rithm/udacitysunwearable/SunFace.java:249-264 | registering twice and unregistering twice make at most one host call each |
| `Scenarios.CloudyIngest` | wear/src/main/java/tech/rithm/udacitysunwearable/SunFace.java:484-490 | a push of 75/50/"Cloudy"/1000 yields exactly those values and one icon fetch |
| `Scenarios.CloudyPush` | wear/src/main/java/tech/rithm/udacitysunwearable/SunFace.java:478-500 | the engine shows the pushed values, and a following deleted event changes nothing but adds its batch redraw |

## Left out

- Drawing (`onDraw` apart from the time text, `computeXOffset`, `computeTimeYOffset`,
  `computeDateYOffset`): canvas and paint calls, float pixel offsets and resource dimensions.
- The date string (`SimpleDateFormat("EEE, MMM d yyyy")`): a locale-dependent library
  formatter. The time zone reaches the time text only as a millisecond offset parameter of
  `TimeTextAt`; daylight-saving rules are part of that offset.
- The transport APIs (`GoogleApiClient`, `NodeApi`, `MessageApi`, `DataApi`): each call is one
  abstract `Action` in the log. `sendMessage`'s asynchronous enumeration of connected nodes is
  one `SendToConnectedNodes` action.
- The icon fetch thread in `loadBitmapFromAsset` (blocking connect with its 15 s timeout,
  `getFdForAsset`, bitmap decoding): concurrency and I/O. Only the synchronous null-asset check
  is modelled, plus a `FetchIcon` action for the fetch it starts. The `icon` field is not
  modelled, so neither is its later, lagging update.
- `EngineHandler`'s weak reference to the engine, `onDestroy`, `onCreate`'s paint and style
  setup, the layout values `onApplyWindowInsets` selects, and the toast's text: host plumbing
  and UI. `onConnectionSuspended` and `onConnectionFailed` have empty bodies; `Dispatch`
  handles them as no-ops.
- The handler schedules on the uptime clock, while the delay is computed from wall-clock
  time. The model keeps the delay value and does not model either clock's progress.
- Clock.TimeText: `String.format` is called without a `Locale`, so the digits are those of the
  device's default locale. The model writes them for a locale whose zero digit is `'0'`
  (ASCII digits); a locale with other native digits would draw other characters.
- Face.Engine.Dispatch: states only that the timer invariant is kept and that only a
  data-change batch can throw. What each callback does is stated by the callback's own
  contract.
- Face.Engine.Run: states only the timer invariant after the events it handled and the bound
  on how many it handled. It does not restate each callback's effect on the log.
