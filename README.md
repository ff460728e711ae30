# HexTimeWatch core in Dafny

This project models the core of the HexTimeWatch Android watch face
(`HexTimeWatchface.java`). The face shows "hex time": the fraction of the day
that has elapsed, written as five base-16 digits `h1 .. h5`, most significant
first. It draws four hands for `h1 .. h4` and prints the digits as the label
`H:H:H,H.H`. Around that sits a small engine. It registers a time-zone
receiver while visible. It keeps a self-rearming redraw timer running exactly
while the face is visible and not in ambient mode.

Modules:

- `JavaMath`: Java's truncating `/` and `%`. Dafny's own operators are
  Euclidean, and the source applies `%` to values that can be negative.
- `HexClock`: `calculateHexTime` as `Digit`, the five digits `HexDigits`,
  their base-16 reading, and the hand rotations as fractions of a turn.
- `HexLabel`: `toHex` (`Character.forDigit` then `Character.toUpperCase`), the
  label string, and an inverse parser that serves as its round-trip partner.
- `WatchEngine`: class `Engine`. Its fields are the flags `visible`, `ambient`,
  `lowBitAmbient`, `burnInProtection` and `registered`, the log of platform
  register/unregister calls, the queue of pending `MSG_UPDATE_TIME` delays, a
  count of `invalidate()` calls, and the calendar's instant and zone id. Each
  lifecycle callback is a method. The current clock time is a parameter, not a
  call to `System.currentTimeMillis`.

The source computes digits with `Math.pow` and `double` division. The model
uses unbounded integers, and that is exact, not an approximation:

- `86400000 = 84375 * 2^10`, so every divisor `86400000 / 16^k` with `k <= 5`
  is an exact double.
- The exact quotient `t * 16^k / 86400000` is never closer than `1/5400000`
  to an integer it is below (the worst case is `k = 1`, whose reduced
  denominator is `5400000`). That gap is far larger than a double's rounding
  error at these magnitudes (below `2^21`), so the rounded quotient has the
  same integer part as the exact one.
- Java's `(int)` cast and `double %` then truncate toward zero, which
  `JavaMath.Quot` and `JavaMath.Rem` reproduce.

Three behaviours of the code that are easy to misread:

- The code does not clamp digits. For an instant before the epoch, Java's
  truncating `%` makes `timeInDay` negative, so every digit lies in `-15 .. 0`
  (`HexClock.DigitsOddInInstant`). `toHex` then yields the null character for
  any nonzero digit.
- The rescheduling delay `83 - timeMs % 83` lies in `1 .. 83` for a
  non-negative clock; a clock already on a boundary waits a full 83 ms.
- The digits use the UTC day. `getTimeInMillis` does not depend on the
  calendar's zone, so neither the time-zone receiver nor the `"PST"` zone that
  `onDraw` sets changes any digit or the label. Only the `HOUR:MINUTE` text,
  which is not modelled, uses the zone. The model's digits take the instant
  alone.

## Model

| member | source | states |
|---|---|---|
| `JavaMath.Rem` | wear/src/main/java/com/jasonrobot/hextimewatch/HexTimeWatchface.java:263 | Java `long %`: the remainder is strictly between `-b` and `b`, has the dividend's sign, equals Dafny's `%` for a non-negative dividend, and satisfies `a == b * Quot(a, b) + r` |
| `JavaMath.Quot` | wear/src/main/java/com/jasonrobot/hextimewatch/HexTimeWatchface.java:264 | Java truncation toward zero of a quotient (the `(int)` cast and `long /`): equals Dafny's `/` for a non-negative dividend, and is at most 0 for a non-positive one |
| `HexClock.Digit` | wear/src/main/java/com/jasonrobot/hextimewatch/HexTimeWatchface.java:262-265 | `calculateHexTime(k)` for k in 1..5: the result is in `-15 .. 15`, is at least 0 for a non-negative instant, and is at most 0 for a non-positive one |
| `HexClock.HexDigits` | wear/src/main/java/com/jasonrobot/hextimewatch/HexTimeWatchface.java:221-242 | the five `calculateHexTime` calls `h1..h5`: exactly five values in `-15 .. 15`; all in 0..15 for a non-negative instant; all at most 0 for a non-positive one |
| `HexClock.DigitFormula` | wear/src/main/java/com/jasonrobot/hextimewatch/HexTimeWatchface.java:263-264 | for a non-negative instant, digit k is `floor(t * 16^k / 86400000) mod 16`, where `t = instant mod 86400000` |
| `HexClock.ElapsedUnitsShift` | wear/src/main/java/com/jasonrobot/hextimewatch/HexTimeWatchface.java:264 | the count of `1/16^(k+1)`-day units, divided by 16, is the count of `1/16^k`-day units, so digit k+1 refines digit k |
| `HexClock.DigitsAreExpansion` | wear/src/main/java/com/jasonrobot/hextimewatch/HexTimeWatchface.java:221-242 | for a non-negative instant, `h1..h5` equal the five-digit base-16 expansion of `floor(t * 16^5 / 86400000)`, and reading them in base 16 gives that number back |
| `HexClock.DigitsInRange` | wear/src/main/java/com/jasonrobot/hextimewatch/HexTimeWatchface.java:262-265 | for a non-negative instant, every one of the five digits is in 0..15 |
| `HexClock.DigitsMonotone` | wear/src/main/java/com/jasonrobot/hextimewatch/HexTimeWatchface.java:262-265 | within any one day after the epoch (`d * 86400000 <= earlier <= later < (d + 1) * 86400000`), a later instant never reads as a smaller base-16 number |
| `HexClock.DigitsDayPeriodic` | wear/src/main/java/com/jasonrobot/hextimewatch/HexTimeWatchface.java:263 | for a non-negative instant, adding any number of whole days leaves all five digits unchanged |
| `HexClock.DigitsOddInInstant` | wear/src/main/java/com/jasonrobot/hextimewatch/HexTimeWatchface.java:263-264 | negating the instant negates every digit, so a pre-epoch instant shows non-positive digits |
| `HexClock.KnownInstants` | wear/src/main/java/com/jasonrobot/hextimewatch/HexTimeWatchface.java:263-264 | midnight gives 0,0,0,0,0; noon gives 8,0,0,0,0; the last millisecond of the day gives 15,15,15,15,15 |
| `HexClock.Base16RoundTrip` | wear/src/main/java/com/jasonrobot/hextimewatch/HexTimeWatchface.java:264 | writing a value below `16^n` as n base-16 digits and reading them back gives the value |
| `HexClock.FromBase16RoundTrip` | wear/src/main/java/com/jasonrobot/hextimewatch/HexTimeWatchface.java:264 | n hex digits read as a value below `16^n`, and writing that value back gives the same digits |
| `HexClock.HandTurnProperties` | wear/src/main/java/com/jasonrobot/hextimewatch/HexTimeWatchface.java:214-243 | the rotation `(digit + next/16 + 8) / 16` turns: for hex digits it is at least half a turn and under one and a half turns; it is exactly half a turn only for digit 0 with next digit 0; it grows strictly with `16 * digit + next` |
| `HexClock.HandTurn` | wear/src/main/java/com/jasonrobot/hextimewatch/HexTimeWatchface.java:224-243 | the rotation `SIXTEENTH * (digit + next/16f + 8)` as a fraction of a turn (`h4rot` at :224, `h3rot` at :231, `h2rot` at :237, `h1rot` at :243): for hex digits it lies in `[0.5, 1.5)` |
| `HexLabel.ToHex` | wear/src/main/java/com/jasonrobot/hextimewatch/HexTimeWatchface.java:267-269 | the value is an upper-case hex character iff it is in 0..15; any other value gives the null character |
| `HexLabel.ForDigit` | wear/src/main/java/com/jasonrobot/hextimewatch/HexTimeWatchface.java:268 | `Character.forDigit(v, 16)`: a character other than the null character iff v is in 0..15; `'0'..'9'` for 0..9 and `'a'..'f'` for 10..15 |
| `HexLabel.UpperCase` | wear/src/main/java/com/jasonrobot/hextimewatch/HexTimeWatchface.java:268 | `Character.toUpperCase` on those characters: `'a'..'f'` become `'A'..'F'`, and any character that is not a lower-case letter is unchanged |
| `HexLabel.ToHexRoundTrip` | wear/src/main/java/com/jasonrobot/hextimewatch/HexTimeWatchface.java:267-269 | `toHex` is one-to-one from 0..15 onto `'0'..'9', 'A'..'F'`: each digit reads back as itself, and each such character is `toHex` of the digit it reads as |
| `HexLabel.Label` | wear/src/main/java/com/jasonrobot/hextimewatch/HexTimeWatchface.java:248 | the label has exactly 9 characters; positions 0,2,4,6,8 are `toHex` of h1..h5; positions 1,3,5,7 are `:`, `:`, `,`, `.` |
| `HexLabel.LabelRoundTrip` | wear/src/main/java/com/jasonrobot/hextimewatch/HexTimeWatchface.java:248 | a label of five hex digits parses back to those digits, and any text that parses is exactly the label of what it parses to |
| `HexLabel.HexTimeLabel` | wear/src/main/java/com/jasonrobot/hextimewatch/HexTimeWatchface.java:248 | the label drawn for an instant has 9 characters, and for a non-negative instant every digit position holds an upper-case hex character (never the null character) |
| `HexLabel.HexTimeLabelReadsBack` | wear/src/main/java/com/jasonrobot/hextimewatch/HexTimeWatchface.java:221-249 | for a non-negative instant, the drawn label has 9 characters and parses back to that instant's five digits |
| `HexLabel.KnownLabels` | wear/src/main/java/com/jasonrobot/hextimewatch/HexTimeWatchface.java:248 | noon is drawn as `8:0:0,0.0`, midnight as `0:0:0,0.0`, and the last millisecond of the day as `F:F:F,F.F` |
| `WatchEngine.NextDelayAligned` | wear/src/main/java/com/jasonrobot/hextimewatch/HexTimeWatchface.java:335-337 | the delay is at least 1 and ends on a multiple of 83 ms; for a non-negative clock it is at most 83 and no smaller positive delay ends on a multiple of 83 |
| `WatchEngine.NextDelay` | wear/src/main/java/com/jasonrobot/hextimewatch/HexTimeWatchface.java:336-337 | `83 - timeMs % 83` with Java's `%`: at least 1, ends on a multiple of 83 ms, and at most 83 for a non-negative clock |
| `WatchEngine.AlternatingActive` | wear/src/main/java/com/jasonrobot/hextimewatch/HexTimeWatchface.java:294-309 | an alternating register/unregister log leaves exactly `|calls| mod 2` subscriptions active: never two, and never fewer than zero |
| `WatchEngine.Engine.constructor` | wear/src/main/java/com/jasonrobot/hextimewatch/HexTimeWatchface.java:115-139 | `onCreate`: not visible, not ambient, not registered, no platform calls, no queued message, one redraw request; the calendar holds the given time and default zone; the invariant holds |
| `WatchEngine.Engine.RegisterReceiver` | wear/src/main/java/com/jasonrobot/hextimewatch/HexTimeWatchface.java:294-301 | afterwards the receiver is registered; a platform register call is appended only if it was not registered before; nothing else changes |
| `WatchEngine.Engine.UnregisterReceiver` | wear/src/main/java/com/jasonrobot/hextimewatch/HexTimeWatchface.java:303-309 | afterwards the receiver is not registered; a platform unregister call is appended only if it was registered before; nothing else changes |
| `WatchEngine.Engine.UpdateTimer` | wear/src/main/java/com/jasonrobot/hextimewatch/HexTimeWatchface.java:314-327 | queued messages are dropped, then exactly one immediate message is queued iff visible and not ambient; nothing else changes |
| `WatchEngine.Engine.ShouldTimerBeRunning` | wear/src/main/java/com/jasonrobot/hextimewatch/HexTimeWatchface.java:325-327 | while the engine invariant holds, the timer should run iff a redraw message is queued, and iff the receiver is registered and the face is not ambient |
| `WatchEngine.Engine.HandleUpdateTimeMessage` | wear/src/main/java/com/jasonrobot/hextimewatch/HexTimeWatchface.java:332-340 | one redraw request; a message with the boundary-aligned delay is queued iff visible and not ambient; nothing else changes |
| `WatchEngine.Engine.DispatchUpdateMessage` | wear/src/main/java/com/jasonrobot/hextimewatch/HexTimeWatchface.java:68-78 | delivering the queued message re-arms the timer: the queue then holds just the aligned delay, and the invariant is kept |
| `WatchEngine.Engine.OnAmbientModeChanged` | wear/src/main/java/com/jasonrobot/hextimewatch/HexTimeWatchface.java:160-169 | the ambient flag is set; one immediate message is queued iff visible and not ambient; the invariant is kept |
| `WatchEngine.Engine.OnVisibilityChanged` | wear/src/main/java/com/jasonrobot/hextimewatch/HexTimeWatchface.java:271-286 | afterwards both the visible flag and the registration flag equal the argument; a platform call happens only when the registration flag flips; becoming visible re-reads the default zone and requests a redraw; the timer is re-evaluated; the invariant is kept |
| `WatchEngine.Engine.OnTimeZoneChanged` | wear/src/main/java/com/jasonrobot/hextimewatch/HexTimeWatchface.java:87-93 | the calendar takes the default zone and one redraw is requested; nothing else changes |
| `WatchEngine.Engine.OnTimeTick` | wear/src/main/java/com/jasonrobot/hextimewatch/HexTimeWatchface.java:154-158 | the host's tick only requests one redraw; the timer queue is untouched |
| `WatchEngine.Engine.OnPropertiesChanged` | wear/src/main/java/com/jasonrobot/hextimewatch/HexTimeWatchface.java:147-152 | records the low-bit and burn-in flags; nothing else changes |
| `WatchEngine.Engine.OnDestroy` | wear/src/main/java/com/jasonrobot/hextimewatch/HexTimeWatchface.java:141-145 | every queued redraw message is dropped |
| `WatchEngine.Engine.OnDraw` | wear/src/main/java/com/jasonrobot/hextimewatch/HexTimeWatchface.java:205-249 | the calendar is set to the given time and zone `"PST"`; the label is the hex-time label of that instant; hand k is rotated by digit k nudged by digit k+1; no flag, queue or registration changes |
| `WatchEngine.TimerPolicyExample` | wear/src/main/java/com/jasonrobot/hextimewatch/HexTimeWatchface.java:325-327 | over all four combinations of visibility and ambient mode, a redraw message is queued after the two callbacks iff visible and not ambient |

The `Engine.Valid` invariant is kept by every callback except `onDestroy`. It states five things:

- The platform call log alternates, starting with a registration.
- The registration flag equals the log's parity.
- The receiver is registered exactly while the face is visible.
- Exactly one redraw message is queued while `visible && !ambient`, and none
  otherwise.
- No queued message has a negative delay.

## Left out

- Canvas drawing, `Paint` set-up, colours, text size and text positions: rendering with no logic.
- Hand endpoints through `Math.sin`/`Math.cos`, the `float` rounding of `SIXTEENTH * (...)`, and the hand lengths set in `onSurfaceChanged`: floating point. `HexClock.HandTurn` keeps the rotation as an exact fraction of a turn.
- The `Calendar`/`TimeZone` library: a zone is kept as its id string only. The `HOUR:MINUTE` text, the only output that depends on the zone, is not modelled.
- `System.currentTimeMillis`: it becomes the `now` parameter.
- `EngineHandler`'s `WeakReference` check: the engine is always live in the model.
- Message delivery times: queued messages are recorded with their delays, but the model has no clock, so it does not order deliveries.
- The `BroadcastReceiver` object itself: registration is a log of `Register`/`Unregister` calls. `invalidate()` is a counter of redraw requests.
- `hexPowers`, `updateWatchHandStyle`, `onInterruptionFilterChanged`, `onPeekCardPositionUpdate` and the debug `println`: none of them has an effect on any modelled state.
- `WatchEngine.Engine.OnDestroy` does not re-establish `Valid()`. After `onDestroy` no message is queued even while visible, exactly as in the source, and the engine receives no further callbacks.
