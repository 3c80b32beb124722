# Shoe cleaner control protocol in Dafny

A model of the client-side control protocol of the shoe cleaner Android app
(`MainActivity`). The app keeps two pieces of state: whether the cleaner is
connected, and a `DeviceState` with six values. It reacts to three kinds of
input:

- connection callbacks, which set or clear the connection flag;
- one-byte status notifications on the "complete" characteristic. Code 1
  means the swing arm is up, 2 means it is down again, 3 means cleaning has
  ended. Each code moves the device state;
- button taps. Each enabled button sends one of five commands as a
  five-byte one-hot vector on the control characteristic.

Modules:

- `Wrappers` (`wrappers.dfy`): `Option` and `Result`.
- `Commands` (`commands.dfy`): the five commands plus `Unknown`, the label
  table, the byte encoding, and `Decode` as the encoding's inverse.
- `Control` (`control.dfy`): `DeviceState`, the `Session` record, the
  connection and notification handlers, the button guards (`Enabled`), the
  states each guard offers according to the enumeration's comments
  (`Offered`), and `Send`.
- `Trace` (`trace.dfy`): the activity as a sequential loop over events.
  The app holds two sessions. The live one is what the callbacks update.
  The drawn one is what the screen was last recomposed from, and the
  buttons' `enabled` guards read it. A `Redraw` event copies the live
  session to the screen. A tap is delivered only if its button was
  enabled on the drawn screen. `sendBluetoothCommand` then re-checks only
  the live connection flag, never the device state. The module proves the
  reachable-state invariant, that every written vector is a real command,
  and that the connection flag and device state are set by the latest
  relevant event. It also shows that a tap landing before the redraw
  sends a command the new state no longer offers.

Platform inputs are parameters. The characteristic a notification arrives
on is the boolean `fromComplete`. Whether the GATT handle, the UART service
and the control characteristic were all found is the boolean
`controlFound`. The connection callback's `newState` is an `int` compared
with the Android `BluetoothProfile` codes: 0 is disconnected, 2 is
connected. A JVM `Byte` is the newtype `Int8`, from -128 to 127.

`value[0]` is read with no length check. On an empty payload from the
complete characteristic the read throws before any state is assigned.
`OnNotify` returns `Failure(EmptyPayload)` for that case rather than
requiring a non-empty payload. In a trace, such an event leaves the session
unchanged.

## Model

| member | source | states |
|---|---|---|
| Commands.Encode | Android/app/src/main/java/com/example/shoecleaner/MainActivity.kt:273-280 | A recognised command encodes to five bytes with a single 1, at POWER_OFF 0, NORMAL_MODE 1, QUICK_MODE 2, SWING_UP 3, SWING_DOWN 4. `Unknown` encodes to five zeros. |
| Commands.Parse | Android/app/src/main/java/com/example/shoecleaner/MainActivity.kt:273-279 | A label parses to a recognised command exactly when it is one of the five labels, and that command's label is the input. Every other string is `Unknown`. |
| Commands.ParseLabel | Android/app/src/main/java/com/example/shoecleaner/MainActivity.kt:273-278 | Parsing a recognised command's label gives back that command. |
| Commands.EncodeLabel | Android/app/src/main/java/com/example/shoecleaner/MainActivity.kt:273-280 | A label's vector is one-hot at a command's slot exactly when the label is that command's label. It is all zeros exactly when the label is outside the table. |
| Commands.EncodeInjective | Android/app/src/main/java/com/example/shoecleaner/MainActivity.kt:273-280 | Distinct commands, `Unknown` included, encode to distinct vectors. |
| Commands.Decode | Android/app/src/main/java/com/example/shoecleaner/MainActivity.kt:273-280 | Inverse of the table: it returns `Some(c)` exactly when `b` is the encoding of `c`, and `None` for every other byte sequence. |
| Control.OnConnChange | Android/app/src/main/java/com/example/shoecleaner/MainActivity.kt:171-180 | Connected sets the flag and disconnected clears it. Any other code leaves the session unchanged. The device state is never changed. |
| Control.OnNotify | Android/app/src/main/java/com/example/shoecleaner/MainActivity.kt:229-255 | On the complete characteristic, first byte 1, 2 or 3 gives `ArmUp`, `Initial` or `CleaningDone`. Any other first byte, or any other characteristic, keeps the state. The call fails exactly when the payload on the complete characteristic is empty. |
| Control.Send | Android/app/src/main/java/com/example/shoecleaner/MainActivity.kt:264-284 | Something is written exactly when the app is connected and the control characteristic was found. What is written is the label's vector: one-hot at the label's command, all zeros for an unknown label. The session is not an output. |
| Control.Enabled | Android/app/src/main/java/com/example/shoecleaner/MainActivity.kt:307-349 | No button is enabled while disconnected, and no button issues an unknown label. Power off is enabled exactly while connected. Any other enabled button is one the enumeration's comments offer in the current state. |
| Control.EnabledMatchesOffered | Android/app/src/main/java/com/example/shoecleaner/MainActivity.kt:307-349 | A button is enabled exactly when the app is connected and the button is power off or one the enumeration's comments offer in the current state. Nothing is enabled while disconnected. |
| Control.GuardsExclusive | Android/app/src/main/java/com/example/shoecleaner/MainActivity.kt:307-349 | In any session at most one of {SWING_UP}, {NORMAL_MODE, QUICK_MODE} and {SWING_DOWN} has an enabled button. |
| Control.TransientOnlyPowerOff | Android/app/src/main/java/com/example/shoecleaner/MainActivity.kt:69-76 | In `ArmMovingUp`, `Cleaning` and `ArmMovingDown`, only power off is enabled, and only while connected. |
| Trace.Step | Android/app/src/main/java/com/example/shoecleaner/MainActivity.kt:86-90 | A tap is delivered only if its button was enabled on the drawn screen. The send then checks only the live connection flag. A write is one-hot at the pressed button's slot, and it always happens when both checks pass and the characteristic was found. A tap never changes the app. A notification never changes the connection flag. A connection callback never changes the device state. Only a redraw changes the screen, and it copies the live session to it. |
| Trace.RunSettled | Android/app/src/main/java/com/example/shoecleaner/MainActivity.kt:229-255 | If the live and drawn states are both in {`Initial`, `ArmUp`, `CleaningDone`}, they stay in that set after every run of events. |
| Trace.TransientUnreachable | Android/app/src/main/java/com/example/shoecleaner/MainActivity.kt:69-76 | From launch (disconnected, `Initial`, drawn as such), no run reaches `ArmMovingUp`, `Cleaning` or `ArmMovingDown`, live or on screen. |
| Trace.SettledReachable | Android/app/src/main/java/com/example/shoecleaner/MainActivity.kt:229-255 | Each of `Initial`, `ArmUp` and `CleaningDone` is reached by some run from app start, so the invariant is tight. |
| Trace.RunWritesCommands | Android/app/src/main/java/com/example/shoecleaner/MainActivity.kt:273-283 | Every vector a run writes is one-hot for a recognised command. The all-zero vector is never sent. |
| Trace.RunWritesOnlyWhenConnected | Android/app/src/main/java/com/example/shoecleaner/MainActivity.kt:264-268 | If the app starts disconnected and no connection callback arrives, a run writes nothing and stays disconnected, whatever the screen shows. |
| Trace.RunWritesAtMostOnePerEvent | Android/app/src/main/java/com/example/shoecleaner/MainActivity.kt:264-284 | A run writes at most one vector per event. |
| Trace.RedrawThenPress | Android/app/src/main/java/com/example/shoecleaner/MainActivity.kt:307-349 | Right after a redraw, a tap writes exactly when its button's guard holds for the live session and the characteristic was found. |
| Trace.StaleScreenPress | Android/app/src/main/java/com/example/shoecleaner/MainActivity.kt:236-244 | Connected in `Initial`, the arm reports it is up, then SWING_UP is tapped before the redraw: the SWING_UP vector is sent. If a redraw comes between them, nothing is sent. |
| Trace.NoDeadEnd | Android/app/src/main/java/com/example/shoecleaner/MainActivity.kt:307-341 | When connected in a settled state, some button other than power off is enabled. |
| Trace.RunTracksLastLink | Android/app/src/main/java/com/example/shoecleaner/MainActivity.kt:171-180 | After a run, the live connection flag equals the one set by the latest connect or disconnect callback, or the starting flag if there was none. |
| Trace.RunTracksLastReport | Android/app/src/main/java/com/example/shoecleaner/MainActivity.kt:229-255 | After a run, the live device state is the target of the latest report notification, or the starting state if there was none. |

## Left out

- BLE scanning, GATT connection, service discovery, the notification descriptor write and UUID matching (MainActivity.kt:124-218). These are platform calls with no logic of their own. Characteristic identity is the boolean `fromComplete`, and finding the control characteristic is the boolean `controlFound`.
- The `gatt.discoverServices()` call made on connect. It is a platform call and affects no modelled state.
- The `status` argument of the connection callback. The source never reads it.
- The runtime-permission flow and the Bluetooth-enabled check (MainActivity.kt:98-122). These are platform calls.
- Toasts, logging and Compose layout. Only the `enabled =` predicates are modelled.
- `runOnUiThread` is modelled as an immediate, in-order assignment. Posts to the UI thread run in order, but the model does not capture the delay between a notification and its assignment.
- Redraw timing is not modelled. The platform recomposes on a frame after a state change. The model allows a `Redraw` at any point, or never, so its trace lemmas also cover every real redraw schedule.
- What happens to the process after the exception on an empty notification is left out. The model only records that no state is assigned.
- The result of `writeCharacteristic` is not modelled: the source ignores it too. A write the model issues is a write the app attempted.
- When the characteristic is null, the app still calls `writeCharacteristic`, and the platform rejects the call. The model records that nothing is written.
- RaspberryPI/bluetooth_server.py. It only relays bytes from an RFCOMM socket to a serial port and makes no decisions.
