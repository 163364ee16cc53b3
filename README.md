# Prana recuperator integration — a Dafny model of its core

The integration drives a Prana heat-recovery ventilator over Bluetooth LE. Its core is
`PranaCoordinator`. The coordinator decodes the unit's status notifications (at least 79 bytes) into
cached device attributes and merges them in. It turns semantic commands (set a speed, set a
brightness, toggle a flow) into sequences of fixed 4- or 9-byte command frames, each followed
by a `READ_STATE` request. It retries Bluetooth failures and keeps an idle-disconnect timer.
Around it sit the enums and state records of `const.py`, the fan entity's direction, preset
and availability rules, and the select entities' name↔enum tables.

The model has one module per concern:

- `Wrappers`: Option and Result, Python exceptions, and the outcome of a call.
- `PyStr`: the `str.lower`, `str.strip` and `int(str)` behaviour that `PranaTimer.from_str` relies on.
- `Attr`: the names of the cached attributes.
- `Const`: the `Display`, `Speed` and `PranaTimer` enums, `from_str`, the state records,
  `PranaState.speed` and both `to_dict` methods, plus Python values with their truthiness and `==`.
- `Frames`: the `Cmd` table and the status-frame decoder `__parse_state`, with a reference encoder.
- `Retry`: the `retry_bluetooth_connection_error` wrapper, over a script of attempt outcomes.
- `Coordinator`: the class `PranaCoordinator`. Two sequences stand in for the Bluetooth link:
  - `link` records the client calls (connect, subscribe, unsubscribe, disconnect);
  - `sent` records every frame written, in order.

  The cached device attributes are a map from attribute name to Python value. The idle timer
  is a flag plus three counters.
- `Fan`: `current_direction`, `preset_mode`, `available` and the three service handlers.
- `Select`: the `DISPLAYS` and `PRANA_TIMERS` tables and their reverse lookups.

Python's own semantics are written out where the code depends on them:

- Truthiness and `==` between `bool` and `int`.
- `&` with a positive mask, as a Euclidean remainder.
- Signed big-endian `>h` words.
- `round` with ties to even.
- Enum members are always truthy and are never equal to an integer.
- A callee is evaluated before its arguments, so an undefined name raises first.

Some behaviours of the code are easy to misread; the model follows the code in each:

- The retry wrapper re-raises an exception outside the Bleak families at once. It does not
  swallow it.
- It sleeps only after `BleakDBusError`, not after every retried error.
- The `speed` that survives a notification that parses is the `PranaState.speed` property of
  the new frame: 0 when off, `speed_locked` when the flows are locked, else the mean rounded
  down. Auto mode plays no part in it. The auto-mode/locked/channel precedence of
  coordinator.py:335-346 (`LegacySpeed`) is written first, from the old attributes, and the
  merge overwrites it. When the parse raises after those lines (a prefixed frame of 43 to 78
  bytes whose byte 12 is nonzero), nothing overwrites it and that legacy speed stays.
- `lastRead` is stamped after parsing, so a notification whose parse raises does not stamp it.
  A notification without the status prefix does.
- Every command that writes leaves a connected client, an armed idle timer and the
  disconnect not expected, having connected and subscribed first if there was no client.
  A command that sends nothing leaves the client, the link, the timer and the UUIDs as they
  were. The contracts say this with the two-state predicates `Touched` and `Untouched`.

## Model

| member | source | states |
|---|---|---|
| PyStr.Strip | const.py:56 | `strip()` returns the slice after the leading white space, with no white space at either end |
| PyStr.StripRemovesOnlySpace | const.py:56 | everything `strip()` removes, before and after the slice, is white space |
| PyStr.NormalizedIsLower | const.py:56 | a lower-cased and stripped string is lower case already |
| PyStr.NormalizeIdempotent | const.py:56 | lower-casing and stripping twice is the same as doing it once |
| PyStr.ParseDecimal | const.py:64 | `int(str(n)) == n` for every natural `n` |
| PyStr.ParseNegativeDecimal | const.py:64 | `int("-" + str(n)) == -n` |
| Const.DisplayByValue | const.py:8-19 | `Display(v)` exists exactly for 0..10, and the member it returns has value `v` |
| Const.DisplayValueRoundTrip | const.py:8-19 | every display member has a value in 0..10 that leads back to it, so the values are distinct |
| Const.SpeedNamed | const.py:21-35 | a name is found exactly when it is one of the fourteen names of the class body; any other name raises KeyError |
| Const.SpeedAliases | const.py:21-35 | SPEED_1 is LOW, SPEED_5 is HIGH and SPEED_BOOST is SPEED_BOOST_5; the eleven members have distinct values |
| Const.TimerByValue | const.py:37-48 | `PranaTimer(v)` exists exactly for 0..10, and the member it returns has value `v` |
| Const.TimerValueRoundTrip | const.py:37-48 | every timer member has a value in 0..10 that leads back to it |
| Const.TimerFromStr | const.py:54-69 | `from_str` returns only members with value 0..5; it raises only AttributeError or ValueError |
| Const.TimerFromStrErrors | const.py:54-69 | AttributeError exactly when the lower-cased, stripped input is one of the six alias words; a member exactly for an integer string in 0..5, and that member has the integer's value; ValueError for everything else |
| Const.FromNormalStr | const.py:57-69 | after normalisation, a success is a member with value 0..5 |
| Const.FromStrNormalizes | const.py:56 | case and surrounding white space do not change what `from_str` returns |
| Const.DecimalIsNormal | const.py:56 | the decimal string of a number is unchanged by `lower().strip()` |
| Const.FromStrDecimal | const.py:63-69 | `from_str(str(n))` is the member with value `n` for n ≤ 5, and ValueError for larger n |
| Const.NotAliasWord | const.py:57-69 | a string starting with a sign or a digit is decided by `int()` alone: 0..5 is a member, anything else ValueError |
| Const.FromStrNegative | const.py:63-69 | a negative integer string raises ValueError |
| Const.AliasWordRaises | const.py:55-62 | each alias word raises AttributeError, because PranaTimer has no LOW/HIGH/OFF |
| Const.AliasOptionsRaise | const.py:50-69 | the six alias words of `all_options()` raise AttributeError |
| Const.NumberOptionsAreDecimal | const.py:51-52 | the last five entries of `all_options()` are `str(1)`..`str(5)` |
| Const.NumberOptionsParse | const.py:50-69 | "1".."5" of `all_options()` give the members with values 1..5, RUN..RUN_1H |
| Const.SpeedOfSpec | const.py:132-136 | `SpeedOf`, the `speed` property: 0 when off, `speed_locked` when the flows are locked, else the mean rounded down, which lies between the two channel speeds; auto mode does not affect it |
| Const.SensorsToDict | const.py:99-107 | exactly the six sensor keys, each holding its field |
| Const.ToDict | const.py:151-173 | exactly the twenty state keys |
| Const.ToDictFields | const.py:151-173 | `speed` holds the derived property; `sensors` holds None or the six-key sensors dict |
| Frames.Bytes | coordinator.py:87-109 | every command frame is 4 or 9 bytes and starts with the `BE EF` prefix |
| Frames.CmdRoundTrip | coordinator.py:87-109 | each frame reads back as its command, and only table frames read back |
| Frames.BytesInjective | coordinator.py:87-109 | two commands have equal bytes exactly when they are the same command |
| Frames.FloorLog2 | coordinator.py:322 | the integer part of `log2(b)` is the `k` with 2^k ≤ b < 2^(k+1) |
| Frames.FloorLog2Unique | coordinator.py:322 | that `k` is unique |
| Frames.BrightnessOf | coordinator.py:322 | `int(log2(b) + 1)` lies in 1..8 for every nonzero byte |
| Frames.BrightnessSamples | coordinator.py:322 | bytes 1, 2, 4, 64 and 255 give brightness 1, 2, 3, 7 and 8 |
| Frames.BrightnessByte | coordinator.py:322 | every brightness 1..8 is produced by some nonzero byte |
| Frames.MaskedWord | coordinator.py:353-354 | masking a signed big-endian word drops the two top bits of the high byte, giving 0..16383 |
| Frames.WordAt | coordinator.py:353-358 | a masked word always lies in 0..16383 |
| Frames.Decode | coordinator.py:317-365 | no state exactly when the prefix is missing; a state exactly when the prefix is present, the frame has ≥ 79 bytes and byte 12 is nonzero; ValueError exactly for a zero byte 12; every other failure is IndexError; the legacy speed is written exactly when byte 42 exists and byte 12 is nonzero |
| Frames.DecodeFields | coordinator.py:322-361 | in the state and sensors records (`StateOf`, `SensorsOf`) of a decoded frame, flags are "byte ≠ 0"; speeds are bytes 26/30/34 divided by 10, rounded down; brightness is floor(log2 b12) + 1; sensors are attached exactly when b60 > 128, with humidity b60 − 128, pressure 512 + b78, CO2/VOC the masked words at 61/63, and the temperature source chosen by the CO2 range |
| Frames.DecodeWellFormed | coordinator.py:320-365 | every decoded state has speeds 0..25, brightness 1..8, the five undecoded fields None, in-range sensors, and the notification's timestamp |
| Frames.WordRoundTrip | coordinator.py:353-358 | a 14-bit value written as two bytes reads back through the mask |
| Frames.SensorsRoundTrip | coordinator.py:349-364 | the sensors of an encoded well-formed state decode back exactly |
| Frames.DecodeEncode | coordinator.py:317-365 | decoding the encoding of any well-formed state gives that state back |
| Frames.DecodeReadsOnlyOffsets | coordinator.py:317-361 | two frames of equal length that agree on the 25 offsets read decode alike; no other byte matters |
| Retry.RetriedFromSpec | coordinator.py:57-77 | from any attempt on, the wrapper ends at the first outcome it does not retry or at the third call, and sleeps once per `BleakDBusError` retried |
| Retry.RetriedSpec | coordinator.py:41-77 | 1..3 calls; the result is the last call's outcome; every earlier call failed with a retryable Bleak error; fewer than three calls means the last outcome is not retryable; sleeps equal the `BleakDBusError`s retried |
| Retry.CallWithRetry | coordinator.py:54-79 | the attempt loop computes exactly that run |
| Coordinator.WrittenShape | coordinator.py:178-185 | `Written`, the frames of one `_write`: a command other than READ_STATE produces two frames, the second a READ_STATE with response; READ_STATE produces one |
| Coordinator.PairedAppend | coordinator.py:178-185 | appending one `_write` keeps every non-READ_STATE frame followed by a READ_STATE |
| Coordinator.RepeatWritten | coordinator.py:228-237 | n one-level steps alternate command and READ_STATE frames, 2n in all |
| Coordinator.PairedRepeat | coordinator.py:178-185 | any number of whole `_write` calls keeps the pairing |
| Coordinator.StepFramesSpec | coordinator.py:228-237 | `set_speed`'s loops send exactly \|to − from\| SPEED_UP (going up) or SPEED_DOWN steps, each followed by READ_STATE |
| Coordinator.BrightnessStepsSpec | coordinator.py:246-254 | for levels 0..6 the step count is 0..6 and current + steps ≡ target (mod 6) |
| Coordinator.RoundHalfEvenNearest | coordinator.py:265 | `round(n / d)` is within half of n/d, and even on a tie |
| Coordinator.PctToLevelSpec | coordinator.py:263-265 | percentages 0..100 map to levels 0..6: 0→0, 25→2, 50→3, 75→4, 100→6 |
| Coordinator.MergedSpec | coordinator.py:372-379 | the merge writes all twenty state keys from the new state (`speed` = the property); it overwrites the six sensor keys only when the state has sensors and keeps them otherwise |
| Coordinator.MergedClearsUndecoded | coordinator.py:372-375 | after merging a decoded state, the five attributes `__init__` does not create (boost_mode, auto_mode_plus, display, timer_on, timer) are present and None |
| Coordinator.MergedIdempotent | coordinator.py:367-381 | merging the same state twice is merging it once |
| Coordinator.MergedKeepsInit | coordinator.py:372-379 | `setattr` only adds or overwrites attributes, so every attribute `__init__` created is still there after a merge |
| Coordinator.MergedOverwritesSpeed | coordinator.py:335-375 | the merge's result does not depend on the speed written before it, so for a frame that parses the legacy speed lines have no lasting effect |
| Coordinator.InitialAttrs | coordinator.py:133-158 | `__init__` creates exactly the attributes other than the five never-initialised ones |
| Coordinator.PranaCoordinator.constructor | coordinator.py:111-158 | no client, no timer, nothing sent, `speed` 0 and the other attributes None, `lastRead` None |
| Coordinator.PranaCoordinator.ResetDisconnectTimer | coordinator.py:432-439 | cancels the live timer if any, clears the expected-disconnect flag, arms exactly one new timer |
| Coordinator.PranaCoordinator.EnsureConnected | coordinator.py:395-429 | a connected client only gets its timer reset; a failed connection changes nothing; a new connection sets the UUIDs, resets the timer and subscribes |
| Coordinator.PranaCoordinator.ExecuteDisconnect | coordinator.py:467-478 | marks the disconnect expected and clears the client and UUIDs; unsubscribes and disconnects only a connected client |
| Coordinator.PranaCoordinator.Stop | coordinator.py:453-456 | the same as `_execute_disconnect` |
| Coordinator.PranaCoordinator.TimerFires | coordinator.py:448-465 | the idle timer is dropped and the client is disconnected as expected |
| Coordinator.PranaCoordinator.Disconnected | coordinator.py:441-446 | the callback warns exactly when the disconnect was not expected |
| Coordinator.PranaCoordinator.WriteWhileConnected | coordinator.py:178-185 | sends the frame, then READ_STATE with response unless the frame is READ_STATE |
| Coordinator.PranaCoordinator.Write | coordinator.py:173-176 | connects if needed, resets the timer, then sends the frames of `_write_while_connected` |
| Coordinator.PranaCoordinator.SpeedUp | coordinator.py:196-198 | sends SPEED_UP and READ_STATE; attributes unchanged; the client is connected with the timer armed |
| Coordinator.PranaCoordinator.SpeedDown | coordinator.py:200-202 | sends SPEED_DOWN and READ_STATE; attributes unchanged; the client is connected with the timer armed |
| Coordinator.PranaCoordinator.SetLowSpeed | coordinator.py:204-206 | sends the night-mode frame and READ_STATE; the client is connected with the timer armed |
| Coordinator.PranaCoordinator.SetNightMode | coordinator.py:208-210 | sends the night-mode frame and READ_STATE; the client is connected with the timer armed |
| Coordinator.PranaCoordinator.GetStatusDetails | coordinator.py:216-218 | sends one READ_STATE and nothing else; the client is connected with the timer armed |
| Coordinator.PranaCoordinator.BrightnessUp | coordinator.py:267-269 | sends CHANGE_BRIGHTNESS and READ_STATE; the client is connected with the timer armed |
| Coordinator.PranaCoordinator.TurnOn | coordinator.py:289-293 | caches `is_on = True` and sends START; the client is connected with the timer armed |
| Coordinator.PranaCoordinator.TurnOff | coordinator.py:283-287 | caches `is_on = False` and sends STOP; the client is connected with the timer armed |
| Coordinator.PranaCoordinator.StepSpeed | coordinator.py:228-237 | the loops send exactly the step frames from the current speed to the target; the connection is untouched when there are none, connected with the timer armed otherwise |
| Coordinator.PranaCoordinator.SetSpeed | coordinator.py:220-238 | nothing is sent and the connection is untouched when the target equals the cached speed; otherwise START is sent only if `is_on` is falsy, then the step frames, and the cached speed becomes the target; a non-numeric cached speed raises TypeError after the power-on; whenever something is sent the client is connected with the timer armed (`SpeedSet`) |
| Coordinator.PranaCoordinator.SetNormalSpeed | coordinator.py:212-214 | passing the enum member makes `set_speed` raise TypeError, after turning the unit on if it was off; the connection is untouched when the unit was on |
| Coordinator.PranaCoordinator.SetBrightness | coordinator.py:240-245 | as written: a target outside 0..6 raises ValueError before any write, leaving the connection untouched; any other target sends READ_STATE, then raises NameError |
| Coordinator.PranaCoordinator.SetBrightnessFrom | coordinator.py:240-254 | a target outside 0..6 raises ValueError before any write, leaving the connection untouched; otherwise READ_STATE, then exactly `Presses(target, current)` CHANGE_BRIGHTNESS steps, with the client connected and the timer armed |
| Coordinator.PranaCoordinator.SetBrightnessPct | coordinator.py:256-265 | with `set_brightness` as intended: a percentage outside 0..100 raises ValueError before any write, leaving the connection untouched; otherwise sets the brightness to the rounded level in 0..6 |
| Coordinator.PranaCoordinator.SetBrightnessPctAsWritten | coordinator.py:256-265 | as written: a percentage outside 0..100 raises ValueError before any write; any other sends READ_STATE, then raises NameError from `set_brightness` |
| Coordinator.PranaCoordinator.SetHeating | coordinator.py:271-276 | afterwards the cached heating flag equals the request; the toggle is sent (with response) only when it differed, and the connection is untouched otherwise |
| Coordinator.PranaCoordinator.SetWinterMode | coordinator.py:278-281 | sends the toggle when the cached flag differs, and leaves the cache unchanged; the connection is untouched when nothing is sent |
| Coordinator.PranaCoordinator.ToggleAirInOff | coordinator.py:295-298 | flips the cached input-fan flag and sends FLOW_IN_OFF; the client is connected with the timer armed |
| Coordinator.PranaCoordinator.ToggleAirOutOff | coordinator.py:300-303 | as written: raises AttributeError on `self.self` |
| Coordinator.PranaCoordinator.ToggleAirOutOffFixed | coordinator.py:300-303 | flips the cached output-fan flag and sends FLOW_OUT_OFF; the client is connected with the timer armed |
| Coordinator.PranaCoordinator.ToggleAutoMode | coordinator.py:305-308 | flips the cached auto flag and sends AUTO_MODE; the client is connected with the timer armed |
| Coordinator.PranaCoordinator.SetAutoMode | coordinator.py:310-314 | afterwards auto is truthy; AUTO_MODE is sent only when it was not, and the connection is untouched otherwise |
| Coordinator.PranaCoordinator.Refresh | coordinator.py:160-171 | a successful refresh sends one READ_STATE with the client connected; a failure that escapes the retries caches `is_on = False`, and the model records no connection change for it |
| Coordinator.PranaCoordinator.SetAll | coordinator.py:374-379 | the `setattr` loop leaves the attributes equal to the old ones overridden by the dict |
| Coordinator.PranaCoordinator.Merge | coordinator.py:372-379 | the attributes become the merge of the old ones with the state |
| Coordinator.PranaCoordinator.HandleNotification | coordinator.py:317-381 | a non-status notification only stamps `lastRead`; a decoded one stamps it and merges the state; a parse that raises leaves `lastRead` alone, and if it raised after the flags were read, the cached speed is `LegacySpeed` of the old attributes: 0 when off, `speed_in` in auto mode, a nonzero `speed_locked`, else unchanged |
| Fan.PresetModeSpec | fan.py:157-168 | `PresetMode`: the preset is one of ["manual", "auto"], and it is "auto" exactly when `auto_mode` is truthy |
| Fan.AvailableSpec | fan.py:77-80 | `Available`: available exactly while now < lastRead + 5 minutes; never before the first notification |
| Fan.CurrentDirectionSpec | fan.py:193-202 | `CurrentDirection` is None exactly when `speed` is falsy; "forward" exactly when running with the input fan off; "reverse" exactly when running with the input fan on and the output fan off; "reverse & forward" exactly when running with both on |
| Fan.DirectionOutcome | fan.py:132-143 | with `toggle_air_out_off` as intended: on a running fan, "reverse" leaves the input fan on and reads "reverse" only if the output fan was on before; "forward" is the mirror image; any other string changes nothing |
| Fan.SetDirection | fan.py:132-146 | with `toggle_air_out_off` as intended: "reverse" toggles the input flow only if that fan is off, then always the output flow; "forward" is the mirror image; both leave the client connected with the timer armed; anything else sends nothing and leaves the connection untouched |
| Fan.SetDirectionAsWritten | fan.py:132-146 | as written: "reverse" raises AttributeError, after switching the input fan on (FLOW_IN_OFF) if it was off; "forward" raises at once when the output fan is off, and otherwise toggles the input fan; anything else changes nothing |
| Fan.SetPresetMode | fan.py:148-155 | "auto" sends nothing and leaves the connection untouched if auto already was on, and otherwise sets it and sends AUTO_MODE; any other preset toggles the cached auto flag and sends AUTO_MODE, so "manual" while manual turns auto on |
| Fan.SetPercentage | fan.py:175-185 | level 0 turns the unit off; any other level has exactly the frames, attributes, outcome and connection state of `set_speed` (`SpeedSet`), so the cached speed equals it unless it raised TypeError |
| Select.LookupSpec | select.py:150-154 | with distinct keys, every entry is found under its key, and a key outside the table raises KeyError |
| Select.DisplayNamesDistinct | select.py:50-62 | the eleven display names are distinct |
| Select.DisplaysBijective | select.py:50-62 | `DISPLAYS` is a bijection between its 11 names and the 11 `Display` members |
| Select.TimerNamesDistinct | select.py:64-76 | the eleven timer names are distinct |
| Select.TimersBijective | select.py:64-76 | `PRANA_TIMERS` is a bijection between its 11 names and the 11 `PranaTimer` members |
| Select.DisplayOptionsOrder | select.py:126 | the display options are the eleven names in declaration order |
| Select.DisplayNameLookup | select.py:138-139 | a name outside the options raises KeyError, and only such a name; a name in them selects a member whose option name is that name again |
| Select.DisplayMemberName | select.py:150-154 | `DisplayOptionName`: every display member has an option name and selecting that name gives the member back; None reads back as None |
| Select.TimerOptionsOrder | select.py:159 | the timer options are the eleven names in declaration order |
| Select.TimerNameLookup | select.py:171-172 | a name outside the options raises KeyError, and only such a name; a name in them selects a member whose name in the reversed table is that name again |
| Select.TimerMemberName | select.py:183-187 | every timer member has a name in the reversed table and selecting it gives the member back |
| Select.TimerShown | select.py:183-187 | `TimerOptionName`: the shown option is "RUN" when `timer_on` is truthy and "STOP" otherwise, never a duration |

## Left out

- The Bluetooth transport is not modelled. Two recorded sequences stand in for it: the link
  calls and the frames written. Bleak itself, the GATT services, `cached_services` and RSSI
  are not part of this model.
- Coordinator.PranaCoordinator.Write: models only a connection that succeeds. The failing
  `establish_connection` is modelled in `EnsureConnected`, but not inside each command.
- The connection lock, `loop.call_later`, `create_task` and other concurrency are left out.
  The idle timer is a flag plus counters; a timer firing is the explicit `TimerFires` step.
- The retry wrapper is modelled once, as a combinator. The nesting of wrapped methods inside
  wrapped methods, which multiplies the retries, is not modelled.
- Coordinator.PranaCoordinator.Refresh: the frames, the connection and the idle-timer
  restarts a failing attempt may already have made are not recorded. Each attempt runs
  `_ensure_connected` before its write can raise, so it re-arms the timer of a connected
  client, or connects, subscribes and arms the timer; the model's failure branch records no
  connection change. Only the wrapper's outcome decides what is sent and cached.
- Floating point is left out:
  - Temperatures are integer tenths (the value before `/ 10.0`).
  - `log2` is the integer floor log2, which `int(log2(b) + 1)` equals for bytes.
  - The 0.25 s back-off is a count of sleeps.
- The wall clock is a parameter: `datetime.now()` is an integer reading in seconds.
- Fan.SetPercentage: takes the level that Home Assistant's `percentage_to_ranged_value`
  would give. The percentage helpers, the `percentage` and `speed_count` properties, and the
  `percentage == None` test are library code not shown here.
- `async_request_refresh`, `async_write_ha_state`, logging, `__repr__` and device info are
  left out. So are the `async_turn_on`/`async_turn_off` and `is_on` forwards, which only call
  `turn_on`/`turn_off` or read `is_on`.
- Select's `async_select_option` is modelled only as far as the table lookup (`DisplayOf`,
  `TimerOf`). It calls `set_display`/`set_timer`, which the coordinator does not define, so
  the call raises AttributeError before the lookup happens.
- Select.DisplayMemberName: takes the cached `display` as a value. Before the first
  notification the coordinator has no `display` or `timer_on` attribute, and reading it
  raises AttributeError; that case is not modelled.
- Only ASCII letters are lower-cased and only ASCII digits are parsed. Unicode case mapping
  and non-ASCII digits in `int()` are not modelled.
- Coordinator.PranaCoordinator.SetBrightnessFrom: takes the unit's current brightness as a
  parameter. As written, the method cannot obtain it (see Findings).
- Coordinator.PranaCoordinator.SetBrightnessPct: calls the corrected `SetBrightnessFrom`;
  the code as written is `SetBrightnessPctAsWritten`.
- Fan.SetDirection: calls the corrected `ToggleAirOutOffFixed`; the code as written, where
  `toggle_air_out_off` raises, is `SetDirectionAsWritten`.
- Fan.DirectionOutcome: describes the attributes `SetDirection` leaves, so it holds for the
  corrected toggle only; as written, the only direction change that completes is "forward"
  with the output fan on.
- The unused `EFFECTS`, `EFFECTS_list`, `WEEK_DAYS`, `Mode` and `Speed.to_int` are not modelled.
- sensor.py, switch.py, number.py, button.py and `__init__.py` are not part of this model.

## Findings

| source | as written | input that shows it | evidently intended | confidence | as-written member | corrected member |
|---|---|---|---|---|---|---|
| coordinator.py:302 | `not self.self.is_output_fan_on` raises AttributeError before anything is flipped or sent | any call, e.g. `async_set_direction("reverse")` | flip `is_output_fan_on` and send FLOW_OUT_OFF, like `toggle_air_in_off` | high, not executed | Coordinator.PranaCoordinator.ToggleAirOutOff | Coordinator.PranaCoordinator.ToggleAirOutOffFixed |
| coordinator.py:244-245 | `none_throws` is not defined, and `get_status_details` returns None, so every in-range call raises NameError after one READ_STATE | `set_brightness(3)` | read the current brightness, then press CHANGE_BRIGHTNESS until the level is reached, as lines 246-254 do | high, not executed | Coordinator.PranaCoordinator.SetBrightness | Coordinator.PranaCoordinator.SetBrightnessFrom |

The rest of the model uses the corrected members. `Fan.SetDirection` calls
`ToggleAirOutOffFixed`, and `SetBrightnessPct` calls `SetBrightnessFrom`; their callers as
written are `Fan.SetDirectionAsWritten` and `SetBrightnessPctAsWritten`. For
`SetBrightnessFrom`, `Coordinator.BrightnessStepsSpec` proves the intended property: the
presses land on the target level modulo six.
