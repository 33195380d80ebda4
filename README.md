# Keypad access gate and RGB duty conversion, modelled in Dafny

This project models two pieces of ESP32 firmware.

**The access gate and fan policy** (`main/SRC/main.c`). A 4×4 keypad feeds a
6-byte character buffer `entered_value`, filled up to index `valIndex`. `'#'`
appends itself when there is room and calls `check_password`. That function
compares the buffer with `strcmp` against `"1234#"`, sets the lock flag
`system_active` and the two status LEDs, and clears the buffer. `'*'` deletes
the last character, or on an empty buffer locks the system by hand. Any other
key is appended while fewer than five characters are held. After the key, the
loop sets the fan to 100% when the gate is unlocked and the PIR sensor reports
presence, and to 0% otherwise.

- `access_spec.dfy` (module `AccessSpec`) states one loop iteration on values.
  `GateView` holds the entered characters, the lock flag, both LED levels and the
  fan percentage. `Next` is one iteration and `Run` is several. The lemmas cover
  the invariant, the password decision, delete and manual lock, other keys, and
  the fan policy.
- `access_gate.dfy` (module `AccessGate`) holds the in-place model: class `Gate`
  with an `array<char>` of six cells, the index, the flag and the outputs.
  `Step` is the loop body. It is proved to change the object's view exactly as
  `Next` says and to keep the C-level shape: in bounds, NUL at `valIndex`, no NUL
  before it. `Session` runs the loop over a finite list of inputs, starting from
  the boot state.

**The 8-bit-to-PWM duty conversion** `rgb_8bit_to_duty`
(`main/ledc_basic_example_main.c`), in `ledc_duty.dfy` (module `LedcDuty`). It
computes `x * 8191 / 255` in `uint32_t`, and an optional common-anode switch
inverts the result. The model writes the 32-bit wrap out explicitly and proves
that it never takes effect. It also proves the endpoints, the bound, the floor
characterisation and monotonicity in both polarities.

The keypad driver, the PIR reader, the motor driver and the GPIO writes become
inputs (`Tick(key, pir)`) and output fields (`grantedLed`, `deniedLed`, `fan` /
`fanPercent`).

Observed behaviour worth knowing: a manual lock with `'*'` on an empty buffer
leaves both status LEDs as they were. After a successful unlock, the "granted"
LED therefore stays lit while the system is locked (`DeleteOnEmptyLocks` states
it).

## Model

| member | source | states |
|---|---|---|
| AccessSpec.CString | main/SRC/main.c:38 | the string `strcmp` sees in a buffer: a prefix of it with no NUL, stopped by a NUL or by the end |
| AccessSpec.CStringAt | main/SRC/main.c:94-96 | a buffer NUL-terminated at index n, with no NUL before it, holds exactly its first n characters as a C string, so `strcmp` compares exactly the keys entered |
| AccessSpec.FanSpeed | main/SRC/main.c:129-145 | the fan is always 0 or 100, and it is 100 exactly when the gate is unlocked and the PIR reports presence |
| AccessSpec.NextKeepsInv | main/SRC/main.c:83-149 | every iteration keeps at most 5 characters held and none of them is NUL, `'#'` or `'*'`; both LED levels stay 0/1 and the fan stays 0 or 100 |
| AccessSpec.SubmitDecides | main/SRC/main.c:37-52 | after `'#'` the buffer is empty whatever the outcome; the gate is unlocked if and only if `"1234"` was held; granted=1/denied=0 on a match and granted=0/denied=1 otherwise |
| AccessSpec.FullSubmitDenies | main/SRC/main.c:92-98 | `'#'` with five characters held (no room to append it) always denies: locked, buffer empty, denied LED on, fan off |
| AccessSpec.WrongEntryRelocks | main/SRC/main.c:43-47 | a wrong entry submitted while unlocked locks the gate again |
| AccessSpec.DeleteRemovesLast | main/SRC/main.c:100-105 | `'*'` on a non-empty buffer removes exactly its last character and leaves the lock flag and the LEDs unchanged |
| AccessSpec.DeleteOnEmptyLocks | main/SRC/main.c:106-111 | `'*'` on an empty buffer locks the gate and stops the fan; the buffer stays empty and the LEDs are untouched |
| AccessSpec.DeleteOnEmptyIdempotent | main/SRC/main.c:106-111 | a second `'*'` on the empty buffer gives back the same state: still locked, index 0, no underflow |
| AccessSpec.OtherKeyAppends | main/SRC/main.c:114-123 | any key other than NUL, `'#'` and `'*'` leaves the flag and the LEDs alone; it is appended while fewer than 5 characters are held and discarded otherwise |
| AccessSpec.NoKeyKeepsEntry | main/SRC/main.c:87-89 | an iteration without a key changes nothing but the fan |
| AccessSpec.FanFollowsLockAndPresence | main/SRC/main.c:129-145 | after every iteration the fan is 0 or 100, and it is 100 exactly when the new lock flag is set and the PIR reports presence |
| AccessSpec.RunKeepsInv | main/SRC/main.c:83-149 | the between-iterations invariant holds after any sequence of iterations |
| AccessSpec.LockedMeansFanOff | main/SRC/main.c:141-145 | after any key sequence from boot, a locked gate has its fan off |
| AccessSpec.CorrectCodeUnlocks | main/SRC/main.c:16 | keys 1, 2, 3, 4, # from boot unlock the gate, empty the buffer, light the granted LED and run the fan exactly when presence is seen |
| AccessSpec.WrongCodeStaysLocked | main/SRC/main.c:43-51 | keys 1, 2, 9, # from boot leave the gate locked, the buffer empty, the denied LED on and the fan off |
| AccessGate.Gate.constructor | main/SRC/main.c:20-35 | the boot state: buffer all NUL, index 0, locked, both LEDs 0, fan 0 |
| AccessGate.Gate.Append | main/SRC/main.c:116-118 | writing the key at `valIndex`, incrementing it and writing NUL stays in bounds and appends exactly that key to the held string |
| AccessGate.Gate.CheckPassword | main/SRC/main.c:37-52 | the strcmp decision on the array, the LED levels and flag it sets, and a buffer that is all NUL with index 0 afterwards |
| AccessGate.Gate.Step | main/SRC/main.c:87-145 | one loop body in place: it keeps the buffer in bounds and NUL-terminated, changes the state exactly as `Next` does, and after `'#'` leaves every cell NUL and the index 0 |
| AccessGate.Session | main/SRC/main.c:83-149 | running the loop from boot over any inputs ends in `Run(Boot(), ticks)`, which satisfies the invariant and has the fan off when locked |
| LedcDuty.U32 | main/ledc_basic_example_main.c:30 | reduction to `uint32_t` is below 2^32 and is the identity on values already in range |
| LedcDuty.DirectDuty | main/ledc_basic_example_main.c:30 | the scaled duty is at most `LEDC_MAX_DUTY` and is the floor of x·8191/255 |
| LedcDuty.Duty | main/ledc_basic_example_main.c:27-36 | the result is at most `LEDC_MAX_DUTY`; it is the direct duty without inversion and `LEDC_MAX_DUTY` minus it with inversion |
| LedcDuty.RgbToDuty | main/ledc_basic_example_main.c:13 | as built (common cathode) the duty is at most 8191 and is the floor of x·8191/255 |
| LedcDuty.MaxDutyIs8191 | main/ledc_basic_example_main.c:19-20 | `(1 << 13) - 1` is 8191 |
| LedcDuty.ProductFitsU32 | main/ledc_basic_example_main.c:30 | x·8191 < 2^32 for every 8-bit x, so the unsigned product never wraps |
| LedcDuty.DirectEndpoints | main/ledc_basic_example_main.c:29-30 | without inversion 0 maps to 0 and 255 to `LEDC_MAX_DUTY` |
| LedcDuty.AnodeEndpoints | main/ledc_basic_example_main.c:31-34 | with inversion 0 maps to `LEDC_MAX_DUTY` and 255 to 0 |
| LedcDuty.DirectMonotone | main/ledc_basic_example_main.c:30 | without inversion the duty is non-decreasing in x |
| LedcDuty.AnodeAntitone | main/ledc_basic_example_main.c:31-34 | with inversion the duty is non-increasing in x |

## Left out

- FreeRTOS task creation and delays (`app_main`, `xTaskCreate`, `vTaskDelay`) in both files are scheduling only. `Session` models a finite prefix of the endless loop.
- `motor_display_task` and all `ESP_LOG*` calls only log.
- The `volatile g_motor_speed_percent` shared with the display task is modelled as the `fan` / `fanPercent` output. Its visibility across tasks is not modelled.
- The hardware drivers are left out. `keypad_get_key` (its debounce and its blocking wait for release) and `sensors_get_pir_state` become the inputs of a `Tick`. `gpio_set_level` and `motor_set_speed_percent` become output fields. The pin setup in `status_led_init`, `keypad_init`, `motor_init` and `sensors_init` is left out; only the initial LED levels of 0 are kept.
- `sensors_get_pir_state` is read only while unlocked in the source. The model takes a PIR value every iteration and ignores it while locked, which gives the same outputs.
- `ledc_rgb_init`, `rgb_set_color` and the colour-demo loop in `main/ledc_basic_example_main.c` are vendor LEDC configuration and duty writes.
- `main/SRC/Display.h` declares an LCD driver and contains no logic. Its implementation is not part of this model.
- `valIndex` is a `uint8_t` in the source. It is modelled as a `nat`, because `Gate.Valid` keeps it in 0..5, so it can never wrap.
