# PicoKnit row counter, modelled in Dafny

PicoKnit is MicroPython firmware for a Raspberry Pi Pico with a 128x64 OLED
and two buttons, used as a knitting row counter. This project models its
core:

- the row counter program (`main.py`): the stitch count formula, the
  right-aligned count, the draw commands of the start-up and main screens,
  battery classification, and the main loop. In the loop, the battery is
  re-read about once a minute. Button A adds a row and, while held, counts
  back one row per second. Button B, held for more than five seconds,
  resets the count. The count is kept in a save file.
- the stand-alone filesystem detector (`filetype.py`): it names the
  filesystem from the signature in the first 16 bytes of flash block 0.

Modules, one per component:

- `PyInt` (`pyint.dfy`): `int(a / b)`, truncation toward zero, which is
  not Dafny's `/`.
- `Format` (`format.dfy`): `str(i)` and `f'{i:5}'`, with their reading
  direction.
- `Stitches` (`stitches.dfy`): `stitch_count`.
- `Power` (`power.dfy`): voltage thresholds in integer millivolts (3300,
  3400 and 4500 for 3.3 V, 3.4 V and 4.5 V).
- `Store` (`store.dfy`): the save file as an abstract single-integer store.
- `Screen` (`screen.dfy`): display output as lists of draw commands, and
  `Frame`, one value per call into the display code.
- `RowCounter` (`counter.dfy`): the program state as class `Device`. Its
  fields are `rows`, `lowbatt`, the `lightsleep` constant, the last
  reading time, the save file and the frames drawn. Its methods are
  start-up, one method per loop pass, and one per button hold. Each inner
  `while key.value() == 0` loop is a `while` loop over the elapsed times
  its polls read.
- `Filetype` (`filetype.dfy`): the signature decision.

Time is in integer milliseconds and voltage in integer millivolts. Each
reading (clock, battery, button polls) is a parameter.

Behaviour of the code that a reader might not expect, and that the model
keeps:

- The preview while A is held is not clamped at zero, so `rows` can become
  negative and be saved (`RowCounter.PreviewGoesNegative`).
- The reset fires only when the hold is strictly longer than 5000 ms.
- `load` catches only a failure to open the file. A save file that does not
  parse raises, and start-up stops (`Crashed`).
- `lowbatt` starts false even when the start-up reading was low. Until the
  first re-reading, only the first main screen shows the warning.
- For 41 rows the formula gives 11 stitches (`Stitches.StitchCountSamples`).

## Model

| member | source | states |
|---|---|---|
| PyInt.TruncDiv | main.py:62 | `int(a / b)` for `b > 0`: the magnitude is the number of whole `b`s in `\|a\|`, and the sign is that of `a` |
| PyInt.TruncDivMonotone | main.py:62 | the truncated quotient is non-decreasing in the dividend, negative dividends included |
| PyInt.TruncDivNegative | main.py:62 | for a negative dividend that is not a multiple of `b`, truncation is one more than Dafny's floored `/` |
| Stitches.StitchCount | main.py:55-62 | `6 + int((9 + rows) / 10)`: exactly 6 stitches for rows -18 to 0, more than 6 exactly from row 1 on |
| Stitches.StitchCountBlocks | main.py:55-62 | for `rows >= 0` the stitch count is `6 + (rows + 9) div 10`: one more stitch per started block of ten rows |
| Stitches.StitchCountMonotone | main.py:55-62 | more rows never give fewer stitches |
| Stitches.StitchCountPerTenRows | main.py:62 | ten more rows add exactly one stitch once `rows >= -9` |
| Stitches.StitchCountSamples | main.py:62 | 0 gives 6, 1 gives 7, 10 gives 7, 11 gives 8, 41 gives 11, 91 gives 16 |
| Stitches.StitchCountNegative | main.py:62 | for -10 rows the result is 6, where floored division would give 5 |
| Format.NatToStr | main.py:139 | `str(n)` is non-empty, all decimal digits, and starts with `0` only for 0 |
| Format.IntToStr | main.py:150 | `str(i)` never starts with a space, and starts with `-` exactly for negative `i` |
| Format.IntToStrRoundTrip | main.py:139 | the decimal text of `i` reads back as `i` |
| Format.IntToStrInjective | main.py:139 | distinct counts print as distinct strings |
| Format.FormatInt | main.py:50 | `f'{i:w}'` has length `max(w, len(str(i)))`, ends with `str(i)` and is padded in front with spaces only |
| Format.FormatIntRoundTrip | main.py:50-52 | the padded field, with its spaces removed, reads back as `i` |
| Power.Classify | main.py:236-241 | below 3300 mV is critical, 3300 up to 3399 mV is low, 3400 mV and above is normal; the three cases are exclusive and cover every reading |
| Power.ClassifyMonotone | main.py:236-241 | a higher voltage never gives a worse level |
| Power.ExternalSupplyIsNormal | main.py:199 | a supply at 4500 mV or more (lightsleep off) is always normal |
| Power.ClassifyBoundaries | main.py:104-108 | 3299 mV is critical, 3300 and 3399 mV are low, 3400 mV is normal; lightsleep is used at 4499 mV and not at 4500 mV |
| Store.Load | main.py:20-38 | a missing file loads as 0, and loading raises exactly when the file cannot be parsed |
| Store.SaveThenLoad | main.py:7-38 | loading after `save(n)` gives `n`, whatever was stored before |
| Screen.PrintInt | main.py:41-52 | `print_int` draws one double-size text at `(x, y)`: at least five characters, and with its padding removed it reads back as `i` |
| Screen.BottomStatus | main.py:141-152 | bottom-line priority: low battery, then B held (reset confirmed at `resetMs <= 0`, else the countdown second `n` with `resetMs` in `[(n-1)*1000, n*1000)`), then the hint; each case exactly under its condition |
| Screen.DrawScreen | main.py:113-154 | `draw_screen`: every main-screen frame starts by clearing the display and ends by showing it; what it holds is stated by the five `DrawScreen…` lemmas below |
| Screen.DrawScreenStar | main.py:126-127 | the star is drawn exactly when lightsleep is off |
| Screen.DrawScreenRowsLabel | main.py:131-135 | the "Rows:" label is inverted exactly while A is held |
| Screen.DrawScreenCounts | main.py:137-139 | the frame holds the count as `f'{rows:5}'` at double size and `"Stitches: " + str(stitch_count(rows))` |
| Screen.DrawScreenBottom | main.py:141-152 | the hint appears iff the battery is not low and B is up; "Counter reset" iff not low, B held and `resetMs <= 0`; "REPLACE NOW" iff the battery is low; otherwise B held shows `"Reset in " + str(1 + resetMs div 1000) + "s"` |
| Screen.CounterResetShownAtThreshold | main.py:145-147 | with B held exactly 5000 ms, "Counter reset" is already shown |
| Screen.MainScreenAt41 | main.py:137-139 | 41 rows are drawn as `"   41"`, with "Stitches: 11" |
| Screen.ShutdownScreen | main.py:79-91 | `low_battery_shutdown` clears the display and ends by showing its message, resetting the display and powering it off |
| Screen.StartupScreen | main.py:94-110 | `startup_screen` starts from a cleared display and ends in power-off exactly below 3300 mV, otherwise by showing the screen |
| Screen.Render | main.py:172-207 | each display call of the program (set-up at 172-175, `startup_screen`, the star at 205-207, `draw_screen`, `low_battery_shutdown`) ends by showing its drawing, or by powering off exactly for the shutdown; all but the star start from a cleared display |
| Screen.StartupScreenLevels | main.py:94-110 | the start-up screen ends in power-off exactly below 3300 mV, shows "LOW BATTERY" exactly below 3400 mV, and shows "REPLACE NOW" exactly from 3300 to 3399 mV |
| RowCounter.Preview | main.py:253-255 | the count shown while A is held never exceeds the count, and equals it exactly during the first second |
| RowCounter.AfterA | main.py:244-262 | after a press of A the count is one more exactly when it was released before the first poll or within the first second; a hold never gives more than one more |
| RowCounter.HoldAFrames | main.py:253-257 | one frame per poll of an A hold |
| RowCounter.HoldAFramesAt | main.py:253-257 | the frame of poll `k` shows the preview for the time read at that poll, with the label inverted |
| RowCounter.PreviewNonIncreasing | main.py:253-255 | the count previewed while A is held never rises as the hold lengthens |
| RowCounter.PreviewPerSecond | main.py:255 | for a hold of `e` ms the preview is `rows - e div 1000`: unchanged for the first second, then one less per second |
| RowCounter.PreviewGoesNegative | main.py:255-261 | the preview is not clamped: from 0 rows, a press held 3 s commits -2 |
| RowCounter.ResetCount | main.py:270-276 | the number of saves a B hold makes is at most its number of polls |
| RowCounter.AfterB | main.py:270-276 | a B hold leaves the count either unchanged or 0, and a hold released before its first poll leaves it unchanged |
| RowCounter.HoldBFrames | main.py:270-278 | one frame per poll of a B hold |
| RowCounter.HoldBFramesAt | main.py:270-278 | the frame of poll `k` shows the count as it stands after that poll and `5000 - tdiff` for that poll's time |
| RowCounter.ResetCountPositive | main.py:270-276 | some poll saves a reset exactly when some poll finds B held longer than 5000 ms |
| RowCounter.AfterBResets | main.py:270-276 | a B hold leaves 0 exactly when the count was 0 or some poll saw more than 5000 ms; a hold of at most 5000 ms throughout changes nothing |
| RowCounter.ResetIdempotent | main.py:270-276 | once the reset has fired, holding longer keeps the count at 0, and so does a further hold |
| RowCounter.ThresholdShowsResetWithoutResetting | main.py:271-278 | a hold polled at exactly 5000 ms leaves the count unchanged and draws one frame with no time left |
| RowCounter.Device.Boot | main.py:190-219 | start-up: load the count; an unparsable file stops the program; a critical battery ends in the shutdown screen; otherwise the start-up screen, the star on USB power, then the main screen with the low-battery text below 3.4 V; `lowbatt` starts false and `lightsleep` is fixed to `vsys < 4.5` |
| RowCounter.Device.Save | main.py:7-17 | saving overwrites the stored count and records the write |
| RowCounter.Device.CheckVoltage | main.py:228-241 | the battery is re-read only when more than 60000 ms have passed since the last reading, and that time is then updated; critical shuts down, low sets `lowbatt`, normal clears it |
| RowCounter.Device.PressA | main.py:244-264 | A adds one row and saves it first; each poll draws the preview `rows - elapsed div 1000` with the label inverted; on release the preview becomes the count and is saved a second time only if it differs; the file then holds the count |
| RowCounter.Device.PressB | main.py:267-280 | each poll over 5000 ms sets the count to 0 and saves 0, so there is one write per such poll; each poll draws the countdown `5000 - tdiff`; a hold with no such poll writes nothing; the file holds the count afterwards |
| RowCounter.StartupThenPress | main.py:190-264 | start-up with 41 rows saved on a 3.6 V battery, then one press of A released at once: the main screen shows 41, then 42, and 42 is saved once |
| RowCounter.Device.Tick | main.py:222-280 | one loop pass: the battery check runs before the buttons; a critical reading shuts down before any button is handled; otherwise the count becomes A's result and then B's; shutdown and crash are terminal (nothing changes any more) |
| Filetype.Detect | filetype.py:13-18 | LittleFS exactly when bytes 8..15 are `littlefs`; FAT exactly when bytes 3..10 are `MSDOS5.0`; Unknown exactly when neither signature is present |
| Filetype.SignaturesExclusive | filetype.py:13-16 | no buffer carries both signatures (byte 8 would have to be both `l` and `5`) |
| Filetype.CheckOrderIrrelevant | filetype.py:13-18 | testing FAT first gives the same result on every buffer |
| Filetype.LeadingBytesIgnored | filetype.py:13-16 | bytes 0..2 never affect the result |
| Filetype.LittleFsWhateverElse | filetype.py:13-14 | bytes 8..15 equal to `littlefs` give LittleFS whatever bytes 0..7 are |
| Filetype.EveryResultReachable | filetype.py:13-18 | the FAT and Unknown results are each reached by some buffer |

## Left out

- Hardware set-up (pins, ADC, SPI, the display driver, `display.flip()` and `display.sleep(False)`) is left out. The display is modelled as the list of calls made into the firmware's display code (`Frame`) and the commands each call sends (`Render`), not as pixels.
- `read_vsys` is left out: its pin sequencing and the float `read_u16() * 9.9 / 2**16` are hardware and floats. Each reading is an integer-millivolt parameter. Float rounding near a threshold is not modelled.
- The `{vsys:.1f}` text is an opaque string carried with each reading.
- The minute test `elapsed_mins - prev_mins > 1` on float minutes is modelled as `nowMs - prevMs > 60000` on integer milliseconds. `ticks_ms` wrap-around and `ticks_diff` are not modelled: elapsed times are given directly.
- `time.sleep`, `time.sleep_ms` and `machine.lightsleep` only pass time and are left out.
- The endless idle loop after shutdown is the terminal mode `ShutDown`, with no further transition.
- What MicroPython does after the uncaught exception from `load` is left out. The model stops in `Crashed`.
- JSON encoding, file handles and the `print` diagnostics of `save`/`load` are left out. The save file is `Missing`, `Holds(n)` or `Unparsable`, and every save succeeds.
- Stitches.StitchCount: `int((9 + rows) / 10)` is computed exactly. MicroPython on the RP2040 uses single-precision floats, so the firmware's quotient rounds differently for row counts beyond about 2^24 (first at 16,777,210 rows).
- RowCounter.Preview: `int(elapsed_ms / 1000)` is computed exactly. In single precision the firmware's quotient first differs for a hold of 16,777,999 ms (about 4.7 hours).
- RowCounter.Device.Tick: states the new count, `lowbatt`, reading time and mode, but not the frames drawn or the values written during the pass. `PressA`, `PressB` and `CheckVoltage` state those for their parts, and `Tick` runs them in order.
- In `filetype.py`, `rp2.Flash().readblocks` and the `print` of the result are I/O and are left out. The 16-byte buffer is the input.
