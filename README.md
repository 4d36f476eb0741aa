# brightness-controller, modelled in Dafny

This project models a small Go command-line program, `main.go`, that changes Linux
backlight brightness through the kernel's sysfs tree. The program:

- lists the device directories under the backlight root;
- asks the user which device to change, or whether to change all of them, when there is
  more than one;
- reads each selected device's `brightness` and `max_brightness` files;
- moves the brightness by `(max / 100) * step`, clamped as described below;
- writes the new value back.

Four modules model the concerns of `main.go`, and `Wrappers` holds shared datatypes:

- `Wrappers` (`wrappers.dfy`): `Option` and `Result`.
- `Brightness` (`brightness.dfy`): the step arithmetic.
  - `Quot100` is Go's division by 100, which truncates toward zero.
  - `Increased` clamps the result down to `max`.
  - `Decreased` replaces a negative result by 1.
  - `Stepped` picks the increase or the decrease by a `Direction`. It holds the only lines
    where `increaseBrightness` and `decreaseBrightness` differ, so the two Go loops are
    modelled as one loop parameterised by `Direction`.
  - `Iterated` repeats a step, for the ceiling and floor properties.
- `Selection` (`selection.dfy`): the choice `findVideoCard` makes. It takes the directory
  listing and the typed answer, and returns the selected devices or the index that makes Go
  panic.
- `Sysfs` (`sysfs.dfy`): the device tree and the per-device loop.
  - The tree is a map from device name to its two files and a write permission. A file is
    unreadable, holds malformed text, or holds an integer.
  - `Adjusted` is the loop as a function. It goes in order and stops at the first failure.
  - `Expected` is an independent, order-free description of the same effect. The two agree
    on every selection without repeats, which is what a directory listing yields.
  - The class `Backlight` holds the tree as a mutable field. Its method `AdjustSelected`
    runs the loop in place and is proved equal to `Adjusted`.
- `Cli` (`cli.dfy`): `main`.
  - The flag-count gate (exit 126) comes first.
  - Then the increase path and the decrease path run in turn.
  - Exit codes: 0 for success, 1 from `errorCheck`, 2 for Go's runtime panic on a bad
    index, 126 for usage.
  - `Ran` is the specification function. The methods `Run` and `AdjustBrightness` are proved
    against it.

The model follows the code of `main.go`, including where it departs from what a reader of the
tool's usage would expect:

- **A decrease can write 0.** One would expect a decrease never to turn the backlight fully
  off, but the guard is `newValue < 0`, so a difference of exactly 0 is written unchanged. See `DecreaseReachesZero` and `DecreaseToZeroExample`.
- **Repeated decreases from 1 do not always stay at 1.** When the delta is exactly 1, the
  value alternates between 1 and 0. See `DecreaseNearFloor`.
- **The division truncates toward zero, as Go's `/` does; it does not floor.** The two differ
  only for a negative `max_brightness`, which `strconv.Atoi` accepts. See
  `NegativeMaxTruncatesToZero`.

## Model

| member | source | states |
|---|---|---|
| `Brightness.Quot100` | main.go:60 | the quotient by 100 truncates toward zero: `q*100 <= m < q*100+100` for `m >= 0`, `q*100-100 < m <= q*100` for `m < 0` |
| `Brightness.Delta` | main.go:60 | `(max / 100) * step` with the division first; its meaning is stated by `DeltaUnderestimatesPercentage` (within one step below `max*step/100`) and `DivisionBeforeMultiplication` |
| `Brightness.Increased` | main.go:60-64 | the written value is `min(current + delta, max)`: at most `max`, at most `current + delta`, and equal to one of them |
| `Brightness.Decreased` | main.go:96-100 | the written value is `current - delta` when that is `>= 0` (0 included), and 1 when it is negative; never negative |
| `Brightness.Stepped` | main.go:60-100 | the one point where the increase and decrease loops differ: an increase never passes `max`, a decrease never goes below 0 |
| `Brightness.DeltaUnderestimatesPercentage` | main.go:60 | dividing before multiplying gives a delta no larger than `max*step/100` and less than one step below it |
| `Brightness.DivisionBeforeMultiplication` | main.go:60 | for max 255 and step 7 the delta is 14, while `255*7/100` is 17 |
| `Brightness.NegativeMaxTruncatesToZero` | main.go:60 | a maximum in (-100, 0) gives delta 0 under truncation, where floor division would give -1 |
| `Brightness.IncreaseStaysInRange` | main.go:60-64 | from `0 <= current <= max` with `step >= 0`, the increase lands in `[current, max]` |
| `Brightness.IncreaseFixedAtCeiling` | main.go:60-64 | at `max`, any number of further increases leaves the value at `max` |
| `Brightness.DecreaseBounds` | main.go:96-100 | a decrease lands in `[0, current]`, or is 1 when `current` is 0 and the difference went negative; from inside `[0, max]` it never exceeds `max` |
| `Brightness.DecreaseReachesZero` | main.go:96-100 | a decrease writes 0 exactly when the delta equals the current value |
| `Brightness.DecreaseToZeroExample` | main.go:96-100 | current 20, max 255, step 10 writes 0 |
| `Brightness.DecreaseNearFloor` | main.go:96-100 | repeated decreases from 1 stay in {0, 1}: always 1 unless the delta is 1, then alternating 1, 0, 1, ... |
| `Brightness.SmallMaxIsNoOp` | main.go:60-100 | with `0 <= max < 100` the delta is 0, and neither direction changes a value in `[0, max]` |
| `Selection.Select` | main.go:118-133 | succeeds exactly for one device, or for several devices with an answer in `[0, count]`; the result is the whole listing or one listed name; otherwise reports the out-of-range index |
| `Selection.SelectAll` | main.go:128-130 | with several devices, the answer `count` selects all of them in listing order |
| `Selection.SelectOne` | main.go:132-133 | with several devices, an answer in `[0, count)` selects exactly `[names[answer]]` |
| `Selection.SelectOnlyDevice` | main.go:118-133 | with one device the typed answer is ignored and that device is selected |
| `Selection.SelectEmptyFails` | main.go:132 | an empty listing always fails, at index 0 |
| `Selection.SelectDistinct` | main.go:115-133 | a selection from a listing without repeats has no repeats and only listed names |
| `Sysfs.ReadValues` | main.go:45-58 | the reads and parses succeed exactly when the device exists and both files hold integers, and then return `(current, max)`; they never report a write failure |
| `Sysfs.StepDevice` | main.go:45-66 | one iteration succeeds exactly when both files hold integers and the device accepts the write, and then writes the step result for that device's own `(current, max)` |
| `Sysfs.AdjustOne` | main.go:45-66 | one iteration keeps the set of devices; it goes on exactly when `StepDevice` succeeds, and when it stops it has written nothing and names this device |
| `Sysfs.Adjusted` | main.go:41-67 | the loop keeps the set of devices and can fail only on a selected device |
| `Sysfs.AdjustedFrame` | main.go:41-67 | the loop changes no maximum and no permission, and leaves every unselected device untouched |
| `Sysfs.FirstFailing` | main.go:41-67 | the index of the first selected device whose iteration fails, or the selection length: all before it succeed and the one at it fails |
| `Sysfs.AdjustedStopsAtFailure` | main.go:46-53 | once the loop has failed on a prefix, later devices are never visited |
| `Sysfs.AdjustedMatchesExpected` | main.go:41-67 | for a selection without repeats, the devices before the first failing one get their step result and all others are unchanged; the failure, if any, is that device's |
| `Sysfs.AdjustedSucceeded` | main.go:41-67 | a loop that ends without failure has read, parsed and written every selected device, which holds the step result for its own `(current, max)` |
| `Sysfs.AdjustedAllSucceed` | main.go:77-103 | when every selected device can be read, parsed and written, the loop ends without failure and each device holds the step result for its own `(current, max)` |
| `Sysfs.Backlight.ReadAndCompute` | main.go:45-64 | leaves the tree unchanged; returns the read error of `ReadValues`, or the clamped step result computed in the source's order of operations |
| `Sysfs.Backlight.WriteBrightness` | main.go:66 | overwrites exactly that device's brightness when it accepts the write, and otherwise changes nothing |
| `Sysfs.Backlight.AdjustSelected` | main.go:41-67 | the in-place loop leaves the tree and the failure exactly as `Adjusted` describes for the old tree |
| `Cli.NFlag` | main.go:20 | the count of given flags is at most 2, is 0 exactly when neither is given, and is 2 exactly when both are |
| `Cli.FlagValue` | main.go:15-16 | a flag that was not given reads as `flag.Int`'s default 0; `AtMostOneDirection` states that such a flag never runs its direction |
| `Cli.Invoked` | main.go:25-32 | one adjustment path ends with 0, 1 or 2, and changes the devices only when it ends with 0 or 1 |
| `Cli.Ran` | main.go:14-33 | the program ends with 0, 1, 2 or 126 |
| `Cli.UsageGate` | main.go:20-23 | zero flags or both flags: exit 126 and no device is touched |
| `Cli.AtMostOneDirection` | main.go:25-32 | with one flag, only that flag's direction runs, and only for a positive value; a value `<= 0` exits 0 with nothing changed |
| `Cli.RunKeepsMaxima` | main.go:35-106 | no run adds or removes a device or changes any maximum or permission, and a device outside a valid selection is left exactly as it was |
| `Cli.SuccessfulRunAdjustsSelection` | main.go:25-32 | a successful run with a positive flag has given every selected device the step result for its own values, with one shared step |
| `Cli.UnlistableRootFails` | main.go:111-116 | with a positive flag, a backlight root that cannot be opened or listed exits 1 with no device changed |
| `Cli.RunReportsFirstFailure` | main.go:25-32 | with a positive flag and a valid selection without repeats, the run exits 1 exactly when some selected device fails to be read, parsed or written, else 0; the devices before the first failing one hold their step result and all others are unchanged |
| `Cli.BadSelectionPanics` | main.go:132 | an empty listing, or an answer outside `[0, count]` with several devices, exits 2 before any device changes |
| `Cli.IncreaseScenario` | main.go:60-64 | for any one device with max 255 and current 100, `-inc 10` writes 120 |
| `Cli.DecreaseScenario` | main.go:96-100 | for any one device with max 255 and current 10, `-desc 10` goes to -10 and writes 1 |
| `Cli.AllDevicesScenario` | main.go:128-130 | for any two distinct devices with the answer 2, both are adjusted with the same step |
| `Cli.PartialFailureScenario` | main.go:66 | for any two distinct devices, a write refused on the second exits 1, and the first keeps its new value |
| `Cli.AdjustBrightness` | main.go:34-106 | `increaseBrightness` or `decreaseBrightness` and the `errorCheck` after it (main.go:26-27, 30-31): finding the devices and running the loop gives the exit status and tree that `Invoked` describes |
| `Cli.Run` | main.go:14-33 | the whole run gives the exit status and tree that `Ran` describes |

## Left out

- Real filesystem access is not modelled: `os.Open`, `Readdirnames`, `ioutil.ReadFile`, `ioutil.WriteFile` and the 0644 mode. The backlight root is a map from device names to file contents plus a write permission. The directory listing is a parameter in listing order, or `None` when the root cannot be opened or read. A listed name that is not in the map behaves as a device whose files cannot be read.
- Terminal I/O is not modelled: the prompt listing and `fmt.Scanf`. The typed answer is a plain integer parameter. A scan failure leaves the answer at 0, which a caller passes as 0.
- The `flag` package's parsing of argv is not modelled. Its result is two optional integers, one per flag. Unknown flags, `-h` and malformed values exit inside `flag.Parse`, before the modelled code runs.
- `errorCheck`'s message on the error stream and the usage text are not modelled. Only the exit status is kept.
- `strconv.Atoi`, `strconv.Itoa` and `strings.TrimSuffix` are not modelled as text operations. A file holds an already-parsed integer or malformed text. A written value always reads back as the same integer.
- Go's 64-bit `int` is modelled as an unbounded integer, so overflow of `current + delta` or `(max / 100) * step` is not captured.
- Concurrent writers to the sysfs files, and `defer backlightDir.Close()`, are outside the model.
- Read, parse and write failures are kept apart in `Sysfs.FailureKind`. The source does not distinguish them: all three end the process with status 1.
