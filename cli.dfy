/**
 * The entry point `main`: exactly one of the flags `-inc` and `-desc` must be
 * given, otherwise the usage is printed and the program exits with 126; a
 * positive value then runs the matching adjustment, which finds the devices
 * (`findVideoCard`) and runs the per-device loop. Every error ends the
 * process with status 1 (`errorCheck`), and an out-of-range selection index
 * is a Go runtime panic, status 2.
 */
module Cli {
  import opened Wrappers
  import opened Brightness
  import opened Selection
  import opened Sysfs

  const ExitSuccess := 0
  const ExitError := 1
  const ExitPanic := 2
  const ExitUsage := 126

  /** The parsed command line: `None` for a flag that was not given. */
  datatype Args = Args(inc: Option<int>, desc: Option<int>)

  /** Go's `flag.NFlag()`: how many of the flags were given. */
  function NFlag(args: Args): (n: nat)
    ensures n <= 2
    ensures n == 0 <==> args.inc.None? && args.desc.None?
    ensures n == 2 <==> args.inc.Some? && args.desc.Some?
  {
    (if args.inc.Some? then 1 else 0) + (if args.desc.Some? then 1 else 0)
  }

  /** The flag's value, Go's default 0 when it was not given. */
  function FlagValue(flag: Option<int>): int
  {
    match flag
    case Some(v) => v
    case None => 0
  }

  /** The exit status and the backlight tree when the process ends. */
  datatype RunResult = RunResult(code: int, devices: Tree)

  /**
   * One call of `increaseBrightness` / `decreaseBrightness` together with the
   * `errorCheck` that follows it: `listing` is the backlight root's directory
   * listing (`None` when it cannot be opened or read) and `typed` the answer
   * to the prompt.
   */
  function Invoked(fs: Tree, dir: Direction, step: int, listing: Option<seq<string>>, typed: int): (r: RunResult)
    ensures r.code in {ExitSuccess, ExitError, ExitPanic}
    ensures r.code != ExitSuccess && r.code != ExitError ==> r.devices == fs
  {
    match listing
    case None => RunResult(ExitError, fs)
    case Some(names) =>
      match Select(names, typed)
      case IndexOutOfRange(_, _) => RunResult(ExitPanic, fs)
      case Chosen(selected) =>
        var p := Adjusted(fs, selected, step, dir);
        RunResult(if p.failure.Some? then ExitError else ExitSuccess, p.devices)
  }

  /** The whole program run: the flag-count gate, then the increase path, then the decrease path. */
  function Ran(args: Args, listing: Option<seq<string>>, typed: int, fs: Tree): (r: RunResult)
    ensures r.code in {ExitSuccess, ExitError, ExitPanic, ExitUsage}
  {
    if NFlag(args) != 1 then RunResult(ExitUsage, fs)
    else
      var afterInc :=
        if FlagValue(args.inc) > 0 then Invoked(fs, Up, FlagValue(args.inc), listing, typed)
        else RunResult(ExitSuccess, fs);
      if afterInc.code != ExitSuccess then afterInc
      else if FlagValue(args.desc) > 0 then Invoked(afterInc.devices, Down, FlagValue(args.desc), listing, typed)
      else afterInc
  }

  /** Zero flags or both flags: exit 126 and no device is touched. */
  lemma UsageGate(args: Args, listing: Option<seq<string>>, typed: int, fs: Tree)
    requires args.inc.Some? <==> args.desc.Some?
    ensures Ran(args, listing, typed, fs) == RunResult(ExitUsage, fs)
  {
  }

  /**
   * With the one flag given, exactly its direction runs, and only when its
   * value is positive; a value of 0 or less is accepted and does nothing.
   */
  lemma AtMostOneDirection(args: Args, listing: Option<seq<string>>, typed: int, fs: Tree)
    requires NFlag(args) == 1
    ensures Ran(args, listing, typed, fs) ==
      if args.inc.Some? && args.inc.value > 0 then Invoked(fs, Up, args.inc.value, listing, typed)
      else if args.desc.Some? && args.desc.value > 0 then Invoked(fs, Down, args.desc.value, listing, typed)
      else RunResult(ExitSuccess, fs)
  {
  }

  /**
   * Whatever happens, the devices' maxima and permissions stay as they were,
   * no device appears or disappears, and a device outside the selection is
   * left exactly as it was.
   */
  lemma RunKeepsMaxima(args: Args, listing: Option<seq<string>>, typed: int, fs: Tree)
    ensures Ran(args, listing, typed, fs).devices.Keys == fs.Keys
    ensures forall n :: n in fs ==>
      Ran(args, listing, typed, fs).devices[n].maxBrightness == fs[n].maxBrightness &&
      Ran(args, listing, typed, fs).devices[n].writable == fs[n].writable
    ensures listing.Some? && Select(listing.value, typed).Chosen? ==>
      forall n :: n in fs && n !in Select(listing.value, typed).devices ==> Ran(args, listing, typed, fs).devices[n] == fs[n]
  {
    if NFlag(args) == 1 && listing.Some? && Select(listing.value, typed).Chosen? {
      var selected := Select(listing.value, typed).devices;
      AdjustedFrame(fs, selected, FlagValue(args.inc), Up);
      AdjustedFrame(fs, selected, FlagValue(args.desc), Down);
    }
  }

  /**
   * A successful run with a positive flag over a readable listing has read,
   * parsed and written every selected device, and given each one the new
   * value for its own `(current, max)`, with the same step for all.
   */
  lemma {:induction false} SuccessfulRunAdjustsSelection(args: Args, names: seq<string>, typed: int, fs: Tree)
    requires NFlag(args) == 1 && Distinct(names)
    requires FlagValue(args.inc) > 0 || FlagValue(args.desc) > 0
    requires Select(names, typed).Chosen?
    requires Ran(args, Some(names), typed, fs).code == ExitSuccess
    ensures forall n :: n in Select(names, typed).devices ==>
      n in fs && fs[n].brightness.Number? && fs[n].maxBrightness.Number? && fs[n].writable &&
      Ran(args, Some(names), typed, fs).devices[n].brightness == Number(
        if FlagValue(args.inc) > 0 then Increased(fs[n].brightness.n, fs[n].maxBrightness.n, FlagValue(args.inc))
        else Decreased(fs[n].brightness.n, fs[n].maxBrightness.n, FlagValue(args.desc)))
  {
    var selected := Select(names, typed).devices;
    SelectDistinct(names, typed);
    AtMostOneDirection(args, Some(names), typed, fs);
    var dir, step := if FlagValue(args.inc) > 0 then Up else Down, FlagValue(args.inc) + FlagValue(args.desc);
    assert Ran(args, Some(names), typed, fs) == Invoked(fs, dir, step, Some(names), typed);
    AdjustedSucceeded(fs, selected, step, dir);
  }

  /** With a positive flag, a backlight root that cannot be opened or listed exits 1 before any device is touched. */
  lemma UnlistableRootFails(args: Args, typed: int, fs: Tree)
    requires NFlag(args) == 1 && (FlagValue(args.inc) > 0 || FlagValue(args.desc) > 0)
    ensures Ran(args, None, typed, fs) == RunResult(ExitError, fs)
  {
  }

  /**
   * With a positive flag and a valid selection from a listing without
   * repeats, the run exits 1 exactly when some selected device fails to be
   * read, parsed or written, and 0 otherwise; the devices before the first
   * failing one hold their step result and all others are unchanged.
   */
  lemma {:induction false} RunReportsFirstFailure(args: Args, names: seq<string>, typed: int, fs: Tree)
    requires NFlag(args) == 1 && Distinct(names)
    requires FlagValue(args.inc) > 0 || FlagValue(args.desc) > 0
    requires Select(names, typed).Chosen?
    ensures var selected := Select(names, typed).devices;
      var dir := if FlagValue(args.inc) > 0 then Up else Down;
      var step := FlagValue(args.inc) + FlagValue(args.desc);
      Ran(args, Some(names), typed, fs) == RunResult(
        if FirstFailing(fs, selected, step, dir) < |selected| then ExitError else ExitSuccess,
        Expected(fs, selected, step, dir).devices)
  {
    var selected := Select(names, typed).devices;
    SelectDistinct(names, typed);
    AtMostOneDirection(args, Some(names), typed, fs);
    var dir, step := if FlagValue(args.inc) > 0 then Up else Down, FlagValue(args.inc) + FlagValue(args.desc);
    assert Ran(args, Some(names), typed, fs) == Invoked(fs, dir, step, Some(names), typed);
    AdjustedMatchesExpected(fs, selected, step, dir);
  }

  /** A single device with brightness 100 of 255 and `-inc 10`: the delta is 2 * 10, and 120 is written. */
  lemma IncreaseScenario(card: string)
    ensures Ran(Args(Some(10), None), Some([card]), 0, map[card := Device(Number(100), Number(255), true)])
      == RunResult(ExitSuccess, map[card := Device(Number(120), Number(255), true)])
  {
    var fs := map[card := Device(Number(100), Number(255), true)];
    assert [card][..0] == [];
    assert Adjusted(fs, [card], 10, Up) == AdjustOne(fs, card, 10, Up);
  }

  /** A single device with brightness 10 of 255 and `-desc 10`: 10 - 20 is negative, so 1 is written. */
  lemma DecreaseScenario(card: string)
    ensures Ran(Args(None, Some(10)), Some([card]), 0, map[card := Device(Number(10), Number(255), true)])
      == RunResult(ExitSuccess, map[card := Device(Number(1), Number(255), true)])
  {
    var fs := map[card := Device(Number(10), Number(255), true)];
    assert [card][..0] == [];
    assert Adjusted(fs, [card], 10, Down) == AdjustOne(fs, card, 10, Down);
  }

  /** Two devices and the answer 2 ("all"): both are adjusted with the same step. */
  lemma AllDevicesScenario(a: string, b: string)
    requires a != b
    ensures Ran(Args(Some(10), None), Some([a, b]), 2,
                map[a := Device(Number(50), Number(100), true), b := Device(Number(100), Number(255), true)])
      == RunResult(ExitSuccess,
                   map[a := Device(Number(60), Number(100), true), b := Device(Number(120), Number(255), true)])
  {
    var fs := map[a := Device(Number(50), Number(100), true), b := Device(Number(100), Number(255), true)];
    AdjustedPair(fs, a, b, 10, Up);
    var first := fs[a := Device(Number(60), Number(100), true)];
    assert AdjustOne(fs, a, 10, Up) == Progress(first, None);
    assert StepDevice(first, b, 10, Up) == Ok(120);
    var both := first[b := Device(Number(120), Number(255), true)];
    assert Adjusted(fs, [a, b], 10, Up) == Progress(both, None);
    assert Select([a, b], 2) == Chosen([a, b]);
    assert Invoked(fs, Up, 10, Some([a, b]), 2) == RunResult(ExitSuccess, both);
    assert both == map[a := Device(Number(60), Number(100), true), b := Device(Number(120), Number(255), true)];
  }

  /** With a positive flag, an empty listing or an answer outside `[0, count]` panics before any device is touched. */
  lemma BadSelectionPanics(args: Args, names: seq<string>, typed: int, fs: Tree)
    requires NFlag(args) == 1 && (FlagValue(args.inc) > 0 || FlagValue(args.desc) > 0)
    requires |names| == 0 || (|names| > 1 && (typed < 0 || typed > |names|))
    ensures Ran(args, Some(names), typed, fs) == RunResult(ExitPanic, fs)
  {
  }

  /**
   * Two devices, the second of which refuses the write: the process exits
   * with 1, and the first device keeps the value already written to it.
   */
  lemma PartialFailureScenario(a: string, b: string)
    requires a != b
    ensures Ran(Args(Some(10), None), Some([a, b]), 2,
                map[a := Device(Number(50), Number(100), true), b := Device(Number(100), Number(255), false)])
      == RunResult(ExitError,
                   map[a := Device(Number(60), Number(100), true), b := Device(Number(100), Number(255), false)])
  {
    var fs := map[a := Device(Number(50), Number(100), true), b := Device(Number(100), Number(255), false)];
    AdjustedPair(fs, a, b, 10, Up);
    var first := fs[a := Device(Number(60), Number(100), true)];
    assert AdjustOne(fs, a, 10, Up) == Progress(first, None);
    assert StepDevice(first, b, 10, Up) == Err(WriteFailed);
    assert Adjusted(fs, [a, b], 10, Up) == Progress(first, Some(Failure(b, WriteFailed)));
    assert Select([a, b], 2) == Chosen([a, b]);
    assert Invoked(fs, Up, 10, Some([a, b]), 2) == RunResult(ExitError, first);
    assert first == map[a := Device(Number(60), Number(100), true), b := Device(Number(100), Number(255), false)];
  }

  /**
   * `increaseBrightness` / `decreaseBrightness` followed by `errorCheck`:
   * find the devices, then run the loop over them.
   */
  method AdjustBrightness(b: Backlight, dir: Direction, step: int, listing: Option<seq<string>>, typed: int)
    returns (code: int)
    modifies b
    ensures RunResult(code, b.devices) == Invoked(old(b.devices), dir, step, listing, typed)
  {
    if listing.None? {
      return ExitError;
    }
    var choice := Select(listing.value, typed);
    if choice.IndexOutOfRange? {
      return ExitPanic;
    }
    var failure := b.AdjustSelected(choice.devices, step, dir);
    code := if failure.Some? then ExitError else ExitSuccess;
  }

  /** `main`: the flag-count gate, then at most the increase path and the decrease path in turn. */
  method Run(b: Backlight, args: Args, listing: Option<seq<string>>, typed: int) returns (code: int)
    modifies b
    ensures RunResult(code, b.devices) == Ran(args, listing, typed, old(b.devices))
  {
    if NFlag(args) != 1 {
      return ExitUsage;
    }
    code := ExitSuccess;
    var inc, desc := FlagValue(args.inc), FlagValue(args.desc);
    if inc > 0 {
      code := AdjustBrightness(b, Up, inc, listing, typed);
      if code != ExitSuccess {
        return;
      }
    }
    if desc > 0 {
      code := AdjustBrightness(b, Down, desc, listing, typed);
    }
  }
}
