/**
 * The backlight tree and the per-device adjustment loop of
 * `increaseBrightness` / `decreaseBrightness`. Each device directory holds a
 * `brightness` and a `max_brightness` file; a file either cannot be read, or
 * holds text that `strconv.Atoi` rejects, or holds an integer. Writing the
 * `brightness` file succeeds only when the device permits it.
 */
module Sysfs {
  import opened Wrappers
  import opened Brightness
  import opened Selection

  datatype Reading = Unreadable | Malformed | Number(n: int)

  datatype Device = Device(brightness: Reading, maxBrightness: Reading, writable: bool)

  /** The backlight root: device directory name to its files. */
  type Tree = map<string, Device>

  datatype FailureKind = ReadFailed | ParseFailed | WriteFailed

  /** The device on which the loop stopped, and the operation that failed. */
  datatype Failure = Failure(device: string, kind: FailureKind)

  /** The tree after the loop, and the failure that stopped it, if any. */
  datatype Progress = Progress(devices: Tree, failure: Option<Failure>)

  /**
   * The reads and parses of one iteration, in the source's order: read
   * `max_brightness`, read `brightness`, parse `brightness`, parse
   * `max_brightness`. A device missing from the tree cannot be read.
   * The result is `(current, max)`.
   */
  function ReadValues(fs: Tree, name: string): (r: Result<(int, int), FailureKind>)
    ensures r.Ok? <==> name in fs && fs[name].brightness.Number? && fs[name].maxBrightness.Number?
    ensures r.Ok? ==> r.value == (fs[name].brightness.n, fs[name].maxBrightness.n)
    ensures r.Err? ==> r.error != WriteFailed
  {
    if name !in fs || fs[name].maxBrightness.Unreadable? then Err(ReadFailed)
    else if fs[name].brightness.Unreadable? then Err(ReadFailed)
    else if fs[name].brightness.Malformed? then Err(ParseFailed)
    else if fs[name].maxBrightness.Malformed? then Err(ParseFailed)
    else Ok((fs[name].brightness.n, fs[name].maxBrightness.n))
  }

  /** What one iteration does for device `name`: the value it writes, or why it stops. */
  function StepDevice(fs: Tree, name: string, step: int, dir: Direction): (r: Result<int, FailureKind>)
    ensures r.Ok? <==> name in fs && fs[name].brightness.Number? && fs[name].maxBrightness.Number? && fs[name].writable
    ensures r.Ok? ==> r.value == Stepped(dir, fs[name].brightness.n, fs[name].maxBrightness.n, step)
  {
    match ReadValues(fs, name)
    case Err(k) => Err(k)
    case Ok((current, max)) =>
      if fs[name].writable then Ok(Stepped(dir, current, max, step)) else Err(WriteFailed)
  }

  /** One iteration applied to the tree: the brightness file is overwritten, or the loop stops. */
  function AdjustOne(fs: Tree, name: string, step: int, dir: Direction): (p: Progress)
    ensures p.devices.Keys == fs.Keys
    ensures p.failure.None? <==> StepDevice(fs, name, step, dir).Ok?
    ensures p.failure.Some? ==> p.devices == fs && p.failure.value.device == name
  {
    match StepDevice(fs, name, step, dir)
    case Err(k) => Progress(fs, Some(Failure(name, k)))
    case Ok(v) => Progress(fs[name := fs[name].(brightness := Number(v))], None)
  }

  /**
   * The loop over the selected devices, in order, stopping at the first
   * failure. Only `brightness` files of selected devices ever change.
   */
  function Adjusted(fs: Tree, selected: seq<string>, step: int, dir: Direction): (p: Progress)
    ensures p.devices.Keys == fs.Keys
    ensures p.failure.Some? ==> p.failure.value.device in selected
    decreases |selected|
  {
    if selected == [] then Progress(fs, None)
    else
      var before := Adjusted(fs, selected[..|selected| - 1], step, dir);
      if before.failure.Some? then before
      else AdjustOne(before.devices, selected[|selected| - 1], step, dir)
  }

  /**
   * Only `brightness` files of selected devices ever change: every maximum
   * and permission stays, and unselected devices are untouched.
   */
  lemma {:induction false} AdjustedFrame(fs: Tree, selected: seq<string>, step: int, dir: Direction)
    ensures forall n :: n in fs ==>
      Adjusted(fs, selected, step, dir).devices[n].maxBrightness == fs[n].maxBrightness &&
      Adjusted(fs, selected, step, dir).devices[n].writable == fs[n].writable
    ensures forall n :: n in fs && n !in selected ==> Adjusted(fs, selected, step, dir).devices[n] == fs[n]
    decreases |selected|
  {
    if selected != [] {
      var front, last := selected[..|selected| - 1], selected[|selected| - 1];
      AdjustedFrame(fs, front, step, dir);
      var before := Adjusted(fs, front, step, dir);
      if before.failure.None? && StepDevice(before.devices, last, step, dir).Ok? {
        var v := StepDevice(before.devices, last, step, dir).value;
        assert Adjusted(fs, selected, step, dir).devices
          == before.devices[last := before.devices[last].(brightness := Number(v))];
        assert forall n :: n in front ==> n in selected;
      } else {
        assert Adjusted(fs, selected, step, dir).devices == before.devices;
        assert forall n :: n in front ==> n in selected;
      }
    }
  }

  /** The index of the first selected device whose iteration fails on the original tree, or `|selected|`. */
  function FirstFailing(fs: Tree, selected: seq<string>, step: int, dir: Direction): (k: nat)
    ensures k <= |selected|
    ensures forall i :: 0 <= i < k ==> StepDevice(fs, selected[i], step, dir).Ok?
    ensures k < |selected| ==> StepDevice(fs, selected[k], step, dir).Err?
  {
    if selected == [] then 0
    else if StepDevice(fs, selected[0], step, dir).Err? then 0
    else 1 + FirstFailing(fs, selected[1..], step, dir)
  }

  /** Device `n` with its brightness replaced by the value its own iteration computes. */
  function Updated(fs: Tree, n: string, step: int, dir: Direction): Device
    requires n in fs
  {
    match StepDevice(fs, n, step, dir)
    case Ok(v) => fs[n].(brightness := Number(v))
    case Err(_) => fs[n]
  }

  /** The tree in which exactly the devices of `done` hold their new brightness. */
  function Applied(fs: Tree, done: seq<string>, step: int, dir: Direction): Tree
  {
    map n | n in fs :: if n in done then Updated(fs, n, step, dir) else fs[n]
  }

  /** Writing one more device extends `Applied` by that device's update. */
  lemma AppliedSnoc(fs: Tree, done: seq<string>, x: string, step: int, dir: Direction)
    requires x in fs
    ensures Applied(fs, done + [x], step, dir) == Applied(fs, done, step, dir)[x := Updated(fs, x, step, dir)]
  {
    var a, b := Applied(fs, done + [x], step, dir), Applied(fs, done, step, dir)[x := Updated(fs, x, step, dir)];
    forall n | n in fs
      ensures a[n] == b[n]
    {
      assert n in done + [x] <==> n in done || n == x;
    }
  }

  /**
   * Reference description of the loop's effect, independent of its order of
   * evaluation: the devices before the first failing one get their new
   * brightness, computed from their own original `(current, max)` and the one
   * shared step; every other device is untouched; the failure is that of the
   * first failing device.
   */
  function Expected(fs: Tree, selected: seq<string>, step: int, dir: Direction): Progress
  {
    var k := FirstFailing(fs, selected, step, dir);
    Progress(
      Applied(fs, selected[..k], step, dir),
      if k < |selected| then Some(Failure(selected[k], StepDevice(fs, selected[k], step, dir).error)) else None)
  }

  /** FirstFailing is the unique index satisfying its contract. */
  lemma FirstFailingUnique(fs: Tree, selected: seq<string>, step: int, dir: Direction, k: nat)
    requires k <= |selected|
    requires forall i :: 0 <= i < k ==> StepDevice(fs, selected[i], step, dir).Ok?
    requires k < |selected| ==> StepDevice(fs, selected[k], step, dir).Err?
    ensures FirstFailing(fs, selected, step, dir) == k
  {
  }

  /** Once a prefix of the loop has failed, the rest of the selection is never visited. */
  lemma {:induction false} AdjustedStopsAtFailure(fs: Tree, selected: seq<string>, i: nat, step: int, dir: Direction)
    requires i <= |selected|
    requires Adjusted(fs, selected[..i], step, dir).failure.Some?
    ensures Adjusted(fs, selected, step, dir) == Adjusted(fs, selected[..i], step, dir)
    decreases |selected| - i
  {
    if i == |selected| {
      assert selected[..i] == selected;
    } else {
      var front := selected[..|selected| - 1];
      assert front[..i] == selected[..i];
      AdjustedStopsAtFailure(fs, front, i, step, dir);
    }
  }

  /** The loop over the first `i + 1` devices is the loop over the first `i`, then one more iteration. */
  lemma AdjustedNext(fs: Tree, selected: seq<string>, i: nat, step: int, dir: Direction)
    requires i < |selected|
    ensures Adjusted(fs, selected[..i + 1], step, dir) ==
      var before := Adjusted(fs, selected[..i], step, dir);
      if before.failure.Some? then before else AdjustOne(before.devices, selected[i], step, dir)
  {
    assert selected[..i + 1][..i] == selected[..i];
  }

  /** The loop over two devices: the first iteration, then the second unless the first failed. */
  lemma AdjustedPair(fs: Tree, first: string, second: string, step: int, dir: Direction)
    ensures Adjusted(fs, [first, second], step, dir) ==
      var p := AdjustOne(fs, first, step, dir);
      if p.failure.Some? then p else AdjustOne(p.devices, second, step, dir)
  {
    var selected := [first, second];
    AdjustedNext(fs, selected, 0, step, dir);
    AdjustedNext(fs, selected, 1, step, dir);
    assert selected[..0] == [] && selected[..2] == selected;
  }

  /** A successful iteration after a successful prefix extends the loop's state by one write. */
  lemma AdjustedExtendOk(fs: Tree, selected: seq<string>, i: nat, step: int, dir: Direction)
    requires i < |selected|
    ensures var before := Adjusted(fs, selected[..i], step, dir);
      before.failure == None && StepDevice(before.devices, selected[i], step, dir).Ok? ==>
        Adjusted(fs, selected[..i + 1], step, dir) == Progress(
          before.devices[selected[i] := before.devices[selected[i]].(
            brightness := Number(StepDevice(before.devices, selected[i], step, dir).value))],
          None)
  {
    AdjustedNext(fs, selected, i, step, dir);
  }

  /** A failing iteration after a successful prefix ends the whole loop with that failure. */
  lemma AdjustedExtendErr(fs: Tree, selected: seq<string>, i: nat, step: int, dir: Direction)
    requires i < |selected|
    ensures var before := Adjusted(fs, selected[..i], step, dir);
      before.failure == None && StepDevice(before.devices, selected[i], step, dir).Err? ==>
        Adjusted(fs, selected, step, dir) == Progress(
          before.devices,
          Some(Failure(selected[i], StepDevice(before.devices, selected[i], step, dir).error)))
  {
    AdjustedNext(fs, selected, i, step, dir);
    if Adjusted(fs, selected[..i + 1], step, dir).failure.Some? {
      AdjustedStopsAtFailure(fs, selected, i + 1, step, dir);
    }
  }

  /** An iteration depends only on its own device's files. */
  lemma StepDeviceLocal(fs: Tree, fs': Tree, name: string, step: int, dir: Direction)
    requires name in fs <==> name in fs'
    requires name in fs ==> fs[name] == fs'[name]
    ensures StepDevice(fs, name, step, dir) == StepDevice(fs', name, step, dir)
  {
  }

  /** Extending a selection whose reference run already failed changes nothing. */
  lemma ExpectedAfterFailure(fs: Tree, selected: seq<string>, step: int, dir: Direction)
    requires |selected| > 0
    requires FirstFailing(fs, selected[..|selected| - 1], step, dir) < |selected| - 1
    ensures Expected(fs, selected, step, dir) == Expected(fs, selected[..|selected| - 1], step, dir)
  {
    var front := selected[..|selected| - 1];
    var k := FirstFailing(fs, front, step, dir);
    FirstFailingUnique(fs, selected, step, dir, k);
    assert selected[..k] == front[..k];
  }

  /** Extending a fully successful reference run by a failing device records that failure. */
  lemma ExpectedExtendFailing(fs: Tree, selected: seq<string>, step: int, dir: Direction)
    requires |selected| > 0
    requires FirstFailing(fs, selected[..|selected| - 1], step, dir) == |selected| - 1
    requires StepDevice(fs, selected[|selected| - 1], step, dir).Err?
    ensures Expected(fs, selected, step, dir) == Progress(
      Expected(fs, selected[..|selected| - 1], step, dir).devices,
      Some(Failure(selected[|selected| - 1], StepDevice(fs, selected[|selected| - 1], step, dir).error)))
  {
    var front := selected[..|selected| - 1];
    FirstFailingUnique(fs, selected, step, dir, |front|);
    assert selected[..|front|] == front;
    assert front[..|front|] == front;
  }

  /** Extending a fully successful reference run by a new succeeding device writes that device. */
  lemma ExpectedExtendSucceeding(fs: Tree, selected: seq<string>, step: int, dir: Direction)
    requires |selected| > 0
    requires FirstFailing(fs, selected[..|selected| - 1], step, dir) == |selected| - 1
    requires StepDevice(fs, selected[|selected| - 1], step, dir).Ok?
    requires selected[|selected| - 1] !in selected[..|selected| - 1]
    ensures Expected(fs, selected, step, dir) == Progress(
      AdjustOne(Expected(fs, selected[..|selected| - 1], step, dir).devices, selected[|selected| - 1], step, dir).devices,
      None)
  {
    var front, last := selected[..|selected| - 1], selected[|selected| - 1];
    FirstFailingUnique(fs, selected, step, dir, |selected|);
    assert selected[..|selected|] == front + [last];
    assert front[..|front|] == front;
    AppliedSnoc(fs, front, last, step, dir);
    assert Applied(fs, front, step, dir)[last] == fs[last];
  }

  /**
   * For a selection without repeats (as any selection from a directory
   * listing is), the loop has exactly the effect the reference describes.
   */
  lemma {:induction false} AdjustedMatchesExpected(fs: Tree, selected: seq<string>, step: int, dir: Direction)
    requires Distinct(selected)
    ensures Adjusted(fs, selected, step, dir) == Expected(fs, selected, step, dir)
    decreases |selected|
  {
    if selected == [] {
      assert Expected(fs, selected, step, dir).devices == fs;
    } else {
      var front, last := selected[..|selected| - 1], selected[|selected| - 1];
      assert Distinct(front);
      AdjustedMatchesExpected(fs, front, step, dir);
      var before := Adjusted(fs, front, step, dir);
      if FirstFailing(fs, front, step, dir) < |front| {
        ExpectedAfterFailure(fs, selected, step, dir);
      } else {
        assert last !in front;
        AdjustedFrame(fs, front, step, dir);
        StepDeviceLocal(before.devices, fs, last, step, dir);
        if StepDevice(fs, last, step, dir).Err? {
          ExpectedExtendFailing(fs, selected, step, dir);
        } else {
          ExpectedExtendSucceeding(fs, selected, step, dir);
        }
      }
    }
  }

  /**
   * When every selected device can be read, parsed and written, the loop
   * finishes and each one holds the new value for its own `(current, max)`.
   */
  lemma AdjustedAllSucceed(fs: Tree, selected: seq<string>, step: int, dir: Direction)
    requires Distinct(selected)
    requires forall i :: 0 <= i < |selected| ==>
      selected[i] in fs && fs[selected[i]].brightness.Number? && fs[selected[i]].maxBrightness.Number? && fs[selected[i]].writable
    ensures Adjusted(fs, selected, step, dir).failure == None
    ensures forall i :: 0 <= i < |selected| ==>
      Adjusted(fs, selected, step, dir).devices[selected[i]].brightness
        == Number(Stepped(dir, fs[selected[i]].brightness.n, fs[selected[i]].maxBrightness.n, step))
  {
    AdjustedMatchesExpected(fs, selected, step, dir);
    FirstFailingUnique(fs, selected, step, dir, |selected|);
    assert selected[..|selected|] == selected;
  }

  /**
   * Conversely, a loop that ends without failure has read, parsed and written
   * every selected device and left it holding the new value for its own
   * `(current, max)`.
   */
  lemma AdjustedSucceeded(fs: Tree, selected: seq<string>, step: int, dir: Direction)
    requires Distinct(selected)
    requires Adjusted(fs, selected, step, dir).failure == None
    ensures forall n :: n in selected ==>
      n in fs && fs[n].brightness.Number? && fs[n].maxBrightness.Number? && fs[n].writable &&
      Adjusted(fs, selected, step, dir).devices[n].brightness
        == Number(Stepped(dir, fs[n].brightness.n, fs[n].maxBrightness.n, step))
  {
    AdjustedMatchesExpected(fs, selected, step, dir);
    var k := FirstFailing(fs, selected, step, dir);
    assert k == |selected|;
    assert selected[..k] == selected;
    var after := Expected(fs, selected, step, dir).devices;
    forall n | n in selected
      ensures n in fs && StepDevice(fs, n, step, dir).Ok? && after[n] == Updated(fs, n, step, dir)
    {
      var i :| 0 <= i < |selected| && selected[i] == n;
      assert StepDevice(fs, selected[i], step, dir).Ok?;
    }
  }

  /** The sysfs backlight tree, whose `brightness` files the program overwrites in place. */
  class Backlight {
    var devices: Tree

    constructor (devices: Tree)
      ensures this.devices == devices
    {
      this.devices := devices;
    }

    /** The value one iteration would write to `card`, or why reading it fails; changes nothing. */
    method ReadAndCompute(card: string, step: int, dir: Direction) returns (r: Result<int, FailureKind>)
      ensures r.Ok? <==> ReadValues(devices, card).Ok?
      ensures r.Ok? ==> r.value == Stepped(dir, devices[card].brightness.n, devices[card].maxBrightness.n, step)
      ensures r.Err? ==> r.error == ReadValues(devices, card).error
    {
      var values := ReadValues(devices, card);
      if values.Err? {
        return Err(values.error);
      }
      var (currentValue, maxValue) := values.value;
      var newValue: int;
      match dir {
        case Up =>
          newValue := currentValue + Quot100(maxValue) * step;
          if newValue > maxValue {
            newValue := maxValue;
          }
        case Down =>
          newValue := currentValue - Quot100(maxValue) * step;
          if newValue < 0 {
            newValue := 1;
          }
      }
      r := Ok(newValue);
    }

    /** Overwrites the brightness file of `card`, unless the device refuses the write. */
    method WriteBrightness(card: string, value: int) returns (ok: bool)
      requires card in devices
      modifies this
      ensures ok == old(devices)[card].writable
      ensures devices == if ok then old(devices)[card := old(devices)[card].(brightness := Number(value))] else old(devices)
    {
      ok := devices[card].writable;
      if ok {
        devices := devices[card := devices[card].(brightness := Number(value))];
      }
    }

    /**
     * The loop of `increaseBrightness` / `decreaseBrightness`: visits the
     * selected devices in order with one shared step and stops at the first
     * failure, keeping the writes already made.
     */
    method AdjustSelected(selected: seq<string>, step: int, dir: Direction) returns (failure: Option<Failure>)
      modifies this
      ensures Progress(devices, failure) == Adjusted(old(devices), selected, step, dir)
    {
      ghost var fs0 := devices;
      failure := None;
      var i := 0;
      while i < |selected|
        invariant 0 <= i <= |selected|
        invariant Adjusted(fs0, selected[..i], step, dir) == Progress(devices, None)
      {
        var card := selected[i];
        AdjustedExtendOk(fs0, selected, i, step, dir);
        AdjustedExtendErr(fs0, selected, i, step, dir);
        var r := ReadAndCompute(card, step, dir);
        if r.Err? {
          failure := Some(Failure(card, r.error));
          return;
        }
        ghost var before := devices;
        var ok := WriteBrightness(card, r.value);
        if !ok {
          failure := Some(Failure(card, WriteFailed));
          assert StepDevice(before, card, step, dir) == Err(WriteFailed);
          return;
        }
        i := i + 1;
      }
      assert selected[..i] == selected;
    }
  }
}
