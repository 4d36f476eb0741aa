/**
 * The device-selection policy of `findVideoCard`, separated from its terminal
 * I/O: given the directory listing of the backlight root and the integer the
 * user typed, which devices does the program go on to adjust?
 */
module Selection {

  /** No name occurs twice, as in a directory listing. */
  predicate Distinct(s: seq<string>)
  {
    forall i, j :: 0 <= i < j < |s| ==> s[i] != s[j]
  }

  /**
   * The selection, or the out-of-range index that makes Go's `videoCard[ans]`
   * panic (an empty listing, or a typed answer outside `[0, count]`).
   */
  datatype Choice = Chosen(devices: seq<string>) | IndexOutOfRange(index: int, count: nat)

  /**
   * With several devices the typed answer is used: `count` means every device,
   * anything else is an index. With one device (or none) nothing is read and
   * the answer stays at Go's zero value.
   */
  function Select(names: seq<string>, typed: int): (c: Choice)
    ensures c.Chosen? <==> |names| == 1 || (|names| > 1 && 0 <= typed <= |names|)
    ensures c.Chosen? ==> c.devices == names || (|c.devices| == 1 && c.devices[0] in names)
    ensures c.IndexOutOfRange? ==> c.count == |names| && (c.index < 0 || c.index >= |names|)
  {
    var ans := if |names| > 1 then typed else 0;
    if |names| > 1 && ans == |names| then Chosen(names)
    else if 0 <= ans < |names| then Chosen([names[ans]])
    else IndexOutOfRange(ans, |names|)
  }

  /** With several devices, answering `count` selects them all, in listing order. */
  lemma SelectAll(names: seq<string>)
    requires |names| > 1
    ensures Select(names, |names|) == Chosen(names)
  {
  }

  /** With several devices, an answer in `[0, count)` selects exactly that device. */
  lemma SelectOne(names: seq<string>, typed: int)
    requires |names| > 1 && 0 <= typed < |names|
    ensures Select(names, typed) == Chosen([names[typed]])
  {
  }

  /** A single device is selected whatever was typed, since no prompt is shown. */
  lemma SelectOnlyDevice(names: seq<string>, typed: int)
    requires |names| == 1
    ensures Select(names, typed) == Chosen(names)
  {
  }

  /** An empty listing always fails, at index 0. */
  lemma SelectEmptyFails(typed: int)
    ensures Select([], typed) == IndexOutOfRange(0, 0)
  {
  }

  /** A selection from a listing without repeats has no repeats and only listed names. */
  lemma SelectDistinct(names: seq<string>, typed: int)
    requires Distinct(names)
    ensures Select(names, typed).Chosen? ==> Distinct(Select(names, typed).devices)
    ensures Select(names, typed).Chosen? ==> forall n :: n in Select(names, typed).devices ==> n in names
  {
  }
}
