/**
 The row counter's main program: start-up, then a polling loop that
 re-reads the battery about once a minute and handles the two buttons.
 Button A adds a row and, while held, previews one row less per second held,
 committing the preview on release. Button B, held for more than five
 seconds, resets the count to zero.

 Time is integer milliseconds from a monotonic clock and voltage integer
 millivolts; each reading is a parameter. The display is the sequence of draw
 calls made (`out`, each rendered by `Screen.Render`); the save file is `store`, and `saves` records
 every value written to it.
 */
module RowCounter {
  import opened PyInt
  import opened Power
  import opened Store
  import opened Screen

  /** The battery is re-read once more than this many milliseconds have
      passed since the last reading. */
  const MinuteMs := 60000

  /** A battery reading: millivolts, and the voltage as the display prints it. */
  datatype Sample = Sample(mv: int, text: string)

  /** A button as the outer loop finds it: up, or down together with the
      elapsed milliseconds read by each pass of the inner loop that waits for
      its release (no pass at all if it is already released again). */
  datatype Key = Up | Down(polls: seq<int>)

  /** Running, stopped in the low-battery idle, or stopped by the exception
      that `load` lets escape. */
  datatype Mode = Running | ShutDown | Crashed

  predicate VoltageDue(prevMs: int, nowMs: int)
  {
    nowMs - prevMs > MinuteMs
  }

  /** The count shown while A is held `elapsedMs`: one row less per whole
      second, with no lower bound. It never exceeds the count and equals it
      exactly during the first second. */
  function Preview(rows: int, elapsedMs: int): (r: int)
    ensures elapsedMs >= 0 ==> r <= rows && (r == rows <==> elapsedMs < 1000)
  {
    rows - TruncDiv(elapsedMs, 1000)
  }

  /** The count after a press of A: one more, then the preview of the last
      poll before release. */
  function AfterA(rows: int, polls: seq<int>): (r: int)
    ensures |polls| > 0 && polls[|polls| - 1] >= 0 ==> r <= rows + 1
    ensures r == rows + 1 <==> |polls| == 0 || -1000 < polls[|polls| - 1] < 1000
  {
    if |polls| == 0 then rows + 1 else Preview(rows + 1, polls[|polls| - 1])
  }

  /** How many polls of a B hold find it held longer than `ResetMs`; each
      of them resets and saves. */
  function ResetCount(tdiffs: seq<int>): (n: nat)
    ensures n <= |tdiffs|
  {
    if |tdiffs| == 0 then 0
    else ResetCount(tdiffs[..|tdiffs| - 1]) + (if tdiffs[|tdiffs| - 1] > ResetMs then 1 else 0)
  }

  /** The count after a B hold whose polls read `tdiffs`. */
  function AfterB(rows: int, tdiffs: seq<int>): (r: int)
    ensures r == 0 || r == rows
    ensures |tdiffs| == 0 ==> r == rows
  {
    if ResetCount(tdiffs) > 0 then 0 else rows
  }

  function AfterKey(rows: int, key: Key, isA: bool): int
  {
    match key
    case Up => rows
    case Down(polls) => if isA then AfterA(rows, polls) else AfterB(rows, polls)
  }

  function Zeros(n: nat): seq<int>
  {
    seq(n, _ => 0)
  }

  /** The frames drawn while A is held: the preview, with the label inverted. */
  function HoldAFrames(rows: int, polls: seq<int>, lightsleep: bool, lowbatt: bool, vsysText: string): (r: seq<Frame>)
    ensures |r| == |polls|
  {
    if |polls| == 0 then []
    else HoldAFrames(rows, polls[..|polls| - 1], lightsleep, lowbatt, vsysText)
         + [Main(Preview(rows, polls[|polls| - 1]), true, false, lightsleep, lowbatt, 0, vsysText)]
  }

  /** The frames drawn while B is held: the count so far and the time left
      to the reset. */
  function HoldBFrames(rows: int, tdiffs: seq<int>, lightsleep: bool, lowbatt: bool, vsysText: string): (r: seq<Frame>)
    ensures |r| == |tdiffs|
  {
    if |tdiffs| == 0 then []
    else HoldBFrames(rows, tdiffs[..|tdiffs| - 1], lightsleep, lowbatt, vsysText)
         + [Main(AfterB(rows, tdiffs), false, true, lightsleep, lowbatt, ResetMs - tdiffs[|tdiffs| - 1], vsysText)]
  }

  /** The frame of poll `k` of an A hold shows the preview for the time read
      at that poll, with the label inverted. */
  lemma {:induction false} HoldAFramesAt(rows: int, polls: seq<int>, k: int, lightsleep: bool, lowbatt: bool, vsysText: string)
    requires 0 <= k < |polls|
    ensures HoldAFrames(rows, polls, lightsleep, lowbatt, vsysText)[k]
      == Main(Preview(rows, polls[k]), true, false, lightsleep, lowbatt, 0, vsysText)
  {
    var init := polls[..|polls| - 1];
    if k < |init| {
      HoldAFramesAt(rows, init, k, lightsleep, lowbatt, vsysText);
    }
  }

  /** One more poll of an A hold: its frame. */
  lemma HoldAStep(rows: int, polls: seq<int>, i: int, lightsleep: bool, lowbatt: bool, vsysText: string)
    requires 0 <= i < |polls|
    ensures HoldAFrames(rows, polls[..i + 1], lightsleep, lowbatt, vsysText)
      == HoldAFrames(rows, polls[..i], lightsleep, lowbatt, vsysText)
         + [Main(Preview(rows, polls[i]), true, false, lightsleep, lowbatt, 0, vsysText)]
  {
    assert polls[..i + 1][..i] == polls[..i];
  }

  /** The frame of poll `k` of a B hold shows the count as it stands after
      that poll and the time left at it. */
  lemma {:induction false} HoldBFramesAt(rows: int, tdiffs: seq<int>, k: int, lightsleep: bool, lowbatt: bool, vsysText: string)
    requires 0 <= k < |tdiffs|
    ensures HoldBFrames(rows, tdiffs, lightsleep, lowbatt, vsysText)[k]
      == Main(AfterB(rows, tdiffs[..k + 1]), false, true, lightsleep, lowbatt, ResetMs - tdiffs[k], vsysText)
  {
    var init := tdiffs[..|tdiffs| - 1];
    if k < |init| {
      HoldBFramesAt(rows, init, k, lightsleep, lowbatt, vsysText);
      assert init[..k + 1] == tdiffs[..k + 1];
    } else {
      assert tdiffs[..k + 1] == tdiffs;
    }
  }

  /** One more poll of a B hold: its reset (if any) and its frame. */
  lemma HoldBStep(rows: int, tdiffs: seq<int>, i: int, lightsleep: bool, lowbatt: bool, vsysText: string)
    requires 0 <= i < |tdiffs|
    ensures ResetCount(tdiffs[..i + 1]) == ResetCount(tdiffs[..i]) + (if tdiffs[i] > ResetMs then 1 else 0)
    ensures HoldBFrames(rows, tdiffs[..i + 1], lightsleep, lowbatt, vsysText)
      == HoldBFrames(rows, tdiffs[..i], lightsleep, lowbatt, vsysText)
         + [Main(AfterB(rows, tdiffs[..i + 1]), false, true, lightsleep, lowbatt, ResetMs - tdiffs[i], vsysText)]
  {
    assert tdiffs[..i + 1][..i] == tdiffs[..i];
  }

  /** The preview never rises as the hold lengthens. */
  lemma PreviewNonIncreasing(rows: int, e1: int, e2: int)
    requires e1 <= e2
    ensures Preview(rows, e2) <= Preview(rows, e1)
  {
    TruncDivMonotone(e1, e2, 1000);
  }

  /** For a hold of `e >= 0` ms the preview steps down once per full second:
      unchanged below one second, `rows - e div 1000` in general. */
  lemma PreviewPerSecond(rows: int, e: int)
    requires e >= 0
    ensures Preview(rows, e) == rows - e / 1000
    ensures e < 1000 ==> Preview(rows, e) == rows
    ensures Preview(rows, e + 1000) == Preview(rows, e) - 1
  {
    TruncDivNonNegative(e, 1000);
    TruncDivNonNegative(e + 1000, 1000);
  }

  /** The preview is not clamped: from 0 rows, a press held three seconds
      leaves the count at -2. */
  lemma PreviewGoesNegative()
    ensures AfterA(0, [3000]) == -2
  {
  }

  lemma {:induction false} ResetCountPositive(tdiffs: seq<int>)
    ensures ResetCount(tdiffs) > 0 <==> exists i :: 0 <= i < |tdiffs| && tdiffs[i] > ResetMs
  {
    if |tdiffs| > 0 {
      var init := tdiffs[..|tdiffs| - 1];
      ResetCountPositive(init);
      if ResetCount(init) > 0 {
        var i :| 0 <= i < |init| && init[i] > ResetMs;
        assert tdiffs[i] > ResetMs;
      }
      if exists i :: 0 <= i < |tdiffs| && tdiffs[i] > ResetMs {
        var i :| 0 <= i < |tdiffs| && tdiffs[i] > ResetMs;
        if i < |init| {
          assert init[i] > ResetMs;
        }
      }
    }
  }

  /** B resets the count exactly when some poll finds it held longer than
      `ResetMs`; a hold of at most `ResetMs` throughout changes nothing. */
  lemma AfterBResets(rows: int, tdiffs: seq<int>)
    ensures AfterB(rows, tdiffs) == 0 <==> rows == 0 || exists i :: 0 <= i < |tdiffs| && tdiffs[i] > ResetMs
    ensures (forall i :: 0 <= i < |tdiffs| ==> tdiffs[i] <= ResetMs) ==> AfterB(rows, tdiffs) == rows
  {
    ResetCountPositive(tdiffs);
  }

  lemma {:induction false} ResetCountGrows(tdiffs: seq<int>, more: seq<int>)
    ensures ResetCount(tdiffs + more) >= ResetCount(tdiffs)
    decreases |more|
  {
    if |more| > 0 {
      var all := tdiffs + more;
      assert all[..|all| - 1] == tdiffs + more[..|more| - 1];
      assert all[|all| - 1] == more[|more| - 1];
      assert ResetCount(all) == ResetCount(all[..|all| - 1]) + (if all[|all| - 1] > ResetMs then 1 else 0);
      ResetCountGrows(tdiffs, more[..|more| - 1]);
    } else {
      assert tdiffs + more == tdiffs;
    }
  }

  /** Once fired, the reset stays: holding longer keeps the count at 0. */
  lemma ResetIdempotent(rows: int, tdiffs: seq<int>, more: seq<int>)
    requires ResetCount(tdiffs) > 0
    ensures AfterB(rows, tdiffs + more) == 0
    ensures AfterB(AfterB(rows, tdiffs), more) == 0
  {
    ResetCountGrows(tdiffs, more);
  }

  /** Held exactly `ResetMs`, B leaves the count as it was, while the frame
      drawn during the hold has no time left (see `CounterResetShownAtThreshold`). */
  lemma ThresholdShowsResetWithoutResetting(rows: int, lightsleep: bool, vsysText: string)
    ensures AfterB(rows, [ResetMs]) == rows
    ensures HoldBFrames(rows, [ResetMs], lightsleep, false, vsysText) == [Main(rows, false, true, lightsleep, false, 0, vsysText)]
  {
    var tdiffs: seq<int> := [ResetMs];
    assert tdiffs[..0] == [];
    assert ResetCount(tdiffs) == ResetCount([]) + 0;
  }

  class Device {
    var rows: int
    var lowbatt: bool
    /** `vsys < 4.5` at start-up; never re-evaluated. */
    const lightsleep: bool
    var prevMs: int
    var vsysText: string
    var mode: Mode
    var store: Stored
    ghost var saves: seq<int>
    var out: seq<Frame>

    /** While running, the save file holds the count: every finished change
        of `rows` has been saved. */
    ghost predicate Valid()
      reads this
    {
      mode == Running ==> Load(store) == Count(rows)
    }

    /** Start-up: load the count, read the battery, show the start-up screen
        (and the star on USB power), then the main screen. A critical battery
        shuts down instead; an unreadable save file stops the program. */
    constructor Boot(stored: Stored, sample: Sample, nowMs: int)
      ensures Valid() && store == stored && saves == []
      ensures Load(stored) == Raised ==> mode == Crashed && out == [Blank]
      ensures Load(stored).Count? && Classify(sample.mv) == Critical ==>
        mode == ShutDown && out == [Blank, Startup(sample.mv, sample.text)]
      ensures Load(stored).Count? && Classify(sample.mv) != Critical ==>
        && mode == Running
        && rows == Load(stored).n
        && lightsleep == UsesLightsleep(sample.mv)
        && !lowbatt
        && prevMs == nowMs
        && vsysText == sample.text
        && out == [Blank, Startup(sample.mv, sample.text)] + (if lightsleep then [] else [Star])
                  + [Main(rows, false, false, lightsleep, sample.mv < LowMv, 0, sample.text)]
    {
      var ls := UsesLightsleep(sample.mv);
      store := stored;
      saves := [];
      lightsleep := ls;
      vsysText := sample.text;
      lowbatt := false;
      prevMs := nowMs;
      match Load(stored) {
        case Raised =>
          rows := 0;
          mode := Crashed;
          out := [Blank];
        case Count(n) =>
          rows := n;
          if Classify(sample.mv) == Critical {
            mode := ShutDown;
            out := [Blank, Startup(sample.mv, sample.text)];
          } else {
            mode := Running;
            out := [Blank, Startup(sample.mv, sample.text)] + (if ls then [] else [Star])
                   + [Main(n, false, false, ls, sample.mv < LowMv, 0, sample.text)];
          }
      }
    }

    /** `save(n)`: the file now holds `n`. */
    method Save(n: int)
      modifies this`store, this`saves
      ensures store == Holds(n) && saves == old(saves) + [n]
    {
      store := Holds(n);
      saves := saves + [n];
    }

    /** The once-a-minute battery check at the top of each pass. */
    method CheckVoltage(nowMs: int, sample: Sample)
      requires mode == Running
      modifies this`prevMs, this`vsysText, this`lowbatt, this`mode, this`out
      ensures !VoltageDue(old(prevMs), nowMs) ==>
        prevMs == old(prevMs) && vsysText == old(vsysText) && lowbatt == old(lowbatt)
        && mode == Running && out == old(out)
      ensures VoltageDue(old(prevMs), nowMs) ==>
        && prevMs == nowMs && vsysText == sample.text
        && (mode == ShutDown <==> Classify(sample.mv) == Critical)
        && (mode == ShutDown ==> out == old(out) + [Shutdown] && lowbatt == old(lowbatt))
        && (mode != ShutDown ==> mode == Running && out == old(out) && lowbatt == (Classify(sample.mv) == Low))
    {
      if VoltageDue(prevMs, nowMs) {
        prevMs := nowMs;
        vsysText := sample.text;
        match Classify(sample.mv) {
          case Critical =>
            mode := ShutDown;
            out := out + [Shutdown];
          case Low =>
            lowbatt := true;
          case Normal =>
            lowbatt := false;
        }
      }
    }

    /** Button A found down: add a row and save it, draw the preview on each
        poll of the hold, then commit and save the preview if it differs. */
    method PressA(polls: seq<int>)
      requires mode == Running
      modifies this`rows, this`store, this`saves, this`out
      ensures Valid()
      ensures rows == AfterA(old(rows), polls)
      ensures store == Holds(rows)
      ensures saves == old(saves) + [old(rows) + 1] + (if rows != old(rows) + 1 then [rows] else [])
      ensures out == old(out) + HoldAFrames(old(rows) + 1, polls, lightsleep, lowbatt, vsysText)
                     + [Main(rows, false, false, lightsleep, lowbatt, 0, vsysText)]
    {
      rows := rows + 1;
      Save(rows);
      var showRows := rows;
      ghost var out0, saves0 := out, saves;
      var i := 0;
      while i < |polls|
        invariant 0 <= i <= |polls|
        invariant rows == old(rows) + 1 && store == Holds(rows) && saves == saves0
        invariant showRows == if i == 0 then rows else Preview(rows, polls[i - 1])
        invariant out == out0 + HoldAFrames(rows, polls[..i], lightsleep, lowbatt, vsysText)
      {
        showRows := Preview(rows, polls[i]);
        out := out + [Main(showRows, true, false, lightsleep, lowbatt, 0, vsysText)];
        HoldAStep(rows, polls, i, lightsleep, lowbatt, vsysText);
        i := i + 1;
      }
      assert polls[..|polls|] == polls;
      if rows != showRows {
        rows := showRows;
        Save(rows);
      }
      out := out + [Main(rows, false, false, lightsleep, lowbatt, 0, vsysText)];
    }

    /** Button B found down: on each poll of the hold, reset and save when
        held longer than `ResetMs`, and draw the countdown; redraw on release. */
    method PressB(tdiffs: seq<int>)
      requires mode == Running && Valid()
      modifies this`rows, this`store, this`saves, this`out
      ensures Valid()
      ensures rows == AfterB(old(rows), tdiffs)
      ensures saves == old(saves) + Zeros(ResetCount(tdiffs))
      ensures ResetCount(tdiffs) == 0 ==> store == old(store)
      ensures ResetCount(tdiffs) > 0 ==> store == Holds(0)
      ensures out == old(out) + HoldBFrames(old(rows), tdiffs, lightsleep, lowbatt, vsysText)
                     + [Main(rows, false, false, lightsleep, lowbatt, 0, vsysText)]
    {
      ghost var rows0, saves0, out0, store0 := rows, saves, out, store;
      var i := 0;
      ghost var resets := 0;
      while i < |tdiffs|
        invariant 0 <= i <= |tdiffs|
        invariant resets == ResetCount(tdiffs[..i])
        invariant rows == if resets > 0 then 0 else rows0
        invariant saves == saves0 + Zeros(resets)
        invariant store == if resets > 0 then Holds(0) else store0
        invariant out == out0 + HoldBFrames(rows0, tdiffs[..i], lightsleep, lowbatt, vsysText)
      {
        HoldBStep(rows0, tdiffs, i, lightsleep, lowbatt, vsysText);
        if tdiffs[i] > ResetMs {
          rows := 0;
          Save(rows);
          assert Zeros(resets + 1) == Zeros(resets) + [0];
          resets := resets + 1;
        }
        out := out + [Main(rows, false, true, lightsleep, lowbatt, ResetMs - tdiffs[i], vsysText)];
        i := i + 1;
      }
      assert tdiffs[..|tdiffs|] == tdiffs;
      out := out + [Main(rows, false, false, lightsleep, lowbatt, 0, vsysText)];
    }

    /** One pass of the main loop: the battery check first, then A, then B.
        Shutdown and the crash are terminal: nothing changes any more. */
    method Tick(nowMs: int, sample: Sample, a: Key, b: Key)
      requires Valid()
      modifies this
      ensures Valid()
      ensures old(mode) != Running ==> unchanged(this)
      ensures old(mode) == Running ==> mode != Crashed
      ensures old(mode) == Running && !VoltageDue(old(prevMs), nowMs) ==>
        mode == Running && prevMs == old(prevMs) && lowbatt == old(lowbatt)
      ensures old(mode) == Running && VoltageDue(old(prevMs), nowMs) ==>
        prevMs == nowMs && (mode == ShutDown <==> Classify(sample.mv) == Critical)
      ensures old(mode) == Running && mode == ShutDown ==>
        rows == old(rows) && saves == old(saves) && store == old(store) && out == old(out) + [Shutdown]
      ensures old(mode) == Running && mode == Running ==>
        && rows == AfterKey(AfterKey(old(rows), a, true), b, false)
        && lowbatt == (if VoltageDue(old(prevMs), nowMs) then Classify(sample.mv) == Low else old(lowbatt))
    {
      if mode != Running {
        return;
      }
      CheckVoltage(nowMs, sample);
      if mode != Running {
        return;
      }
      if a.Down? {
        PressA(a.polls);
      }
      if b.Down? {
        PressB(b.polls);
      }
    }
  }

  /** Start-up with 41 rows saved and a 3.6 V battery, then one press of A
      released before the first poll: the main screen shows 41, then 42,
      which is saved once. */
  method StartupThenPress() returns (d: Device)
    ensures d.mode == Running && d.rows == 42 && !d.lowbatt && d.lightsleep
    ensures d.store == Holds(42) && d.saves == [42]
    ensures d.out == [Blank, Startup(3600, "3.6"), Main(41, false, false, true, false, 0, "3.6"),
                      Main(42, false, false, true, false, 0, "3.6")]
  {
    d := new Device.Boot(Holds(41), Sample(3600, "3.6"), 2000);
    d.PressA([]);
  }
}
