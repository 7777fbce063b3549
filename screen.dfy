/**
 What the firmware draws on its 128x64 monochrome display, as an ordered
 list of draw commands. The driver that turns the commands into pixels is
 not modelled; `vsysText` is the battery voltage already rendered with one
 decimal (`f"{vsys:.1f}"`), taken as given.
 */
module Screen {
  import opened PyInt
  import opened Format
  import opened Stitches
  import opened Power

  datatype Color = Black | White

  datatype Cmd =
    | Fill(color: Color)
    | Text(s: string, x: int, y: int, color: Color)
    | FillRect(x: int, y: int, w: int, h: int, color: Color)
    | LargeText(s: string, x: int, y: int, scale: int)
    | Show
    | Reset
    | PowerOff

  const TopRow := 0
  const RowsRow := 20
  const StitchesRow := 38
  const BottomRow := 56
  const IntXPos := 32
  /** Milliseconds button B must be held (strictly longer) to reset the count. */
  const ResetMs := 5000

  /** `print_int`: the count right-aligned in five characters, drawn at twice
      the normal size. */
  function PrintInt(i: int, x: int, y: int): (r: seq<Cmd>)
    ensures |r| == 1 && r[0].LargeText? && r[0].x == x && r[0].y == y && r[0].scale == 2
    ensures |r[0].s| >= 5 && ParseInt(TrimLeft(r[0].s)) == i
  {
    FormatIntRoundTrip(i, 5);
    [LargeText(FormatInt(i, 5), x, y, 2)]
  }

  /** The text of the bottom line of the main screen. */
  datatype Status = LowBattery | CounterReset | ResetIn(secs: int) | Hint

  /** The bottom line by priority: low battery, then button B held (reset
      done, or whole seconds to go), then the usage hint. `ResetIn(n)` names
      the second the countdown is in: `resetMs` lies in `[(n-1)*1000, n*1000)`. */
  function BottomStatus(lowbatt: bool, bdown: bool, resetMs: int): (st: Status)
    ensures st == LowBattery <==> lowbatt
    ensures st == CounterReset <==> !lowbatt && bdown && resetMs <= 0
    ensures st.ResetIn? <==> !lowbatt && bdown && resetMs > 0
    ensures st.ResetIn? ==> 1 <= st.secs && (st.secs - 1) * 1000 <= resetMs < st.secs * 1000
    ensures st == Hint <==> !lowbatt && !bdown
  {
    if lowbatt then LowBattery
    else if bdown then
      (if resetMs <= 0 then CounterReset else ResetIn(1 + TruncDiv(resetMs, 1000)))
    else Hint
  }

  function StatusCmds(st: Status, vsysText: string): seq<Cmd>
  {
    match st
    case LowBattery =>
      [Text("LOW BATTERY " + vsysText + "V", 1, 39, White), Text("  REPLACE NOW   ", 1, 48, White)]
    case CounterReset =>
      [FillRect(0, BottomRow - 1, 128, 10, White), Text("Counter reset   ", 1, BottomRow, Black)]
    case ResetIn(secs) =>
      [FillRect(0, BottomRow - 1, 128, 10, White), Text("Reset in " + IntToStr(secs) + "s    ", 1, BottomRow, Black)]
    case Hint =>
      [Text("Hold to reset", 1, BottomRow, White)]
  }

  function StarMark(lightsleep: bool): seq<Cmd>
  {
    if lightsleep then [] else [Text("*", 120, RowsRow, White)]
  }

  function RowsLabel(adown: bool): seq<Cmd>
  {
    if adown then [FillRect(0, RowsRow - 1, 48, 10, White), Text("Rows: ", 1, RowsRow, Black)]
    else [Text("Rows: ", 1, RowsRow, White)]
  }

  /** The upper part of the main screen: star, usage line, label, count and stitches. */
  function Upper(rows: int, adown: bool, lightsleep: bool): seq<Cmd>
  {
    StarMark(lightsleep)
    + [Text("Click + / Hold -", 1, TopRow, White)]
    + RowsLabel(adown)
    + PrintInt(rows, IntXPos, RowsRow - 5)
    + [Text("Stitches: " + IntToStr(StitchCount(rows)), 1, StitchesRow, White)]
  }

  /** `draw_screen(rows, adown, bdown, lightsleep, lowbatt, resetMs)`: every
      frame starts from a cleared display and ends by showing it. */
  function DrawScreen(rows: int, adown: bool, bdown: bool, lightsleep: bool, lowbatt: bool,
                      resetMs: int, vsysText: string): (r: seq<Cmd>)
    ensures |r| >= 2 && r[0] == Fill(Black) && r[|r| - 1] == Show
  {
    [Fill(Black)] + Upper(rows, adown, lightsleep)
    + StatusCmds(BottomStatus(lowbatt, bdown, resetMs), vsysText) + [Show]
  }

  /** The star marks a session that does not use lightsleep (USB power). */
  lemma DrawScreenStar(rows: int, adown: bool, bdown: bool, lightsleep: bool, lowbatt: bool,
                       resetMs: int, vsysText: string)
    ensures Text("*", 120, RowsRow, White) in DrawScreen(rows, adown, bdown, lightsleep, lowbatt, resetMs, vsysText)
            <==> !lightsleep
  {
    var u := Upper(rows, adown, lightsleep);
    var b := StatusCmds(BottomStatus(lowbatt, bdown, resetMs), vsysText);
    StatusCmdsLow(BottomStatus(lowbatt, bdown, resetMs), vsysText);
    UpperStar(rows, adown, lightsleep);
    assert DrawScreen(rows, adown, bdown, lightsleep, lowbatt, resetMs, vsysText) == [Fill(Black)] + u + b + [Show];
  }

  lemma UpperStar(rows: int, adown: bool, lightsleep: bool)
    ensures Text("*", 120, RowsRow, White) in Upper(rows, adown, lightsleep) <==> !lightsleep
  {
    var rest := [Text("Click + / Hold -", 1, TopRow, White)] + RowsLabel(adown)
      + PrintInt(rows, IntXPos, RowsRow - 5)
      + [Text("Stitches: " + IntToStr(StitchCount(rows)), 1, StitchesRow, White)];
    assert Upper(rows, adown, lightsleep) == StarMark(lightsleep) + rest;
    assert forall c :: c in rest ==> !c.Text? || c.x == 1;
  }

  /** The "Rows:" label is drawn inverted (black on a white bar) exactly
      while button A is held. */
  lemma DrawScreenRowsLabel(rows: int, adown: bool, bdown: bool, lightsleep: bool, lowbatt: bool,
                            resetMs: int, vsysText: string)
    ensures var r := DrawScreen(rows, adown, bdown, lightsleep, lowbatt, resetMs, vsysText);
      && (Text("Rows: ", 1, RowsRow, Black) in r <==> adown)
      && (Text("Rows: ", 1, RowsRow, White) in r <==> !adown)
  {
    var u := Upper(rows, adown, lightsleep);
    var b := StatusCmds(BottomStatus(lowbatt, bdown, resetMs), vsysText);
    StatusCmdsLow(BottomStatus(lowbatt, bdown, resetMs), vsysText);
    UpperRowsLabel(rows, adown, lightsleep);
    assert DrawScreen(rows, adown, bdown, lightsleep, lowbatt, resetMs, vsysText) == [Fill(Black)] + u + b + [Show];
  }

  /** The bottom line draws below the count. */
  lemma StatusCmdsLow(st: Status, vsysText: string)
    ensures forall c :: c in StatusCmds(st, vsysText) ==> c.FillRect? || (c.Text? && c.y > StitchesRow)
  {
  }

  lemma UpperRowsLabel(rows: int, adown: bool, lightsleep: bool)
    ensures Text("Rows: ", 1, RowsRow, Black) in Upper(rows, adown, lightsleep) <==> adown
    ensures Text("Rows: ", 1, RowsRow, White) in Upper(rows, adown, lightsleep) <==> !adown
  {
    var stitches := Text("Stitches: " + IntToStr(StitchCount(rows)), 1, StitchesRow, White);
    var count := PrintInt(rows, IntXPos, RowsRow - 5);
    assert count == [count[0]] && count[0].LargeText?;
    assert Upper(rows, adown, lightsleep) == StarMark(lightsleep) + [Text("Click + / Hold -", 1, TopRow, White)] + RowsLabel(adown)
      + count + [stitches];
    assert forall c :: c in StarMark(lightsleep) ==> c.Text? && c.x == 120;
  }

  /** The frame shows the count (five-wide, double size) and the stitch
      count derived from it. */
  lemma DrawScreenCounts(rows: int, adown: bool, bdown: bool, lightsleep: bool, lowbatt: bool,
                         resetMs: int, vsysText: string)
    ensures var r := DrawScreen(rows, adown, bdown, lightsleep, lowbatt, resetMs, vsysText);
      && LargeText(FormatInt(rows, 5), IntXPos, RowsRow - 5, 2) in r
      && Text("Stitches: " + IntToStr(StitchCount(rows)), 1, StitchesRow, White) in r
  {
  }

  /** The bottom line as drawn: the hint appears exactly when neither the
      battery is low nor B is held, the reset confirmation exactly when B is
      held with no time left and the battery is not low, the low-battery
      warning exactly when the flag is set. */
  lemma DrawScreenBottom(rows: int, adown: bool, bdown: bool, lightsleep: bool, lowbatt: bool,
                         resetMs: int, vsysText: string)
    ensures var r := DrawScreen(rows, adown, bdown, lightsleep, lowbatt, resetMs, vsysText);
      && (Text("Hold to reset", 1, BottomRow, White) in r <==> !lowbatt && !bdown)
      && (Text("Counter reset   ", 1, BottomRow, Black) in r <==> !lowbatt && bdown && resetMs <= 0)
      && (Text("  REPLACE NOW   ", 1, 48, White) in r <==> lowbatt)
      && (!lowbatt && bdown && resetMs > 0 ==>
            Text("Reset in " + IntToStr(1 + resetMs / 1000) + "s    ", 1, BottomRow, Black) in r)
  {
    var st := BottomStatus(lowbatt, bdown, resetMs);
    var u, b := Upper(rows, adown, lightsleep), StatusCmds(st, vsysText);
    UpperAbove(rows, adown, lightsleep);
    StatusCmdsTexts(st, vsysText);
    assert DrawScreen(rows, adown, bdown, lightsleep, lowbatt, resetMs, vsysText) == [Fill(Black)] + u + b + [Show];
    InFrame(u, b, Text("Hold to reset", 1, BottomRow, White));
    InFrame(u, b, Text("Counter reset   ", 1, BottomRow, Black));
    InFrame(u, b, Text("  REPLACE NOW   ", 1, 48, White));
    if !lowbatt && bdown && resetMs > 0 {
      var t := Text("Reset in " + IntToStr(1 + resetMs / 1000) + "s    ", 1, BottomRow, Black);
      assert b[1] == t;
      InFrame(u, b, t);
    }
  }

  /** A text drawn below the upper part is in the frame exactly when the
      bottom line draws it. */
  lemma InFrame(u: seq<Cmd>, b: seq<Cmd>, c: Cmd)
    requires c.Text? && c.y > StitchesRow
    requires forall x :: x in u ==> !x.Text? || x.y <= StitchesRow
    ensures c in [Fill(Black)] + u + b + [Show] <==> c in b
  {
  }

  /** The main screen for 41 rows: the count as `"   41"` and 11 stitches. */
  lemma MainScreenAt41(adown: bool, bdown: bool, lightsleep: bool, lowbatt: bool, resetMs: int, vsysText: string)
    ensures var r := DrawScreen(41, adown, bdown, lightsleep, lowbatt, resetMs, vsysText);
      && LargeText("   41", IntXPos, RowsRow - 5, 2) in r
      && Text("Stitches: 11", 1, StitchesRow, White) in r
  {
    DrawScreenCounts(41, adown, bdown, lightsleep, lowbatt, resetMs, vsysText);
    TextsAt41();
  }

  lemma TextsAt41()
    ensures FormatInt(41, 5) == "   41"
    ensures "Stitches: " + IntToStr(StitchCount(41)) == "Stitches: 11"
  {
    assert NatToStr(41) == "41" by {
      assert NatToStr(4) == "4";
    }
    assert RightAlign("41", 5) == "   41";
    assert NatToStr(11) == "11" by {
      assert NatToStr(1) == "1";
    }
    StitchCountSamples();
  }

  /** Nothing in the upper part is drawn as low as the bottom line. */
  lemma UpperAbove(rows: int, adown: bool, lightsleep: bool)
    ensures forall c :: c in Upper(rows, adown, lightsleep) ==> !c.Text? || c.y <= StitchesRow
  {
  }

  /** Each bottom-line text belongs to exactly one status. */
  lemma StatusCmdsTexts(st: Status, vsysText: string)
    ensures Text("Hold to reset", 1, BottomRow, White) in StatusCmds(st, vsysText) <==> st == Hint
    ensures Text("Counter reset   ", 1, BottomRow, Black) in StatusCmds(st, vsysText) <==> st == CounterReset
    ensures Text("  REPLACE NOW   ", 1, 48, White) in StatusCmds(st, vsysText) <==> st == LowBattery
  {
    if st.ResetIn? {
      var t := "Reset in " + IntToStr(st.secs) + "s    ";
      assert t[2] == 's';
      assert t != "Counter reset   ";
    }
  }

  /** One call into the display code of the firmware, by its arguments. */
  datatype Frame =
    | Blank                                  // display set-up: cleared and shown
    | Startup(mv: int, vsysText: string)     // `startup_screen(vsys)`
    | Star                                   // the star added to the start-up screen on USB power
    | Main(rows: int, adown: bool, bdown: bool, lightsleep: bool, lowbatt: bool,
           resetMs: int, vsysText: string)   // `draw_screen(...)`
    | Shutdown                               // `low_battery_shutdown(display)`

  /** The commands each call sends to the display. Every call ends by
      making its drawing visible, or by powering the display off; every
      call but the star starts from a cleared display. */
  function Render(f: Frame): (r: seq<Cmd>)
    ensures |r| >= 2
    ensures r[|r| - 1] == PowerOff <==> f.Shutdown? || (f.Startup? && f.mv < ShutdownMv)
    ensures r[|r| - 1] != PowerOff ==> r[|r| - 1] == Show
    ensures r[0] == Fill(Black) <==> !f.Star?
  {
    match f
    case Blank => [Fill(Black), Show]
    case Startup(mv, vsysText) => StartupScreen(mv, vsysText)
    case Star => [Text("*", 120, RowsRow, White), Show]
    case Main(rows, adown, bdown, lightsleep, lowbatt, resetMs, vsysText) =>
      DrawScreen(rows, adown, bdown, lightsleep, lowbatt, resetMs, vsysText)
    case Shutdown => ShutdownScreen()
  }

  /** At `resetMs == 0` (B held exactly 5000 ms) "Counter reset" is already
      shown, although the reset happens only once the hold exceeds 5000 ms. */
  lemma CounterResetShownAtThreshold(rows: int, lightsleep: bool, vsysText: string)
    ensures Text("Counter reset   ", 1, BottomRow, Black)
            in DrawScreen(rows, false, true, lightsleep, false, ResetMs - 5000, vsysText)
  {
    DrawScreenBottom(rows, false, true, lightsleep, false, ResetMs - 5000, vsysText);
  }

  /** `low_battery_shutdown`: the fixed message, then the display is reset
      and powered off. The idle loop that follows issues no commands. */
  function ShutdownScreen(): (r: seq<Cmd>)
    ensures |r| >= 4 && r[0] == Fill(Black) && r[|r| - 3..] == [Show, Reset, PowerOff]
  {
    [Fill(Black), Text("  LOW BATTERY   ", 1, 39, White), Text(" SHUTTING DOWN  ", 1, 48, White),
     Show, Reset, PowerOff]
  }

  /** `startup_screen(vsys)`: the banner and battery voltage, then a warning
      for a low battery, or the shutdown sequence for a critical one (in
      which case the banner is never shown). */
  function StartupScreen(mv: int, vsysText: string): (r: seq<Cmd>)
    ensures |r| >= 4 && r[0] == Fill(Black)
    ensures r[|r| - 1] == (if mv < ShutdownMv then PowerOff else Show)
  {
    [Fill(Black), Text("  ROW COUNTER   ", 1, 1, White), Text("  Battery " + vsysText + "V  ", 1, 20, White)]
    + match Classify(mv)
      case Low => [Text("  LOW BATTERY   ", 1, 39, White), Text("  REPLACE NOW   ", 1, 48, White), Show]
      case Critical => ShutdownScreen()
      case Normal => [Show]
  }

  /** The startup screen ends in power-off exactly for a critical battery,
      warns of a low battery exactly below 3.4 V and asks for a replacement
      exactly in the low band. */
  lemma StartupScreenLevels(mv: int, vsysText: string)
    ensures var r := StartupScreen(mv, vsysText);
      && (PowerOff in r <==> mv < ShutdownMv)
      && (r[|r| - 1] == PowerOff <==> mv < ShutdownMv)
      && (Text("  LOW BATTERY   ", 1, 39, White) in r <==> mv < LowMv)
      && (Text("  REPLACE NOW   ", 1, 48, White) in r <==> ShutdownMv <= mv < LowMv)
  {
    var r := StartupScreen(mv, vsysText);
    if mv < ShutdownMv {
      assert r[4] == Text("  LOW BATTERY   ", 1, 39, White);
    } else if mv < LowMv {
      assert r[3] == Text("  LOW BATTERY   ", 1, 39, White);
      assert r[4] == Text("  REPLACE NOW   ", 1, 48, White);
    }
  }
}
