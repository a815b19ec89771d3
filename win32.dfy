/** termpixels/win32.py: the classic Windows console backend.  It reduces
    colours to the 16-colour palette and packs them into the console's
    character attribute bits, and it drives the console through
    `SetConsoleCursorPosition`, `SetConsoleTextAttribute` and
    `WriteConsoleW`.  Those calls are the log `calls` here. */
module Win32 {

  import opened Wrappers
  import opened Colors
  import opened Geometry

  /** The colour bits of `wincon.h`. */
  const ForegroundBlue: bv8 := 1
  const ForegroundGreen: bv8 := 2
  const ForegroundRed: bv8 := 4
  const ForegroundIntensity: bv8 := 8
  const BackgroundBlue: bv8 := 16
  const BackgroundGreen: bv8 := 32
  const BackgroundRed: bv8 := 64
  const BackgroundIntensity: bv8 := 128

  /** `color_win32(col, bg)`: the 16-colour index of `col` with its red,
      green, blue and bright bits moved to the console's foreground bits,
      shifted into the background nibble when `bg` holds.  Console
      attributes fit in eight bits, so `bv8` loses nothing of Python's int. */
  function ColorWin32(c: Color, bg: bool): (a: bv8)
    ensures !bg ==> a & 0xF0 == 0
    ensures bg ==> a & 0x0F == 0
  {
    var bits := ColorTo16(c) as bv8;
    var o0: bv8 := 0;
    var o1 := if bits & 0x1 != 0 then o0 | ForegroundRed else o0;
    var o2 := if bits & 0x2 != 0 then o1 | ForegroundGreen else o1;
    var o3 := if bits & 0x4 != 0 then o2 | ForegroundBlue else o2;
    var out := if bits & 0x8 != 0 then o3 | ForegroundIntensity else o3;
    if bg then out << 4 else out
  }

  /** `_update_char_attrs`: the foreground part ORed with the background part. */
  function CharAttrs(fg: Color, bg: Color): (a: bv8)
    ensures a & 0x0F == ColorWin32(fg, false)
    ensures a >> 4 == ColorWin32(bg, false)
  {
    BackgroundIsShifted(bg);
    0 | ColorWin32(fg, false) | ColorWin32(bg, true)
  }

  /** The background attribute is the foreground one moved up four bits. */
  lemma BackgroundIsShifted(c: Color)
    ensures ColorWin32(c, true) == ColorWin32(c, false) << 4
    ensures ColorWin32(c, true) >> 4 == ColorWin32(c, false)
  {
  }

  /** Bit 1 of the 16-colour index becomes red, bit 2 green, bit 4 blue and
      bit 8 intensity; each is set by the colour component it stands for. */
  lemma ColorWin32Bits(c: Color)
    ensures var a := ColorWin32(c, false);
      (a & ForegroundRed != 0 <==> ColorTo16(c) % 2 == 1) &&
      (a & ForegroundGreen != 0 <==> (ColorTo16(c) / 2) % 2 == 1) &&
      (a & ForegroundBlue != 0 <==> (ColorTo16(c) / 4) % 2 == 1) &&
      (a & ForegroundIntensity != 0 <==> ColorTo16(c) >= 8)
    ensures var a := ColorWin32(c, false);
      (a & ForegroundRed != 0 <==> c.r > 63) &&
      (a & ForegroundGreen != 0 <==> c.g > 63) &&
      (a & ForegroundBlue != 0 <==> c.b > 63) &&
      (a & ForegroundIntensity != 0 <==> c.r + c.g + c.b >= 127 * 3)
  {
    var n := ColorTo16(c);
    var bits := n as bv8;
    assert bits & 0x1 != 0 <==> n % 2 == 1 by { NibbleBits(n); }
    assert bits & 0x2 != 0 <==> (n / 2) % 2 == 1 by { NibbleBits(n); }
    assert bits & 0x4 != 0 <==> (n / 4) % 2 == 1 by { NibbleBits(n); }
    assert bits & 0x8 != 0 <==> n >= 8 by { NibbleBits(n); }
  }

  /** In the background nibble the same components set the `BACKGROUND_` bits. */
  lemma BackgroundBits(c: Color)
    ensures var a := ColorWin32(c, true);
      (a & BackgroundRed != 0 <==> c.r > 63) &&
      (a & BackgroundGreen != 0 <==> c.g > 63) &&
      (a & BackgroundBlue != 0 <==> c.b > 63) &&
      (a & BackgroundIntensity != 0 <==> c.r + c.g + c.b >= 127 * 3)
  {
    ColorWin32Bits(c);
    BackgroundIsShifted(c);
  }

  /** The bits of a number below 16, read as `bv8` and as an int. */
  lemma NibbleBits(n: int)
    requires 0 <= n < 16
    ensures var b := n as bv8;
      (b & 0x1 != 0 <==> n % 2 == 1) && (b & 0x2 != 0 <==> (n / 2) % 2 == 1) &&
      (b & 0x4 != 0 <==> (n / 4) % 2 == 1) && (b & 0x8 != 0 <==> n >= 8)
  {
    if n == 0 {} else if n == 1 {} else if n == 2 {} else if n == 3 {}
    else if n == 4 {} else if n == 5 {} else if n == 6 {} else if n == 7 {}
    else if n == 8 {} else if n == 9 {} else if n == 10 {} else if n == 11 {}
    else if n == 12 {} else if n == 13 {} else if n == 14 {} else {}
  }

  /** In the attribute word each console bit is set by the colour component
      it stands for: the `FOREGROUND_` bits by the foreground, the
      `BACKGROUND_` bits by the background. */
  lemma CharAttrsDecode(fg: Color, bg: Color)
    ensures var a := CharAttrs(fg, bg);
      (a & ForegroundRed != 0 <==> fg.r > 63) && (a & ForegroundGreen != 0 <==> fg.g > 63) &&
      (a & ForegroundBlue != 0 <==> fg.b > 63)
    ensures var a := CharAttrs(fg, bg);
      (a & BackgroundRed != 0 <==> bg.r > 63) && (a & BackgroundGreen != 0 <==> bg.g > 63) &&
      (a & BackgroundBlue != 0 <==> bg.b > 63)
  {
    ColorWin32Bits(fg);
    BackgroundBits(bg);
  }

  /** The console calls the backend makes, in order. */
  datatype ConsoleCall =
    | SetConsoleCursorPosition(col: int, row: int)
    | SetConsoleTextAttribute(attr: bv8)
    | WriteConsole(text: string, length: nat)

  /** Indexing the unknown cursor position (`None[0]`) raises. */
  datatype Win32Error = TypeError

  /** What the backend remembers, and the calls it has made. */
  datatype Console = Console(fg: Color, bg: Color, cursor: Option<Pos>, colorMode: string,
                             calls: seq<ConsoleCall>)

  const SixteenColor: string := "16-color"

  /** `_update_char_attrs`: one attribute call for the current colours. */
  function UpdateCharAttrs(t: Console): (r: Console)
    ensures r.calls == t.calls + [SetConsoleTextAttribute(CharAttrs(t.fg, t.bg))]
    ensures r.(calls := t.calls) == t
  {
    t.(calls := t.calls + [SetConsoleTextAttribute(CharAttrs(t.fg, t.bg))])
  }

  /** The `fg` setter: a change is stored, and sent as attributes only in
      16-colour mode. */
  function SetFg(t: Console, c: Color): (r: Console)
    ensures r.fg == c
    ensures t.fg == c ==> r == t
    ensures t.fg != c && t.colorMode == SixteenColor ==>
      r.calls == t.calls + [SetConsoleTextAttribute(CharAttrs(c, t.bg))]
    ensures t.colorMode != SixteenColor ==> r.calls == t.calls
    ensures r.(fg := t.fg, calls := t.calls) == t
  {
    if t.fg != c then
      var t1 := t.(fg := c);
      if t1.colorMode == SixteenColor then UpdateCharAttrs(t1) else t1
    else t
  }

  /** The `bg` setter, as the `fg` one. */
  function SetBg(t: Console, c: Color): (r: Console)
    ensures r.bg == c
    ensures t.bg == c ==> r == t
    ensures t.bg != c && t.colorMode == SixteenColor ==>
      r.calls == t.calls + [SetConsoleTextAttribute(CharAttrs(t.fg, c))]
    ensures t.colorMode != SixteenColor ==> r.calls == t.calls
    ensures r.(bg := t.bg, calls := t.calls) == t
  {
    if t.bg != c then
      var t1 := t.(bg := c);
      if t1.colorMode == SixteenColor then UpdateCharAttrs(t1) else t1
    else t
  }

  /** The `cursor_pos` setter: a console call only when the position changes. */
  function MoveCursor(t: Console, p: Pos): (r: Console)
    ensures r.cursor == Some(p)
    ensures t.cursor == Some(p) ==> r == t
    ensures t.cursor != Some(p) ==> r.calls == t.calls + [SetConsoleCursorPosition(p.0, p.1)]
    ensures r.(cursor := t.cursor, calls := t.calls) == t
  {
    if t.cursor != Some(p) then
      t.(calls := t.calls + [SetConsoleCursorPosition(p.0, p.1)], cursor := Some(p))
    else t
  }

  /** `write(text)`: the text goes to the console, then the cursor moves
      right by its length; with no known cursor that second step raises. */
  function WriteText(t: Console, text: string): (r: (Console, Outcome<Win32Error>))
    ensures r.0.calls == t.calls + [WriteConsole(text, |text|)]
    ensures r.1.Fail? <==> t.cursor.None?
    ensures t.cursor.Some? ==> r.0.cursor == Some((t.cursor.value.0 + |text|, t.cursor.value.1))
    ensures r.0.(calls := t.calls, cursor := t.cursor) == t
  {
    var t1 := t.(calls := t.calls + [WriteConsole(text, |text|)]);
    if t1.cursor.None? then (t1, Fail(TypeError))
    else (t1.(cursor := Some((t1.cursor.value.0 + |text|, t1.cursor.value.1))), Pass)
  }

  /** Setting the same value twice makes at most one console call. */
  lemma SettersIdempotent(t: Console, p: Pos, c: Color)
    ensures MoveCursor(MoveCursor(t, p), p) == MoveCursor(t, p)
    ensures SetFg(SetFg(t, c), c) == SetFg(t, c)
    ensures SetBg(SetBg(t, c), c) == SetBg(t, c)
  {
  }

  /** After a character is written at (x, y) the console cursor is at
      (x + 1, y): moving there makes no call. */
  lemma AdjacentNeedsNoMove(t: Console, x: int, y: int, ch: char)
    requires t.cursor == Some((x, y))
    ensures MoveCursor(WriteText(t, [ch]).0, (x + 1, y)) == WriteText(t, [ch]).0
  {
  }

  class Win32Backend {
    var fg: Color
    var bg: Color
    var cursorPos: Option<Pos>
    var colorMode: string
    var termName: string
    var calls: seq<ConsoleCall>

    function State(): Console
      reads this
    {
      Console(fg, bg, cursorPos, colorMode, calls)
    }

    /** `Win32Backend()`: white on black (`Color.rgb` takes fractions of
        full intensity), no known cursor, 16-colour mode; `win10` is the
        answer of the console version check. */
    constructor (win10: bool)
      ensures State() == Console(White, Black, None, SixteenColor, [])
      ensures termName == if win10 then "Windows Console (Win10)" else "Windows Console"
    {
      fg, bg, cursorPos, colorMode, calls := White, Black, None, SixteenColor, [];
      termName := "Windows Console";
      if win10 {
        termName := "Windows Console (Win10)";
      }
    }

    method SetFgTo(c: Color)
      modifies this
      ensures State() == SetFg(old(State()), c) && termName == old(termName)
    {
      if fg != c {
        fg := c;
        if colorMode == SixteenColor {
          UpdateCharAttrsNow();
        }
      }
    }

    method SetBgTo(c: Color)
      modifies this
      ensures State() == SetBg(old(State()), c) && termName == old(termName)
    {
      if bg != c {
        bg := c;
        if colorMode == SixteenColor {
          UpdateCharAttrsNow();
        }
      }
    }

    method SetCursorPos(p: Pos)
      modifies this
      ensures State() == MoveCursor(old(State()), p) && termName == old(termName)
    {
      if cursorPos != Some(p) {
        calls := calls + [SetConsoleCursorPosition(p.0, p.1)];
        cursorPos := Some(p);
      }
    }

    method UpdateCharAttrsNow()
      modifies this
      ensures State() == UpdateCharAttrs(old(State())) && termName == old(termName)
    {
      var attr: bv8 := 0;
      attr := attr | ColorWin32(fg, false);
      attr := attr | ColorWin32(bg, true);
      calls := calls + [SetConsoleTextAttribute(attr)];
    }

    method Write(text: string) returns (r: Outcome<Win32Error>)
      modifies this
      ensures (State(), r) == WriteText(old(State()), text) && termName == old(termName)
    {
      calls := calls + [WriteConsole(text, |text|)];
      if cursorPos.None? {
        return Fail(TypeError);
      }
      cursorPos := Some((cursorPos.value.0 + |text|, cursorPos.value.1));
      r := Pass;
    }

    /** `flush` does nothing. */
    method Flush()
      ensures State() == old(State())
    {
    }
  }
}
