/** termpixels/unix.py: the Unix backend remembers the cursor position, the
    colours and the cursor visibility it last sent, and sends an escape
    sequence only when a value changes.  Its output, printed to the terminal
    in the source, is the log `out` here: every `print` appends one string.
    The sequences are CUP (section 8.3.21 of ECMA-48), SGR 38;2 and 48;2
    direct colour (section 8.3.117 of ECMA-48) and ED (section 8.3.39). */
module Unix {

  import opened Wrappers
  import opened Colors
  import opened Decimal
  import opened Strings
  import opened Geometry

  const Esc: char := '\U{1B}'

  /** What the backend remembers, and what it has printed. */
  datatype Term = Term(cursor: Pos, fg: Option<Color>, bg: Option<Color>, showCursor: Option<bool>,
                       out: seq<string>)

  /** The CUP parameters: 1-based row, then 1-based column. */
  function CupCode(p: Pos): (s: string)
    ensures |s| >= 2 && s[0] == '[' && s[|s| - 1] == 'H'
  {
    "[" + Join([IntToString(p.1 + 1), IntToString(p.0 + 1)], ';') + "H"
  }

  /** SGR direct colour: `layer` is "38" for the foreground and "48" for the background. */
  function SgrColorCode(layer: string, c: Color): (s: string)
    ensures |s| >= 2 && s[0] == '[' && s[|s| - 1] == 'm'
  {
    "[" + Join([layer, "2", NatToString(c.r), NatToString(c.g), NatToString(c.b)], ';') + "m"
  }

  /** The code the `show_cursor` setter sends.  The conditional binds looser
      than the concatenation, so hiding the cursor sends "l" alone. */
  function ShowCursorCode(show: bool): (code: string)
    ensures show ==> code == "[?25h"
    ensures !show ==> code == "l"
  {
    if show then "[?25" + "h" else "l"
  }

  /** ED with parameter 2: erase the whole display. */
  const EraseDisplay: string := [Esc] + "[2J"

  /** `write_escape`: the code after an escape character. */
  function SendEscape(t: Term, code: string): (r: Term)
    ensures r.out == t.out + [[Esc] + code]
    ensures r.(out := t.out) == t
  {
    t.(out := t.out + [[Esc] + code])
  }

  /** `write(text)`: the text, and the cursor moves right by its length. */
  function WriteText(t: Term, text: string): (r: Term)
    ensures r.out == t.out + [text]
    ensures r.cursor == (t.cursor.0 + |text|, t.cursor.1)
    ensures r.(out := t.out, cursor := t.cursor) == t
  {
    t.(out := t.out + [text], cursor := (t.cursor.0 + |text|, t.cursor.1))
  }

  /** The `cursor_pos` setter: a CUP only when the position differs from the one remembered. */
  function MoveCursor(t: Term, p: Pos): (r: Term)
    ensures r.cursor == p
    ensures t.cursor == p ==> r == t
    ensures t.cursor != p ==> r.out == t.out + [[Esc] + CupCode(p)]
    ensures r.(out := t.out, cursor := t.cursor) == t
  {
    if t.cursor != p then SendEscape(t, CupCode(p)).(cursor := p) else t
  }

  /** The `fg` setter: an SGR 38 only when the colour differs. */
  function SetFg(t: Term, c: Color): (r: Term)
    ensures r.fg == Some(c)
    ensures t.fg == Some(c) ==> r == t
    ensures t.fg != Some(c) ==> r.out == t.out + [[Esc] + SgrColorCode("38", c)]
    ensures r.(out := t.out, fg := t.fg) == t
  {
    if t.fg != Some(c) then SendEscape(t, SgrColorCode("38", c)).(fg := Some(c)) else t
  }

  /** The `bg` setter: an SGR 48 only when the colour differs. */
  function SetBg(t: Term, c: Color): (r: Term)
    ensures r.bg == Some(c)
    ensures t.bg == Some(c) ==> r == t
    ensures t.bg != Some(c) ==> r.out == t.out + [[Esc] + SgrColorCode("48", c)]
    ensures r.(out := t.out, bg := t.bg) == t
  {
    if t.bg != Some(c) then SendEscape(t, SgrColorCode("48", c)).(bg := Some(c)) else t
  }

  /** The `show_cursor` setter: a code only when the setting changes. */
  function SetShowCursor(t: Term, show: bool): (r: Term)
    ensures r.showCursor == Some(show)
    ensures t.showCursor == Some(show) ==> r == t
    ensures t.showCursor != Some(show) ==> r.out == t.out + [[Esc] + ShowCursorCode(show)]
    ensures r.(out := t.out, showCursor := t.showCursor) == t
  {
    if t.showCursor != Some(show) then SendEscape(t, ShowCursorCode(show)).(showCursor := Some(show)) else t
  }

  /** `clear_screen`: the cursor to the origin, then ED through `write`,
      which counts the four characters of the sequence as cursor movement. */
  function ClearScreen(t: Term): (r: Term)
    ensures r.cursor == (4, 0)
    ensures r.out == MoveCursor(t, (0, 0)).out + [EraseDisplay]
    ensures (r.fg, r.bg, r.showCursor) == (t.fg, t.bg, t.showCursor)
  {
    WriteText(MoveCursor(t, (0, 0)), EraseDisplay)
  }

  /** Reads a CUP code back: the position it moves to, if it is one. */
  function ParseCup(code: string): Option<Pos>
  {
    if |code| >= 2 && code[0] == '[' && code[|code| - 1] == 'H' then
      var f := Split(code[1..|code| - 1], ';');
      if |f| == 2 then
        match (ParseInt(f[0]), ParseInt(f[1]))
        case (Some(row), Some(col)) => Some((col - 1, row - 1))
        case _ => None
      else None
    else None
  }

  /** Reads an SGR direct colour code back: its layer and colour, if it is one. */
  function ParseSgrColor(code: string): Option<(string, Color)>
  {
    if |code| >= 2 && code[0] == '[' && code[|code| - 1] == 'm' then
      var f := Split(code[1..|code| - 1], ';');
      if |f| == 5 && f[1] == "2" then
        match (ParseInt(f[2]), ParseInt(f[3]), ParseInt(f[4]))
        case (Some(r), Some(g), Some(b)) =>
          if 0 <= r <= 255 && 0 <= g <= 255 && 0 <= b <= 255 then Some((f[0], Color(r, g, b))) else None
        case _ => None
      else None
    else None
  }

  /** The CUP code of a position names that position, 1-based. */
  lemma CupRoundTrip(p: Pos)
    ensures ParseCup(CupCode(p)) == Some(p)
  {
    var a, b := IntToString(p.1 + 1), IntToString(p.0 + 1);
    var code := CupCode(p);
    assert code[1..|code| - 1] == Join([a, b], ';');
    IntToStringNoChar(p.1 + 1, ';');
    IntToStringNoChar(p.0 + 1, ';');
    SplitJoin([a, b], ';');
    IntRoundTrip(p.1 + 1);
    IntRoundTrip(p.0 + 1);
  }

  /** The SGR code of a colour names its layer and the colour. */
  lemma SgrRoundTrip(layer: string, c: Color)
    requires NoChar(layer, ';')
    ensures ParseSgrColor(SgrColorCode(layer, c)) == Some((layer, c))
  {
    var r, g, b := NatToString(c.r), NatToString(c.g), NatToString(c.b);
    var code := SgrColorCode(layer, c);
    var parts := [layer, "2", r, g, b];
    assert code[1..|code| - 1] == Join(parts, ';');
    IntToStringNoChar(c.r, ';');
    IntToStringNoChar(c.g, ';');
    IntToStringNoChar(c.b, ';');
    assert NoChar("2", ';');
    SplitJoin([layer, "2", r, g, b], ';');
    IntRoundTrip(c.r);
    IntRoundTrip(c.g);
    IntRoundTrip(c.b);
  }

  /** The texts of CUP codes, as the format string of the setter spells them. */
  lemma CupExamples()
    ensures CupCode((0, 0)) == "[1;1H"
    ensures CupCode((9, 4)) == "[5;10H"
  {
    assert IntToString(10) == "10";
  }

  /** The text of an SGR code, as the format string of the setter spells it. */
  lemma SgrExample()
    ensures SgrColorCode("48", Color(12, 0, 7)) == "[48;2;12;0;7m"
  {
    assert NatToString(12) == "12";
    assert Join(["12", "0", "7"], ';') == "12;0;7";
  }

  /** Setting the same value twice sends the escape at most once. */
  lemma SettersIdempotent(t: Term, p: Pos, c: Color, show: bool)
    ensures MoveCursor(MoveCursor(t, p), p) == MoveCursor(t, p)
    ensures SetFg(SetFg(t, c), c) == SetFg(t, c)
    ensures SetBg(SetBg(t, c), c) == SetBg(t, c)
    ensures SetShowCursor(SetShowCursor(t, show), show) == SetShowCursor(t, show)
  {
  }

  /** After one character is written at (x, y) the backend is at (x + 1, y):
      moving there sends nothing. */
  lemma AdjacentNeedsNoMove(t: Term, x: int, y: int, ch: char)
    requires t.cursor == (x, y)
    ensures MoveCursor(WriteText(t, [ch]), (x + 1, y)) == WriteText(t, [ch])
  {
  }

  /** Hiding the cursor sends ESC followed by "l", not the DECTCEM reset
      "ESC [ ? 2 5 l"; only showing it sends the full sequence. */
  lemma HideCursorCode(t: Term)
    requires t.showCursor != Some(false)
    ensures SetShowCursor(t, false).out == t.out + [[Esc, 'l']]
  {
    assert [Esc] + "l" == [Esc, 'l'];
  }

  /** The state the constructor leaves: nothing remembered but the cursor,
      which `clear_screen` moved to the origin and then four cells right. */
  const Initial: Term := Term((4, 0), None, None, None, [[Esc] + CupCode((0, 0)), EraseDisplay])

  class UnixBackend {
    var cursor: Pos
    var fg: Option<Color>
    var bg: Option<Color>
    var showCursor: Option<bool>
    var out: seq<string>

    function State(): Term
      reads this
    {
      Term(cursor, fg, bg, showCursor, out)
    }

    /** `UnixBackend()`: nothing is known, then `clear_screen`. */
    constructor ()
      ensures State() == Initial
    {
      cursor, fg, bg, showCursor, out := (0, 0), None, None, None, [];
      new;
      // The remembered position starts as None, which differs from (0, 0).
      WriteEscape(CupCode((0, 0)));
      Write(EraseDisplay);
    }

    method SetCursorPos(p: Pos)
      modifies this
      ensures State() == MoveCursor(old(State()), p)
    {
      if cursor != p {
        WriteEscape(CupCode(p));
        cursor := p;
      }
    }

    method SetShowCursorTo(show: bool)
      modifies this
      ensures State() == SetShowCursor(old(State()), show)
    {
      if showCursor != Some(show) {
        WriteEscape(ShowCursorCode(show));
        showCursor := Some(show);
      }
    }

    method SetFgTo(c: Color)
      modifies this
      ensures State() == SetFg(old(State()), c)
    {
      if fg != Some(c) {
        WriteEscape(SgrColorCode("38", c));
        fg := Some(c);
      }
    }

    method SetBgTo(c: Color)
      modifies this
      ensures State() == SetBg(old(State()), c)
    {
      if bg != Some(c) {
        WriteEscape(SgrColorCode("48", c));
        bg := Some(c);
      }
    }

    method ClearScreenNow()
      modifies this
      ensures State() == ClearScreen(old(State()))
    {
      SetCursorPos((0, 0));
      Write(EraseDisplay);
    }

    method WriteEscape(code: string)
      modifies this
      ensures State() == SendEscape(old(State()), code)
    {
      out := out + [[Esc] + code];
    }

    method Write(text: string)
      modifies this
      ensures State() == WriteText(old(State()), text)
    {
      out := out + [text];
      cursor := (cursor.0 + |text|, cursor.1);
    }

    /** `flush`: the log is unchanged (printing "" adds nothing visible). */
    method Flush()
      modifies this
      ensures State() == old(State())
    {
    }
  }
}
