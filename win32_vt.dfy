/** termpixels/win32_vt.py: the Windows backend for consoles that interpret
    VT escape sequences.  Like the Unix backend it remembers the cursor and
    the colours and queues a sequence only when a value changes; unlike it,
    everything it would print is appended to the list `buffer`, and `flush`
    hands the whole list to the console at once.  The sequences are the
    Unix backend's CUP and SGR texts with the escape character included. */
module Win32Vt {

  import opened Wrappers
  import opened Colors
  import opened Geometry
  import opened Util
  import Unix

  /** `AttributeError`: `_show_cursor` is read but never assigned.
      `NameError`: `flush` names `WORD`, which nothing defines. */
  datatype VtError = AttributeError | NameError

  /** What the backend remembers and what it has queued.  `showCursor` is
      `None` while the attribute does not exist. */
  datatype VtState = VtState(fg: Option<Color>, bg: Color, cursor: Option<Pos>, showCursor: Option<bool>,
                             buffer: seq<string>)

  const Esc: char := Unix.Esc

  /** `\x1b[?1049h` and `\x1b[?1049l`: switch to and from the alternate screen. */
  const EnterAltCode: string := [Esc] + "[?1049h"
  const ExitAltCode: string := [Esc] + "[?1049l"

  /** The DECTCEM set or reset sequence. */
  function ShowCursorCode(show: bool): (code: string)
    ensures show ==> code == [Esc] + "[?25h"
    ensures !show ==> code == [Esc] + "[?25l"
  {
    [Esc] + "[?25" + (if show then "h" else "l")
  }

  /** `write_escape`: the text joins the queue. */
  function WriteEscape(t: VtState, text: string): (r: VtState)
    ensures r.buffer == t.buffer + [text]
    ensures r.(buffer := t.buffer) == t
  {
    t.(buffer := t.buffer + [text])
  }

  /** The `fg` setter: an SGR 38 only when the colour differs. */
  function SetFg(t: VtState, c: Color): (r: VtState)
    ensures r.fg == Some(c)
    ensures t.fg == Some(c) ==> r == t
    ensures t.fg != Some(c) ==> r.buffer == t.buffer + [[Esc] + Unix.SgrColorCode("38", c)]
    ensures r.(buffer := t.buffer, fg := t.fg) == t
  {
    if t.fg != Some(c) then WriteEscape(t, [Esc] + Unix.SgrColorCode("38", c)).(fg := Some(c)) else t
  }

  /** The `bg` setter: an SGR 48 only when the colour differs. */
  function SetBg(t: VtState, c: Color): (r: VtState)
    ensures r.bg == c
    ensures t.bg == c ==> r == t
    ensures t.bg != c ==> r.buffer == t.buffer + [[Esc] + Unix.SgrColorCode("48", c)]
    ensures r.(buffer := t.buffer, bg := t.bg) == t
  {
    if t.bg != c then WriteEscape(t, [Esc] + Unix.SgrColorCode("48", c)).(bg := c) else t
  }

  /** The `cursor_pos` setter: a CUP only when the position differs. */
  function MoveCursor(t: VtState, p: Pos): (r: VtState)
    ensures r.cursor == Some(p)
    ensures t.cursor == Some(p) ==> r == t
    ensures t.cursor != Some(p) ==> r.buffer == t.buffer + [[Esc] + Unix.CupCode(p)]
    ensures r.(buffer := t.buffer, cursor := t.cursor) == t
  {
    if t.cursor != Some(p) then WriteEscape(t, [Esc] + Unix.CupCode(p)).(cursor := Some(p)) else t
  }

  /** The `show_cursor` setter: raises while `_show_cursor` does not exist;
      otherwise queues the code when the setting differs, and never records
      the new setting. */
  function SetShowCursor(t: VtState, show: bool): (r: (VtState, Outcome<VtError>))
    ensures r.1.Fail? <==> t.showCursor.None?
    ensures r.1.Fail? ==> r.0 == t && r.1.error == AttributeError
    ensures t.showCursor == Some(!show) ==> r.0.buffer == t.buffer + [ShowCursorCode(show)]
    ensures t.showCursor == Some(show) ==> r.0 == t
    ensures r.0.(buffer := t.buffer) == t
  {
    if t.showCursor.None? then (t, Fail(AttributeError))
    else if t.showCursor.value != show then (WriteEscape(t, ShowCursorCode(show)), Pass)
    else (t, Pass)
  }

  /** `write(text)`: the text joins the queue, and a known cursor moves right
      by the terminal width of the text. */
  function WriteText(t: VtState, text: string, wm: WidthModel): (r: VtState)
    ensures r.buffer == t.buffer + [text]
    ensures t.cursor.None? ==> r.cursor.None?
    ensures t.cursor.Some? ==> r.cursor == Some((t.cursor.value.0 + TerminalLen(text, wm), t.cursor.value.1))
    ensures r.(buffer := t.buffer, cursor := t.cursor) == t
  {
    var t1 := WriteEscape(t, text);
    if t1.cursor.Some? then
      t1.(cursor := Some((t1.cursor.value.0 + TerminalLen(text, wm), t1.cursor.value.1)))
    else t1
  }

  /** `"".join(parts)`. */
  function Concat(parts: seq<string>): (s: string)
    ensures parts == [] ==> s == ""
    ensures parts != [] ==> parts[0] <= s
    decreases |parts|
  {
    if parts == [] then "" else Concat(parts[..|parts| - 1]) + parts[|parts| - 1]
  }

  /** Joining two runs of pieces joins their texts. */
  lemma {:induction false} ConcatAppend(a: seq<string>, b: seq<string>)
    ensures Concat(a + b) == Concat(a) + Concat(b)
    decreases |b|
  {
    if b == [] {
      assert a + b == a;
    } else {
      var b' := b[..|b| - 1];
      ConcatAppend(a, b');
      assert (a + b)[..|a + b| - 1] == a + b';
      assert (a + b)[|a + b| - 1] == b[|b| - 1];
    }
  }

  /** The length of the joined text is the sum of the lengths of the pieces,
      none of which is dropped. */
  lemma {:induction false} ConcatLength(parts: seq<string>)
    ensures |Concat(parts)| == SumLengths(parts)
    decreases |parts|
  {
    if parts != [] {
      ConcatLength(parts[..|parts| - 1]);
    }
  }

  function SumLengths(parts: seq<string>): nat
    decreases |parts|
  {
    if parts == [] then 0 else SumLengths(parts[..|parts| - 1]) + |parts[|parts| - 1]|
  }

  /** `flush` as written: `"".join` succeeds, then looking up `WORD` raises,
      so nothing is sent and the queue is kept. */
  function FlushAsWritten(t: VtState): (r: (VtState, Outcome<VtError>))
    ensures r.0 == t && r.1 == Fail(NameError)
  {
    (t, Fail(NameError))
  }

  /** `flush` as intended: the queued strings are sent as one text, in the
      order they were queued, and the queue is emptied. */
  function Flush(t: VtState): (r: (VtState, string))
    ensures r.0.buffer == [] && r.0.(buffer := t.buffer) == t
    ensures r.1 == Concat(t.buffer)
  {
    (t.(buffer := []), Concat(t.buffer))
  }

  /** As written, the queue only ever grows: after a write and a flush the
      written text is still queued, where the intended flush empties it. */
  lemma FlushAsWrittenKeepsQueue(t: VtState, text: string, wm: WidthModel)
    ensures var t1 := WriteText(t, text, wm);
      FlushAsWritten(t1).0.buffer == t.buffer + [text] && FlushAsWritten(t1).0 != Flush(t1).0
  {
  }

  /** As intended, a flush after queuing `s` sends what was queued before,
      then `s`; a second flush sends nothing. */
  lemma FlushSendsInOrder(t: VtState, s: string)
    ensures Flush(WriteEscape(t, s)).1 == Flush(t).1 + s
    ensures Flush(Flush(t).0).1 == ""
  {
    ConcatAppend(t.buffer, [s]);
    assert Concat([s]) == Concat([]) + s;
  }

  /** Because the setting is never recorded, hiding an already visible cursor
      twice queues the code twice. */
  lemma ShowCursorNeverStored(t: VtState)
    requires t.showCursor == Some(true)
    ensures var t1 := SetShowCursor(SetShowCursor(t, false).0, false).0;
      t1.buffer == t.buffer + [ShowCursorCode(false), ShowCursorCode(false)] && t1.showCursor == Some(true)
  {
  }

  /** Setting the same colour or position twice queues at most one code. */
  lemma SettersIdempotent(t: VtState, p: Pos, c: Color)
    ensures MoveCursor(MoveCursor(t, p), p) == MoveCursor(t, p)
    ensures SetFg(SetFg(t, c), c) == SetFg(t, c)
    ensures SetBg(SetBg(t, c), c) == SetBg(t, c)
  {
  }

  /** After a narrow character is written at (x, y) the cursor is at
      (x + 1, y): moving there queues nothing. */
  lemma AdjacentNeedsNoMove(t: VtState, x: int, y: int, ch: char, wm: WidthModel)
    requires t.cursor == Some((x, y)) && TerminalCharLen(ch, wm) == 1
    ensures MoveCursor(WriteText(t, [ch], wm), (x + 1, y)) == WriteText(t, [ch], wm)
  {
    assert TerminalLen([ch], wm) == 1;
  }

  /** The backend object.  Its constructor is not modelled (it names
      undefined constants), so an object starts in any state. */
  class Win32VtBackend {
    var fg: Option<Color>
    var bg: Color
    var cursorPos: Option<Pos>
    var showCursor: Option<bool>
    var buffer: seq<string>

    function State(): VtState
      reads this
    {
      VtState(fg, bg, cursorPos, showCursor, buffer)
    }

    method SetFgTo(c: Color)
      modifies this
      ensures State() == SetFg(old(State()), c)
    {
      if fg != Some(c) {
        WriteEscapeNow([Esc] + Unix.SgrColorCode("38", c));
        fg := Some(c);
      }
    }

    method SetBgTo(c: Color)
      modifies this
      ensures State() == SetBg(old(State()), c)
    {
      if bg != c {
        WriteEscapeNow([Esc] + Unix.SgrColorCode("48", c));
        bg := c;
      }
    }

    method SetCursorPos(p: Pos)
      modifies this
      ensures State() == MoveCursor(old(State()), p)
    {
      if cursorPos != Some(p) {
        WriteEscapeNow([Esc] + Unix.CupCode(p));
        cursorPos := Some(p);
      }
    }

    method SetShowCursorTo(show: bool) returns (r: Outcome<VtError>)
      modifies this
      ensures (State(), r) == SetShowCursor(old(State()), show)
    {
      if showCursor.None? {
        return Fail(AttributeError);
      }
      if showCursor.value != show {
        WriteEscapeNow(ShowCursorCode(show));
      }
      r := Pass;
    }

    method EnterAltBuffer()
      modifies this
      ensures State() == WriteEscape(old(State()), EnterAltCode)
    {
      WriteEscapeNow(EnterAltCode);
    }

    method ExitAltBuffer()
      modifies this
      ensures State() == WriteEscape(old(State()), ExitAltCode)
    {
      WriteEscapeNow(ExitAltCode);
    }

    method Write(text: string, wm: WidthModel)
      modifies this
      ensures State() == WriteText(old(State()), text, wm)
    {
      WriteEscapeNow(text);
      if cursorPos.Some? {
        cursorPos := Some((cursorPos.value.0 + TerminalLen(text, wm), cursorPos.value.1));
      }
    }

    method WriteEscapeNow(text: string)
      modifies this
      ensures State() == WriteEscape(old(State()), text)
    {
      buffer := buffer + [text];
    }

    /** `flush` as written raises before it sends anything. */
    method FlushNowAsWritten() returns (r: Outcome<VtError>)
      ensures (State(), r) == FlushAsWritten(old(State()))
    {
      r := Fail(NameError);
    }

    /** `flush` as intended: returns the text handed to `WriteConsoleW`. */
    method FlushNow() returns (sent: string)
      modifies this
      ensures (State(), sent) == Flush(old(State()))
    {
      sent := Concat(buffer);
      buffer := [];
    }
  }
}
