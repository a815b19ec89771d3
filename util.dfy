/** Terminal widths of characters and strings (termpixels/util.py), and the
    line splitting that `Buffer.print` uses (`splitlines_print`). */
module Util {

  /** The Unicode East Asian Width classes. */
  datatype WidthClass = F | W | A | H | Na | N

  /** Python's `unicodedata.east_asian_width`, which the model leaves
      uninterpreted, and the module's ambiguous-is-wide setting. */
  datatype WidthModel = WidthModel(eastAsianWidth: char -> WidthClass, ambiguousIsWide: bool)

  /** The setting as the module starts: ambiguous characters are narrow. */
  const AmbiguousIsWideDefault := false

  /** `terminal_char_len`: two cells for fullwidth and wide characters (and for
      ambiguous ones when they count as wide), one cell otherwise. */
  function TerminalCharLen(ch: char, wm: WidthModel): (n: nat)
    ensures n == 1 || n == 2
    ensures n == 2 <==>
      (wm.eastAsianWidth(ch) == F || wm.eastAsianWidth(ch) == W ||
       (wm.ambiguousIsWide && wm.eastAsianWidth(ch) == A))
  {
    var wide := if wm.ambiguousIsWide then [F, W, A] else [F, W];
    if wm.eastAsianWidth(ch) in wide then 2 else 1
  }

  /** `terminal_len`: the sum of the widths of the characters. */
  function TerminalLen(s: string, wm: WidthModel): (n: nat)
    ensures |s| <= n <= 2 * |s|
    decreases |s|
  {
    if s == [] then 0 else TerminalCharLen(s[0], wm) + TerminalLen(s[1..], wm)
  }

  lemma {:induction false} TerminalLenAppend(a: string, b: string, wm: WidthModel)
    ensures TerminalLen(a + b, wm) == TerminalLen(a, wm) + TerminalLen(b, wm)
    decreases |a|
  {
    if a == [] {
      assert a + b == b;
    } else {
      assert (a + b)[0] == a[0];
      assert (a + b)[1..] == a[1..] + b;
      TerminalLenAppend(a[1..], b, wm);
    }
  }

  /** A string is as wide as it is long exactly when none of its characters is wide. */
  lemma {:induction false} TerminalLenNarrow(s: string, wm: WidthModel)
    ensures TerminalLen(s, wm) == |s| <==> forall i :: 0 <= i < |s| ==> TerminalCharLen(s[i], wm) == 1
    decreases |s|
  {
    if s != [] {
      TerminalLenNarrow(s[1..], wm);
      assert forall i :: 1 <= i < |s| ==> s[i] == s[1..][i - 1];
    }
  }

  predicate IsBreak(c: char) { c == '\n' || c == '\r' }

  predicate NoBreak(s: string) { forall i :: 0 <= i < |s| ==> !IsBreak(s[i]) }

  /** `splitlines_print`: split at "\r\n", "\n" and "\r", keeping empty lines. */
  function SplitLines(s: string): (lines: seq<string>)
    ensures |lines| >= 1
    ensures forall i :: 0 <= i < |lines| ==> NoBreak(lines[i])
    decreases |s|
  {
    if s == [] then [""]
    else if s[0] == '\n' then [""] + SplitLines(s[1..])
    else if s[0] == '\r' then
      if |s| >= 2 && s[1] == '\n' then [""] + SplitLines(s[2..]) else [""] + SplitLines(s[1..])
    else
      var rest := SplitLines(s[1..]);
      [[s[0]] + rest[0]] + rest[1..]
  }

  /** The lines joined with "\n", the inverse of `SplitLines`. */
  function JoinLines(lines: seq<string>): string
    requires |lines| >= 1
    decreases |lines|
  {
    if |lines| == 1 then lines[0] else lines[0] + "\n" + JoinLines(lines[1..])
  }

  lemma {:induction false} SplitLinePrefix(line: string, rest: string)
    requires NoBreak(line)
    ensures SplitLines(line + rest) == [line + SplitLines(rest)[0]] + SplitLines(rest)[1..]
    decreases |line|
  {
    var r := SplitLines(rest);
    if line == [] {
      assert line + rest == rest;
      assert line + r[0] == r[0];
      assert [r[0]] + r[1..] == r;
    } else {
      assert (line + rest)[0] == line[0];
      assert (line + rest)[1..] == line[1..] + rest;
      SplitLinePrefix(line[1..], rest);
      assert [line[0]] + (line[1..] + SplitLines(rest)[0]) == line + SplitLines(rest)[0];
    }
  }

  /** Splitting lines joined with "\n" gives back the lines. */
  lemma {:induction false} SplitJoin(lines: seq<string>)
    requires |lines| >= 1
    requires forall i :: 0 <= i < |lines| ==> NoBreak(lines[i])
    ensures SplitLines(JoinLines(lines)) == lines
    decreases |lines|
  {
    if |lines| == 1 {
      SplitLinePrefix(lines[0], "");
      assert lines[0] + "" == lines[0];
    } else {
      var tail := JoinLines(lines[1..]);
      SplitJoin(lines[1..]);
      assert JoinLines(lines) == lines[0] + ("\n" + tail);
      SplitLinePrefix(lines[0], "\n" + tail);
      assert ("\n" + tail)[1..] == tail;
      assert SplitLines("\n" + tail) == [""] + lines[1..];
      assert lines[0] + "" == lines[0];
    }
  }

  lemma SplitLinesBase()
    ensures SplitLines("") == [""]
    ensures SplitLines("b") == ["b"]
  {
    assert "b"[1..] == "";
    assert ["b"[0]] + SplitLines("")[0] == "b";
    assert SplitLines("")[1..] == [];
  }

  lemma SplitAfterA(rest: string, tail: seq<string>)
    requires SplitLines(rest) == [""] + tail
    ensures SplitLines("a" + rest) == ["a"] + tail
  {
    SplitLinePrefix("a", rest);
    assert "a" + "" == "a";
  }

  /** The unit test of `splitlines_print` on Unix and old Mac line ends. */
  lemma SplitLinesUnixExamples()
    ensures SplitLines("a\nb") == ["a", "b"]
    ensures SplitLines("a\rb") == ["a", "b"]
  {
    SplitLinesBase();
    assert SplitLines("\nb") == ["", "b"] by { assert "\nb"[1..] == "b"; }
    assert SplitLines("\rb") == ["", "b"] by { assert "\rb"[1..] == "b"; }
    SplitAfterA("\nb", ["b"]);
    assert "a" + "\nb" == "a\nb";
    SplitAfterA("\rb", ["b"]);
    assert "a" + "\rb" == "a\rb";
  }

  /** The unit test of `splitlines_print` on Windows line ends. */
  lemma SplitLinesWindowsExample()
    ensures SplitLines("a\r\nb") == ["a", "b"]
  {
    SplitLinesBase();
    assert SplitLines("\r\nb") == ["", "b"] by { assert "\r\nb"[2..] == "b"; }
    SplitAfterA("\r\nb", ["b"]);
    assert "a" + "\r\nb" == "a\r\nb";
  }

  /** The unit test of `splitlines_print` on empty lines. */
  lemma SplitLinesEmptyLineExamples()
    ensures SplitLines("a\n\nb") == ["a", "", "b"]
    ensures SplitLines("a\n\r\n\nb") == ["a", "", "", "b"]
  {
    SplitLinesBase();
    assert SplitLines("\nb") == ["", "b"] by { assert "\nb"[1..] == "b"; }
    assert SplitLines("\n\nb") == ["", "", "b"] by { assert "\n\nb"[1..] == "\nb"; }
    assert SplitLines("\r\n\nb") == ["", "", "b"] by { assert "\r\n\nb"[2..] == "\nb"; }
    assert SplitLines("\n\r\n\nb") == ["", "", "", "b"] by { assert "\n\r\n\nb"[1..] == "\r\n\nb"; }
    SplitAfterA("\n\nb", ["", "b"]);
    assert "a" + "\n\nb" == "a\n\nb";
    SplitAfterA("\n\r\n\nb", ["", "", "b"]);
    assert "a" + "\n\r\n\nb" == "a\n\r\n\nb";
  }
}
