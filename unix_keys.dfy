/** termpixels/unix_keys.py: the parsers the Unix input path applies to a
    group of characters read from the terminal.  `KeyParser` maps escape
    sequences to keys and answers with the first registered sequence that
    starts the group; `SgrMouseParser` reads an xterm SGR mouse report,
    the prefix followed by `button;x;y` and a final `M` (press) or `m`
    (release), with 1-based coordinates. */
module UnixKeys {

  import opened Wrappers
  import opened Strings
  import opened Decimal
  import Keys

  /** This file's `Key` has the fields and the `__str__` of `Keys.Key`;
      only its comparison with a string differs. */
  type Key = Keys.Key

  /** `key == other`: a string is compared with the character alone. */
  function Equals(k: Key, other: Keys.Operand): (r: bool)
    ensures other.Text? ==> (r <==> k.ch == Some(other.s))
    ensures !other.Text? ==> (r <==> Keys.Equals(k, other))
  {
    match other
    case Text(s) => k.ch == Some(s)
    case _ => Keys.Equals(k, other)
  }

  /** Unlike `Keys.Key`, a named key without a character never equals its
      name; the two agree on every string that is not the key's name. */
  lemma NameNotCompared(k: Key, s: string)
    ensures k.ch.None? ==> !Equals(k, Keys.Text(s))
    ensures k.name != Some(s) ==> (Equals(k, Keys.Text(s)) <==> Keys.Equals(k, Keys.Text(s)))
    ensures Equals(k, Keys.Text(s)) ==> Keys.Equals(k, Keys.Text(s))
  {
  }

  lemma NamedKeyExample()
    ensures !Equals(Keys.Key(None, Some("left")), Keys.Text("left"))
    ensures Keys.Equals(Keys.Key(None, Some("left")), Keys.Text("left"))
  {
  }

  // ---------------------------------------------------------------------------
  // KeyParser

  /** A registry in insertion order: the patterns in `order`, each once, and
      exactly those patterns as the keys of `table` (a Python dict iterates
      in insertion order). */
  predicate Registry(order: seq<string>, table: map<string, Key>)
  {
    (forall i, j :: 0 <= i < j < |order| ==> order[i] != order[j]) &&
    (forall i :: 0 <= i < |order| ==> order[i] in table) &&
    (forall p :: p in table ==> p in order)
  }

  /** `pattern_key_pairs[pattern] = key`: a new pattern goes at the end, an
      existing one keeps its place and takes the new key. */
  function Register(order: seq<string>, table: map<string, Key>, pattern: string, key: Key)
    : (r: (seq<string>, map<string, Key>))
    requires Registry(order, table)
    ensures Registry(r.0, r.1)
    ensures pattern in table ==> r.0 == order
    ensures pattern !in table ==> r.0 == order + [pattern]
    ensures r.1 == table[pattern := key]
  {
    if pattern in table then (order, table[pattern := key]) else (order + [pattern], table[pattern := key])
  }

  /** The first position whose pattern starts the group, or -1. */
  function FirstMatch(order: seq<string>, group: string): (i: int)
    ensures -1 <= i < |order|
    ensures i >= 0 ==> order[i] <= group
    ensures i >= 0 ==> forall j :: 0 <= j < i ==> !(order[j] <= group)
    ensures i == -1 ==> forall j :: 0 <= j < |order| ==> !(order[j] <= group)
    decreases |order|
  {
    if order == [] then -1
    else if order[0] <= group then 0
    else
      var i := FirstMatch(order[1..], group);
      if i == -1 then -1 else i + 1
  }

  /** What `parse` answers: the key of the first matching pattern (a copy,
      which for a value is the value), or `None`. */
  function Lookup(order: seq<string>, table: map<string, Key>, group: string): (r: Option<Key>)
    requires Registry(order, table)
    ensures r.None? <==> forall j :: 0 <= j < |order| ==> !(order[j] <= group)
    ensures r.Some? ==> exists j :: (0 <= j < |order| && order[j] <= group && r.value == table[order[j]] &&
                                     forall k :: 0 <= k < j ==> !(order[k] <= group))
  {
    var i := FirstMatch(order, group);
    if i >= 0 then Some(table[order[i]]) else None
  }

  /** `parse` answers with the first registered pattern that is a prefix,
      not the longest: a shorter pattern registered earlier hides a longer
      one registered after it. */
  lemma FirstNotLongest(k1: Key, k2: Key)
    ensures var (o1, t1) := Register([], map[], "\U{1B}[", k1);
      var (o2, t2) := Register(o1, t1, "\U{1B}[A", k2);
      Lookup(o2, t2, "\U{1B}[A") == Some(k1)
  {
    var (o1, t1) := Register([], map[], "\U{1B}[", k1);
    var (o2, t2) := Register(o1, t1, "\U{1B}[A", k2);
    assert o2 == ["\U{1B}[", "\U{1B}[A"];
    assert o2[0] <= "\U{1B}[A";
  }

  /** Registering a pattern again replaces its key but not its place: it is
      still found before every pattern registered after it the first time. */
  lemma {:induction false} ReregisterKeepsPlace(order: seq<string>, table: map<string, Key>, pattern: string,
                                                key: Key, group: string)
    requires Registry(order, table) && pattern in table && pattern <= group
    requires forall j :: 0 <= j < |order| && order[j] <= group ==> order[j] == pattern
    ensures var r := Register(order, table, pattern, key);
      r.0 == order && Lookup(r.0, r.1, group) == Some(key)
  {
    var i := FirstMatch(order, group);
    var k :| 0 <= k < |order| && order[k] == pattern;
    assert i >= 0;
  }

  /** A group that no registered pattern starts is not a key. */
  lemma {:induction false} LookupNone(order: seq<string>, table: map<string, Key>, group: string)
    requires Registry(order, table)
    ensures Lookup(order, table, group).None? <==> forall p :: p in table ==> !(p <= group)
  {
    if Lookup(order, table, group).None? {
      forall p | p in table ensures !(p <= group) {
        var k :| 0 <= k < |order| && order[k] == p;
      }
    } else {
      var i := FirstMatch(order, group);
      assert order[i] in table && order[i] <= group;
    }
  }

  class KeyParser {
    var order: seq<string>
    var table: map<string, Key>

    ghost predicate Valid()
      reads this
    {
      Registry(order, table)
    }

    constructor ()
      ensures Valid() && order == [] && table == map[]
    {
      order := [];
      table := map[];
    }

    /** `register_key(pattern, key)`. */
    method RegisterKey(pattern: string, key: Key)
      requires Valid()
      modifies this
      ensures Valid()
      ensures (order, table) == Register(old(order), old(table), pattern, key)
    {
      if pattern !in table {
        order := order + [pattern];
      }
      table := table[pattern := key];
    }

    /** `parse(group)`: the patterns in insertion order, the first that
      starts the group wins. */
    method Parse(group: string) returns (r: Option<Key>)
      requires Valid()
      ensures r == Lookup(order, table, group)
      ensures r.Some? <==> exists p :: p in table && p <= group
    {
      LookupNone(order, table, group);
      for i := 0 to |order|
        invariant forall j :: 0 <= j < i ==> !(order[j] <= group)
      {
        if order[i] <= group {
          return Some(table[order[i]]);
        }
      }
      return None;
    }
  }

  // ---------------------------------------------------------------------------
  // SgrMouseParser

  /** `Mouse(x, y, button, pressed)` as this parser makes it: 0-based cell
      coordinates and the SGR button number. */
  datatype Mouse = Mouse(x: int, y: int, button: int, pressed: bool)

  /** `IndexError` (a field or the final character is missing) and
      `ValueError` (`int` refuses a field). */
  datatype MouseError = IndexError | ValueError

  /** `group[len(prefix):-1]`: the text between the prefix and the final
      character, empty when there is nothing between them. */
  function Body(prefix: string, group: string): string
  {
    if |prefix| <= |group| - 1 then group[|prefix|..|group| - 1] else ""
  }

  /** The `;`-separated fields of the report. */
  function Fields(prefix: string, group: string): (f: seq<string>)
    ensures |f| >= 1
  {
    Split(Body(prefix, group), ';')
  }

  /** `SgrMouseParser(prefix).parse(group)`: `None` for a group that does not
      start with the prefix; otherwise fields 0, 1 and 2 give the button and
      the 1-based column and row, and the final character says whether the
      button went down. */
  function ParseMouse(prefix: string, group: string): (r: Result<Option<Mouse>, MouseError>)
    ensures !(prefix <= group) ==> r == Ok(None)
    ensures prefix <= group && r.Ok? ==> r.value.Some?
    ensures r.Ok? && r.value.Some? ==>
      var m := r.value.value;
      var f := Fields(prefix, group);
      |group| >= 1 && (m.pressed <==> group[|group| - 1] == 'M') && |f| >= 3 &&
      ParseInt(f[0]) == Some(m.button) && ParseInt(f[1]) == Some(m.x + 1) && ParseInt(f[2]) == Some(m.y + 1)
    ensures r.Err? ==>
      var f := Fields(prefix, group);
      prefix <= group &&
      (r.error == IndexError <==>
         |group| == 0 || (ParseInt(f[0]).Some? && (|f| < 2 || (ParseInt(f[1]).Some? && |f| < 3))))
  {
    if !(prefix <= group) then Ok(None)
    else if |group| == 0 then Err(IndexError)
    else
      var pressed := group[|group| - 1] == 'M';
      var parts := Fields(prefix, group);
      match ParseInt(parts[0])
      case None => Err(ValueError)
      case Some(button) =>
        if |parts| < 2 then Err(IndexError)
        else
          match ParseInt(parts[1])
          case None => Err(ValueError)
          case Some(x) =>
            if |parts| < 3 then Err(IndexError)
            else
              match ParseInt(parts[2])
              case None => Err(ValueError)
              case Some(y) => Ok(Some(Mouse(x - 1, y - 1, button, pressed)))
  }

  /** The report a terminal sends for a mouse event: the prefix, the
      button and the 1-based column and row separated by `;`, then `M` for
      a press or `m` for a release. */
  function SgrReport(prefix: string, m: Mouse): (s: string)
    ensures prefix <= s && |s| > |prefix|
  {
    prefix + Join([IntToString(m.button), IntToString(m.x + 1), IntToString(m.y + 1)], ';') +
    (if m.pressed then "M" else "m")
  }

  /** The fields of a report are the three numbers it was made from, and
      its last character is the one that says press or release. */
  lemma {:induction false} ReportFields(prefix: string, m: Mouse)
    ensures var s := SgrReport(prefix, m);
      Fields(prefix, s) == [IntToString(m.button), IntToString(m.x + 1), IntToString(m.y + 1)] &&
      (s[|s| - 1] == 'M' <==> m.pressed)
  {
    var parts := [IntToString(m.button), IntToString(m.x + 1), IntToString(m.y + 1)];
    var s := SgrReport(prefix, m);
    assert Body(prefix, s) == Join(parts, ';');
    IntToStringNoChar(m.button, ';');
    IntToStringNoChar(m.x + 1, ';');
    IntToStringNoChar(m.y + 1, ';');
    SplitJoin(parts, ';');
  }

  /** Parsing a report gives back the event it reports. */
  lemma MouseRoundTrip(prefix: string, m: Mouse)
    ensures ParseMouse(prefix, SgrReport(prefix, m)) == Ok(Some(m))
  {
    ReportFields(prefix, m);
    IntRoundTrip(m.button);
    IntRoundTrip(m.x + 1);
    IntRoundTrip(m.y + 1);
  }

  /** xterm's SGR report for a left press at column 10, row 5. */
  lemma MouseExample()
    ensures ParseMouse("\U{1B}[<", "\U{1B}[<0;10;5M") == Ok(Some(Mouse(9, 4, 0, true)))
  {
    assert IntToString(10) == "10";
    assert Join(["0", "10", "5"], ';') == "0;10;5";
    assert SgrReport("\U{1B}[<", Mouse(9, 4, 0, true)) == "\U{1B}[<0;10;5M";
    MouseRoundTrip("\U{1B}[<", Mouse(9, 4, 0, true));
  }

  /** A report with two fields raises `IndexError`; the prefix alone, whose
      empty field `int` refuses, raises `ValueError`. */
  lemma MalformedExamples()
    ensures ParseMouse("\U{1B}[<", "\U{1B}[<0;10M") == Err(IndexError)
    ensures ParseMouse("\U{1B}[<", "\U{1B}[<") == Err(ValueError)
  {
    var g := "\U{1B}[<0;10M";
    assert Body("\U{1B}[<", g) == "0;10";
    assert Join(["0", "10"], ';') == "0;10";
    assert NoChar("0", ';') && NoChar("10", ';');
    SplitJoin(["0", "10"], ';');
    assert ParseInt("0") == Some(0);
    assert ParseInt("10") == Some(10);
    assert Body("\U{1B}[<", "\U{1B}[<") == "";
  }
}
