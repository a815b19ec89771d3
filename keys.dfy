/** termpixels/keys.py: the platform-neutral key and mouse events.  A key
    carries an optional character and an optional name; it compares equal to
    a string that is either of them.  A mouse event derives one flag per
    action and one per button from the strings it is given. */
module Keys {

  import opened Wrappers

  /** `Key(char=..., name=...)`; a missing argument is `None`. */
  datatype Key = Key(ch: Option<string>, name: Option<string>)

  /** The right-hand side of `key == other`: a string, an object that has
      `char` and `name` attributes, or an object that lacks them. */
  datatype Operand = Text(s: string) | KeyLike(ch: Option<string>, name: Option<string>) | Other

  /** The operand a key is when it is on the right-hand side. */
  function AsOperand(k: Key): Operand { KeyLike(k.ch, k.name) }

  /** `str(key)`: the character when there is a non-empty one, otherwise "". */
  function Str(k: Key): (s: string)
    ensures s != "" <==> k.ch.Some? && k.ch.value != ""
    ensures s != "" ==> k.ch == Some(s)
  {
    if k.ch.Some? && k.ch.value != "" then k.ch.value else ""
  }

  /** `key == other`. */
  function Equals(k: Key, other: Operand): (r: bool)
    ensures other.Text? ==> (r <==> k.name == Some(other.s) || k.ch == Some(other.s))
    ensures other.KeyLike? ==> (r <==> k.ch == other.ch && k.name == other.name)
    ensures other.Other? ==> !r
  {
    match other
    case Text(s) => k.name == Some(s) || k.ch == Some(s)
    case KeyLike(c, n) => k.ch == c && k.name == n
    case Other => false
  }

  /** Between keys, `==` is equality of the pair (char, name): reflexive,
      symmetric and transitive. */
  lemma KeyEqualityIsValueEquality(a: Key, b: Key, c: Key)
    ensures Equals(a, AsOperand(b)) <==> a == b
    ensures Equals(a, AsOperand(a))
    ensures Equals(a, AsOperand(b)) ==> Equals(b, AsOperand(a))
    ensures Equals(a, AsOperand(b)) && Equals(b, AsOperand(c)) ==> Equals(a, AsOperand(c))
  {
  }

  /** A key equals the string `str` gives for it, when that is not empty. */
  lemma EqualsOwnText(k: Key)
    requires Str(k) != ""
    ensures Equals(k, Text(Str(k)))
  {
  }

  /** Comparison with strings is not transitive: a key whose character and
      name differ equals two strings that differ from each other. */
  lemma TextEqualityNotTransitive()
    ensures var k := Key(Some("q"), Some("quit"));
      Equals(k, Text("q")) && Equals(k, Text("quit")) && "q" != "quit"
  {
  }

  /** A named key without a character prints as nothing and equals its name. */
  lemma NamedKeyExample()
    ensures Str(Key(None, Some("up"))) == ""
    ensures Equals(Key(None, Some("up")), Text("up"))
    ensures !Equals(Key(None, Some("up")), Text("down"))
  {
  }

  /** `Mouse(x, y, button=..., action=...)` with the flags its constructor derives. */
  datatype Mouse = Mouse(x: int, y: int, button: Option<string>, action: Option<string>,
                         down: bool, moved: bool, up: bool,
                         left: bool, right: bool, middle: bool, scrollup: bool, scrolldown: bool)

  const ActionNames: seq<string> := ["down", "moved", "up"]
  const ButtonNames: seq<string> := ["left", "right", "middle", "scrollup", "scrolldown"]

  /** The constructor: each flag holds exactly when its argument is that name. */
  function NewMouse(x: int, y: int, button: Option<string>, action: Option<string>): (m: Mouse)
    ensures (m.x, m.y, m.button, m.action) == (x, y, button, action)
    ensures ActionFlags(m) == seq(3, i requires 0 <= i < 3 => action == Some(ActionNames[i]))
    ensures ButtonFlags(m) == seq(5, i requires 0 <= i < 5 => button == Some(ButtonNames[i]))
  {
    Mouse(x, y, button, action,
          action == Some("down"), action == Some("moved"), action == Some("up"),
          button == Some("left"), button == Some("right"), button == Some("middle"),
          button == Some("scrollup"), button == Some("scrolldown"))
  }

  function ActionFlags(m: Mouse): seq<bool> { [m.down, m.moved, m.up] }

  function ButtonFlags(m: Mouse): seq<bool> { [m.left, m.right, m.middle, m.scrollup, m.scrolldown] }

  /** How many of the flags are set. */
  function CountTrue(flags: seq<bool>): (n: nat)
    ensures n <= |flags|
    decreases |flags|
  {
    if flags == [] then 0 else (if flags[0] then 1 else 0) + CountTrue(flags[1..])
  }

  /** Flags that each name a different string: at most one holds, and one
      holds exactly when the value is one of the names. */
  lemma {:induction false} AtMostOneNamed(v: Option<string>, names: seq<string>)
    requires forall i, j :: 0 <= i < j < |names| ==> names[i] != names[j]
    ensures var flags := seq(|names|, i requires 0 <= i < |names| => v == Some(names[i]));
      CountTrue(flags) <= 1 && (CountTrue(flags) == 1 <==> v.Some? && v.value in names)
    decreases |names|
  {
    var flags := seq(|names|, i requires 0 <= i < |names| => v == Some(names[i]));
    if names != [] {
      var rest := names[1..];
      AtMostOneNamed(v, rest);
      var restFlags := seq(|rest|, i requires 0 <= i < |rest| => v == Some(rest[i]));
      assert flags[1..] == restFlags;
      if v == Some(names[0]) {
        assert v.value !in rest by {
          forall i | 0 <= i < |rest| ensures rest[i] != v.value {
            assert rest[i] == names[i + 1];
          }
        }
      }
      assert v.Some? && v.value in names <==> v == Some(names[0]) || (v.Some? && v.value in rest);
    }
  }

  /** At most one of down, moved and up is set; one is set exactly when the
      action is one of those names. */
  lemma OneActionFlag(x: int, y: int, button: Option<string>, action: Option<string>)
    ensures var m := NewMouse(x, y, button, action);
      CountTrue(ActionFlags(m)) <= 1 && (CountTrue(ActionFlags(m)) == 1 <==> action.Some? && action.value in ActionNames)
  {
    AtMostOneNamed(action, ActionNames);
  }

  /** At most one button flag is set, the one that names the button. */
  lemma OneButtonFlag(x: int, y: int, button: Option<string>, action: Option<string>)
    ensures var m := NewMouse(x, y, button, action);
      CountTrue(ButtonFlags(m)) <= 1 && (CountTrue(ButtonFlags(m)) == 1 <==> button.Some? && button.value in ButtonNames)
  {
    AtMostOneNamed(button, ButtonNames);
  }
}
