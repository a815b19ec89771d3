/** The mutable character cell of termpixels/pixeldata.py: a character, a
    foreground and a background colour, and a lazily computed hash that every
    change of value invalidates.  `ImmutablePixelData` and its subclass
    `PixelData` are one class here; the first is the second without setters. */
module Pixels {

  import opened Wrappers
  import opened Colors

  /** The value of a cell, compared by its three fields. */
  datatype Cell = Cell(ch: char, fg: Color, bg: Color)

  /** `PixelData()`: white on black, a space. */
  const DefaultCell := Cell(' ', White, Black)

  function Pack(c: Color): int { c.r * 0x10000 + c.g * 0x100 + c.b }

  /** `hash((char, fg, bg))`: a deterministic integer that different cells
      may share; nothing below relies on it being injective. */
  function HashOf(v: Cell): int
  {
    v.ch as int + 31 * (Pack(v.fg) + 31 * Pack(v.bg))
  }

  /** `Exception("Character must have length 1")`. */
  datatype PixelError = CharLengthError

  class PixelData {
    var ch: char
    var fg: Color
    var bg: Color
    /** `_hash`: `None` until `__hash__` computes it. */
    var hash: Option<int>

    /** The cache invariant: an absent hash, or the hash of the current value. */
    ghost predicate Valid()
      reads this
    {
      hash.None? || hash.value == HashOf(Value())
    }

    function Value(): Cell
      reads this
    {
      Cell(ch, fg, bg)
    }

    /** `PixelData()` with the default arguments. */
    constructor Default()
      ensures hash.None? && Valid() && Value() == DefaultCell
    {
      ch := ' ';
      fg := White;
      bg := Black;
      hash := None;
    }

    /** `PixelData(fg=fg, bg=bg, char=c)` for a one-character string. */
    constructor Make(fg: Color, bg: Color, c: char)
      ensures Valid() && Value() == Cell(c, fg, bg) && hash.None?
    {
      this.ch, this.fg, this.bg, this.hash := c, fg, bg, None;
    }

    /** `PixelData(fg=fg, bg=bg, char=s)`: any string that is not exactly one
        character long is refused. */
    static method New(fg: Color, bg: Color, s: string) returns (r: Result<PixelData, PixelError>)
      ensures r.Err? <==> |s| != 1
      ensures r.Ok? ==> fresh(r.value) && r.value.Valid() && r.value.hash.None?
      ensures r.Ok? ==> r.value.Value() == Cell(s[0], fg, bg)
    {
      if |s| != 1 {
        return Err(CharLengthError);
      }
      var p := new PixelData.Make(fg, bg, s[0]);
      r := Ok(p);
    }

    /** `__hash__`: fills the cache on first use and returns the cached value. */
    method Hash() returns (h: int)
      requires Valid()
      modifies this
      ensures Valid() && Value() == old(Value())
      ensures h == HashOf(Value()) && hash == Some(h)
      ensures old(hash).Some? ==> hash == old(hash)
    {
      if hash.None? {
        hash := Some(HashOf(Value()));
      }
      h := hash.value;
    }

    /** `__eq__`: unequal hashes mean unequal cells; otherwise the three
        fields decide.  Under the cache invariant the answer is exactly value
        equality, whatever the hash function. */
    method Equals(other: PixelData) returns (eq: bool)
      requires Valid() && other.Valid()
      modifies this, other
      ensures Valid() && other.Valid()
      ensures Value() == old(Value()) && other.Value() == old(other.Value())
      ensures eq <==> old(Value()) == old(other.Value())
    {
      var h1 := Hash();
      var h2 := other.Hash();
      if h1 != h2 {
        return false;
      }
      eq := fg == other.fg && bg == other.bg && ch == other.ch;
    }

    /** The `char` setter: refuses a string of any other length than one and
        drops the cached hash only when the character actually changes. */
    method SetChar(s: string) returns (r: Outcome<PixelError>)
      requires Valid()
      modifies this
      ensures Valid()
      ensures r.Fail? <==> |s| != 1
      ensures r.Fail? ==> Value() == old(Value()) && hash == old(hash)
      ensures r.Pass? ==> Value() == old(Value()).(ch := s[0])
      ensures r.Pass? ==> hash == if old(ch) == s[0] then old(hash) else None
    {
      if |s| != 1 {
        return Fail(CharLengthError);
      }
      if ch != s[0] {
        ch := s[0];
        hash := None;
      }
      r := Pass;
    }

    /** The `fg` setter. */
    method SetFg(c: Color)
      requires Valid()
      modifies this
      ensures Valid()
      ensures Value() == old(Value()).(fg := c)
      ensures hash == if old(fg) == c then old(hash) else None
    {
      if fg != c {
        fg := c;
        hash := None;
      }
    }

    /** The `bg` setter. */
    method SetBg(c: Color)
      requires Valid()
      modifies this
      ensures Valid()
      ensures Value() == old(Value()).(bg := c)
      ensures hash == if old(bg) == c then old(hash) else None
    {
      if bg != c {
        bg := c;
        hash := None;
      }
    }

    /** `set(pixel)`: copies the three fields of `p`, drops the cache and
        returns this cell. */
    method Set(p: PixelData) returns (self: PixelData)
      modifies this
      ensures self == this
      ensures Valid() && hash.None?
      ensures Value() == old(p.Value())
    {
      fg, bg, ch := p.fg, p.bg, p.ch;
      hash := None;
      self := this;
    }
  }
}
