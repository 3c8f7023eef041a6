/**
 * ModalOption: the mutable configuration record of one modal, with its
 * defaults, its fluent setters and its field-by-field copy.
 */
module ModalOptions {

  /** One five-value enum serves both axes, so a horizontal Top is representable. */
  datatype Position = Left | Center | Right | Top | Bottom

  datatype AnimationDirection = LeftToRight | RightToLeft | TopToBottom | BottomToTop | Fade

  /** java.awt.Color by its four components; the constructor rejects components outside 0..255. */
  datatype Color = Color(red: int, green: int, blue: int, alpha: int)

  predicate ValidColor(c: Color) {
    0 <= c.red < 256 && 0 <= c.green < 256 && 0 <= c.blue < 256 && 0 <= c.alpha < 256
  }

  const TwoTo32: int := 0x1_0000_0000

  /** Color.getRGB(): the components packed as alpha-red-green-blue bytes, read as a signed 32-bit int. */
  function Rgb(c: Color): int
  {
    var packed := c.alpha * 0x100_0000 + c.red * 0x1_0000 + c.green * 0x100 + c.blue;
    if c.alpha >= 128 then packed - TwoTo32 else packed
  }

  /** `new Color(int rgb)`: bits 16..23, 8..15 and 0..7 give red, green and blue; alpha is 255. */
  function FromRgb(v: int): Color
  {
    Color((v / 0x1_0000) % 0x100, (v / 0x100) % 0x100, v % 0x100, 255)
  }

  /** The colour ModalOption.copy() stores: `new Color(backgroundColor.getRGB())`. */
  function CopyColor(c: Color): Color
  {
    FromRgb(Rgb(c))
  }

  lemma DivModByte(x: int, q: int, r: int)
    requires 0 <= r < 0x100 && x == q * 0x100 + r
    ensures x / 0x100 == q && x % 0x100 == r
  {
  }

  lemma DivModHalfWord(x: int, q: int, r: int)
    requires 0 <= r < 0x1_0000 && x == q * 0x1_0000 + r
    ensures x / 0x1_0000 == q
  {
  }

  /** copy() keeps red, green and blue of a valid colour and makes it opaque. */
  lemma CopyColorDropsAlpha(c: Color)
    requires ValidColor(c)
    ensures CopyColor(c) == c.(alpha := 255)
  {
    var v := Rgb(c);
    var k := if c.alpha >= 128 then 1 else 0;
    var hi := c.alpha * 256 + c.red - k * 0x1_0000;
    assert v == hi * 0x1_0000 + (c.green * 0x100 + c.blue);
    DivModHalfWord(v, hi, c.green * 0x100 + c.blue);
    DivModByte(hi, c.alpha - k * 256, c.red);
    var mid := hi * 0x100 + c.green;
    assert v == mid * 0x100 + c.blue;
    DivModByte(v, mid, c.blue);
    DivModByte(mid, hi, c.green);
  }

  /** A snapshot of every field of a ModalOption. */
  datatype Settings = Settings(
    horizontalPosition: Position,
    verticalPosition: Position,
    margin: int,
    padding: int,
    roundness: int,
    backgroundColor: Color,
    backgroundOpacity: real,
    animationEnabled: bool,
    duration: int,
    animationDirection: AnimationDirection,
    closeOnEscape: bool,
    closeOnClickOutside: bool)

  /** What copy() stores: every field as it is, except the colour, rebuilt from its packed RGB value. */
  function CopiedSettings(s: Settings): Settings
  {
    s.(backgroundColor := CopyColor(s.backgroundColor))
  }

  /** The field initialisers of ModalOption. */
  const Defaults: Settings := Settings(
    Center, Center, 20, 20, 15, Color(0, 0, 0, 128), 0.5,
    true, 300, RightToLeft, true, true)

  /** The default colour is translucent black, and a copy of it is opaque black. */
  lemma DefaultColorCopiesOpaque()
    ensures ValidColor(Defaults.backgroundColor) && Defaults.backgroundColor.alpha == 128
    ensures CopiedSettings(Defaults) == Defaults.(backgroundColor := Color(0, 0, 0, 255))
  {
    CopyColorDropsAlpha(Defaults.backgroundColor);
  }

  class ModalOption {
    var horizontalPosition: Position
    var verticalPosition: Position
    var margin: int
    var padding: int
    var roundness: int
    var backgroundColor: Color
    var backgroundOpacity: real
    var animationEnabled: bool
    var duration: int
    var animationDirection: AnimationDirection
    var closeOnEscape: bool
    var closeOnClickOutside: bool

    function Value(): Settings
      reads this
    {
      Settings(horizontalPosition, verticalPosition, margin, padding, roundness,
               backgroundColor, backgroundOpacity, animationEnabled, duration,
               animationDirection, closeOnEscape, closeOnClickOutside)
    }

    /** `new ModalOption()`: every field at its default. */
    constructor ()
      ensures Value() == Defaults
    {
      horizontalPosition, verticalPosition := Center, Center;
      margin, padding, roundness := 20, 20, 15;
      backgroundColor, backgroundOpacity := Color(0, 0, 0, 128), 0.5;
      animationEnabled, duration, animationDirection := true, 300, RightToLeft;
      closeOnEscape, closeOnClickOutside := true, true;
    }

    /** getDefault(): a new object on every call, so never identical to one held elsewhere. */
    static method GetDefault() returns (o: ModalOption)
      ensures fresh(o) && o.Value() == Defaults
    {
      o := new ModalOption();
    }

    method SetHorizontalPosition(position: Position) returns (self: ModalOption)
      modifies this
      ensures self == this && Value() == old(Value()).(horizontalPosition := position)
    {
      horizontalPosition := position;
      self := this;
    }

    method SetVerticalPosition(position: Position) returns (self: ModalOption)
      modifies this
      ensures self == this && Value() == old(Value()).(verticalPosition := position)
    {
      verticalPosition := position;
      self := this;
    }

    /** No range check: a negative margin is stored as given. */
    method SetMargin(m: int) returns (self: ModalOption)
      modifies this
      ensures self == this && Value() == old(Value()).(margin := m)
    {
      margin := m;
      self := this;
    }

    method SetPadding(p: int) returns (self: ModalOption)
      modifies this
      ensures self == this && Value() == old(Value()).(padding := p)
    {
      padding := p;
      self := this;
    }

    method SetRoundness(r: int) returns (self: ModalOption)
      modifies this
      ensures self == this && Value() == old(Value()).(roundness := r)
    {
      roundness := r;
      self := this;
    }

    method SetBackgroundColor(c: Color) returns (self: ModalOption)
      modifies this
      ensures self == this && Value() == old(Value()).(backgroundColor := c)
    {
      backgroundColor := c;
      self := this;
    }

    /** No clamping to [0, 1]. */
    method SetBackgroundOpacity(opacity: real) returns (self: ModalOption)
      modifies this
      ensures self == this && Value() == old(Value()).(backgroundOpacity := opacity)
    {
      backgroundOpacity := opacity;
      self := this;
    }

    method SetAnimationEnabled(enabled: bool) returns (self: ModalOption)
      modifies this
      ensures self == this && Value() == old(Value()).(animationEnabled := enabled)
    {
      animationEnabled := enabled;
      self := this;
    }

    /** No check against negative durations. */
    method SetDuration(d: int) returns (self: ModalOption)
      modifies this
      ensures self == this && Value() == old(Value()).(duration := d)
    {
      duration := d;
      self := this;
    }

    method SetAnimationDirection(direction: AnimationDirection) returns (self: ModalOption)
      modifies this
      ensures self == this && Value() == old(Value()).(animationDirection := direction)
    {
      animationDirection := direction;
      self := this;
    }

    method SetCloseOnEscape(close: bool) returns (self: ModalOption)
      modifies this
      ensures self == this && Value() == old(Value()).(closeOnEscape := close)
    {
      closeOnEscape := close;
      self := this;
    }

    method SetCloseOnClickOutside(close: bool) returns (self: ModalOption)
      modifies this
      ensures self == this && Value() == old(Value()).(closeOnClickOutside := close)
    {
      closeOnClickOutside := close;
      self := this;
    }

    /** These options hold what copying options with settings s gives. */
    predicate CopyOf(s: Settings)
      reads this
    {
      Value() == CopiedSettings(s)
    }

    /**
     * copy(): a new object with every field equal to this one's except the
     * colour, which is rebuilt from its packed RGB value (alpha lost).
     */
    method Copy() returns (o: ModalOption)
      ensures fresh(o)
      ensures o.Value() == CopiedSettings(Value())
    {
      ghost var s := Value();
      var color := CopyColor(backgroundColor);
      o := new ModalOption();
      assert o != this;
      o.horizontalPosition := horizontalPosition;
      o.verticalPosition := verticalPosition;
      o.margin := margin;
      o.padding := padding;
      o.roundness := roundness;
      o.backgroundColor := color;
      o.backgroundOpacity := backgroundOpacity;
      o.animationEnabled := animationEnabled;
      o.duration := duration;
      o.animationDirection := animationDirection;
      o.closeOnEscape := closeOnEscape;
      o.closeOnClickOutside := closeOnClickOutside;
      assert o.Value() == s.(backgroundColor := color);
    }
  }

  /** Changing a copy leaves its source as it was: the copy is a separate object. */
  method CopyIsIndependent(source: ModalOption, m: int, opacity: real, c: Color) returns (copy: ModalOption)
    ensures fresh(copy) && copy != source
    ensures source.Value() == old(source.Value())
    ensures copy.margin == m && copy.backgroundOpacity == opacity && copy.backgroundColor == c
  {
    copy := source.Copy();
    var _ := copy.SetMargin(m);
    var _ := copy.SetBackgroundOpacity(opacity);
    var _ := copy.SetBackgroundColor(c);
  }
}
