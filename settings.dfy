/** The popup's settings object and the rules its plus/minus buttons follow:
    each button moves one numeric setting by a fixed step and clamps it to
    that setting's range. */
module PopupSettings {

  /** The settings object. `lineHeightTenths` is the line-height multiplier
      counted in tenths (15 stands for 1.5); colours are `#rrggbb` strings. */
  datatype Settings = Settings(
    fontWeight: int,
    fontSize: int,
    lineHeightTenths: int,
    textColor: string,
    bgColor: string,
    bgOpacity: int,
    fillBg: bool,
    showBorder: bool,
    borderColor: string,
    borderWidth: int,
    padding: int,
    wrapText: bool,
    maxWidth: int,
    savedText: string)

  /** The values the settings start from before anything is loaded. */
  const Defaults: Settings := Settings(
    400, 20, 15, "#000000", "#ffffff", 100, true, false, "#000000", 2, 20, false, 800, "")

  /** The four settings that have plus/minus buttons. */
  datatype Knob = FontSize | LineHeight | BorderWidth | Padding

  datatype Button = Inc(knob: Knob) | Dec(knob: Knob)

  function Get(s: Settings, k: Knob): int
  {
    match k
    case FontSize => s.fontSize
    case LineHeight => s.lineHeightTenths
    case BorderWidth => s.borderWidth
    case Padding => s.padding
  }

  function Set(s: Settings, k: Knob, v: int): (r: Settings)
    ensures Get(r, k) == v
    ensures forall k' :: k' != k ==> Get(r, k') == Get(s, k')
  {
    match k
    case FontSize => s.(fontSize := v)
    case LineHeight => s.(lineHeightTenths := v)
    case BorderWidth => s.(borderWidth := v)
    case Padding => s.(padding := v)
  }

  /** How far one click moves the setting: one pixel, one tenth of line
      height, one pixel of border, five pixels of padding. */
  function StepSize(k: Knob): int
  {
    match k
    case FontSize => 1
    case LineHeight => 1
    case BorderWidth => 1
    case Padding => 5
  }

  function Lo(k: Knob): int
  {
    match k
    case FontSize => 8
    case LineHeight => 10
    case BorderWidth => 0
    case Padding => 0
  }

  function Hi(k: Knob): int
  {
    match k
    case FontSize => 100
    case LineHeight => 30
    case BorderWidth => 20
    case Padding => 100
  }

  predicate InRange(s: Settings, k: Knob)
  {
    Lo(k) <= Get(s, k) <= Hi(k)
  }

  /** Every stepped setting lies in its range. */
  predicate AllInRange(s: Settings)
  {
    forall k: Knob :: InRange(s, k)
  }

  /** `Math.min(v + step, hi)`. */
  function StepUp(v: int, step: int, hi: int): (r: int)
    ensures r <= hi && r <= v + step
    ensures r == hi || r == v + step
  {
    if v + step < hi then v + step else hi
  }

  /** `Math.max(v - step, lo)`. */
  function StepDown(v: int, step: int, lo: int): (r: int)
    ensures r >= lo && r >= v - step
    ensures r == lo || r == v - step
  {
    if v - step > lo then v - step else lo
  }

  /** The effect of one click on the settings. */
  function Press(s: Settings, b: Button): (r: Settings)
    ensures r == Set(s, b.knob, Get(r, b.knob))
    ensures InRange(s, b.knob) ==> InRange(r, b.knob)
    ensures b.Inc? && InRange(s, b.knob) ==>
      Get(s, b.knob) <= Get(r, b.knob) <= Get(s, b.knob) + StepSize(b.knob)
    ensures b.Dec? && InRange(s, b.knob) ==>
      Get(s, b.knob) - StepSize(b.knob) <= Get(r, b.knob) <= Get(s, b.knob)
    ensures b.Inc? ==> (Get(r, b.knob) ==
      if Get(s, b.knob) + StepSize(b.knob) <= Hi(b.knob) then Get(s, b.knob) + StepSize(b.knob) else Hi(b.knob))
    ensures b.Dec? ==> (Get(r, b.knob) ==
      if Get(s, b.knob) - StepSize(b.knob) >= Lo(b.knob) then Get(s, b.knob) - StepSize(b.knob) else Lo(b.knob))
  {
    var k := b.knob;
    var v := if b.Inc? then StepUp(Get(s, k), StepSize(k), Hi(k))
             else StepDown(Get(s, k), StepSize(k), Lo(k));
    Set(s, k, v)
  }

  /** Writing back a setting's own value changes nothing. */
  lemma SetOwnValue(s: Settings, k: Knob)
    ensures Set(s, k, Get(s, k)) == s
  {
  }

  /** No click takes a setting out of its range, and settings other than
      the clicked one keep their values. */
  lemma PressKeepsAllInRange(s: Settings, b: Button)
    requires AllInRange(s)
    ensures AllInRange(Press(s, b))
  {
    var r := Press(s, b);
    forall k: Knob ensures InRange(r, k) {
      assert InRange(s, k);
      if k != b.knob {
        assert Get(r, k) == Get(s, k);
      }
    }
  }

  /** An increment followed by a decrement, away from the upper bound,
      restores the original settings. */
  lemma IncThenDec(s: Settings, k: Knob)
    requires InRange(s, k) && Get(s, k) + StepSize(k) <= Hi(k)
    ensures Press(Press(s, Inc(k)), Dec(k)) == s
  {
    SetOwnValue(s, k);
  }

  /** A decrement followed by an increment, away from the lower bound,
      restores the original settings. */
  lemma DecThenInc(s: Settings, k: Knob)
    requires InRange(s, k) && Get(s, k) - StepSize(k) >= Lo(k)
    ensures Press(Press(s, Dec(k)), Inc(k)) == s
  {
    SetOwnValue(s, k);
  }

  /** At its bound a setting no longer moves in that direction. */
  lemma SaturatesAtBounds(s: Settings, k: Knob)
    ensures Get(s, k) == Hi(k) ==> Press(s, Inc(k)) == s
    ensures Get(s, k) == Lo(k) ==> Press(s, Dec(k)) == s
  {
    SetOwnValue(s, k);
  }

  lemma DefaultsInRange()
    ensures AllInRange(Defaults)
  {
    forall k: Knob ensures InRange(Defaults, k) { }
  }

  /** The popup script's global `settings` variable, which the button
      handlers update in place. */
  class Popup {
    var settings: Settings

    constructor ()
      ensures settings == Defaults
    {
      settings := Defaults;
    }

    /** The click handler of a plus/minus button. */
    method ButtonClicked(b: Button)
      modifies this
      ensures settings == Press(old(settings), b)
      ensures old(AllInRange(settings)) ==> AllInRange(settings)
    {
      var k := b.knob;
      var v := Get(settings, k);
      if b.Inc? {
        v := if v + StepSize(k) < Hi(k) then v + StepSize(k) else Hi(k);
      } else {
        v := if v - StepSize(k) > Lo(k) then v - StepSize(k) else Lo(k);
      }
      if AllInRange(settings) {
        PressKeepsAllInRange(settings, b);
      }
      settings := Set(settings, k, v);
    }
  }
}
