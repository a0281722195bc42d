/**
 * The visualiser's key handling (frontend.py main loop): keys 1 to 4 pick
 * the inner-colour theme and U toggles the bold outer frame.
 */
module Hud {
  import opened Colour

  /** The KEYDOWN events the loop distinguishes; every other key is ignored. */
  datatype Key = K1 | K2 | K3 | K4 | KU | OtherKey

  /** `current_theme` and `ULTRA_BOLD`. */
  datatype Settings = Settings(theme: int, ultraBold: bool)

  const INITIAL: Settings := Settings(1, false)

  /** The settings after one key press. */
  function Press(s: Settings, k: Key): Settings {
    match k
    case K1 => s.(theme := 1)
    case K2 => s.(theme := 2)
    case K3 => s.(theme := 3)
    case K4 => s.(theme := 4)
    case KU => s.(ultraBold := !s.ultraBold)
    case OtherKey => s
  }

  /** The settings after a run of key presses, in order. */
  function PressAll(s: Settings, keys: seq<Key>): Settings
    decreases |keys|
  {
    if keys == [] then s else PressAll(Press(s, keys[0]), keys[1..])
  }

  /** The theme a key selects, if it is a theme key. */
  function ThemeKey(k: Key): int {
    match k
    case K1 => 1
    case K2 => 2
    case K3 => 3
    case K4 => 4
    case _ => 0
  }

  /** The theme of the last theme key in a run, or `current` when there is none. */
  function LastTheme(current: int, keys: seq<Key>): int
    decreases |keys|
  {
    if keys == [] then current
    else if ThemeKey(keys[|keys| - 1]) != 0 then ThemeKey(keys[|keys| - 1])
    else LastTheme(current, keys[..|keys| - 1])
  }

  /** How many U presses a run holds. */
  function Toggles(keys: seq<Key>): nat
    decreases |keys|
  {
    if keys == [] then 0 else (if keys[0] == KU then 1 else 0) + Toggles(keys[1..])
  }

  lemma {:induction false} PressAllSnoc(s: Settings, keys: seq<Key>, k: Key)
    ensures PressAll(s, keys + [k]) == Press(PressAll(s, keys), k)
    decreases |keys|
  {
    if keys != [] {
      assert (keys + [k])[1..] == keys[1..] + [k];
      PressAllSnoc(Press(s, keys[0]), keys[1..], k);
    }
  }

  /** After any run of keys the theme is the last one picked, and its lookup needs no fallback. */
  lemma {:induction false} ThemeIsLastPicked(s: Settings, keys: seq<Key>)
    ensures PressAll(s, keys).theme == LastTheme(s.theme, keys)
    ensures 1 <= s.theme <= 4 ==> 1 <= PressAll(s, keys).theme <= 4
    decreases |keys|
  {
    if keys != [] {
      var init := keys[..|keys| - 1];
      var last := keys[|keys| - 1];
      assert keys == init + [last];
      PressAllSnoc(s, init, last);
      ThemeIsLastPicked(s, init);
    }
  }

  /** U toggles: the bold frame is on after a run exactly when it started on or was toggled an odd number of times. */
  lemma {:induction false} BoldIsParity(s: Settings, keys: seq<Key>)
    ensures PressAll(s, keys).ultraBold == (s.ultraBold != (Toggles(keys) % 2 == 1))
    decreases |keys|
  {
    if keys != [] {
      BoldIsParity(Press(s, keys[0]), keys[1..]);
    }
  }

  /** From start-up, the theme in use is always one of the four themes. */
  lemma ThemeAlwaysKnown(keys: seq<Key>)
    ensures PressAll(INITIAL, keys).theme in THEMES
    ensures ThemeOf(PressAll(INITIAL, keys).theme) == THEMES[PressAll(INITIAL, keys).theme]
  {
    ThemeIsLastPicked(INITIAL, keys);
    ThemeLookup(PressAll(INITIAL, keys).theme);
    assert THEMES.Keys == {1, 2, 3, 4};
  }

  /** The two module-level variables the loop reassigns. */
  class Controls {
    var theme: int
    var ultraBold: bool

    /** The selected theme is always one of the four the palette table holds. */
    predicate Valid()
      reads this
    {
      1 <= theme <= 4
    }

    constructor ()
      ensures Valid()
      ensures theme == INITIAL.theme && ultraBold == INITIAL.ultraBold
    {
      theme := 1;
      ultraBold := false;
    }

    /** The KEYDOWN branch of the event loop. */
    method OnKey(k: Key)
      requires Valid()
      modifies this
      ensures Valid()
      ensures Settings(theme, ultraBold) == Press(Settings(old(theme), old(ultraBold)), k)
    {
      if k == K1 {
        theme := 1;
      } else if k == K2 {
        theme := 2;
      } else if k == K3 {
        theme := 3;
      } else if k == K4 {
        theme := 4;
      } else if k == KU {
        ultraBold := !ultraBold;
      }
    }
  }
}
