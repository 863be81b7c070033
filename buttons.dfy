/**
 * The toolbar buttons of Buttons_Pool and their initialisation.
 */
module Buttons {
  import opened Common

  /** A pair of keyboard shortcuts (main and alternative key). */
  datatype Shortcut = Shortcut(key: word, key2: word)

  /**
   * A toolbar button. Width and Height hold the size minus one (the last
   * column and row inside the button); actions are function pointers in the
   * source and are kept here as opaque identifiers.
   */
  datatype Button = Button(
    xOffset: word, yOffset: word, width: word, height: word,
    pressed: byte, icon: int, shape: byte, tooltip: seq<char>,
    leftAction: nat, rightAction: nat, leftInstant: byte, rightInstant: byte,
    unselectAction: nat, family: byte,
    leftShortcut: Shortcut, rightShortcut: Shortcut)

  /** The button Init_button describes: size stored minus one, not pressed, no icon, shortcuts kept from `b`. */
  function Initialized(b: Button, tooltip: seq<char>, xOffset: word, yOffset: word, width: word, height: word,
                       shape: byte, leftAction: nat, rightAction: nat, leftInstant: byte, rightInstant: byte,
                       unselectAction: nat, family: byte): (r: Button)
    ensures r.leftShortcut == b.leftShortcut && r.rightShortcut == b.rightShortcut
    ensures width >= 1 ==> r.width + 1 == width
    ensures height >= 1 ==> r.height + 1 == height
    ensures r.pressed == 0 && r.icon == -1
  {
    Button(xOffset, yOffset, ToWord(width - 1), ToWord(height - 1), 0, -1, shape, tooltip,
           leftAction, rightAction, leftInstant, rightInstant, unselectAction, family,
           b.leftShortcut, b.rightShortcut)
  }

  /** A zero size wraps round: the stored size is the largest word. */
  lemma ZeroSizeWraps(b: Button, tooltip: seq<char>, xOffset: word, yOffset: word, shape: byte,
                      leftAction: nat, rightAction: nat, leftInstant: byte, rightInstant: byte,
                      unselectAction: nat, family: byte)
    ensures var r := Initialized(b, tooltip, xOffset, yOffset, 0, 0, shape, leftAction, rightAction,
                                 leftInstant, rightInstant, unselectAction, family);
      r.width == 65535 && r.height == 65535
  {
  }

  /** Init_button: sets every field of button n but its shortcuts; no other button changes. */
  method InitButton(pool: array<Button>, n: byte, tooltip: seq<char>, xOffset: word, yOffset: word,
                    width: word, height: word, shape: byte, leftAction: nat, rightAction: nat,
                    leftInstant: byte, rightInstant: byte, unselectAction: nat, family: byte)
    requires n < pool.Length
    modifies pool
    ensures pool[n] == Initialized(old(pool[n]), tooltip, xOffset, yOffset, width, height, shape,
                                   leftAction, rightAction, leftInstant, rightInstant, unselectAction, family)
    ensures forall i :: 0 <= i < pool.Length && i != n as int ==> pool[i] == old(pool[i])
  {
    pool[n] := pool[n].(
      xOffset := xOffset,
      yOffset := yOffset,
      width := ToWord(width - 1),
      height := ToWord(height - 1),
      pressed := 0,
      icon := -1,
      shape := shape,
      tooltip := tooltip,
      leftAction := leftAction,
      rightAction := rightAction,
      leftInstant := leftInstant,
      rightInstant := rightInstant,
      unselectAction := unselectAction,
      family := family);
  }
}
