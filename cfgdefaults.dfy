/**
 * The settings Set_config_defaults assigns: the default shortcuts, eight
 * shade lists of step 1 and mode 0 with no colour in them except the first,
 * which holds colours 16 to 127 in seven runs of sixteen, an empty mask, a
 * full stencil, the 1-2-1 smoothing matrix, no excluded colour, a
 * quick-shade step of 1 without loop, and an 8 x 8 grid at the origin.
 */
module CfgDefaults {
  import opened Common
  import opened CfgFormat

  /** The entry that marks the end of a shade run: no colour. */
  const NO_COLOR: word := 256

  /**
   * Entry k of the first default shade list: position 17 i + j, for a run i
   * below 7 and j below 16, holds colour 16 i + j + 16; every other entry
   * is no colour.
   */
  function DefaultShadeEntry(k: nat): word {
    if k < 7 * 17 && k % 17 < 16 then (k / 17) * 16 + k % 17 + 16 else NO_COLOR
  }

  /** The first default shade list. */
  function PaletteShadeList(): (r: seq<word>)
    ensures |r| == SHADE_LENGTH
  {
    seq(SHADE_LENGTH, k requires 0 <= k < SHADE_LENGTH => DefaultShadeEntry(k))
  }

  /** The default shade lists: the palette list, then seven lists with no colour. */
  function DefaultShades(): (r: seq<Shade>)
    ensures |r| == SHADE_COUNT
  {
    [Shade(PaletteShadeList(), 1, 0)] + seq(SHADE_COUNT - 1, _ => Shade(seq(SHADE_LENGTH, _ => NO_COLOR), 1, 0))
  }

  /** The 3x3 smoothing matrix, row by row. */
  const DEFAULT_SMOOTH: seq<byte> := [1, 2, 1, 2, 4, 2, 1, 2, 1]

  /**
   * Set_config_defaults applied to settings `s`, with `defaultKeys` the keys
   * of the ConfigKey table, slot by slot; the video modes, paintbrushes and
   * scripts are left as they are.
   */
  function Defaults(s: Settings, defaultKeys: seq<KeyPair>): (r: Settings)
    ensures r.keys == defaultKeys && r.modes == s.modes && r.brushes == s.brushes && r.scripts == s.scripts
    ensures |r.mask| == |r.stencil| == |r.exclude| == 256
    ensures forall i :: 0 <= i < 256 ==> r.mask[i] == 0 && r.stencil[i] == 1 && r.exclude[i] == 0
  {
    s.(keys := defaultKeys, shadeCurrent := 0, shades := DefaultShades(),
       mask := seq(256, _ => 0), stencil := seq(256, _ => 1), smooth := DEFAULT_SMOOTH, exclude := seq(256, _ => 0),
       quickShadeStep := 1, quickShadeLoop := 0,
       snapWidth := 8, snapHeight := 8, snapOffsetX := 0, snapOffsetY := 0)
  }

  /** The defaults have the shapes of the globals they fill. */
  lemma DefaultsWellFormed(env: Env, s: Settings, defaultKeys: seq<KeyPair>)
    requires WellFormed(env, s) && |defaultKeys| == |env.shortcutNumbers|
    ensures WellFormed(env, Defaults(s, defaultKeys))
  {
  }

  /** The nested loop's formula: run i, place j of the palette list holds colour 16 i + j + 16. */
  lemma PaletteShadeRuns(i: nat, j: nat)
    requires i < 7 && j < 16
    ensures i * 17 + j < SHADE_LENGTH && PaletteShadeList()[i * 17 + j] == i * 16 + j + 16
  {
    var k := i * 17 + j;
    assert k / 17 == i && k % 17 == j;
  }

  /** Between and after the runs, the palette list holds no colour. */
  lemma PaletteShadeGaps(k: nat)
    requires k < SHADE_LENGTH && (k % 17 == 16 || k >= 7 * 17)
    ensures PaletteShadeList()[k] == NO_COLOR
  {
  }

  /** Each colour from 16 to 127 appears in the palette list, colour c at place (c - 16) % 16 of run (c - 16) / 16. */
  lemma PaletteShadeColours(c: nat)
    requires 16 <= c < 128
    ensures PaletteShadeList()[(c - 16) / 16 * 17 + (c - 16) % 16] == c
  {
    PaletteShadeRuns((c - 16) / 16, (c - 16) % 16);
  }

  // ---------------------------------------------------------------------
  // The loops of Set_config_defaults

  /** A table loop such as the mask's: every entry set to `v`. */
  method FillBytes(table: seq<byte>, v: byte) returns (r: seq<byte>)
    ensures r == seq(|table|, _ => v)
  {
    r := table;
    var index := 0;
    while index < |r|
      invariant index <= |r| == |table|
      invariant forall k :: 0 <= k < index ==> r[k] == v
    {
      r := r[index := v];
      index := index + 1;
    }
    assert forall k :: 0 <= k < |r| ==> r[k] == seq(|table|, _ => v)[k];
  }

  /** The shortcut loop: slot by slot, the keys of the ConfigKey table. */
  method CopyKeys(keys: seq<KeyPair>, defaultKeys: seq<KeyPair>) returns (r: seq<KeyPair>)
    requires |keys| == |defaultKeys|
    ensures r == defaultKeys
  {
    r := keys;
    var index := 0;
    while index < |r|
      invariant index <= |r| == |defaultKeys|
      invariant forall k :: 0 <= k < index ==> r[k] == defaultKeys[k]
    {
      r := r[index := defaultKeys[index]];
      index := index + 1;
    }
  }

  /** The first shade loop: every list gets step 1, mode 0 and no colour in any of its 512 entries. */
  method ClearShades(shades: seq<Shade>) returns (r: seq<Shade>)
    requires |shades| == SHADE_COUNT && forall k :: 0 <= k < |shades| ==> |shades[k].list| == SHADE_LENGTH
    ensures r == seq(SHADE_COUNT, _ => Shade(seq(SHADE_LENGTH, _ => NO_COLOR), 1, 0))
  {
    r := shades;
    var index := 0;
    while index < SHADE_COUNT
      invariant index <= SHADE_COUNT == |r|
      invariant forall k :: 0 <= k < index ==> r[k] == Shade(seq(SHADE_LENGTH, _ => NO_COLOR), 1, 0)
      invariant forall k :: index <= k < SHADE_COUNT ==> |r[k].list| == SHADE_LENGTH
    {
      var list := r[index].list;
      var index2 := 0;
      while index2 < SHADE_LENGTH
        invariant index2 <= SHADE_LENGTH == |list|
        invariant forall k :: 0 <= k < index2 ==> list[k] == NO_COLOR
      {
        list := list[index2 := NO_COLOR];
        index2 := index2 + 1;
      }
      r := r[index := Shade(list, 1, 0)];
      index := index + 1;
    }
  }

  /** The second shade loop, on a list with no colour: run i, place j gets colour 16 i + j + 16. */
  method PaintPaletteShade(list: seq<word>) returns (r: seq<word>)
    requires |list| == SHADE_LENGTH && forall k :: 0 <= k < |list| ==> list[k] == NO_COLOR
    ensures r == PaletteShadeList()
  {
    r := list;
    var index := 0;
    while index < 7
      invariant index <= 7 && |r| == SHADE_LENGTH
      invariant forall k :: 0 <= k < SHADE_LENGTH ==> r[k] == if k < index * 17 then DefaultShadeEntry(k) else NO_COLOR
    {
      var index2 := 0;
      while index2 < 16
        invariant index2 <= 16 && |r| == SHADE_LENGTH
        invariant forall k :: 0 <= k < SHADE_LENGTH ==> r[k] == if k < index * 17 + index2 then DefaultShadeEntry(k) else NO_COLOR
      {
        EntryOfRun(index, index2);
        r := r[index * 17 + index2 := index * 16 + index2 + 16];
        index2 := index2 + 1;
      }
      EntryOfRun(index, 16);
      index := index + 1;
    }
  }

  /** DefaultShadeEntry at place j of run i: the run's colour below 16, no colour at 16. */
  lemma EntryOfRun(i: nat, j: nat)
    requires i < 7 && j <= 16
    ensures DefaultShadeEntry(i * 17 + j) == if j < 16 then i * 16 + j + 16 else NO_COLOR
  {
    var k := i * 17 + j;
    if j < 16 {
      assert k / 17 == i && k % 17 == j;
    } else {
      assert k % 17 == 16;
    }
  }

  /** The shade part of Set_config_defaults: clear every list, then paint the palette list. */
  method DefaultShadeLists(shades: seq<Shade>) returns (r: seq<Shade>)
    requires |shades| == SHADE_COUNT && forall k :: 0 <= k < |shades| ==> |shades[k].list| == SHADE_LENGTH
    ensures r == DefaultShades()
  {
    r := ClearShades(shades);
    var palette := PaintPaletteShade(r[0].list);
    r := r[0 := r[0].(list := palette)];
    assert r[1..] == seq(SHADE_COUNT - 1, _ => Shade(seq(SHADE_LENGTH, _ => NO_COLOR), 1, 0));
    assert r == [r[0]] + r[1..];
  }

  /** The loops of Set_config_defaults, one table after the other, on settings `s`. */
  method DefaultSettings(env: Env, s: Settings, defaultKeys: seq<KeyPair>) returns (r: Settings)
    requires WellFormed(env, s) && |defaultKeys| == |env.shortcutNumbers|
    ensures r == Defaults(s, defaultKeys)
    ensures r.modes == s.modes && r.brushes == s.brushes && r.scripts == s.scripts
  {
    var keys := CopyKeys(s.keys, defaultKeys);
    var shades := DefaultShadeLists(s.shades);
    var mask := FillBytes(s.mask, 0);
    var stencil := FillBytes(s.stencil, 1);
    var exclude := FillBytes(s.exclude, 0);
    r := s.(keys := keys, shadeCurrent := 0, shades := shades,
            mask := mask, stencil := stencil, smooth := DEFAULT_SMOOTH, exclude := exclude,
            quickShadeStep := 1, quickShadeLoop := 0,
            snapWidth := 8, snapHeight := 8, snapOffsetX := 0, snapOffsetY := 0);
  }
}
