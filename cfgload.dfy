/**
 * The loops of Load_CFG that decode one chunk: shortcut records, video-mode
 * records, shade lists, paintbrushes and scripts. Each reads from the
 * unread part of the file and is proved to compute the chunk decoder of
 * CfgSpec, failing exactly where it fails.
 */
module CfgLoad {
  import opened Common
  import opened VideoModes
  import opened Paintbrushes
  import opened CfgFormat
  import opened CfgSpec

  /** Items already read in front of the outcome of reading the rest. */
  function Prepend<T>(done: seq<T>, o: Option<(seq<T>, seq<byte>)>): Option<(seq<T>, seq<byte>)> {
    match o
    case None => None
    case Some((xs, r)) => Some((done + xs, r))
  }

  lemma PrependNothing<T>(o: Option<(seq<T>, seq<byte>)>)
    ensures Prepend([], o) == o
  {
    if o.Some? {
      assert [] + o.value.0 == o.value.0;
    }
  }

  // ---------------------------------------------------------------------
  // Keys

  /**
   * The search loop of the keys chunk: the first slot whose shortcut number
   * is `number`, or |numbers| when there is none.
   */
  method FindShortcutSlot(numbers: seq<word>, number: word) returns (index: nat)
    ensures index <= |numbers|
    ensures index < |numbers| ==> numbers[index] == number
    ensures forall k :: 0 <= k < index ==> numbers[k] != number
    ensures index < |numbers| <==> FindShortcut(numbers, number, 0) == Some(index)
  {
    index := 0;
    while index < |numbers| && numbers[index] != number
      invariant index <= |numbers|
      invariant forall k :: 0 <= k < index ==> numbers[k] != number
      invariant FindShortcut(numbers, number, 0) == FindShortcut(numbers, number, index)
    {
      index := index + 1;
    }
  }

  /**
   * The keys chunk with reload_all: n records of number, key and key2, each
   * converted as the file's version asks and stored in the slot of its
   * number; a short read or an unknown number fails.
   */
  method ReadKeyRecords(env: Env, conv: Conversion, keys: seq<KeyPair>, input: seq<byte>, n: nat)
      returns (ok: bool, keys': seq<KeyPair>, rest: seq<byte>)
    requires |keys| == |env.shortcutNumbers|
    ensures ok <==> LoadKeys(env, conv, keys, input, n).Some?
    ensures ok ==> LoadKeys(env, conv, keys, input, n) == Some((keys', rest))
  {
    keys' := keys;
    rest := input;
    var index := 0;
    while index < n
      invariant index <= n && |keys'| == |keys|
      invariant LoadKeys(env, conv, keys, input, n) == LoadKeys(env, conv, keys', rest, n - index)
    {
      if |rest| < 6 {
        return false, keys', rest;
      }
      var number := WordAt(rest, 0);
      var key := WordAt(rest, 2);
      var key2 := WordAt(rest, 4);
      rest := rest[6..];
      if conv == Scancodes {
        key := env.keyForScancode(key);
      } else if conv == NoKeyAsZero {
        if key == 0x00FF {
          key := 0;
        }
        if key2 == 0x00FF {
          key2 := 0;
        }
      }
      var slot := FindShortcutSlot(env.shortcutNumbers, number);
      if slot == |env.shortcutNumbers| {
        return false, keys', rest;
      }
      keys' := keys'[slot := KeyPair(key, key2)];
      index := index + 1;
    }
    ok := true;
  }

  // ---------------------------------------------------------------------
  // Video modes

  /**
   * The search loop of the video-mode chunk: the first mode from index 1
   * with the given resolution, or a value at least |modes| when there is none.
   */
  method FindModeIndex(modes: seq<VideoMode>, width: word, height: word) returns (index: nat)
    ensures index >= 1
    ensures index < |modes| ==> modes[index].width == width && modes[index].height == height
    ensures forall k :: 1 <= k < index && k < |modes| ==> !(modes[k].width == width && modes[k].height == height)
    ensures index < |modes| <==> FindMode(modes, width, height, 1) == Some(index)
  {
    index := 1;
    while index < |modes| && !(modes[index].width == width && modes[index].height == height)
      invariant 1 <= index
      invariant forall k :: 1 <= k < index && k < |modes| ==> !(modes[k].width == width && modes[k].height == height)
      invariant FindMode(modes, width, height, 1) == FindMode(modes, width, height, index)
    {
      index := index + 1;
    }
  }

  /**
   * The video-mode chunk: n records of state, width and height; the first
   * matching mode takes the low two bits of the state unless its own state
   * has bit 128 set (for a byte, bit 128 is set exactly when it is at least 128).
   */
  method ReadModeRecords(modes: seq<VideoMode>, input: seq<byte>, n: nat)
      returns (ok: bool, modes': seq<VideoMode>, rest: seq<byte>)
    ensures ok <==> LoadModes(modes, input, n).Some?
    ensures ok ==> LoadModes(modes, input, n) == Some((modes', rest))
  {
    modes' := modes;
    rest := input;
    var index := 0;
    while index < n
      invariant index <= n
      invariant LoadModes(modes, input, n) == LoadModes(modes', rest, n - index)
    {
      if |rest| < 5 {
        return false, modes', rest;
      }
      var state := rest[0];
      var width := WordAt(rest, 1);
      var height := WordAt(rest, 3);
      rest := rest[5..];
      var found := FindModeIndex(modes', width, height);
      if found < |modes'| && modes'[found].state < 128 {
        modes' := modes'[found := modes'[found].(state := state % 4)];
      }
      index := index + 1;
    }
    ok := true;
  }

  // ---------------------------------------------------------------------
  // Shades

  /** The first `n` little-endian words of `r`. */
  function WordsOf(r: seq<byte>, n: nat): (ws: seq<word>)
    requires 2 * n <= |r|
    ensures |ws| == n && forall k :: 0 <= k < n ==> ws[k] == WordAt(r, 2 * k)
  {
    seq(n, k requires 0 <= k < n => WordAt(r, 2 * k))
  }

  /** Reading n words that are there gives the words at even offsets and what follows them. */
  lemma {:induction false} ReadWordsValue(r: seq<byte>, n: nat)
    requires 2 * n <= |r|
    ensures ReadWords(r, n) == Some((WordsOf(r, n), r[2 * n..]))
    decreases n
  {
    if n > 0 {
      ReadWordsValue(r[2..], n - 1);
      assert r[2..][2 * (n - 1)..] == r[2 * n..];
      assert [WordAt(r, 0)] + WordsOf(r[2..], n - 1) == WordsOf(r, n);
    }
  }

  /** One shade list: 512 words, then its step and its mode. */
  method ReadShadeList(input: seq<byte>) returns (ok: bool, shade: Shade, rest: seq<byte>)
    ensures ok <==> ReadShade(input).Some?
    ensures ok ==> ReadShade(input) == Some((shade, rest))
  {
    var list: seq<word> := [];
    rest := input;
    shade := Shade([], 0, 0);
    var index := 0;
    while index < SHADE_LENGTH
      invariant index <= SHADE_LENGTH && 2 * index <= |input|
      invariant rest == input[2 * index..] && list == WordsOf(input, index)
    {
      if |rest| < 2 {
        return false, shade, rest;
      }
      list := list + [WordAt(rest, 0)];
      rest := rest[2..];
      index := index + 1;
    }
    ReadWordsValue(input, SHADE_LENGTH);
    if |rest| < 2 {
      return false, shade, rest;
    }
    shade := Shade(list, rest[0], rest[1]);
    rest := rest[2..];
    ok := true;
  }

  /** The shade chunk with reload_all: the current shade, then the eight lists. */
  method ReadShadeChunk(input: seq<byte>) returns (ok: bool, current: byte, shades: seq<Shade>, rest: seq<byte>)
    ensures ok <==> |input| > 0 && ReadShades(input[1..], SHADE_COUNT).Some?
    ensures ok ==> current == input[0] && ReadShades(input[1..], SHADE_COUNT) == Some((shades, rest))
  {
    shades := [];
    current := 0;
    if |input| == 0 {
      return false, current, shades, input;
    }
    current := input[0];
    rest := input[1..];
    PrependNothing(ReadShades(rest, SHADE_COUNT));
    var index := 0;
    while index < SHADE_COUNT
      invariant index <= SHADE_COUNT
      invariant ReadShades(input[1..], SHADE_COUNT) == Prepend(shades, ReadShades(rest, SHADE_COUNT - index))
    {
      var good, shade, next := ReadShadeList(rest);
      ReadShadesStep(shades, rest, SHADE_COUNT - index, good, shade, next);
      if !good {
        return false, current, shades, rest;
      }
      shades := shades + [shade];
      rest := next;
      index := index + 1;
    }
    assert ReadShades(rest, 0) == Some(([], rest));
    assert shades + [] == shades;
    ok := true;
  }

  /** One turn of the shade loop: reading one more list moves it from the lists to read to the lists read. */
  lemma ReadShadesStep(done: seq<Shade>, rest: seq<byte>, m: nat, ok: bool, item: Shade, next: seq<byte>)
    requires m > 0
    requires ok <==> ReadShade(rest).Some?
    requires ok ==> ReadShade(rest) == Some((item, next))
    ensures !ok ==> ReadShades(rest, m).None?
    ensures ok ==> Prepend(done, ReadShades(rest, m)) == Prepend(done + [item], ReadShades(next, m - 1))
  {
    if ok {
      match ReadShades(next, m - 1)
      case None =>
      case Some((xs, r)) =>
        assert done + ([item] + xs) == done + [item] + xs;
    }
  }


  // ---------------------------------------------------------------------
  // Paintbrushes

  /** One paintbrush: shape, width, height, hot spot, then its packed pixels decoded by the bit loop. */
  method ReadBrushRecord(input: seq<byte>) returns (ok: bool, brush: Paintbrush, rest: seq<byte>)
    ensures ok <==> ReadBrush(input).Some?
    ensures ok ==> ReadBrush(input) == Some((brush, rest))
  {
    brush := Paintbrush(0, 0, 0, 0, 0, []);
    rest := input;
    if |input| < 9 {
      return false, brush, rest;
    }
    var shape := input[0];
    var width: word := WordAt(input, 1);
    var height: word := WordAt(input, 3);
    var offsetX := WordAt(input, 5);
    var offsetY := WordAt(input, 7);
    var good, sprite, next := ReadSprite(input[9..], width as int * height as int);
    if !good {
      return false, brush, rest;
    }
    brush := Paintbrush(shape, width, height, offsetX, offsetY, sprite);
    rest := next;
    ok := true;
  }

  /** The paintbrush chunk with reload_all: n brushes, one after the other. */
  method ReadBrushRecords(input: seq<byte>, n: nat) returns (ok: bool, brushes: seq<Paintbrush>, rest: seq<byte>)
    ensures ok <==> ReadBrushes(input, n).Some?
    ensures ok ==> ReadBrushes(input, n) == Some((brushes, rest))
  {
    brushes := [];
    rest := input;
    PrependNothing(ReadBrushes(rest, n));
    var index := 0;
    while index < n
      invariant index <= n
      invariant ReadBrushes(input, n) == Prepend(brushes, ReadBrushes(rest, n - index))
    {
      var good, brush, next := ReadBrushRecord(rest);
      ReadBrushesStep(brushes, rest, n - index, good, brush, next);
      if !good {
        return false, brushes, rest;
      }
      brushes := brushes + [brush];
      rest := next;
      index := index + 1;
    }
    assert ReadBrushes(rest, 0) == Some(([], rest));
    assert brushes + [] == brushes;
    ok := true;
  }

  /** One turn of the paintbrush loop: reading one more brush moves it from the brushes to read to the brushes read. */
  lemma ReadBrushesStep(done: seq<Paintbrush>, rest: seq<byte>, m: nat, ok: bool, item: Paintbrush, next: seq<byte>)
    requires m > 0
    requires ok <==> ReadBrush(rest).Some?
    requires ok ==> ReadBrush(rest) == Some((item, next))
    ensures !ok ==> ReadBrushes(rest, m).None?
    ensures ok ==> Prepend(done, ReadBrushes(rest, m)) == Prepend(done + [item], ReadBrushes(next, m - 1))
  {
    if ok {
      match ReadBrushes(next, m - 1)
      case None =>
      case Some((xs, r)) =>
        assert done + ([item] + xs) == done + [item] + xs;
    }
  }


  // ---------------------------------------------------------------------
  // Scripts

  /**
   * The scripts chunk with reload_all: while fewer than `size` bytes are
   * accounted for, a length byte and that many bytes go to the next slot,
   * seen up to their first zero byte (none for a zero length); at most ten
   * scripts are read.
   */
  method ReadScriptStrings(scripts: seq<Option<seq<byte>>>, input: seq<byte>, size: word)
      returns (ok: bool, scripts': seq<Option<seq<byte>>>, rest: seq<byte>)
    requires |scripts| == SCRIPT_COUNT
    ensures ok <==> LoadScripts(scripts, input, size, 0, 0).Some?
    ensures ok ==> LoadScripts(scripts, input, size, 0, 0) == Some((scripts', rest))
  {
    scripts' := scripts;
    rest := input;
    var done := 0;
    var current := 0;
    ghost var target := LoadScripts(scripts, input, size, 0, 0);
    while done < size
      invariant current < SCRIPT_COUNT && |scripts'| == SCRIPT_COUNT
      invariant target == LoadScripts(scripts', rest, size, done, current)
      decreases SCRIPT_COUNT - current
    {
      var read, last;
      read, last, scripts', rest, done := ScriptTurn(target, scripts', rest, size, done, current);
      if !read {
        return false, scripts', rest;
      }
      if last {
        return true, scripts', rest;
      }
      current := current + 1;
    }
    ok := true;
  }

  /**
   * One turn of the scripts loop, from a state whose remaining loads give
   * `target`: the script read goes to slot `current`, and either that was
   * the last slot or the next turn starts from the new state.
   */
  method ScriptTurn(ghost target: Option<(seq<Option<seq<byte>>>, seq<byte>)>, scripts: seq<Option<seq<byte>>>,
                    input: seq<byte>, size: word, done: int, current: nat)
      returns (read: bool, last: bool, scripts': seq<Option<seq<byte>>>, rest: seq<byte>, done': int)
    requires |scripts| == SCRIPT_COUNT && current < SCRIPT_COUNT && done < size
    requires target == LoadScripts(scripts, input, size, done, current)
    ensures |scripts'| == SCRIPT_COUNT
    ensures !read ==> target.None? && scripts' == scripts && rest == input
    ensures read && last ==> target == Some((scripts', rest))
    ensures read && !last ==> current + 1 < SCRIPT_COUNT && target == LoadScripts(scripts', rest, size, done', current + 1)
  {
    var script, length, next;
    read, script, length, next := ReadOneScript(input);
    ScriptsLoopStep(scripts, input, size, done, current, read, script, length, next);
    if !read {
      return false, false, scripts, input, done;
    }
    scripts' := scripts[current := script];
    rest := next;
    done' := done + length + 1;
    last := current + 1 >= SCRIPT_COUNT;
  }

  /**
   * One script of the loop: a length byte, then that many bytes seen up to
   * their first zero byte (no script for a zero length); fails when the
   * length byte is missing or announces more bytes than remain.
   */
  method ReadOneScript(input: seq<byte>) returns (ok: bool, script: Option<seq<byte>>, length: byte, rest: seq<byte>)
    ensures ok <==> ReadScript(input).Some?
    ensures ok ==> ReadScript(input) == Some((script, length, rest))
  {
    script, length, rest := None, 0, input;
    if |input| == 0 {
      return false, script, length, rest;
    }
    length := input[0];
    if |input| - 1 < length {
      return false, script, length, rest;
    }
    if length != 0 {
      script := Some(UpToNul(input[1..1 + length]));
    }
    rest := input[1 + length..];
    ok := true;
  }
}
