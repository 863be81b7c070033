/**
 * The loops of Save_CFG that encode one chunk: shortcut records, the count
 * and records of the saved video modes, shade lists, paintbrushes with
 * their size, and scripts with their size. Each appends to the bytes
 * written so far and is proved to produce the chunk payload of CfgSpec.
 */
module CfgSave {
  import opened Common
  import opened VideoModes
  import opened Paintbrushes
  import opened CfgFormat
  import opened CfgSpec

  /** The keys chunk's records: for every shortcut slot, its number and its two keys. */
  method WriteKeys(numbers: seq<word>, keys: seq<KeyPair>) returns (out: seq<byte>)
    requires |keys| == |numbers|
    ensures out == KeysPayload(numbers, keys)
  {
    out := [];
    var index := 0;
    while index < |keys|
      invariant index <= |keys|
      invariant out + KeysPayload(numbers[index..], keys[index..]) == KeysPayload(numbers, keys)
    {
      assert numbers[index..][1..] == numbers[index + 1..] && keys[index..][1..] == keys[index + 1..];
      out := out + WordLE(numbers[index]) + WordLE(keys[index].key) + WordLE(keys[index].key2);
      index := index + 1;
    }
  }

  /** The first counting loop: the modes from index 1 on whose state is saved. */
  method CountSavedModes(modes: seq<VideoMode>) returns (count: nat)
    ensures count == |SavedModes(modes)|
  {
    count := 0;
    var index := 1;
    if |modes| == 0 {
      return;
    }
    while index < |modes|
      invariant 1 <= index <= |modes|
      invariant count + |SavedAmong(modes[index..])| == |SavedModes(modes)|
    {
      assert modes[index..][1..] == modes[index + 1..];
      if modes[index].state == 0 || modes[index].state == 2 || modes[index].state == 3 {
        count := count + 1;
      }
      index := index + 1;
    }
  }

  /** The video-mode records: state, width and height of every mode from index 1 on whose state is saved. */
  method WriteModes(modes: seq<VideoMode>) returns (out: seq<byte>)
    ensures out == ModesPayload(SavedModes(modes))
  {
    out := [];
    if |modes| == 0 {
      return;
    }
    var index := 1;
    while index < |modes|
      invariant 1 <= index <= |modes|
      invariant out + ModesPayload(SavedAmong(modes[index..])) == ModesPayload(SavedModes(modes))
    {
      var m := modes[index];
      SavedModesStep(modes, index);
      if m.state == 0 || m.state == 2 || m.state == 3 {
        var record := [m.state] + WordLE(ToWord(m.width)) + WordLE(ToWord(m.height));
        assert out + record + ModesPayload(SavedAmong(modes[index + 1..])) == out + ModesPayload(SavedAmong(modes[index..]));
        out := out + record;
      }
      index := index + 1;
    }
  }

  /** The records written from mode `index` on: that mode's record when its state is saved, then the later ones. */
  lemma SavedModesStep(modes: seq<VideoMode>, index: nat)
    requires 1 <= index < |modes|
    ensures Saved(modes[index]) ==>
      ModesPayload(SavedAmong(modes[index..]))
      == [modes[index].state] + WordLE(ToWord(modes[index].width)) + WordLE(ToWord(modes[index].height))
         + ModesPayload(SavedAmong(modes[index + 1..]))
    ensures !Saved(modes[index]) ==> SavedAmong(modes[index..]) == SavedAmong(modes[index + 1..])
  {
    var m := modes[index];
    var later := SavedAmong(modes[index + 1..]);
    assert modes[index..][1..] == modes[index + 1..];
    if Saved(m) {
      assert ([m] + later)[1..] == later;
    } else {
      assert [] + later == later;
    }
  }

  /** One shade list's words. */
  method WriteWords(list: seq<word>) returns (out: seq<byte>)
    ensures out == WordsLE(list)
  {
    out := [];
    var index := 0;
    while index < |list|
      invariant index <= |list|
      invariant out + WordsLE(list[index..]) == WordsLE(list)
    {
      assert list[index..][1..] == list[index + 1..];
      out := out + WordLE(list[index]);
      index := index + 1;
    }
  }

  /** The shade lists: each list's words, then its step and its mode. */
  method WriteShades(shades: seq<Shade>) returns (out: seq<byte>)
    ensures out == ShadesPayload(shades)
  {
    out := [];
    var index := 0;
    while index < |shades|
      invariant index <= |shades|
      invariant out + ShadesPayload(shades[index..]) == ShadesPayload(shades)
    {
      assert shades[index..][1..] == shades[index + 1..];
      var words := WriteWords(shades[index].list);
      out := out + words + [shades[index].step, shades[index].mode];
      index := index + 1;
    }
  }

  /** The size loop of the paintbrush chunk: 9 bytes plus the packed pixels of every brush. */
  method ComputeBrushesSize(brushes: seq<Paintbrush>) returns (total: nat)
    ensures total == BrushesSize(brushes)
  {
    total := 0;
    var index := 0;
    while index < |brushes|
      invariant index <= |brushes|
      invariant total + BrushesSize(brushes[index..]) == BrushesSize(brushes)
    {
      assert brushes[index..][1..] == brushes[index + 1..];
      total := total + 9 + (brushes[index].width * brushes[index].height + 7) / 8;
      index := index + 1;
    }
  }

  /** The paintbrush records: shape, size and hot spot, then the pixels packed by the bit loop. */
  method WriteBrushes(brushes: seq<Paintbrush>) returns (out: seq<byte>)
    ensures out == BrushesPayload(brushes)
  {
    out := [];
    var index := 0;
    while index < |brushes|
      invariant index <= |brushes|
      invariant out + BrushesPayload(brushes[index..]) == BrushesPayload(brushes)
    {
      var b := brushes[index];
      BrushesPayloadStep(brushes, index);
      var packed := PackSprite(b.sprite);
      out := out + ([b.shape] + WordLE(b.width) + WordLE(b.height) + WordLE(b.offsetX) + WordLE(b.offsetY) + packed);
      index := index + 1;
    }
  }

  /** The records written from brush `index` on: that brush's record, then the later ones. */
  lemma BrushesPayloadStep(brushes: seq<Paintbrush>, index: nat)
    requires index < |brushes|
    ensures var b := brushes[index];
      BrushesPayload(brushes[index..])
      == ([b.shape] + WordLE(b.width) + WordLE(b.height) + WordLE(b.offsetX) + WordLE(b.offsetY) + Pack(b.sprite))
         + BrushesPayload(brushes[index + 1..])
  {
    assert brushes[index..][1..] == brushes[index + 1..];
  }

  /** The size loop of the scripts chunk: each script's length plus one, one for a missing script. */
  method ComputeScriptsSize(scripts: seq<Option<seq<byte>>>) returns (size: nat)
    ensures size == ScriptsSize(scripts)
  {
    size := 0;
    var index := 0;
    while index < |scripts|
      invariant index <= |scripts|
      invariant size + ScriptsSize(scripts[index..]) == ScriptsSize(scripts)
    {
      assert scripts[index..][1..] == scripts[index + 1..];
      if scripts[index].None? {
        size := size + 1;
      } else {
        size := size + |scripts[index].value| + 1;
      }
      index := index + 1;
    }
  }

  /** The scripts as Pascal strings: the length truncated to a byte, then that many bytes of the script. */
  method WriteScripts(scripts: seq<Option<seq<byte>>>) returns (out: seq<byte>)
    ensures out == ScriptsPayload(scripts)
  {
    out := [];
    var index := 0;
    while index < |scripts|
      invariant index <= |scripts|
      invariant out + ScriptsPayload(scripts[index..]) == ScriptsPayload(scripts)
    {
      assert scripts[index..][1..] == scripts[index + 1..];
      var length: byte := 0;
      if scripts[index].Some? {
        length := |scripts[index].value| % 256;
      }
      out := out + [length];
      if length != 0 {
        out := out + scripts[index].value[..length];
      }
      index := index + 1;
    }
  }
}
