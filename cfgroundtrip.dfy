/**
 * Reading back what Save_CFG writes: each chunk decodes to what was saved,
 * and a whole saved file loads back to the settings it came from, up to
 * what the format cannot hold (mode states other than the user's choices,
 * non-zero pixels other than 1, empty scripts).
 */
module CfgRoundTrip {
  import opened Common
  import opened VideoModes
  import opened Paintbrushes
  import opened CfgFormat
  import opened CfgSpec

  // ---------------------------------------------------------------------
  // The chunk loop

  /** A chunk followed by more bytes: the loop applies it and goes on with what follows, remembering its size. */
  lemma ChunkStep(env: Env, conv: Conversion, reloadAll: bool, skipScripts: bool, s: Settings,
                  tag: byte, size: int, payload: seq<byte>, tail: seq<byte>, lastSize: word, s': Settings)
    requires WellFormed(env, s)
    requires ApplyChunk(env, conv, reloadAll, skipScripts, s, tag, ToWord(size), payload + tail) == Some((s', tail))
    ensures LoadChunks(env, conv, reloadAll, skipScripts, s, Chunk(tag, size, payload) + tail, lastSize)
         == LoadChunks(env, conv, reloadAll, skipScripts, s', tail, ToWord(size))
  {
    var bytes := Chunk(tag, size, payload) + tail;
    assert bytes[0] == tag;
    assert bytes[1..][2..] == payload + tail;
    assert WordAt(bytes[1..], 0) == ToWord(size);
  }

  /** Without reloadAll, a chunk other than the video modes and the scripts is skipped by its size. */
  lemma SkippedChunk(env: Env, conv: Conversion, skipScripts: bool, s: Settings,
                     tag: byte, payload: seq<byte>, tail: seq<byte>, lastSize: word)
    requires WellFormed(env, s) && tag <= CHUNK_BRUSH && tag != CHUNK_VIDEO_MODES
    requires |payload| < 65536
    ensures LoadChunks(env, conv, false, skipScripts, s, Chunk(tag, |payload|, payload) + tail, lastSize)
         == LoadChunks(env, conv, false, skipScripts, s, tail, |payload|)
  {
    assert Skip(payload + tail, |payload|) == tail;
    ChunkStep(env, conv, false, skipScripts, s, tag, |payload|, payload, tail, lastSize, s);
  }

  // With reloadAll, each chunk tag selects its loader.

  lemma KeysDispatch(env: Env, conv: Conversion, skipScripts: bool, s: Settings, size: word, rest: seq<byte>)
    requires WellFormed(env, s)
    ensures ApplyChunk(env, conv, true, skipScripts, s, CHUNK_KEYS, size, rest) == KeysChunkLoad(env, conv, s, size, rest)
  {
  }

  lemma ShadeDispatch(env: Env, conv: Conversion, skipScripts: bool, s: Settings, size: word, rest: seq<byte>)
    requires WellFormed(env, s)
    ensures ApplyChunk(env, conv, true, skipScripts, s, CHUNK_SHADE, size, rest) == ShadeChunkLoad(env, s, rest)
  {
  }

  lemma GridDispatch(env: Env, conv: Conversion, skipScripts: bool, s: Settings, size: word, rest: seq<byte>)
    requires WellFormed(env, s)
    ensures ApplyChunk(env, conv, true, skipScripts, s, CHUNK_GRID, size, rest) == GridChunkLoad(env, s, rest)
  {
  }

  lemma BrushDispatch(env: Env, conv: Conversion, skipScripts: bool, s: Settings, size: word, rest: seq<byte>)
    requires WellFormed(env, s)
    ensures ApplyChunk(env, conv, true, skipScripts, s, CHUNK_BRUSH, size, rest) == BrushChunkLoad(env, s, rest)
  {
  }

  lemma ScriptsDispatch(env: Env, conv: Conversion, skipScripts: bool, s: Settings, size: word, rest: seq<byte>)
    requires WellFormed(env, s)
    ensures ApplyChunk(env, conv, true, skipScripts, s, CHUNK_SCRIPTS, size, rest) == ScriptsChunkLoad(env, s, size, rest)
  {
  }

  /** The video-mode chunk is read with or without reloadAll. */
  lemma ModesDispatch(env: Env, conv: Conversion, reloadAll: bool, skipScripts: bool, s: Settings, size: word, rest: seq<byte>)
    requires WellFormed(env, s)
    ensures ApplyChunk(env, conv, reloadAll, skipScripts, s, CHUNK_VIDEO_MODES, size, rest) == ModesChunkLoad(env, s, size, rest)
  {
  }

  /** With reloadAll, the mask, stencil, smooth, excluded-colours and quick-shade chunks read back what was written. */
  lemma ByteChunks(env: Env, conv: Conversion, skipScripts: bool, s: Settings, size: word, t: seq<byte>, tail: seq<byte>)
    requires WellFormed(env, s)
    ensures |t| == 256 ==> ApplyChunk(env, conv, true, skipScripts, s, CHUNK_MASK, size, t + tail) == Some((s.(mask := t), tail))
    ensures |t| == 256 ==> ApplyChunk(env, conv, true, skipScripts, s, CHUNK_STENCIL, size, t + tail) == Some((s.(stencil := t), tail))
    ensures |t| == 256 ==> ApplyChunk(env, conv, true, skipScripts, s, CHUNK_EXCLUDE_COLORS, size, t + tail) == Some((s.(exclude := t), tail))
    ensures |t| == 9 ==> ApplyChunk(env, conv, true, skipScripts, s, CHUNK_SMOOTH, size, t + tail) == Some((s.(smooth := t), tail))
    ensures |t| == 2 ==> ApplyChunk(env, conv, true, skipScripts, s, CHUNK_QUICK_SHADE, size, t + tail)
                         == Some((s.(quickShadeStep := t[0], quickShadeLoop := t[1]), tail))
  {
    assert (t + tail)[..|t|] == t && (t + tail)[|t|..] == tail;
  }

  /** With reloadAll, the grid chunk reads back the four words written. */
  lemma GridChunk(env: Env, conv: Conversion, skipScripts: bool, s: Settings, size: word, w: word, h: word, x: word, y: word, tail: seq<byte>)
    requires WellFormed(env, s)
    ensures ApplyChunk(env, conv, true, skipScripts, s, CHUNK_GRID, size, WordsLE([w, h, x, y]) + tail)
         == Some((s.(snapWidth := w, snapHeight := h, snapOffsetX := x, snapOffsetY := y), tail))
  {
    ReadWordsLE([w, h, x, y], tail);
    GridDispatch(env, conv, skipScripts, s, size, WordsLE([w, h, x, y]) + tail);
  }

  // ---------------------------------------------------------------------
  // Keys

  /** Shortcut numbers that name one slot each. */
  predicate Distinct(numbers: seq<word>) {
    forall i, j :: 0 <= i < j < |numbers| ==> numbers[i] != numbers[j]
  }

  /** With distinct shortcut numbers, the records of slots k and on restore those slots. */
  lemma {:induction false} LoadKeysOfSaved(env: Env, keys: seq<KeyPair>, target: seq<KeyPair>, k: nat, tail: seq<byte>)
    requires |keys| == |target| == |env.shortcutNumbers| && k <= |target|
    requires Distinct(env.shortcutNumbers)
    requires forall i :: 0 <= i < k ==> keys[i] == target[i]
    ensures LoadKeys(env, NoConversion, keys, KeysPayload(env.shortcutNumbers[k..], target[k..]) + tail, |target| - k)
         == Some((target, tail))
    decreases |target| - k
  {
    var numbers := env.shortcutNumbers;
    if k == |target| {
      assert KeysPayload(numbers[k..], target[k..]) + tail == tail;
      assert keys == target;
    } else {
      var t := target[k];
      var next := KeysPayload(numbers[k + 1..], target[k + 1..]) + tail;
      assert numbers[k..][1..] == numbers[k + 1..] && target[k..][1..] == target[k + 1..];
      var bytes := KeysPayload(numbers[k..], target[k..]) + tail;
      assert bytes == WordLE(numbers[k]) + WordLE(t.key) + WordLE(t.key2) + next;
      assert WordAt(bytes, 0) == numbers[k] && WordAt(bytes, 2) == t.key && WordAt(bytes, 4) == t.key2;
      assert bytes[6..] == next;
      var found := FindShortcut(numbers, numbers[k], 0);
      assert found == Some(k);
      LoadKeysOfSaved(env, keys[k := t], target, k + 1, tail);
    }
  }

  /** The keys chunk restores every shortcut. */
  lemma KeysChunk(env: Env, skipScripts: bool, s: Settings, keys: seq<KeyPair>, tail: seq<byte>)
    requires WellFormed(env, s) && |keys| == |env.shortcutNumbers| && Distinct(env.shortcutNumbers)
    requires |env.shortcutNumbers| * 6 < 65536
    ensures ApplyChunk(env, NoConversion, true, skipScripts, s, CHUNK_KEYS, ToWord(|env.shortcutNumbers| * 6),
                       KeysPayload(env.shortcutNumbers, keys) + tail)
         == Some((s.(keys := keys), tail))
  {
    var n := |env.shortcutNumbers|;
    ToWordKeepsWords(n * 6);
    KeysLoadOfSaved(env, s, keys, n * 6, tail);
    KeysDispatch(env, NoConversion, skipScripts, s, n * 6, KeysPayload(env.shortcutNumbers, keys) + tail);
  }

  lemma KeysLoadOfSaved(env: Env, s: Settings, keys: seq<KeyPair>, size: word, tail: seq<byte>)
    requires WellFormed(env, s) && |keys| == |env.shortcutNumbers| && Distinct(env.shortcutNumbers)
    requires size == |env.shortcutNumbers| * 6
    ensures KeysChunkLoad(env, NoConversion, s, size, KeysPayload(env.shortcutNumbers, keys) + tail) == Some((s.(keys := keys), tail))
  {
    assert size / 6 == |keys|;
    assert env.shortcutNumbers[0..] == env.shortcutNumbers && keys[0..] == keys;
    LoadKeysOfSaved(env, s.keys, keys, 0, tail);
  }

  // ---------------------------------------------------------------------
  // Video modes

  /** The table after the saved records `ms` are applied to it one by one. */
  function ApplySavedModes(modes: seq<VideoMode>, ms: seq<VideoMode>): (r: seq<VideoMode>)
    ensures |r| == |modes|
    decreases |ms|
  {
    if |ms| == 0 then modes
    else ApplySavedModes(SetModeState(modes, ms[0].state, ToWord(ms[0].width), ToWord(ms[0].height)), ms[1..])
  }

  /** The video-mode chunk's records are the saved modes, applied in order. */
  lemma {:induction false} LoadModesOfSaved(modes: seq<VideoMode>, ms: seq<VideoMode>, tail: seq<byte>)
    ensures LoadModes(modes, ModesPayload(ms) + tail, |ms|) == Some((ApplySavedModes(modes, ms), tail))
    decreases |ms|
  {
    if |ms| > 0 {
      var m := ms[0];
      var bytes := ModesPayload(ms) + tail;
      assert bytes == [m.state] + WordLE(ToWord(m.width)) + WordLE(ToWord(m.height)) + (ModesPayload(ms[1..]) + tail);
      assert bytes[0] == m.state && WordAt(bytes, 1) == ToWord(m.width) && WordAt(bytes, 3) == ToWord(m.height);
      assert bytes[5..] == ModesPayload(ms[1..]) + tail;
      LoadModesOfSaved(SetModeState(modes, m.state, ToWord(m.width), ToWord(m.height)), ms[1..], tail);
    } else {
      assert ModesPayload(ms) + tail == tail;
    }
  }

  /** The video-mode chunk applies the saved modes to the table, with or without reloadAll. */
  lemma ModesChunk(env: Env, reloadAll: bool, skipScripts: bool, s: Settings, ms: seq<VideoMode>, tail: seq<byte>)
    requires WellFormed(env, s) && |ms| * 5 < 65536
    ensures ApplyChunk(env, NoConversion, reloadAll, skipScripts, s, CHUNK_VIDEO_MODES, ToWord(|ms| * 5), ModesPayload(ms) + tail)
         == Some((s.(modes := ApplySavedModes(s.modes, ms)), tail))
  {
    var size := ToWord(|ms| * 5);
    ToWordKeepsWords(|ms| * 5);
    assert size / 5 == |ms|;
    LoadModesOfSaved(s.modes, ms, tail);
    ModesDispatch(env, NoConversion, reloadAll, skipScripts, s, ToWord(|ms| * 5), ModesPayload(ms) + tail);
  }

  /**
   * A table whose modes from index 1 on have distinct resolutions, each a
   * valid 16-bit size: the modes a configuration file can find again.
   */
  predicate ModesFindable(modes: seq<VideoMode>) {
    && (forall i :: 1 <= i < |modes| ==> 0 <= modes[i].width < 65536 && 0 <= modes[i].height < 65536)
    && (forall i, j :: 1 <= i < j < |modes| ==> modes[i].width != modes[j].width || modes[i].height != modes[j].height)
  }

  /** Applying the record of one of the table's own saved modes changes nothing. */
  lemma SetOwnModeState(modes: seq<VideoMode>, i: nat)
    requires ModesFindable(modes) && 1 <= i < |modes| && Saved(modes[i])
    ensures SetModeState(modes, modes[i].state, ToWord(modes[i].width), ToWord(modes[i].height)) == modes
  {
    var m := modes[i];
    assert FindMode(modes, ToWord(m.width), ToWord(m.height), 1) == Some(i);
    assert modes[i := m.(state := m.state % 4)] == modes;
  }

  /** Reloading the modes a table saves leaves the table as it was. */
  lemma {:induction false} ApplyOwnModes(modes: seq<VideoMode>, ms: seq<VideoMode>)
    requires ModesFindable(modes) && |modes| >= 1
    requires forall m :: m in ms ==> m in modes[1..] && Saved(m)
    ensures ApplySavedModes(modes, ms) == modes
  {
    if |ms| > 0 {
      var m := ms[0];
      assert m in ms;
      var i :| 0 <= i < |modes[1..]| && modes[1..][i] == m;
      SetOwnModeState(modes, i + 1);
      assert forall x :: x in ms[1..] ==> x in ms;
      ApplyOwnModes(modes, ms[1..]);
    }
  }

  /** Saving then reloading the video modes of a table whose resolutions it can find again gives the table back. */
  lemma ReloadSavedModes(modes: seq<VideoMode>)
    requires ModesFindable(modes)
    ensures ApplySavedModes(modes, SavedModes(modes)) == modes
  {
    if |modes| > 0 {
      ApplyOwnModes(modes, SavedModes(modes));
    }
  }

  // ---------------------------------------------------------------------
  // Shades

  /** The shade lists read back as they were written. */
  lemma {:induction false} ReadShadesOfSaved(shades: seq<Shade>, tail: seq<byte>)
    requires forall k :: 0 <= k < |shades| ==> |shades[k].list| == SHADE_LENGTH
    ensures ReadShades(ShadesPayload(shades) + tail, |shades|) == Some((shades, tail))
  {
    if |shades| > 0 {
      var sh := shades[0];
      var next := ShadesPayload(shades[1..]) + tail;
      var bytes := ShadesPayload(shades) + tail;
      assert bytes == WordsLE(sh.list) + ([sh.step, sh.mode] + next);
      ReadWordsLE(sh.list, [sh.step, sh.mode] + next);
      assert ([sh.step, sh.mode] + next)[2..] == next;
      assert ReadShade(bytes) == Some((sh, next));
      ReadShadesOfSaved(shades[1..], tail);
      assert [sh] + shades[1..] == shades;
    } else {
      assert ShadesPayload(shades) + tail == tail;
    }
  }

  /** The number of bytes of the shade lists: 1026 per list. */
  lemma {:induction false} ShadesPayloadLength(shades: seq<Shade>)
    requires forall k :: 0 <= k < |shades| ==> |shades[k].list| == SHADE_LENGTH
    ensures |ShadesPayload(shades)| == 1026 * |shades|
  {
    if |shades| > 0 {
      ShadesPayloadLength(shades[1..]);
    }
  }

  /** The shade chunk restores the current shade and the eight lists. */
  lemma ShadeChunk(env: Env, skipScripts: bool, s: Settings, current: byte, shades: seq<Shade>, tail: seq<byte>)
    requires WellFormed(env, s) && |shades| == SHADE_COUNT
    requires forall k :: 0 <= k < |shades| ==> |shades[k].list| == SHADE_LENGTH
    ensures ApplyChunk(env, NoConversion, true, skipScripts, s, CHUNK_SHADE, ToWord(SHADE_CHUNK_SIZE), [current] + ShadesPayload(shades) + tail)
         == Some((s.(shadeCurrent := current, shades := shades), tail))
  {
    var bytes := [current] + ShadesPayload(shades) + tail;
    assert bytes[1..] == ShadesPayload(shades) + tail;
    ReadShadesOfSaved(shades, tail);
    ShadeDispatch(env, NoConversion, skipScripts, s, ToWord(SHADE_CHUNK_SIZE), bytes);
  }

  // ---------------------------------------------------------------------
  // Paintbrushes

  /** A brush as it comes back from the file: each non-zero pixel as 1. */
  function ReloadedBrush(b: Paintbrush): (r: Paintbrush)
    ensures r.shape == b.shape && r.width == b.width && r.height == b.height
    ensures r.offsetX == b.offsetX && r.offsetY == b.offsetY && |r.sprite| == |b.sprite|
    ensures forall i :: 0 <= i < |b.sprite| ==> (r.sprite[i] == 1 <==> b.sprite[i] != 0) && r.sprite[i] <= 1
  {
    b.(sprite := Normalized(b.sprite))
  }

  function ReloadedBrushes(bs: seq<Paintbrush>): (r: seq<Paintbrush>)
    ensures |r| == |bs| && forall k :: 0 <= k < |bs| ==> r[k] == ReloadedBrush(bs[k])
  {
    seq(|bs|, k requires 0 <= k < |bs| => ReloadedBrush(bs[k]))
  }

  lemma ReloadedBrushesCons(bs: seq<Paintbrush>)
    requires |bs| > 0
    ensures ReloadedBrushes(bs) == [ReloadedBrush(bs[0])] + ReloadedBrushes(bs[1..])
  {
    assert ReloadedBrushes(bs)[1..] == ReloadedBrushes(bs[1..]);
  }

  /** Unpacking looks only at the bytes the pixels occupy. */
  lemma UnpackPrefix(bitmap: seq<byte>, extra: seq<byte>, n: nat)
    requires PackedSize(n) <= |bitmap|
    ensures Unpack(bitmap + extra, n) == Unpack(bitmap, n)
  {
    forall i | 0 <= i < n
      ensures PackedPixel(bitmap + extra, i) == PackedPixel(bitmap, i)
    {
      assert (bitmap + extra)[i / 8] == bitmap[i / 8];
    }
  }

  /** The nine bytes Save_CFG writes before a brush's pixels. */
  function BrushHeader(b: Paintbrush): (r: seq<byte>)
    ensures |r| == 9
  {
    [b.shape] + WordLE(b.width) + WordLE(b.height) + WordLE(b.offsetX) + WordLE(b.offsetY)
  }

  /** One brush reads back as written, with its pixels normalised. */
  lemma ReadBrushOfSaved(b: Paintbrush, next: seq<byte>)
    requires |b.sprite| == b.width * b.height
    ensures ReadBrush(BrushHeader(b) + (Pack(b.sprite) + next)) == Some((ReloadedBrush(b), next))
  {
    var packed := Pack(b.sprite);
    var bytes := BrushHeader(b) + (packed + next);
    assert bytes[0] == b.shape && WordAt(bytes, 1) == b.width && WordAt(bytes, 3) == b.height;
    assert WordAt(bytes, 5) == b.offsetX && WordAt(bytes, 7) == b.offsetY;
    assert bytes[9..] == packed + next;
    UnpackPrefix(packed, next, |b.sprite|);
    UnpackPack(b.sprite);
    assert (packed + next)[PackedSize(|b.sprite|)..] == next;
  }

  /** The brushes read back as written, with their pixels normalised. */
  lemma {:induction false} ReadBrushesOfSaved(bs: seq<Paintbrush>, tail: seq<byte>)
    requires forall k :: 0 <= k < |bs| ==> |bs[k].sprite| == bs[k].width * bs[k].height
    ensures ReadBrushes(BrushesPayload(bs) + tail, |bs|) == Some((ReloadedBrushes(bs), tail))
  {
    if |bs| > 0 {
      var b := bs[0];
      var next := BrushesPayload(bs[1..]) + tail;
      assert BrushesPayload(bs) == BrushHeader(b) + Pack(b.sprite) + BrushesPayload(bs[1..]);
      AppendAssoc(BrushHeader(b) + Pack(b.sprite), BrushesPayload(bs[1..]), tail);
      AppendAssoc(BrushHeader(b), Pack(b.sprite), next);
      ReadBrushOfSaved(b, next);
      ReadBrushesOfSaved(bs[1..], tail);
      ReloadedBrushesCons(bs);
    } else {
      assert BrushesPayload(bs) + tail == tail;
    }
  }

  /** With reloadAll, the paintbrush chunk restores every brush, its pixels normalised. */
  lemma BrushChunk(env: Env, conv: Conversion, skipScripts: bool, s: Settings, size: word, bs: seq<Paintbrush>, tail: seq<byte>)
    requires WellFormed(env, s) && |bs| == |s.brushes|
    requires forall k :: 0 <= k < |bs| ==> |bs[k].sprite| == bs[k].width * bs[k].height
    ensures ApplyChunk(env, conv, true, skipScripts, s, CHUNK_BRUSH, size, BrushesPayload(bs) + tail)
         == Some((s.(brushes := ReloadedBrushes(bs)), tail))
  {
    ReadBrushesOfSaved(bs, tail);
    BrushDispatch(env, conv, skipScripts, s, size, BrushesPayload(bs) + tail);
  }

  /** The size Save_CFG declares for the paintbrush chunk is the number of bytes it writes. */
  lemma {:induction false} BrushesPayloadLength(bs: seq<Paintbrush>)
    requires forall k :: 0 <= k < |bs| ==> |bs[k].sprite| == bs[k].width * bs[k].height
    ensures |BrushesPayload(bs)| == BrushesSize(bs)
  {
    if |bs| > 0 {
      BrushesPayloadLength(bs[1..]);
    }
  }

  // ---------------------------------------------------------------------
  // Scripts

  /** Scripts the format holds: C strings shorter than 256 bytes. */
  predicate ScriptsStorable(scripts: seq<Option<seq<byte>>>) {
    forall k :: 0 <= k < |scripts| && scripts[k].Some? ==> |scripts[k].value| < 256 && IsCString(scripts[k].value)
  }

  /** A script as it comes back from the file: an empty one comes back as none. */
  function ReloadedScript(o: Option<seq<byte>>): (r: Option<seq<byte>>)
    ensures r.Some? <==> o.Some? && |o.value| > 0
    ensures r.Some? ==> r == o
  {
    if o.Some? && |o.value| == 0 then None else o
  }

  function ReloadedScripts(scripts: seq<Option<seq<byte>>>): (r: seq<Option<seq<byte>>>)
    ensures |r| == |scripts| && forall k :: 0 <= k < |scripts| ==> r[k] == ReloadedScript(scripts[k])
  {
    seq(|scripts|, k requires 0 <= k < |scripts| => ReloadedScript(scripts[k]))
  }

  /** A script written with its length byte reads back whole, seen as a C string. */
  lemma ReadScriptOfSaved(str: seq<byte>, next: seq<byte>)
    requires |str| < 256
    ensures ReadScript([|str| as byte] + str + next) == Some((if |str| == 0 then None else Some(UpToNul(str)), |str| as byte, next))
  {
    var bytes := [|str|] + str + next;
    assert bytes[1..1 + |str|] == str && bytes[1 + |str|..] == next;
  }

  /** The first script of a storable list as it is written and read back. */
  lemma ScriptsHead(rest: seq<Option<seq<byte>>>, tail: seq<byte>) returns (str: seq<byte>)
    requires |rest| > 0 && ScriptsStorable(rest)
    ensures |str| < 256 && ScriptsPayload(rest) + tail == [|str|] + str + (ScriptsPayload(rest[1..]) + tail)
    ensures ScriptsSize(rest) == |str| + 1 + ScriptsSize(rest[1..])
    ensures ScriptsStorable(rest[1..])
    ensures (if |str| == 0 then None else Some(UpToNul(str))) == ReloadedScript(rest[0])
  {
    str := if rest[0].None? then [] else rest[0].value;
    StorableHead(rest);
    PayloadHead(rest, str, tail);
    SizeHead(rest, str);
    if |str| != 0 {
      UpToNulOfCString(str);
    }
  }

  /** The first script of a storable list is a short C string, and the others are storable. */
  lemma StorableHead(rest: seq<Option<seq<byte>>>)
    requires |rest| > 0 && ScriptsStorable(rest)
    ensures rest[0].Some? ==> |rest[0].value| < 256 && IsCString(rest[0].value)
    ensures ScriptsStorable(rest[1..])
  {
    forall i | 0 <= i < |rest[1..]| && rest[1..][i].Some?
      ensures |rest[1..][i].value| < 256 && IsCString(rest[1..][i].value)
    {
      assert rest[1..][i] == rest[i + 1];
    }
  }

  /** The payload of a list of scripts, its first script `str` of fewer than 256 bytes taken apart. */
  lemma PayloadHead(rest: seq<Option<seq<byte>>>, str: seq<byte>, tail: seq<byte>)
    requires |rest| > 0 && str == (if rest[0].None? then [] else rest[0].value) && |str| < 256
    ensures ScriptsPayload(rest) + tail == [|str|] + str + (ScriptsPayload(rest[1..]) + tail)
  {
    ShortScriptLength(rest[0], str);
    var head: seq<byte> := [|str|] + str;
    assert ScriptsPayload(rest) == head + ScriptsPayload(rest[1..]);
    AppendAssoc(head, ScriptsPayload(rest[1..]), tail);
  }

  /** The length byte of a script shorter than 256 bytes is its length. */
  lemma ShortScriptLength(o: Option<seq<byte>>, str: seq<byte>)
    requires str == (if o.None? then [] else o.value) && |str| < 256
    ensures ScriptLength(o) == |str|
  {
  }

  /** The declared size of a list of scripts: its first script `str` plus its length byte, then the others. */
  lemma SizeHead(rest: seq<Option<seq<byte>>>, str: seq<byte>)
    requires |rest| > 0 && str == (if rest[0].None? then [] else rest[0].value)
    ensures ScriptsSize(rest) == |str| + 1 + ScriptsSize(rest[1..])
  {
  }

  /** The slots from k on, filled one by one with the reloaded scripts of `rest`. */
  function FillScripts(acc: seq<Option<seq<byte>>>, k: nat, rest: seq<Option<seq<byte>>>): (r: seq<Option<seq<byte>>>)
    requires k + |rest| <= |acc|
    ensures |r| == |acc|
    decreases |rest|
  {
    if |rest| == 0 then acc else FillScripts(acc[k := ReloadedScript(rest[0])], k + 1, rest[1..])
  }

  /** Filling the last slots leaves the first k and puts the reloaded scripts after them. */
  lemma {:induction false} FillScriptsIsReloaded(acc: seq<Option<seq<byte>>>, k: nat, rest: seq<Option<seq<byte>>>)
    requires k + |rest| == |acc|
    ensures FillScripts(acc, k, rest) == acc[..k] + ReloadedScripts(rest)
    decreases |rest|
  {
    if |rest| == 0 {
      assert acc[..k] == acc;
    } else {
      FillScriptsIsReloaded(acc[k := ReloadedScript(rest[0])], k + 1, rest[1..]);
      ReloadedScriptsStep(acc, rest, k);
    }
  }

  /** The last scripts, `rest`, read back into slots k and on, while the bytes still owed make up the rest of the declared size. */
  lemma {:induction false} LoadScriptsOfSaved(acc: seq<Option<seq<byte>>>, rest: seq<Option<seq<byte>>>, k: nat,
                                              done: int, size: word, tail: seq<byte>)
    requires |acc| == SCRIPT_COUNT && k < SCRIPT_COUNT && |rest| == SCRIPT_COUNT - k
    requires ScriptsStorable(rest)
    requires size - done == ScriptsSize(rest)
    ensures LoadScripts(acc, ScriptsPayload(rest) + tail, size, done, k) == Some((FillScripts(acc, k, rest), tail))
    decreases SCRIPT_COUNT - k
  {
    if k + 1 == SCRIPT_COUNT {
      LoadLastScript(acc, rest, k, done, size, tail);
    } else {
      var len := LoadScriptStep(acc, rest, k, done, size, tail);
      var acc' := acc[k := ReloadedScript(rest[0])];
      LoadScriptsOfSaved(acc', rest[1..], k + 1, done + len + 1, size, tail);
      assert FillScripts(acc, k, rest) == FillScripts(acc', k + 1, rest[1..]);
    }
  }

  /** Storing the first reloaded script in slot k extends the reloaded prefix by one. */
  lemma ReloadedScriptsStep(acc: seq<Option<seq<byte>>>, rest: seq<Option<seq<byte>>>, k: nat)
    requires k < |acc| && |rest| > 0
    ensures acc[k := ReloadedScript(rest[0])][..k + 1] + ReloadedScripts(rest[1..]) == acc[..k] + ReloadedScripts(rest)
  {
    var left := acc[k := ReloadedScript(rest[0])][..k + 1] + ReloadedScripts(rest[1..]);
    var right := acc[..k] + ReloadedScripts(rest);
    assert |left| == |right|;
    forall i | 0 <= i < |left|
      ensures left[i] == right[i]
    {
      if i > k {
        assert left[i] == ReloadedScript(rest[i - k]);
      }
    }
  }

  /** A script other than the tenth: the loop reads it and goes on with the next slot. */
  lemma LoadScriptStep(acc: seq<Option<seq<byte>>>, rest: seq<Option<seq<byte>>>, k: nat, done: int, size: word, tail: seq<byte>)
      returns (len: nat)
    requires |acc| == SCRIPT_COUNT && k + 1 < SCRIPT_COUNT && |rest| == SCRIPT_COUNT - k
    requires ScriptsStorable(rest)
    requires size - done == ScriptsSize(rest)
    ensures ScriptsStorable(rest[1..]) && size - (done + len + 1) == ScriptsSize(rest[1..])
    ensures LoadScripts(acc, ScriptsPayload(rest) + tail, size, done, k)
         == LoadScripts(acc[k := ReloadedScript(rest[0])], ScriptsPayload(rest[1..]) + tail, size, done + len + 1, k + 1)
  {
    var str := ScriptsHead(rest, tail);
    len := |str|;
    var next := ScriptsPayload(rest[1..]) + tail;
    var bytes := ScriptsPayload(rest) + tail;
    ReadScriptOfSaved(str, next);
    assert ReadScript(bytes) == Some((ReloadedScript(rest[0]), len as byte, next));
    ScriptsLoopStep(acc, bytes, size, done, k, true, ReloadedScript(rest[0]), len as byte, next);
  }

  /** The tenth script ends the loop. */
  lemma LoadLastScript(acc: seq<Option<seq<byte>>>, rest: seq<Option<seq<byte>>>, k: nat, done: int, size: word, tail: seq<byte>)
    requires |acc| == SCRIPT_COUNT && k + 1 == SCRIPT_COUNT && |rest| == 1
    requires ScriptsStorable(rest)
    requires size - done == ScriptsSize(rest)
    ensures LoadScripts(acc, ScriptsPayload(rest) + tail, size, done, k) == Some((FillScripts(acc, k, rest), tail))
  {
    var str := ScriptsHead(rest, tail);
    assert rest[1..] == [];
    var next := ScriptsPayload(rest[1..]) + tail;
    assert next == tail;
    ReadScriptOfSaved(str, next);
    ScriptsLoopStep(acc, ScriptsPayload(rest) + tail, size, done, k, true, ReloadedScript(rest[0]), |str| as byte, next);
  }

  /** The size Save_CFG declares for the scripts chunk is the number of bytes it writes, when every script is shorter than 256 bytes. */
  lemma {:induction false} ScriptsPayloadLength(scripts: seq<Option<seq<byte>>>)
    requires ScriptsStorable(scripts)
    ensures |ScriptsPayload(scripts)| == ScriptsSize(scripts)
  {
    if |scripts| > 0 {
      assert ScriptsStorable(scripts[1..]) by {
        forall k | 0 <= k < |scripts[1..]| && scripts[1..][k].Some?
          ensures |scripts[1..][k].value| < 256
        {
          assert scripts[1..][k] == scripts[k + 1];
        }
      }
      ScriptsPayloadLength(scripts[1..]);
    }
  }

  /** Storable scripts fit a 16-bit chunk size. */
  lemma {:induction false} ScriptsSizeBound(scripts: seq<Option<seq<byte>>>)
    requires ScriptsStorable(scripts)
    ensures ScriptsSize(scripts) <= 256 * |scripts|
  {
    if |scripts| > 0 {
      assert ScriptsStorable(scripts[1..]) by {
        forall k | 0 <= k < |scripts[1..]| && scripts[1..][k].Some?
          ensures |scripts[1..][k].value| < 256
        {
          assert scripts[1..][k] == scripts[k + 1];
        }
      }
      ScriptsSizeBound(scripts[1..]);
    }
  }

  /** The scripts chunk restores every script but the empty ones. */
  lemma ScriptsChunk(env: Env, skipScripts: bool, s: Settings, scripts: seq<Option<seq<byte>>>, tail: seq<byte>)
    requires WellFormed(env, s) && |scripts| == SCRIPT_COUNT && ScriptsStorable(scripts)
    ensures ApplyChunk(env, NoConversion, true, skipScripts, s, CHUNK_SCRIPTS, ToWord(ScriptsSize(scripts)), ScriptsPayload(scripts) + tail)
         == Some((s.(scripts := ReloadedScripts(scripts)), tail))
  {
    ScriptsSizeBound(scripts);
    ToWordKeepsWords(ScriptsSize(scripts));
    var size := ToWord(ScriptsSize(scripts));
    var bytes := ScriptsPayload(scripts) + tail;
    LoadScriptsOfSaved(s.scripts, scripts, 0, 0, size, tail);
    FillScriptsIsReloaded(s.scripts, 0, scripts);
    assert s.scripts[..0] + ReloadedScripts(scripts) == ReloadedScripts(scripts);
    ScriptsDispatch(env, NoConversion, skipScripts, s, size, bytes);
  }

  // ---------------------------------------------------------------------
  // Whole files

  /** What a saved configuration must satisfy for Load_CFG to read all of it back. */
  predicate Reloadable(env: Env, s: Settings) {
    && WellFormed(env, s)
    && VersionConversion(env, env.version) == Some(NoConversion)
    && Distinct(env.shortcutNumbers)
    && |env.shortcutNumbers| * 6 < 65536
    && |SavedModes(s.modes)| * 5 < 65536
    && ScriptsStorable(s.scripts)
  }

  /** The settings a full load of the file saved from `s` leaves, starting from `s0`. */
  function Reloaded(s0: Settings, s: Settings): (r: Settings)
    ensures r.keys == s.keys && r.shades == s.shades && r.mask == s.mask && r.stencil == s.stencil
    ensures r.smooth == s.smooth && r.exclude == s.exclude && r.shadeCurrent == s.shadeCurrent
    ensures r.snapWidth == s.snapWidth && r.snapHeight == s.snapHeight
    ensures r.snapOffsetX == s.snapOffsetX && r.snapOffsetY == s.snapOffsetY
    ensures r.quickShadeStep == s.quickShadeStep && r.quickShadeLoop == s.quickShadeLoop
  {
    s.(modes := ApplySavedModes(s0.modes, SavedModes(s.modes)),
       brushes := ReloadedBrushes(s.brushes),
       scripts := ReloadedScripts(s.scripts))
  }

  // The chunks Save_CFG writes from a given chunk to the end of the file.

  function FromScripts(s: Settings): seq<byte> {
    Chunk(CHUNK_SCRIPTS, ScriptsSize(s.scripts), ScriptsPayload(s.scripts))
  }

  function FromBrush(s: Settings): seq<byte> {
    Chunk(CHUNK_BRUSH, BrushesSize(s.brushes), BrushesPayload(s.brushes)) + FromScripts(s)
  }

  function FromGrid(s: Settings): seq<byte> {
    Chunk(CHUNK_GRID, 8, WordsLE([s.snapWidth, s.snapHeight, s.snapOffsetX, s.snapOffsetY])) + FromBrush(s)
  }

  function FromQuickShade(s: Settings): seq<byte> {
    Chunk(CHUNK_QUICK_SHADE, 2, [s.quickShadeStep, s.quickShadeLoop]) + FromGrid(s)
  }

  function FromExclude(s: Settings): seq<byte> {
    Chunk(CHUNK_EXCLUDE_COLORS, 256, s.exclude) + FromQuickShade(s)
  }

  function FromSmooth(s: Settings): seq<byte> {
    Chunk(CHUNK_SMOOTH, 9, s.smooth) + FromExclude(s)
  }

  function FromStencil(s: Settings): seq<byte> {
    Chunk(CHUNK_STENCIL, 256, s.stencil) + FromSmooth(s)
  }

  function FromMask(s: Settings): seq<byte> {
    Chunk(CHUNK_MASK, 256, s.mask) + FromStencil(s)
  }

  function FromShade(s: Settings): seq<byte> {
    Chunk(CHUNK_SHADE, SHADE_CHUNK_SIZE, [s.shadeCurrent] + ShadesPayload(s.shades)) + FromMask(s)
  }

  function FromModes(s: Settings): seq<byte> {
    Chunk(CHUNK_VIDEO_MODES, |SavedModes(s.modes)| * 5, ModesPayload(SavedModes(s.modes))) + FromShade(s)
  }

  lemma SavedChunksSplit(env: Env, s: Settings)
    requires WellFormed(env, s)
    ensures SavedChunks(env, s) == Chunk(CHUNK_KEYS, |env.shortcutNumbers| * 6, KeysPayload(env.shortcutNumbers, s.keys)) + FromModes(s)
  {
  }

  /** A last chunk: the loop applies it and stops. */
  lemma LastChunk(env: Env, conv: Conversion, reloadAll: bool, skipScripts: bool, s: Settings,
                  tag: byte, size: int, payload: seq<byte>, lastSize: word, s': Settings)
    requires WellFormed(env, s)
    requires ApplyChunk(env, conv, reloadAll, skipScripts, s, tag, ToWord(size), payload) == Some((s', []))
    ensures LoadChunks(env, conv, reloadAll, skipScripts, s, Chunk(tag, size, payload), lastSize) == Some(s')
  {
    assert payload + [] == payload && Chunk(tag, size, payload) + [] == Chunk(tag, size, payload);
    ChunkStep(env, conv, reloadAll, skipScripts, s, tag, size, payload, [], lastSize, s');
  }

  // Each lemma below reads, with reloadAll, the saved chunks from one chunk to the end.

  lemma ReloadFromScripts(env: Env, skipScripts: bool, t: Settings, s: Settings, last: word)
    requires WellFormed(env, t) && Reloadable(env, s)
    ensures LoadChunks(env, NoConversion, true, skipScripts, t, FromScripts(s), last) == Some(t.(scripts := ReloadedScripts(s.scripts)))
  {
    assert ScriptsPayload(s.scripts) + [] == ScriptsPayload(s.scripts);
    ScriptsChunk(env, skipScripts, t, s.scripts, []);
    LastChunk(env, NoConversion, true, skipScripts, t, CHUNK_SCRIPTS, ScriptsSize(s.scripts), ScriptsPayload(s.scripts), last,
              t.(scripts := ReloadedScripts(s.scripts)));
  }

  lemma ReloadFromBrush(env: Env, skipScripts: bool, t: Settings, s: Settings, last: word)
    requires WellFormed(env, t) && Reloadable(env, s) && |t.brushes| == |s.brushes|
    ensures LoadChunks(env, NoConversion, true, skipScripts, t, FromBrush(s), last)
         == Some(t.(brushes := ReloadedBrushes(s.brushes), scripts := ReloadedScripts(s.scripts)))
  {
    var size := BrushesSize(s.brushes);
    var t' := t.(brushes := ReloadedBrushes(s.brushes));
    BrushChunk(env, NoConversion, skipScripts, t, ToWord(size), s.brushes, FromScripts(s));
    ChunkStep(env, NoConversion, true, skipScripts, t, CHUNK_BRUSH, size, BrushesPayload(s.brushes), FromScripts(s), last, t');
    ReloadFromScripts(env, skipScripts, t', s, ToWord(size));
  }

  lemma ReloadFromGrid(env: Env, skipScripts: bool, t: Settings, s: Settings, last: word)
    requires WellFormed(env, t) && Reloadable(env, s) && |t.brushes| == |s.brushes|
    ensures LoadChunks(env, NoConversion, true, skipScripts, t, FromGrid(s), last)
         == Some(t.(snapWidth := s.snapWidth, snapHeight := s.snapHeight, snapOffsetX := s.snapOffsetX, snapOffsetY := s.snapOffsetY,
                    brushes := ReloadedBrushes(s.brushes), scripts := ReloadedScripts(s.scripts)))
  {
    var t' := t.(snapWidth := s.snapWidth, snapHeight := s.snapHeight, snapOffsetX := s.snapOffsetX, snapOffsetY := s.snapOffsetY);
    GridChunk(env, NoConversion, skipScripts, t, 8, s.snapWidth, s.snapHeight, s.snapOffsetX, s.snapOffsetY, FromBrush(s));
    ChunkStep(env, NoConversion, true, skipScripts, t, CHUNK_GRID, 8, WordsLE([s.snapWidth, s.snapHeight, s.snapOffsetX, s.snapOffsetY]),
              FromBrush(s), last, t');
    ReloadFromBrush(env, skipScripts, t', s, 8);
  }

  lemma ReloadFromQuickShade(env: Env, skipScripts: bool, t: Settings, s: Settings, last: word)
    requires WellFormed(env, t) && Reloadable(env, s) && |t.brushes| == |s.brushes|
    ensures LoadChunks(env, NoConversion, true, skipScripts, t, FromQuickShade(s), last)
         == Some(t.(quickShadeStep := s.quickShadeStep, quickShadeLoop := s.quickShadeLoop,
                    snapWidth := s.snapWidth, snapHeight := s.snapHeight, snapOffsetX := s.snapOffsetX, snapOffsetY := s.snapOffsetY,
                    brushes := ReloadedBrushes(s.brushes), scripts := ReloadedScripts(s.scripts)))
  {
    var t' := t.(quickShadeStep := s.quickShadeStep, quickShadeLoop := s.quickShadeLoop);
    ByteChunks(env, NoConversion, skipScripts, t, 2, [s.quickShadeStep, s.quickShadeLoop], FromGrid(s));
    ChunkStep(env, NoConversion, true, skipScripts, t, CHUNK_QUICK_SHADE, 2, [s.quickShadeStep, s.quickShadeLoop], FromGrid(s), last, t');
    ReloadFromGrid(env, skipScripts, t', s, 2);
  }

  lemma ReloadFromExclude(env: Env, skipScripts: bool, t: Settings, s: Settings, last: word)
    requires WellFormed(env, t) && Reloadable(env, s) && |t.brushes| == |s.brushes|
    ensures LoadChunks(env, NoConversion, true, skipScripts, t, FromExclude(s), last)
         == Some(t.(exclude := s.exclude, quickShadeStep := s.quickShadeStep, quickShadeLoop := s.quickShadeLoop,
                    snapWidth := s.snapWidth, snapHeight := s.snapHeight, snapOffsetX := s.snapOffsetX, snapOffsetY := s.snapOffsetY,
                    brushes := ReloadedBrushes(s.brushes), scripts := ReloadedScripts(s.scripts)))
  {
    var t' := t.(exclude := s.exclude);
    ByteChunks(env, NoConversion, skipScripts, t, 256, s.exclude, FromQuickShade(s));
    ChunkStep(env, NoConversion, true, skipScripts, t, CHUNK_EXCLUDE_COLORS, 256, s.exclude, FromQuickShade(s), last, t');
    ReloadFromQuickShade(env, skipScripts, t', s, 256);
  }

  lemma ReloadFromSmooth(env: Env, skipScripts: bool, t: Settings, s: Settings, last: word)
    requires WellFormed(env, t) && Reloadable(env, s) && |t.brushes| == |s.brushes|
    ensures LoadChunks(env, NoConversion, true, skipScripts, t, FromSmooth(s), last)
         == Some(t.(smooth := s.smooth, exclude := s.exclude, quickShadeStep := s.quickShadeStep, quickShadeLoop := s.quickShadeLoop,
                    snapWidth := s.snapWidth, snapHeight := s.snapHeight, snapOffsetX := s.snapOffsetX, snapOffsetY := s.snapOffsetY,
                    brushes := ReloadedBrushes(s.brushes), scripts := ReloadedScripts(s.scripts)))
  {
    var t' := t.(smooth := s.smooth);
    ByteChunks(env, NoConversion, skipScripts, t, 9, s.smooth, FromExclude(s));
    ChunkStep(env, NoConversion, true, skipScripts, t, CHUNK_SMOOTH, 9, s.smooth, FromExclude(s), last, t');
    ReloadFromExclude(env, skipScripts, t', s, 9);
  }

  lemma ReloadFromStencil(env: Env, skipScripts: bool, t: Settings, s: Settings, last: word)
    requires WellFormed(env, t) && Reloadable(env, s) && |t.brushes| == |s.brushes|
    ensures LoadChunks(env, NoConversion, true, skipScripts, t, FromStencil(s), last)
         == Some(t.(stencil := s.stencil, smooth := s.smooth, exclude := s.exclude,
                    quickShadeStep := s.quickShadeStep, quickShadeLoop := s.quickShadeLoop,
                    snapWidth := s.snapWidth, snapHeight := s.snapHeight, snapOffsetX := s.snapOffsetX, snapOffsetY := s.snapOffsetY,
                    brushes := ReloadedBrushes(s.brushes), scripts := ReloadedScripts(s.scripts)))
  {
    var t' := t.(stencil := s.stencil);
    ByteChunks(env, NoConversion, skipScripts, t, 256, s.stencil, FromSmooth(s));
    ChunkStep(env, NoConversion, true, skipScripts, t, CHUNK_STENCIL, 256, s.stencil, FromSmooth(s), last, t');
    ReloadFromSmooth(env, skipScripts, t', s, 256);
  }

  lemma ReloadFromMask(env: Env, skipScripts: bool, t: Settings, s: Settings, last: word)
    requires WellFormed(env, t) && Reloadable(env, s) && |t.brushes| == |s.brushes|
    ensures LoadChunks(env, NoConversion, true, skipScripts, t, FromMask(s), last)
         == Some(t.(mask := s.mask, stencil := s.stencil, smooth := s.smooth, exclude := s.exclude,
                    quickShadeStep := s.quickShadeStep, quickShadeLoop := s.quickShadeLoop,
                    snapWidth := s.snapWidth, snapHeight := s.snapHeight, snapOffsetX := s.snapOffsetX, snapOffsetY := s.snapOffsetY,
                    brushes := ReloadedBrushes(s.brushes), scripts := ReloadedScripts(s.scripts)))
  {
    var t' := t.(mask := s.mask);
    ByteChunks(env, NoConversion, skipScripts, t, 256, s.mask, FromStencil(s));
    ChunkStep(env, NoConversion, true, skipScripts, t, CHUNK_MASK, 256, s.mask, FromStencil(s), last, t');
    ReloadFromStencil(env, skipScripts, t', s, 256);
  }

  lemma ReloadFromShade(env: Env, skipScripts: bool, t: Settings, s: Settings, last: word)
    requires WellFormed(env, t) && Reloadable(env, s) && |t.brushes| == |s.brushes|
    ensures LoadChunks(env, NoConversion, true, skipScripts, t, FromShade(s), last)
         == Some(t.(shadeCurrent := s.shadeCurrent, shades := s.shades,
                    mask := s.mask, stencil := s.stencil, smooth := s.smooth, exclude := s.exclude,
                    quickShadeStep := s.quickShadeStep, quickShadeLoop := s.quickShadeLoop,
                    snapWidth := s.snapWidth, snapHeight := s.snapHeight, snapOffsetX := s.snapOffsetX, snapOffsetY := s.snapOffsetY,
                    brushes := ReloadedBrushes(s.brushes), scripts := ReloadedScripts(s.scripts)))
  {
    var t' := t.(shadeCurrent := s.shadeCurrent, shades := s.shades);
    var payload := [s.shadeCurrent] + ShadesPayload(s.shades);
    ShadeChunk(env, skipScripts, t, s.shadeCurrent, s.shades, FromMask(s));
    assert payload + FromMask(s) == [s.shadeCurrent] + ShadesPayload(s.shades) + FromMask(s);
    ChunkStep(env, NoConversion, true, skipScripts, t, CHUNK_SHADE, SHADE_CHUNK_SIZE, payload, FromMask(s), last, t');
    ReloadFromMask(env, skipScripts, t', s, ToWord(SHADE_CHUNK_SIZE));
  }

  /** The chunk loop over a whole saved file, with reloadAll. */
  lemma ReloadSavedChunks(env: Env, skipScripts: bool, s0: Settings, s: Settings)
    requires WellFormed(env, s0) && Reloadable(env, s) && |s0.brushes| == |s.brushes|
    ensures LoadChunks(env, NoConversion, true, skipScripts, s0, SavedChunks(env, s), 0) == Some(Reloaded(s0, s))
  {
    var ms := SavedModes(s.modes);
    var nk := |env.shortcutNumbers| * 6;
    SavedChunksSplit(env, s);
    var s1 := s0.(keys := s.keys);
    KeysChunk(env, skipScripts, s0, s.keys, FromModes(s));
    ChunkStep(env, NoConversion, true, skipScripts, s0, CHUNK_KEYS, nk, KeysPayload(env.shortcutNumbers, s.keys), FromModes(s), 0, s1);
    var s2 := s1.(modes := ApplySavedModes(s0.modes, ms));
    ModesChunk(env, true, skipScripts, s1, ms, FromShade(s));
    ChunkStep(env, NoConversion, true, skipScripts, s1, CHUNK_VIDEO_MODES, |ms| * 5, ModesPayload(ms), FromShade(s), ToWord(nk), s2);
    ReloadFromShade(env, skipScripts, s2, s, ToWord(|ms| * 5));
  }

  /**
   * Load_CFG with reload_all reads back what Save_CFG wrote: every setting
   * of `s`, the video-mode states applied to the table being loaded into,
   * brush pixels normalised and empty scripts dropped.
   */
  lemma SaveThenLoad(env: Env, s0: Settings, s: Settings)
    requires WellFormed(env, s0) && Reloadable(env, s) && |s0.brushes| == |s.brushes|
    ensures LoadCfgSpec(env, Some(SaveCfgSpec(env, s)), true, s0) == Loaded(Reloaded(s0, s))
  {
    ReloadSavedChunks(env, false, s0, s);
    OwnHeaderLoad(env, true, false, s0, SavedChunks(env, s));
  }

  /** A table whose modes can be found again is restored whole by saving and reloading it. */
  lemma SaveThenLoadSameTable(env: Env, s0: Settings, s: Settings)
    requires WellFormed(env, s0) && Reloadable(env, s) && |s0.brushes| == |s.brushes|
    requires s0.modes == s.modes && ModesFindable(s.modes)
    ensures LoadCfgSpec(env, Some(SaveCfgSpec(env, s)), true, s0)
         == Loaded(s.(brushes := ReloadedBrushes(s.brushes), scripts := ReloadedScripts(s.scripts)))
  {
    SaveThenLoad(env, s0, s);
    ReloadSavedModes(s.modes);
  }

  // ---------------------------------------------------------------------
  // Reloading without reloadAll

  // Each lemma below skips, without reloadAll, the saved chunks from one chunk up to the scripts chunk.

  lemma SkipFromBrush(env: Env, skipScripts: bool, t: Settings, s: Settings, last: word)
    requires WellFormed(env, t) && Reloadable(env, s) && BrushesSize(s.brushes) < 65536
    ensures LoadChunks(env, NoConversion, false, skipScripts, t, FromBrush(s), last)
         == LoadChunks(env, NoConversion, false, skipScripts, t, FromScripts(s), BrushesSize(s.brushes))
  {
    BrushesPayloadLength(s.brushes);
    SkippedChunk(env, NoConversion, skipScripts, t, CHUNK_BRUSH, BrushesPayload(s.brushes), FromScripts(s), last);
  }

  lemma SkipFromGrid(env: Env, skipScripts: bool, t: Settings, s: Settings, last: word)
    requires WellFormed(env, t) && Reloadable(env, s) && BrushesSize(s.brushes) < 65536
    ensures LoadChunks(env, NoConversion, false, skipScripts, t, FromGrid(s), last)
         == LoadChunks(env, NoConversion, false, skipScripts, t, FromScripts(s), BrushesSize(s.brushes))
  {
    SkippedChunk(env, NoConversion, skipScripts, t, CHUNK_GRID, WordsLE([s.snapWidth, s.snapHeight, s.snapOffsetX, s.snapOffsetY]), FromBrush(s), last);
    SkipFromBrush(env, skipScripts, t, s, 8);
  }

  lemma SkipFromQuickShade(env: Env, skipScripts: bool, t: Settings, s: Settings, last: word)
    requires WellFormed(env, t) && Reloadable(env, s) && BrushesSize(s.brushes) < 65536
    ensures LoadChunks(env, NoConversion, false, skipScripts, t, FromQuickShade(s), last)
         == LoadChunks(env, NoConversion, false, skipScripts, t, FromScripts(s), BrushesSize(s.brushes))
  {
    SkippedChunk(env, NoConversion, skipScripts, t, CHUNK_QUICK_SHADE, [s.quickShadeStep, s.quickShadeLoop], FromGrid(s), last);
    SkipFromGrid(env, skipScripts, t, s, 2);
  }

  lemma SkipFromExclude(env: Env, skipScripts: bool, t: Settings, s: Settings, last: word)
    requires WellFormed(env, t) && Reloadable(env, s) && BrushesSize(s.brushes) < 65536
    ensures LoadChunks(env, NoConversion, false, skipScripts, t, FromExclude(s), last)
         == LoadChunks(env, NoConversion, false, skipScripts, t, FromScripts(s), BrushesSize(s.brushes))
  {
    SkippedChunk(env, NoConversion, skipScripts, t, CHUNK_EXCLUDE_COLORS, s.exclude, FromQuickShade(s), last);
    SkipFromQuickShade(env, skipScripts, t, s, 256);
  }

  lemma SkipFromSmooth(env: Env, skipScripts: bool, t: Settings, s: Settings, last: word)
    requires WellFormed(env, t) && Reloadable(env, s) && BrushesSize(s.brushes) < 65536
    ensures LoadChunks(env, NoConversion, false, skipScripts, t, FromSmooth(s), last)
         == LoadChunks(env, NoConversion, false, skipScripts, t, FromScripts(s), BrushesSize(s.brushes))
  {
    SkippedChunk(env, NoConversion, skipScripts, t, CHUNK_SMOOTH, s.smooth, FromExclude(s), last);
    SkipFromExclude(env, skipScripts, t, s, 9);
  }

  lemma SkipFromStencil(env: Env, skipScripts: bool, t: Settings, s: Settings, last: word)
    requires WellFormed(env, t) && Reloadable(env, s) && BrushesSize(s.brushes) < 65536
    ensures LoadChunks(env, NoConversion, false, skipScripts, t, FromStencil(s), last)
         == LoadChunks(env, NoConversion, false, skipScripts, t, FromScripts(s), BrushesSize(s.brushes))
  {
    SkippedChunk(env, NoConversion, skipScripts, t, CHUNK_STENCIL, s.stencil, FromSmooth(s), last);
    SkipFromSmooth(env, skipScripts, t, s, 256);
  }

  lemma SkipFromMask(env: Env, skipScripts: bool, t: Settings, s: Settings, last: word)
    requires WellFormed(env, t) && Reloadable(env, s) && BrushesSize(s.brushes) < 65536
    ensures LoadChunks(env, NoConversion, false, skipScripts, t, FromMask(s), last)
         == LoadChunks(env, NoConversion, false, skipScripts, t, FromScripts(s), BrushesSize(s.brushes))
  {
    SkippedChunk(env, NoConversion, skipScripts, t, CHUNK_MASK, s.mask, FromStencil(s), last);
    SkipFromStencil(env, skipScripts, t, s, 256);
  }

  lemma SkipFromShade(env: Env, skipScripts: bool, t: Settings, s: Settings, last: word)
    requires WellFormed(env, t) && Reloadable(env, s) && BrushesSize(s.brushes) < 65536
    ensures LoadChunks(env, NoConversion, false, skipScripts, t, FromShade(s), last)
         == LoadChunks(env, NoConversion, false, skipScripts, t, FromScripts(s), BrushesSize(s.brushes))
  {
    var payload := [s.shadeCurrent] + ShadesPayload(s.shades);
    ShadesPayloadLength(s.shades);
    assert |payload| == SHADE_CHUNK_SIZE;
    SkippedChunk(env, NoConversion, skipScripts, t, CHUNK_SHADE, payload, FromMask(s), last);
    SkipFromMask(env, skipScripts, t, s, SHADE_CHUNK_SIZE);
  }

  /** Without reloadAll, the chunk loop skips every saved chunk up to the scripts but reads the video modes. */
  lemma PartialSavedChunks(env: Env, skipScripts: bool, s0: Settings, s: Settings)
    requires WellFormed(env, s0) && Reloadable(env, s) && BrushesSize(s.brushes) < 65536
    ensures LoadChunks(env, NoConversion, false, skipScripts, s0, SavedChunks(env, s), 0)
         == LoadChunks(env, NoConversion, false, skipScripts, s0.(modes := ApplySavedModes(s0.modes, SavedModes(s.modes))),
                       FromScripts(s), BrushesSize(s.brushes))
  {
    var ms := SavedModes(s.modes);
    var nk := |env.shortcutNumbers| * 6;
    SavedChunksSplit(env, s);
    SkippedChunk(env, NoConversion, skipScripts, s0, CHUNK_KEYS, KeysPayload(env.shortcutNumbers, s.keys), FromModes(s), 0);
    var s1 := s0.(modes := ApplySavedModes(s0.modes, ms));
    ModesChunk(env, false, skipScripts, s0, ms, FromShade(s));
    ChunkStep(env, NoConversion, false, skipScripts, s0, CHUNK_VIDEO_MODES, |ms| * 5, ModesPayload(ms), FromShade(s), nk, s1);
    SkipFromShade(env, skipScripts, s1, s, ToWord(|ms| * 5));
  }

  /**
   * The scripts chunk as Load_CFG handles it without reload_all: it is not
   * skipped, so its first byte, the length of the first script, is read as
   * the next chunk tag, and a length above the last tag makes the load fail.
   */
  lemma ScriptsReadAsChunks(env: Env, t: Settings, s: Settings, last: word)
    requires WellFormed(env, t) && Reloadable(env, s)
    requires s.scripts[0].Some? && |s.scripts[0].value| > CHUNK_SCRIPTS as int
    ensures LoadChunks(env, NoConversion, false, false, t, FromScripts(s), last).None?
  {
    var payload := ScriptsPayload(s.scripts);
    var size := ScriptsSize(s.scripts);
    var bytes := FromScripts(s);
    ScriptsSizeBound(s.scripts);
    ToWordKeepsWords(size);
    assert bytes[0] == CHUNK_SCRIPTS && bytes[1..][2..] == payload;
    assert ChunkSize(bytes[1..], last) == (size, payload);
    assert ApplyChunk(env, NoConversion, false, false, t, CHUNK_SCRIPTS, size, payload) == Some((t, payload));
    assert LoadChunks(env, NoConversion, false, false, t, bytes, last) == LoadChunks(env, NoConversion, false, false, t, payload, size);
    assert payload[0] == |s.scripts[0].value|;
  }

  /** Skipped by its size like the other chunks, the scripts chunk ends the load and changes nothing. */
  lemma ScriptsSkipped(env: Env, t: Settings, s: Settings, last: word)
    requires WellFormed(env, t) && Reloadable(env, s)
    ensures LoadChunks(env, NoConversion, false, true, t, FromScripts(s), last) == Some(t)
  {
    var payload := ScriptsPayload(s.scripts);
    var size := ScriptsSize(s.scripts);
    ScriptsSizeBound(s.scripts);
    ScriptsPayloadLength(s.scripts);
    ToWordKeepsWords(size);
    assert Skip(payload, ToWord(size)) == [];
    assert ApplyChunk(env, NoConversion, false, true, t, CHUNK_SCRIPTS, ToWord(size), payload) == Some((t, []));
    LastChunk(env, NoConversion, false, true, t, CHUNK_SCRIPTS, size, payload, last, t);
  }

  /** A file with the signature and the program's own version: loading it runs the chunk loop over what follows the header. */
  lemma OwnHeaderLoad(env: Env, reloadAll: bool, skipScripts: bool, s0: Settings, chunks: seq<byte>)
    requires WellFormed(env, s0) && VersionConversion(env, env.version) == Some(NoConversion)
    ensures var v := env.version;
      LoadCfgWith(env, Some(SIGNATURE + [v.v1, v.v2, v.beta1, v.beta2] + chunks), reloadAll, skipScripts, s0)
      == match LoadChunks(env, NoConversion, reloadAll, skipScripts, s0, chunks, 0)
         case None => CfgCorrupted
         case Some(t) => Loaded(t)
  {
    var v := env.version;
    var f := SIGNATURE + [v.v1, v.v2, v.beta1, v.beta2] + chunks;
    assert f[..3] == SIGNATURE && f[3] == v.v1 && f[4] == v.v2 && f[5] == v.beta1 && f[6] == v.beta2;
    assert Version(f[3], f[4], f[5], f[6]) == v;
    assert f[7..] == chunks && |f| >= 7;
  }

  /**
   * Load_CFG without reload_all, as written, on a file Save_CFG wrote whose
   * first script is longer than 11 bytes: the file is reported corrupted.
   */
  lemma PartialLoadRejectsSavedScripts(env: Env, s0: Settings, s: Settings)
    requires WellFormed(env, s0) && Reloadable(env, s) && BrushesSize(s.brushes) < 65536
    requires s.scripts[0].Some? && |s.scripts[0].value| > CHUNK_SCRIPTS as int
    ensures LoadCfgSpec(env, Some(SaveCfgSpec(env, s)), false, s0) == CfgCorrupted
  {
    var t := s0.(modes := ApplySavedModes(s0.modes, SavedModes(s.modes)));
    PartialSavedChunks(env, false, s0, s);
    ScriptsReadAsChunks(env, t, s, BrushesSize(s.brushes));
    OwnHeaderLoad(env, false, false, s0, SavedChunks(env, s));
  }

  /**
   * Load_CFG without reload_all, with the scripts chunk skipped like every
   * other chunk it does not reload: only the video-mode states change.
   */
  lemma PartialLoadOfSaved(env: Env, s0: Settings, s: Settings)
    requires WellFormed(env, s0) && Reloadable(env, s) && BrushesSize(s.brushes) < 65536
    ensures LoadCfgWith(env, Some(SaveCfgSpec(env, s)), false, true, s0)
         == Loaded(s0.(modes := ApplySavedModes(s0.modes, SavedModes(s.modes))))
  {
    var t := s0.(modes := ApplySavedModes(s0.modes, SavedModes(s.modes)));
    PartialSavedChunks(env, true, s0, s);
    ScriptsSkipped(env, t, s, BrushesSize(s.brushes));
    OwnHeaderLoad(env, false, true, s0, SavedChunks(env, s));
  }
}
