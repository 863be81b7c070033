/**
 * What Load_CFG and Save_CFG do, stated as functions on byte sequences:
 * the decoding of each chunk, the chunk loop, the header checks, and the
 * bytes Save_CFG writes.
 */
module CfgSpec {
  import opened Common
  import opened VideoModes
  import opened Paintbrushes
  import opened CfgFormat

  /** The key conversion a file's version calls for. */
  datatype Conversion = NoConversion | Scancodes | NoKeyAsZero

  /** Load_CFG's outcomes: success with the new settings, ERROR_CFG_MISSING, ERROR_CFG_CORRUPTED, ERROR_CFG_OLD. */
  datatype LoadResult = Loaded(settings: Settings) | CfgMissing | CfgCorrupted | CfgOld

  // ---------------------------------------------------------------------
  // Keys

  /** A shortcut as stored after conversion: scancodes of 2.0.96 files are translated (main key only), and 2.0.97's 0x00FF means no key. */
  function Convert(env: Env, conv: Conversion, key: word, key2: word): (r: KeyPair)
    ensures conv == NoConversion ==> r == KeyPair(key, key2)
    ensures conv == Scancodes ==> r.key2 == key2
    ensures conv == NoKeyAsZero ==> (r.key == key || (key == 0x00FF && r.key == 0)) && (r.key2 == key2 || (key2 == 0x00FF && r.key2 == 0))
    ensures conv == Scancodes ==> r == KeyPair(env.keyForScancode(key), key2)
    ensures conv == NoKeyAsZero ==> r == KeyPair(if key == 0x00FF then 0 else key, if key2 == 0x00FF then 0 else key2)
  {
    match conv
    case NoConversion => KeyPair(key, key2)
    case Scancodes => KeyPair(env.keyForScancode(key), key2)
    case NoKeyAsZero => KeyPair(if key == 0x00FF then 0 else key, if key2 == 0x00FF then 0 else key2)
  }

  /** The first shortcut slot from `from` on whose number is `number`. */
  function FindShortcut(numbers: seq<word>, number: word, from: nat): (r: Option<nat>)
    ensures r.Some? ==> from <= r.value < |numbers| && numbers[r.value] == number
    ensures r.Some? ==> forall k :: from <= k < r.value ==> numbers[k] != number
    ensures r.None? <==> forall k :: from <= k < |numbers| ==> numbers[k] != number
    decreases |numbers| - from
  {
    if from >= |numbers| then None
    else if numbers[from] == number then Some(from)
    else FindShortcut(numbers, number, from + 1)
  }

  /** n shortcut records of three words (number, key, key2), each stored in the slot of its number; an unknown number is an error. */
  function LoadKeys(env: Env, conv: Conversion, keys: seq<KeyPair>, rest: seq<byte>, n: nat): (r: Option<(seq<KeyPair>, seq<byte>)>)
    requires |keys| == |env.shortcutNumbers|
    ensures r.Some? ==> |r.value.0| == |keys| && |r.value.1| <= |rest|
    decreases n
  {
    if n == 0 then Some((keys, rest))
    else if |rest| < 6 then None
    else match FindShortcut(env.shortcutNumbers, WordAt(rest, 0), 0)
      case None => None
      case Some(slot) => LoadKeys(env, conv, keys[slot := Convert(env, conv, WordAt(rest, 2), WordAt(rest, 4))], rest[6..], n - 1)
  }

  // ---------------------------------------------------------------------
  // Video modes

  /** The first mode from `from` on with the given resolution. */
  function FindMode(modes: seq<VideoMode>, width: word, height: word, from: nat): (r: Option<nat>)
    ensures r.Some? ==> from <= r.value < |modes| && modes[r.value].width == width && modes[r.value].height == height
    ensures r.Some? ==> forall k :: from <= k < r.value ==> !(modes[k].width == width && modes[k].height == height)
    ensures r.None? <==> forall k :: from <= k < |modes| ==> !(modes[k].width == width && modes[k].height == height)
    decreases |modes| - from
  {
    if from >= |modes| then None
    else if modes[from].width == width && modes[from].height == height then Some(from)
    else FindMode(modes, width, height, from + 1)
  }

  /**
   * One video-mode record: the first mode from index 1 with its resolution
   * takes the low two bits of the saved state, unless its own state has bit
   * 128 set.
   */
  function SetModeState(modes: seq<VideoMode>, state: byte, width: word, height: word): (r: seq<VideoMode>)
    ensures |r| == |modes|
    // Mode 0 and modes whose state has bit 128 set are never touched.
    ensures forall k :: 0 <= k < |modes| && (k == 0 || modes[k].state >= 128) ==> r[k] == modes[k]
    // A changed mode has the record's resolution and keeps all but its state, which becomes the saved low two bits.
    ensures forall k :: 0 <= k < |modes| && r[k] != modes[k] ==>
      modes[k].width == width && modes[k].height == height && r[k] == modes[k].(state := state % 4)
    // At most the first mode from index 1 with that resolution changes.
    ensures forall k :: 0 <= k < |modes| && r[k] != modes[k] ==>
      forall j :: 1 <= j < k ==> !(modes[j].width == width && modes[j].height == height)
    // And it does take the new state when its own state is below 128.
    ensures forall k ::
      (&& 1 <= k < |modes| && modes[k].width == width && modes[k].height == height && modes[k].state < 128
       && (forall j :: 1 <= j < k ==> !(modes[j].width == width && modes[j].height == height)))
      ==> r[k] == modes[k].(state := state % 4)
  {
    match FindMode(modes, width, height, 1)
    case None => modes
    case Some(i) => if modes[i].state >= 128 then modes else modes[i := modes[i].(state := state % 4)]
  }

  /** n video-mode records of five bytes: state, width, height. */
  function LoadModes(modes: seq<VideoMode>, rest: seq<byte>, n: nat): (r: Option<(seq<VideoMode>, seq<byte>)>)
    ensures r.Some? ==> |r.value.0| == |modes| && |r.value.1| <= |rest|
    // The records take exactly five bytes each; too few bytes is an error.
    ensures r.Some? <==> 5 * n <= |rest|
    ensures r.Some? ==> r.value.1 == rest[5 * n..]
    // Resolutions never change, mode 0 and modes with bit 128 keep everything,
    // and any other mode either keeps its state or takes a state below 4.
    ensures r.Some? ==> forall k :: 0 <= k < |modes| ==>
      r.value.0[k].width == modes[k].width && r.value.0[k].height == modes[k].height
    ensures r.Some? ==> forall k :: 0 <= k < |modes| && (k == 0 || modes[k].state >= 128) ==> r.value.0[k] == modes[k]
    ensures r.Some? ==> forall k :: 0 <= k < |modes| ==>
      r.value.0[k] == modes[k] || (r.value.0[k] == modes[k].(state := r.value.0[k].state) && r.value.0[k].state < 4)
    decreases n
  {
    if n == 0 then Some((modes, rest))
    else if |rest| < 5 then None
    else LoadModes(SetModeState(modes, rest[0], WordAt(rest, 1), WordAt(rest, 3)), rest[5..], n - 1)
  }

  // ---------------------------------------------------------------------
  // Shades

  /** One shade list: 512 words, its step and its mode. */
  function ReadShade(rest: seq<byte>): (r: Option<(Shade, seq<byte>)>)
    ensures r.Some? ==> |r.value.0.list| == SHADE_LENGTH && |r.value.1| <= |rest|
  {
    match ReadWords(rest, SHADE_LENGTH)
    case None => None
    case Some((list, r)) => if |r| < 2 then None else Some((Shade(list, r[0], r[1]), r[2..]))
  }

  /** n shade lists, one after the other. */
  function ReadShades(rest: seq<byte>, n: nat): (r: Option<(seq<Shade>, seq<byte>)>)
    ensures r.Some? ==> |r.value.0| == n && |r.value.1| <= |rest|
    ensures r.Some? ==> forall k :: 0 <= k < n ==> |r.value.0[k].list| == SHADE_LENGTH
    decreases n
  {
    if n == 0 then Some(([], rest))
    else match ReadShade(rest)
      case None => None
      case Some((sh, r)) =>
        match ReadShades(r, n - 1)
        case None => None
        case Some((shs, r')) => Some(([sh] + shs, r'))
  }

  // ---------------------------------------------------------------------
  // Paintbrushes

  /** One paintbrush: shape, width, height, hot spot, then its pixels packed a bit each. */
  function ReadBrush(rest: seq<byte>): (r: Option<(Paintbrush, seq<byte>)>)
    ensures r.Some? ==> |r.value.0.sprite| == r.value.0.width * r.value.0.height && |r.value.1| <= |rest|
  {
    if |rest| < 9 then None
    else
      var width := WordAt(rest, 1);
      var height := WordAt(rest, 3);
      var r := rest[9..];
      if |r| < PackedSize(width * height) then None
      else Some((Paintbrush(rest[0], width, height, WordAt(rest, 5), WordAt(rest, 7), Unpack(r, width * height)),
                 r[PackedSize(width * height)..]))
  }

  /** n paintbrushes, one after the other. */
  function ReadBrushes(rest: seq<byte>, n: nat): (r: Option<(seq<Paintbrush>, seq<byte>)>)
    ensures r.Some? ==> |r.value.0| == n && |r.value.1| <= |rest|
    ensures r.Some? ==> forall k :: 0 <= k < n ==> |r.value.0[k].sprite| == r.value.0[k].width * r.value.0[k].height
    decreases n
  {
    if n == 0 then Some(([], rest))
    else match ReadBrush(rest)
      case None => None
      case Some((b, r)) =>
        match ReadBrushes(r, n - 1)
        case None => None
        case Some((bs, r')) => Some(([b] + bs, r'))
  }

  // ---------------------------------------------------------------------
  // Scripts

  /** One script as the scripts loop reads it: a length byte and that many bytes, seen as a C string; none for a zero length. */
  function ReadScript(rest: seq<byte>): (r: Option<(Option<seq<byte>>, byte, seq<byte>)>)
    ensures r.Some? <==> |rest| > 0 && rest[0] < |rest|
    ensures r.Some? ==> r.value.1 == rest[0] && r.value.2 == rest[1 + rest[0]..]
    ensures r.Some? ==> (r.value.0.Some? <==> rest[0] != 0) && (r.value.0.Some? ==> IsCString(r.value.0.value))
  {
    if |rest| == 0 then None
    else
      var len := rest[0];
      if |rest| - 1 < len then None
      else Some((if len == 0 then None else Some(UpToNul(rest[1..1 + len])), len, rest[1 + len..]))
  }

  /**
   * The scripts chunk: while fewer than `size` bytes are accounted for, the
   * next script goes to slot `current`; at most ten scripts are read.
   */
  function LoadScripts(scripts: seq<Option<seq<byte>>>, rest: seq<byte>, size: word, done: int, current: nat)
      : (r: Option<(seq<Option<seq<byte>>>, seq<byte>)>)
    requires |scripts| == SCRIPT_COUNT && current < SCRIPT_COUNT
    ensures r.Some? ==> |r.value.0| == SCRIPT_COUNT && |r.value.1| <= |rest|
    decreases SCRIPT_COUNT - current
  {
    if done >= size then Some((scripts, rest))
    else match ReadScript(rest)
      case None => None
      case Some((script, len, rest')) =>
        var scripts' := scripts[current := script];
        if current + 1 >= SCRIPT_COUNT then Some((scripts', rest'))
        else LoadScripts(scripts', rest', size, done + len + 1, current + 1)
  }

  /** Every script slot that holds a script holds a C string. */
  predicate AllCStrings(scripts: seq<Option<seq<byte>>>) {
    forall k :: 0 <= k < |scripts| ==> scripts[k].Some? ==> IsCString(scripts[k].value)
  }

  /** Storing a C string (or no script) in one slot keeps every slot a C string. */
  lemma StoreCString(scripts: seq<Option<seq<byte>>>, current: nat, script: Option<seq<byte>>)
    requires current < |scripts| && AllCStrings(scripts)
    requires script.Some? ==> IsCString(script.value)
    ensures AllCStrings(scripts[current := script])
  {
  }

  /**
   * One turn of the scripts loop: a script that cannot be read fails the
   * chunk; otherwise it goes to slot `current` and the loop goes on after
   * it, unless that was the last slot.
   */
  lemma ScriptsLoopStep(scripts: seq<Option<seq<byte>>>, rest: seq<byte>, size: word, done: int, current: nat,
                        read: bool, script: Option<seq<byte>>, length: byte, next: seq<byte>)
    requires |scripts| == SCRIPT_COUNT && current < SCRIPT_COUNT && done < size
    requires read <==> ReadScript(rest).Some?
    requires read ==> ReadScript(rest) == Some((script, length, next))
    ensures !read ==> LoadScripts(scripts, rest, size, done, current).None?
    ensures read ==>
      LoadScripts(scripts, rest, size, done, current)
      == (if current + 1 >= SCRIPT_COUNT then Some((scripts[current := script], next))
          else LoadScripts(scripts[current := script], next, size, done + length + 1, current + 1))
  {
  }

  /** Every script the scripts loop stores is a C string, so slots that held C strings still do. */
  lemma {:induction false} LoadScriptsCStrings(scripts: seq<Option<seq<byte>>>, rest: seq<byte>, size: word, done: int, current: nat)
    requires |scripts| == SCRIPT_COUNT && current < SCRIPT_COUNT && AllCStrings(scripts)
    ensures var r := LoadScripts(scripts, rest, size, done, current);
      r.Some? ==> AllCStrings(r.value.0)
    decreases SCRIPT_COUNT - current
  {
    var read := ReadScript(rest);
    if done < size && read.Some? {
      var script, len, next := read.value.0, read.value.1, read.value.2;
      ScriptsLoopStep(scripts, rest, size, done, current, true, script, len, next);
      StoreCString(scripts, current, script);
      if current + 1 < SCRIPT_COUNT {
        LoadScriptsCStrings(scripts[current := script], next, size, done + len + 1, current + 1);
      }
    }
  }

  // ---------------------------------------------------------------------
  // Chunks

  /** n bytes read as a block (Read_bytes): fails when fewer remain. */
  function ReadBytes(rest: seq<byte>, n: nat): (r: Option<(seq<byte>, seq<byte>)>)
    ensures r.Some? <==> n <= |rest|
    ensures r.Some? ==> r.value.0 == rest[..n] && r.value.1 == rest[n..]
  {
    if |rest| < n then None else Some((rest[..n], rest[n..]))
  }

  /** The keys chunk with reload_all: size / 6 shortcut records. */
  function KeysChunkLoad(env: Env, conv: Conversion, s: Settings, size: word, rest: seq<byte>): (r: Option<(Settings, seq<byte>)>)
    requires WellFormed(env, s)
    ensures r.Some? ==> WellFormed(env, r.value.0) && |r.value.1| <= |rest|
  {
    match LoadKeys(env, conv, s.keys, rest, size / 6)
    case None => None
    case Some((keys, r)) => Some((s.(keys := keys), r))
  }

  /** The video-modes chunk, read whether or not reload_all is set: size / 5 records. */
  function ModesChunkLoad(env: Env, s: Settings, size: word, rest: seq<byte>): (r: Option<(Settings, seq<byte>)>)
    requires WellFormed(env, s)
    ensures r.Some? ==> WellFormed(env, r.value.0) && |r.value.1| <= |rest|
    ensures r.Some? ==> r.value.0 == s.(modes := r.value.0.modes)
  {
    match LoadModes(s.modes, rest, size / 5)
    case None => None
    case Some((modes, r)) => Some((s.(modes := modes), r))
  }

  /** The shade chunk with reload_all: the current shade, then the eight lists. */
  function ShadeChunkLoad(env: Env, s: Settings, rest: seq<byte>): (r: Option<(Settings, seq<byte>)>)
    requires WellFormed(env, s)
    ensures r.Some? ==> WellFormed(env, r.value.0) && |r.value.1| <= |rest|
  {
    if |rest| == 0 then None
    else match ReadShades(rest[1..], SHADE_COUNT)
      case None => None
      case Some((shades, r)) => Some((s.(shadeCurrent := rest[0], shades := shades), r))
  }

  /** The grid chunk with reload_all: snap width, height and offsets. */
  function GridChunkLoad(env: Env, s: Settings, rest: seq<byte>): (r: Option<(Settings, seq<byte>)>)
    requires WellFormed(env, s)
    ensures r.Some? ==> WellFormed(env, r.value.0) && |r.value.1| <= |rest|
  {
    match ReadWords(rest, 4)
    case None => None
    case Some((ws, r)) => Some((s.(snapWidth := ws[0], snapHeight := ws[1], snapOffsetX := ws[2], snapOffsetY := ws[3]), r))
  }

  /** The paintbrush chunk with reload_all: every brush of the table. */
  function BrushChunkLoad(env: Env, s: Settings, rest: seq<byte>): (r: Option<(Settings, seq<byte>)>)
    requires WellFormed(env, s)
    ensures r.Some? ==> WellFormed(env, r.value.0) && |r.value.1| <= |rest|
  {
    match ReadBrushes(rest, |s.brushes|)
    case None => None
    case Some((brushes, r)) => Some((s.(brushes := brushes), r))
  }

  /** The scripts chunk with reload_all. */
  function ScriptsChunkLoad(env: Env, s: Settings, size: word, rest: seq<byte>): (r: Option<(Settings, seq<byte>)>)
    requires WellFormed(env, s)
    ensures r.Some? ==> WellFormed(env, r.value.0) && |r.value.1| <= |rest|
  {
    LoadScriptsCStrings(s.scripts, rest, size, 0, 0);
    match LoadScripts(s.scripts, rest, size, 0, 0)
    case None => None
    case Some((scripts, r)) => Some((s.(scripts := scripts), r))
  }

  /** A chunk that reload_all reads, with reload_all set. */
  function ReloadChunk(env: Env, conv: Conversion, s: Settings, tag: byte, size: word, rest: seq<byte>): (r: Option<(Settings, seq<byte>)>)
    requires WellFormed(env, s)
    requires tag <= CHUNK_SCRIPTS && tag != CHUNK_VIDEO_MODES && tag != CHUNK_GRADIENTS
    ensures r.Some? ==> WellFormed(env, r.value.0) && |r.value.1| <= |rest|
  {
    if tag == CHUNK_KEYS then KeysChunkLoad(env, conv, s, size, rest)
    else if tag == CHUNK_SHADE then ShadeChunkLoad(env, s, rest)
    else if tag == CHUNK_MASK then
      (match ReadBytes(rest, 256) case None => None case Some((t, r)) => Some((s.(mask := t), r)))
    else if tag == CHUNK_STENCIL then
      (match ReadBytes(rest, 256) case None => None case Some((t, r)) => Some((s.(stencil := t), r)))
    else if tag == CHUNK_SMOOTH then
      (match ReadBytes(rest, 9) case None => None case Some((t, r)) => Some((s.(smooth := t), r)))
    else if tag == CHUNK_EXCLUDE_COLORS then
      (match ReadBytes(rest, 256) case None => None case Some((t, r)) => Some((s.(exclude := t), r)))
    else if tag == CHUNK_QUICK_SHADE then
      (match ReadBytes(rest, 2) case None => None case Some((t, r)) => Some((s.(quickShadeStep := t[0], quickShadeLoop := t[1]), r)))
    else if tag == CHUNK_GRID then GridChunkLoad(env, s, rest)
    else if tag == CHUNK_BRUSH then BrushChunkLoad(env, s, rest)
    else ScriptsChunkLoad(env, s, size, rest)
  }

  /**
   * One chunk of Load_CFG, given its tag and size and the bytes after its
   * header: None for ERROR_CFG_CORRUPTED (an unknown tag or a failed read),
   * else the settings and the bytes after it. The video modes are read in
   * any case and the gradients chunk is always skipped by its size. Without
   * `reloadAll` the other chunks are skipped by their size too, except the
   * scripts chunk, which Load_CFG leaves in place unless `skipScripts` asks
   * for the skip.
   */
  function ApplyChunk(env: Env, conv: Conversion, reloadAll: bool, skipScripts: bool, s: Settings, tag: byte, size: word, rest: seq<byte>)
      : (r: Option<(Settings, seq<byte>)>)
    requires WellFormed(env, s)
    ensures r.Some? ==> WellFormed(env, r.value.0) && |r.value.1| <= |rest|
    ensures tag > CHUNK_SCRIPTS ==> r.None?
    ensures !reloadAll && r.Some? ==> r.value.0 == s.(modes := r.value.0.modes)
  {
    if tag > CHUNK_SCRIPTS then None
    else if tag == CHUNK_VIDEO_MODES then ModesChunkLoad(env, s, size, rest)
    else if tag == CHUNK_GRADIENTS then Some((s, Skip(rest, size)))
    else if reloadAll then ReloadChunk(env, conv, s, tag, size, rest)
    else if tag == CHUNK_SCRIPTS then Some((s, if skipScripts then Skip(rest, size) else rest))
    else Some((s, Skip(rest, size)))
  }

  /** The size header of a chunk: a failed read keeps the previous size and leaves nothing to read. */
  function ChunkSize(rest: seq<byte>, lastSize: word): (r: (word, seq<byte>))
    ensures |rest| >= 2 ==> WordLE(r.0) == rest[..2] && r.1 == rest[2..]
    ensures |rest| < 2 ==> r == (lastSize, [])
  {
    if |rest| >= 2 then (WordAt(rest, 0), rest[2..]) else (lastSize, [])
  }

  /** The chunk loop of Load_CFG: runs until no tag byte can be read. */
  function LoadChunks(env: Env, conv: Conversion, reloadAll: bool, skipScripts: bool, s: Settings, rest: seq<byte>, lastSize: word)
      : (r: Option<Settings>)
    requires WellFormed(env, s)
    ensures r.Some? ==> WellFormed(env, r.value)
    ensures !reloadAll && r.Some? ==> r.value == s.(modes := r.value.modes)
    decreases |rest|
  {
    if |rest| == 0 then Some(s)
    else
      var (size, r) := ChunkSize(rest[1..], lastSize);
      match ApplyChunk(env, conv, reloadAll, skipScripts, s, rest[0], size, r)
      case None => None
      case Some((s', r')) => LoadChunks(env, conv, reloadAll, skipScripts, s', r', size)
  }

  /** The version check: 2.0.96 files need scancode conversion, 2.0.97 files the 0x00FF conversion, any other version but the program's own is too old. */
  function VersionConversion(env: Env, v: Version): (r: Option<Conversion>)
    ensures r.None? <==> v != env.version && !(v.v1 == 2 && v.v2 == 0 && (v.beta1 == 96 || v.beta1 == 97))
    ensures r == Some(NoConversion) <==> v == env.version && !(v.v1 == 2 && v.v2 == 0 && (v.beta1 == 96 || v.beta1 == 97))
  {
    if v.v1 == 2 && v.v2 == 0 && v.beta1 == 96 then Some(Scancodes)
    else if v.v1 == 2 && v.v2 == 0 && v.beta1 == 97 then Some(NoKeyAsZero)
    else if v != env.version then None
    else Some(NoConversion)
  }

  /** Load_CFG on the file's contents (None when it cannot be opened), with the scripts chunk handled as `skipScripts` says. */
  function LoadCfgWith(env: Env, file: Option<seq<byte>>, reloadAll: bool, skipScripts: bool, s: Settings): (r: LoadResult)
    requires WellFormed(env, s)
    ensures r == CfgMissing <==> file.None?
    ensures r == CfgOld <==> file.Some? && |file.value| >= 7 && file.value[..3] == SIGNATURE
                             && VersionConversion(env, Version(file.value[3], file.value[4], file.value[5], file.value[6])).None?
    ensures r.Loaded? ==> file.Some? && |file.value| >= 7 && file.value[..3] == SIGNATURE && WellFormed(env, r.settings)
    ensures r.Loaded? && !reloadAll ==> r.settings == s.(modes := r.settings.modes)
  {
    if file.None? then CfgMissing
    else
      var f := file.value;
      if |f| < 7 || f[..3] != SIGNATURE then CfgCorrupted
      else match VersionConversion(env, Version(f[3], f[4], f[5], f[6]))
        case None => CfgOld
        case Some(conv) =>
          match LoadChunks(env, conv, reloadAll, skipScripts, s, f[7..], 0)
          case None => CfgCorrupted
          case Some(s') => Loaded(s')
  }

  /** Load_CFG as written. With reload_all, it agrees with the load that skips the scripts chunk when not reloading it. */
  function LoadCfgSpec(env: Env, file: Option<seq<byte>>, reloadAll: bool, s: Settings): (r: LoadResult)
    requires WellFormed(env, s)
    ensures reloadAll ==> r == LoadCfgWith(env, file, true, true, s)
  {
    FullLoadIgnoresSkip(env, file, s);
    LoadCfgWith(env, file, reloadAll, false, s)
  }

  /** With reload_all every scripts chunk is read, so skipping it when it is not read changes nothing. */
  lemma {:induction false} ReloadAllIgnoresSkip(env: Env, conv: Conversion, s: Settings, rest: seq<byte>, lastSize: word)
    requires WellFormed(env, s)
    ensures LoadChunks(env, conv, true, false, s, rest, lastSize) == LoadChunks(env, conv, true, true, s, rest, lastSize)
    decreases |rest|
  {
    if |rest| > 0 {
      var (size, r) := ChunkSize(rest[1..], lastSize);
      var step := ApplyChunk(env, conv, true, false, s, rest[0], size, r);
      assert step == ApplyChunk(env, conv, true, true, s, rest[0], size, r);
      if step.Some? {
        ReloadAllIgnoresSkip(env, conv, step.value.0, step.value.1, size);
      }
    }
  }

  /** Load_CFG with reload_all gives the same outcome whether or not the scripts chunk would be skipped. */
  lemma FullLoadIgnoresSkip(env: Env, file: Option<seq<byte>>, s: Settings)
    requires WellFormed(env, s)
    ensures LoadCfgWith(env, file, true, false, s) == LoadCfgWith(env, file, true, true, s)
  {
    if file.Some? && |file.value| >= 7 {
      var f := file.value;
      var conv := VersionConversion(env, Version(f[3], f[4], f[5], f[6]));
      if conv.Some? {
        ReloadAllIgnoresSkip(env, conv.value, s, f[7..], 0);
      }
    }
  }

  /**
   * The header checks of Load_CFG: a missing file, a file too short for the
   * header or without the signature, and a version that is neither the
   * program's own nor 2.0.96 or 2.0.97, each end the load before any chunk.
   */
  lemma HeaderChecks(env: Env, file: seq<byte>, reloadAll: bool, s: Settings)
    requires WellFormed(env, s)
    ensures LoadCfgSpec(env, None, reloadAll, s) == CfgMissing
    ensures |file| < 7 || file[..3] != SIGNATURE ==> LoadCfgSpec(env, Some(file), reloadAll, s) == CfgCorrupted
    ensures |file| >= 7 && file[..3] == SIGNATURE && Version(file[3], file[4], file[5], file[6]) != env.version
            && !(file[3] == 2 && file[4] == 0 && (file[5] == 96 || file[5] == 97))
            ==> LoadCfgSpec(env, Some(file), reloadAll, s) == CfgOld
  {
  }

  /** Files of 2.0.96 and 2.0.97 are read with their key conversion; under 2.0.97's, 0x00FF becomes no key and other keys are kept. */
  lemma OldVersionConversions(env: Env, v: Version, key: word, key2: word)
    ensures v.v1 == 2 && v.v2 == 0 && v.beta1 == 96 ==> VersionConversion(env, v) == Some(Scancodes)
    ensures v.v1 == 2 && v.v2 == 0 && v.beta1 == 97 ==> VersionConversion(env, v) == Some(NoKeyAsZero)
    ensures Convert(env, NoKeyAsZero, 0x00FF, 0x00FF) == KeyPair(0, 0)
    ensures key != 0x00FF && key2 != 0x00FF ==> Convert(env, NoKeyAsZero, key, key2) == KeyPair(key, key2)
    // Under the conversion the version calls for: 2.0.96 translates the main key only, ...
    ensures v.v1 == 2 && v.v2 == 0 && v.beta1 == 96 ==>
      Convert(env, VersionConversion(env, v).value, key, key2) == KeyPair(env.keyForScancode(key), key2)
    // ... 2.0.97 reads each key as no key exactly when it is 0 or 0x00FF, and keeps every other key, ...
    ensures v.v1 == 2 && v.v2 == 0 && v.beta1 == 97 ==>
      var r := Convert(env, VersionConversion(env, v).value, key, key2);
      && (r.key == 0 <==> key == 0 || key == 0x00FF) && (r.key2 == 0 <==> key2 == 0 || key2 == 0x00FF)
      && (key != 0x00FF ==> r.key == key) && (key2 != 0x00FF ==> r.key2 == key2)
    // ... and the program's own version keeps both keys as read.
    ensures v == env.version && !(v.v1 == 2 && v.v2 == 0 && (v.beta1 == 96 || v.beta1 == 97)) ==>
      Convert(env, VersionConversion(env, v).value, key, key2) == KeyPair(key, key2)
  {
  }

  /** A chunk tag past the last one known makes the load fail, whatever follows it. */
  lemma UnknownTagCorrupted(env: Env, conv: Conversion, reloadAll: bool, skipScripts: bool, s: Settings,
                            tag: byte, rest: seq<byte>, lastSize: word)
    requires WellFormed(env, s) && tag > CHUNK_SCRIPTS
    ensures LoadChunks(env, conv, reloadAll, skipScripts, s, [tag] + rest, lastSize).None?
  {
    assert ([tag] + rest)[0] == tag && ([tag] + rest)[1..] == rest;
  }

  // ---------------------------------------------------------------------
  // Saving

  /** A chunk as Save_CFG writes it: tag, size truncated to 16 bits, payload. */
  function Chunk(tag: byte, size: int, payload: seq<byte>): (r: seq<byte>)
    ensures |r| == 3 + |payload| && r[0] == tag && r[3..] == payload
    ensures ChunkSize(r[1..], 0) == (ToWord(size), payload)
  {
    var r := [tag] + WordLE(ToWord(size)) + payload;
    assert r[1..][2..] == payload;
    r
  }

  /** The keys chunk's records: number, key, key2 of every slot. */
  function KeysPayload(numbers: seq<word>, keys: seq<KeyPair>): (r: seq<byte>)
    requires |keys| == |numbers|
    ensures |r| == 6 * |keys|
  {
    if |keys| == 0 then []
    else WordLE(numbers[0]) + WordLE(keys[0].key) + WordLE(keys[0].key2) + KeysPayload(numbers[1..], keys[1..])
  }

  /** Whether Save_CFG keeps a mode's state: the user's choices 0, 2 and 3. */
  predicate Saved(m: VideoMode) {
    m.state == 0 || m.state == 2 || m.state == 3
  }

  /** The modes among `ms` whose state is saved, in order. */
  function SavedAmong(ms: seq<VideoMode>): (r: seq<VideoMode>)
    ensures forall m :: m in r ==> m in ms && Saved(m)
  {
    if |ms| == 0 then [] else (if Saved(ms[0]) then [ms[0]] else []) + SavedAmong(ms[1..])
  }

  /** The modes Save_CFG writes: saved states from index 1 on. */
  function SavedModes(modes: seq<VideoMode>): seq<VideoMode> {
    if |modes| == 0 then [] else SavedAmong(modes[1..])
  }

  /** The video-mode records: state, width and height as 16-bit words. */
  function ModesPayload(ms: seq<VideoMode>): (r: seq<byte>)
    ensures |r| == 5 * |ms|
  {
    if |ms| == 0 then []
    else [ms[0].state] + WordLE(ToWord(ms[0].width)) + WordLE(ToWord(ms[0].height)) + ModesPayload(ms[1..])
  }

  /** The shade lists: each list's words, then its step and mode. */
  function ShadesPayload(shades: seq<Shade>): seq<byte> {
    if |shades| == 0 then []
    else WordsLE(shades[0].list) + [shades[0].step, shades[0].mode] + ShadesPayload(shades[1..])
  }

  /** The paintbrush records: shape, size and hot spot (9 bytes), then the packed pixels. */
  function BrushesPayload(brushes: seq<Paintbrush>): seq<byte> {
    if |brushes| == 0 then []
    else
      var b := brushes[0];
      [b.shape] + WordLE(b.width) + WordLE(b.height) + WordLE(b.offsetX) + WordLE(b.offsetY) + Pack(b.sprite)
      + BrushesPayload(brushes[1..])
  }

  /** The size Save_CFG declares for the paintbrush chunk. */
  function BrushesSize(brushes: seq<Paintbrush>): nat {
    if |brushes| == 0 then 0 else 9 + PackedSize(brushes[0].width * brushes[0].height) + BrushesSize(brushes[1..])
  }

  /** The length byte of a script: its length truncated to 8 bits, 0 for none. */
  function ScriptLength(o: Option<seq<byte>>): byte {
    match o
    case None => 0
    case Some(str) => |str| % 256
  }

  /** The scripts as Pascal strings: a length byte, then that many bytes. */
  function ScriptsPayload(scripts: seq<Option<seq<byte>>>): seq<byte> {
    if |scripts| == 0 then []
    else
      var len := ScriptLength(scripts[0]);
      [len] + (if len == 0 then [] else scripts[0].value[..len]) + ScriptsPayload(scripts[1..])
  }

  /** The size Save_CFG declares for the scripts chunk: each script's full length plus one. */
  function ScriptsSize(scripts: seq<Option<seq<byte>>>): (r: nat)
    ensures r >= |scripts|
  {
    if |scripts| == 0 then 0
    else (match scripts[0] case None => 1 case Some(str) => |str| + 1) + ScriptsSize(scripts[1..])
  }

  /** The chunks Save_CFG writes, in order. */
  function SavedChunks(env: Env, s: Settings): (r: seq<byte>)
    requires WellFormed(env, s)
    ensures |r| == 11 * 3 + 6 * |env.shortcutNumbers| + 5 * |SavedModes(s.modes)| + 1 + |ShadesPayload(s.shades)|
                   + 3 * 256 + 9 + 2 + 8 + |BrushesPayload(s.brushes)| + |ScriptsPayload(s.scripts)|
    ensures r[0] == CHUNK_KEYS
  {
    var modes := SavedModes(s.modes);
    Chunk(CHUNK_KEYS, |env.shortcutNumbers| * 6, KeysPayload(env.shortcutNumbers, s.keys))
    + (Chunk(CHUNK_VIDEO_MODES, |modes| * 5, ModesPayload(modes))
    + (Chunk(CHUNK_SHADE, SHADE_CHUNK_SIZE, [s.shadeCurrent] + ShadesPayload(s.shades))
    + (Chunk(CHUNK_MASK, 256, s.mask)
    + (Chunk(CHUNK_STENCIL, 256, s.stencil)
    + (Chunk(CHUNK_SMOOTH, 9, s.smooth)
    + (Chunk(CHUNK_EXCLUDE_COLORS, 256, s.exclude)
    + (Chunk(CHUNK_QUICK_SHADE, 2, [s.quickShadeStep, s.quickShadeLoop])
    + (Chunk(CHUNK_GRID, 8, WordsLE([s.snapWidth, s.snapHeight, s.snapOffsetX, s.snapOffsetY]))
    + (Chunk(CHUNK_BRUSH, BrushesSize(s.brushes), BrushesPayload(s.brushes))
    + Chunk(CHUNK_SCRIPTS, ScriptsSize(s.scripts), ScriptsPayload(s.scripts)))))))))))
  }

  /** The file Save_CFG writes: signature, the program's version, the chunks. */
  function SaveCfgSpec(env: Env, s: Settings): (r: seq<byte>)
    requires WellFormed(env, s)
    ensures |r| > 7 && r[..3] == SIGNATURE && r[7] == CHUNK_KEYS
    ensures VersionConversion(env, Version(r[3], r[4], r[5], r[6])).Some?
  {
    var v := env.version;
    SIGNATURE + [v.v1, v.v2, v.beta1, v.beta2] + SavedChunks(env, s)
  }
}
