/**
 * The globals that gfx2.cfg stores, and the three functions that update
 * them in place: Load_CFG reads the file into them chunk by chunk,
 * Save_CFG writes them out, and Set_config_defaults resets them. Each is
 * proved against the functions of CfgSpec and CfgDefaults.
 */
module CfgGlobals {
  import opened Common
  import opened VideoModes
  import opened Paintbrushes
  import opened CfgFormat
  import opened CfgSpec
  import opened CfgLoad
  import opened CfgSave
  import opened CfgDefaults

  class Globals {
    var keys: seq<KeyPair>
    var modes: seq<VideoMode>
    var shadeCurrent: byte
    var shades: seq<Shade>
    var mask: seq<byte>
    var stencil: seq<byte>
    var smooth: seq<byte>
    var exclude: seq<byte>
    var quickShadeStep: byte
    var quickShadeLoop: byte
    var snapWidth: word
    var snapHeight: word
    var snapOffsetX: word
    var snapOffsetY: word
    var brushes: seq<Paintbrush>
    var scripts: seq<Option<seq<byte>>>

    /** The globals as one value. */
    function Current(): Settings
      reads this
    {
      Settings(keys, modes, shadeCurrent, shades, mask, stencil, smooth, exclude,
               quickShadeStep, quickShadeLoop, snapWidth, snapHeight, snapOffsetX, snapOffsetY, brushes, scripts)
    }

    constructor (s: Settings)
      ensures Current() == s
    {
      keys, modes, shadeCurrent, shades := s.keys, s.modes, s.shadeCurrent, s.shades;
      mask, stencil, smooth, exclude := s.mask, s.stencil, s.smooth, s.exclude;
      quickShadeStep, quickShadeLoop := s.quickShadeStep, s.quickShadeLoop;
      snapWidth, snapHeight, snapOffsetX, snapOffsetY := s.snapWidth, s.snapHeight, s.snapOffsetX, s.snapOffsetY;
      brushes, scripts := s.brushes, s.scripts;
    }

    // -------------------------------------------------------------------
    // Load_CFG

    /**
     * Load_CFG: ERROR_CFG_MISSING without a file, ERROR_CFG_CORRUPTED for a
     * short file, a wrong signature or a failed chunk, ERROR_CFG_OLD for an
     * unknown version, and otherwise the chunks read into the globals.
     */
    method LoadCfg(env: Env, file: Option<seq<byte>>, reloadAll: bool, skipScripts: bool) returns (result: LoadResult)
      requires WellFormed(env, Current())
      modifies this
      ensures result == LoadCfgWith(env, file, reloadAll, skipScripts, old(Current()))
      ensures result.Loaded? ==> Current() == result.settings
    {
      ghost var s0 := Current();
      if file.None? {
        return CfgMissing;
      }
      var f := file.value;
      if |f| < 7 || f[..3] != SIGNATURE {
        return CfgCorrupted;
      }
      var conv := NoConversion;
      if f[3] == 2 && f[4] == 0 && f[5] == 96 {
        conv := Scancodes;
      } else if f[3] == 2 && f[4] == 0 && f[5] == 97 {
        conv := NoKeyAsZero;
      } else if Version(f[3], f[4], f[5], f[6]) != env.version {
        return CfgOld;
      }
      assert VersionConversion(env, Version(f[3], f[4], f[5], f[6])) == Some(conv);
      var rest := f[7..];
      var size: word := 0;
      while |rest| > 0
        invariant WellFormed(env, Current())
        invariant LoadChunks(env, conv, reloadAll, skipScripts, s0, f[7..], 0)
                  == LoadChunks(env, conv, reloadAll, skipScripts, Current(), rest, size)
        decreases |rest|
      {
        var tag := rest[0];
        var payload: seq<byte>;
        if |rest| >= 3 {
          size, payload := WordAt(rest, 1), rest[3..];
          assert WordAt(rest[1..], 0) == size && rest[1..][2..] == payload;
        } else {
          payload := [];
        }
        var ok;
        ok, rest := LoadChunk(env, conv, reloadAll, skipScripts, tag, size, payload);
        if !ok {
          return CfgCorrupted;
        }
      }
      return Loaded(Current());
    }

    /** One chunk of the loop, given its tag and size: the globals and the bytes after it, or false for a corrupted file. */
    method LoadChunk(env: Env, conv: Conversion, reloadAll: bool, skipScripts: bool, tag: byte, size: word, input: seq<byte>)
        returns (ok: bool, rest: seq<byte>)
      requires WellFormed(env, Current())
      modifies this
      ensures ApplyChunk(env, conv, reloadAll, skipScripts, old(Current()), tag, size, input)
              == if ok then Some((Current(), rest)) else None
    {
      if tag > CHUNK_SCRIPTS {
        return false, input;
      }
      if tag == CHUNK_VIDEO_MODES {
        var found, ms, r := ReadModeRecords(modes, input, size / 5);
        if !found {
          return false, input;
        }
        modes := ms;
        return true, r;
      }
      if tag == CHUNK_GRADIENTS {
        return true, Skip(input, size);
      }
      if reloadAll {
        ok, rest := ReloadChunkInto(env, conv, tag, size, input);
        return;
      }
      if tag == CHUNK_SCRIPTS && !skipScripts {
        return true, input;
      }
      return true, Skip(input, size);
    }

    /** A chunk that reload_all reads, read into the globals. */
    method ReloadChunkInto(env: Env, conv: Conversion, tag: byte, size: word, input: seq<byte>) returns (ok: bool, rest: seq<byte>)
      requires WellFormed(env, Current())
      requires tag <= CHUNK_SCRIPTS && tag != CHUNK_VIDEO_MODES && tag != CHUNK_GRADIENTS
      modifies this
      ensures ReloadChunk(env, conv, old(Current()), tag, size, input) == if ok then Some((Current(), rest)) else None
    {
      if tag == CHUNK_KEYS {
        ok, rest := ReloadKeys(env, conv, size, input);
      } else if tag == CHUNK_SHADE {
        ok, rest := ReloadShades(env, input);
      } else if tag == CHUNK_BRUSH {
        ok, rest := ReloadBrushes(env, input);
      } else if tag == CHUNK_SCRIPTS {
        ok, rest := ReloadScripts(env, size, input);
      } else {
        ok, rest := ReloadTables(env, tag, input);
      }
    }

    /** The keys chunk: size / 6 shortcut records. */
    method ReloadKeys(env: Env, conv: Conversion, size: word, input: seq<byte>) returns (ok: bool, rest: seq<byte>)
      requires WellFormed(env, Current())
      modifies this
      ensures KeysChunkLoad(env, conv, old(Current()), size, input) == if ok then Some((Current(), rest)) else None
    {
      var ks;
      ok, ks, rest := ReadKeyRecords(env, conv, keys, input, size / 6);
      if ok {
        keys := ks;
      }
    }

    /** The shade chunk: the current shade and the eight lists. */
    method ReloadShades(env: Env, input: seq<byte>) returns (ok: bool, rest: seq<byte>)
      requires WellFormed(env, Current())
      modifies this
      ensures ShadeChunkLoad(env, old(Current()), input) == if ok then Some((Current(), rest)) else None
    {
      var current, ls;
      ok, current, ls, rest := ReadShadeChunk(input);
      if ok {
        shadeCurrent, shades := current, ls;
      }
    }

    /** The paintbrush chunk: one record per brush of the table. */
    method ReloadBrushes(env: Env, input: seq<byte>) returns (ok: bool, rest: seq<byte>)
      requires WellFormed(env, Current())
      modifies this
      ensures BrushChunkLoad(env, old(Current()), input) == if ok then Some((Current(), rest)) else None
    {
      var bs;
      ok, bs, rest := ReadBrushRecords(input, |brushes|);
      if ok {
        brushes := bs;
      }
    }

    /** The scripts chunk. */
    method ReloadScripts(env: Env, size: word, input: seq<byte>) returns (ok: bool, rest: seq<byte>)
      requires WellFormed(env, Current())
      modifies this
      ensures ScriptsChunkLoad(env, old(Current()), size, input) == if ok then Some((Current(), rest)) else None
    {
      var ss;
      ok, ss, rest := ReadScriptStrings(scripts, input, size);
      if ok {
        scripts := ss;
      }
    }

    /** The chunks of fixed size: mask, stencil, smoothing matrix, excluded colours, quick shade, grid. */
    method ReloadTables(env: Env, tag: byte, input: seq<byte>) returns (ok: bool, rest: seq<byte>)
      requires WellFormed(env, Current())
      requires tag == CHUNK_MASK || tag == CHUNK_STENCIL || tag == CHUNK_SMOOTH || tag == CHUNK_EXCLUDE_COLORS
               || tag == CHUNK_QUICK_SHADE || tag == CHUNK_GRID
      modifies this
      ensures forall conv: Conversion, size: word {:trigger ReloadChunk(env, conv, old(Current()), tag, size, input)} ::
        ReloadChunk(env, conv, old(Current()), tag, size, input) == if ok then Some((Current(), rest)) else None
    {
      ok, rest := false, input;
      if tag == CHUNK_MASK || tag == CHUNK_STENCIL || tag == CHUNK_EXCLUDE_COLORS {
        if |input| >= 256 {
          ok, rest := true, input[256..];
          if tag == CHUNK_MASK {
            mask := input[..256];
          } else if tag == CHUNK_STENCIL {
            stencil := input[..256];
          } else {
            exclude := input[..256];
          }
        }
      } else if tag == CHUNK_SMOOTH {
        var matrix;
        ok, matrix, rest := ReadSmoothMatrix(input);
        if ok {
          smooth := matrix;
        }
      } else if tag == CHUNK_QUICK_SHADE {
        if |input| >= 2 {
          quickShadeStep, quickShadeLoop := input[0], input[1];
          ok, rest := true, input[2..];
        }
      } else if |input| >= 8 {
        ReadWordsValue(input, 4);
        snapWidth, snapHeight := WordAt(input, 0), WordAt(input, 2);
        snapOffsetX, snapOffsetY := WordAt(input, 4), WordAt(input, 6);
        ok, rest := true, input[8..];
      }
    }

    // -------------------------------------------------------------------
    // Save_CFG

    /** Save_CFG: the file it writes holds the signature, the program's version and the chunks of the globals. */
    method SaveCfg(env: Env) returns (out: seq<byte>)
      requires WellFormed(env, Current())
      ensures out == SaveCfgSpec(env, Current())
    {
      var v := env.version;
      var header := SIGNATURE + [v.v1, v.v2, v.beta1, v.beta2];
      var keyRecords := WriteKeys(env.shortcutNumbers, keys);
      var count := CountSavedModes(modes);
      var modeRecords := WriteModes(modes);
      var shadeLists := WriteShades(shades);
      var grid := WriteWords([snapWidth, snapHeight, snapOffsetX, snapOffsetY]);
      var brushesSize := ComputeBrushesSize(brushes);
      var brushRecords := WriteBrushes(brushes);
      var scriptsSize := ComputeScriptsSize(scripts);
      var scriptStrings := WriteScripts(scripts);
      var tail := Chunk(CHUNK_SCRIPTS, scriptsSize, scriptStrings);
      tail := Chunk(CHUNK_BRUSH, brushesSize, brushRecords) + tail;
      tail := Chunk(CHUNK_GRID, 8, grid) + tail;
      tail := Chunk(CHUNK_QUICK_SHADE, 2, [quickShadeStep, quickShadeLoop]) + tail;
      tail := Chunk(CHUNK_EXCLUDE_COLORS, 256, exclude) + tail;
      tail := Chunk(CHUNK_SMOOTH, 9, smooth) + tail;
      tail := Chunk(CHUNK_STENCIL, 256, stencil) + tail;
      tail := Chunk(CHUNK_MASK, 256, mask) + tail;
      tail := Chunk(CHUNK_SHADE, SHADE_CHUNK_SIZE, [shadeCurrent] + shadeLists) + tail;
      tail := Chunk(CHUNK_VIDEO_MODES, count * 5, modeRecords) + tail;
      tail := Chunk(CHUNK_KEYS, |env.shortcutNumbers| * 6, keyRecords) + tail;
      out := header + tail;
    }

    // -------------------------------------------------------------------
    // Set_config_defaults

    /** Set_config_defaults, with the ConfigKey table's keys given slot by slot. */
    method SetConfigDefaults(env: Env, defaultKeys: seq<KeyPair>)
      requires WellFormed(env, Current()) && |defaultKeys| == |env.shortcutNumbers|
      modifies this
      ensures Current() == Defaults(old(Current()), defaultKeys)
    {
      var s0 := Current();
      var d := DefaultSettings(env, s0, defaultKeys);
      keys, shadeCurrent, shades := d.keys, d.shadeCurrent, d.shades;
      mask, stencil, smooth, exclude := d.mask, d.stencil, d.smooth, d.exclude;
      quickShadeStep, quickShadeLoop := d.quickShadeStep, d.quickShadeLoop;
      snapWidth, snapHeight, snapOffsetX, snapOffsetY := d.snapWidth, d.snapHeight, d.snapOffsetX, d.snapOffsetY;
      assert Current() == d;
    }
  }

  /** The smoothing matrix read byte by byte, row by row: fails when fewer than 9 bytes remain. */
  method ReadSmoothMatrix(input: seq<byte>) returns (ok: bool, matrix: seq<byte>, rest: seq<byte>)
    ensures ok <==> |input| >= 9
    ensures ok ==> matrix == input[..9] && rest == input[9..]
  {
    matrix, rest := [], input;
    var row := 0;
    while row < 3
      invariant row <= 3 && |matrix| == 3 * row
      invariant matrix + rest == input
    {
      var column := 0;
      while column < 3
        invariant column <= 3 && |matrix| == 3 * row + column
        invariant matrix + rest == input
      {
        if |rest| == 0 {
          return false, matrix, rest;
        }
        assert matrix + [rest[0]] + rest[1..] == input;
        matrix, rest := matrix + [rest[0]], rest[1..];
        column := column + 1;
      }
      row := row + 1;
    }
    ok := true;
    assert matrix == input[..9];
  }
}
