/**
 * The vocabulary of the configuration file (gfx2.cfg): its chunk tags, the
 * settings it stores, and little-endian byte and word access on a byte
 * sequence. The file is "CFG", four version bytes, then chunks, each a tag
 * byte, a little-endian 16-bit size and a payload.
 */
module CfgFormat {
  import opened Common
  import opened VideoModes
  import opened Paintbrushes

  // Chunk tags, in the order of the CHUNK_* enumeration.
  const CHUNK_KEYS: byte := 0
  const CHUNK_VIDEO_MODES: byte := 1
  const CHUNK_SHADE: byte := 2
  const CHUNK_MASK: byte := 3
  const CHUNK_STENCIL: byte := 4
  const CHUNK_GRADIENTS: byte := 5
  const CHUNK_SMOOTH: byte := 6
  const CHUNK_EXCLUDE_COLORS: byte := 7
  const CHUNK_QUICK_SHADE: byte := 8
  const CHUNK_GRID: byte := 9
  const CHUNK_BRUSH: byte := 10
  const CHUNK_SCRIPTS: byte := 11

  /** The signature "CFG". */
  const SIGNATURE: seq<byte> := [67, 70, 71]

  /** Number of shade lists, entries per list, and bytes of the shade chunk. */
  const SHADE_COUNT: nat := 8
  const SHADE_LENGTH: nat := 512
  const SHADE_CHUNK_SIZE: nat := 8209

  /** Number of script slots (Bound_script). */
  const SCRIPT_COUNT: nat := 10

  /** The program's own version: VERSION1, VERSION2, BETA1, BETA2. */
  datatype Version = Version(v1: byte, v2: byte, beta1: byte, beta2: byte)

  /**
   * What the configuration code takes from the rest of the program: its
   * version, the shortcut numbers of the ConfigKey table (one per shortcut
   * slot), and Key_for_scancode, whose code is not part of this model.
   */
  datatype Env = Env(version: Version, shortcutNumbers: seq<word>, keyForScancode: word -> word)

  /** A shortcut: main and alternative key. */
  datatype KeyPair = KeyPair(key: word, key2: word)

  /** One entry of Shade_list. */
  datatype Shade = Shade(list: seq<word>, step: byte, mode: byte)

  /**
   * The globals the file stores. `keys` holds one pair per shortcut slot
   * (index i goes with shortcut number i of the environment); `modes` is the
   * Nb_video_modes entries of Video_mode; `smooth` is the 3x3 matrix row by
   * row; a script is None for a NULL pointer.
   */
  datatype Settings = Settings(
    keys: seq<KeyPair>,
    modes: seq<VideoMode>,
    shadeCurrent: byte,
    shades: seq<Shade>,
    mask: seq<byte>,
    stencil: seq<byte>,
    smooth: seq<byte>,
    exclude: seq<byte>,
    quickShadeStep: byte,
    quickShadeLoop: byte,
    snapWidth: word,
    snapHeight: word,
    snapOffsetX: word,
    snapOffsetY: word,
    brushes: seq<Paintbrush>,
    scripts: seq<Option<seq<byte>>>)

  /** A C string: no zero byte inside. */
  predicate IsCString(s: seq<byte>) {
    forall i :: 0 <= i < |s| ==> s[i] != 0
  }

  /** The shapes the C declarations give the globals. */
  predicate WellFormed(env: Env, s: Settings) {
    && |s.keys| == |env.shortcutNumbers|
    && |s.shades| == SHADE_COUNT
    && (forall k :: 0 <= k < |s.shades| ==> |s.shades[k].list| == SHADE_LENGTH)
    && |s.mask| == 256 && |s.stencil| == 256 && |s.smooth| == 9 && |s.exclude| == 256
    && (forall k :: 0 <= k < |s.brushes| ==> |s.brushes[k].sprite| == s.brushes[k].width * s.brushes[k].height)
    && |s.scripts| == SCRIPT_COUNT
    && (forall k :: 0 <= k < |s.scripts| ==> s.scripts[k].Some? ==> IsCString(s.scripts[k].value))
  }

  // ---------------------------------------------------------------------
  // Bytes and words

  /** Write_word_le: the low byte, then the high byte. */
  function WordLE(w: word): (r: seq<byte>)
    ensures |r| == 2
  {
    [w % 256, w / 256]
  }

  /** The little-endian word at position i. */
  function WordAt(bytes: seq<byte>, i: nat): word
    requires i + 2 <= |bytes|
  {
    (bytes[i] as int) + 256 * (bytes[i + 1] as int)
  }

  /** Read_word_le on the unread part of a file: fails when fewer than two bytes remain. */
  function ReadWord(rest: seq<byte>): Option<(word, seq<byte>)> {
    if |rest| < 2 then None else Some((WordAt(rest, 0), rest[2..]))
  }

  /** Reading back a written word gives the word and what follows it. */
  lemma ReadWordLE(w: word, tail: seq<byte>)
    ensures ReadWord(WordLE(w) + tail) == Some((w, tail))
  {
    assert (WordLE(w) + tail)[2..] == tail;
  }

  /** Writing a word read from two bytes gives the two bytes back. */
  lemma WordLERead(rest: seq<byte>)
    requires |rest| >= 2
    ensures WordLE(ReadWord(rest).value.0) == rest[..2]
  {
  }

  /** A sequence of words, each little-endian. */
  function WordsLE(ws: seq<word>): (r: seq<byte>)
    ensures |r| == 2 * |ws|
  {
    if |ws| == 0 then [] else WordLE(ws[0]) + WordsLE(ws[1..])
  }

  /** n words, read one after the other. */
  function ReadWords(rest: seq<byte>, n: nat): (r: Option<(seq<word>, seq<byte>)>)
    ensures r.Some? <==> 2 * n <= |rest|
    ensures r.Some? ==> |r.value.0| == n && r.value.1 == rest[2 * n..]
    decreases n
  {
    if n == 0 then Some(([], rest))
    else match ReadWord(rest)
      case None => None
      case Some((w, r)) =>
        match ReadWords(r, n - 1)
        case None => None
        case Some((ws, r')) => Some(([w] + ws, r'))
  }

  /** fseek forward from the current position: past the end is allowed, and leaves nothing to read. */
  function Skip(rest: seq<byte>, n: nat): (r: seq<byte>)
    ensures |r| <= |rest|
  {
    if n <= |rest| then rest[n..] else []
  }

  /** A C string as it is seen once read: up to its first zero byte. */
  function UpToNul(s: seq<byte>): (r: seq<byte>)
    ensures IsCString(r) && |r| <= |s|
  {
    if |s| == 0 || s[0] == 0 then [] else [s[0]] + UpToNul(s[1..])
  }

  /** A C string is seen whole. */
  lemma {:induction false} UpToNulOfCString(s: seq<byte>)
    requires IsCString(s)
    ensures UpToNul(s) == s
  {
    if |s| > 0 {
      UpToNulOfCString(s[1..]);
    }
  }

  lemma {:induction false} ReadWordsLE(ws: seq<word>, tail: seq<byte>)
    ensures ReadWords(WordsLE(ws) + tail, |ws|) == Some((ws, tail))
  {
    if |ws| > 0 {
      assert WordsLE(ws) + tail == WordLE(ws[0]) + (WordsLE(ws[1..]) + tail);
      ReadWordLE(ws[0], WordsLE(ws[1..]) + tail);
      ReadWordsLE(ws[1..], tail);
      assert ReadWord(WordsLE(ws) + tail) == Some((ws[0], WordsLE(ws[1..]) + tail));
      assert ReadWords(WordsLE(ws[1..]) + tail, |ws| - 1) == Some((ws[1..], tail));
      assert [ws[0]] + ws[1..] == ws;
    } else {
      assert WordsLE(ws) + tail == tail;
    }
  }
}
