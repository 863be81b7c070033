/**
 * The logging layer: priority filtering, routing of a message to an output
 * stream or to the SDL log, and the hexadecimal dump of a byte range.
 */
module Log {
  import opened Common

  /** Priorities, in the order of their declaration (an enum starting at 0). */
  const GFX2_ERROR: int := 0
  const GFX2_WARNING: int := 1
  const GFX2_INFO: int := 2
  const GFX2_DEBUG: int := 3

  /** Initial value of the verbosity level. */
  const DEFAULT_VERBOSITY: int := GFX2_INFO

  predicate IsInt32(v: int) {
    -0x8000_0000 <= v < 0x8000_0000
  }

  /** The C cast `(unsigned)` of a 32-bit `int`. */
  function AsUnsigned(v: int): (u: nat)
    requires IsInt32(v)
    ensures u < 0x1_0000_0000
    ensures v >= 0 ==> u == v
    ensures v < 0 ==> u == v + 0x1_0000_0000
  {
    if v < 0 then v + 0x1_0000_0000 else v
  }

  /** How the program was built: `_DEBUG`, and the SDL2 log (USE_SDL2 without Emscripten). */
  datatype Build = Build(debug: bool, sdlLog: bool)

  datatype SdlPriority = SdlCritical | SdlError | SdlWarn | SdlInfo | SdlDebug

  /** Where a message ends up. */
  datatype Sink = Stdout | Stderr | SdlLog(level: SdlPriority)

  /** The SDL priority of a message: the four known levels map one to one, anything else is critical. */
  function SdlPriorityOf(priority: int): (r: SdlPriority)
    ensures r == SdlCritical <==> priority < GFX2_ERROR || priority > GFX2_DEBUG
  {
    if priority == GFX2_ERROR then SdlError
    else if priority == GFX2_WARNING then SdlWarn
    else if priority == GFX2_INFO then SdlInfo
    else if priority == GFX2_DEBUG then SdlDebug
    else SdlCritical
  }

  /** Whether a message is thrown away before it reaches any output. */
  predicate Dropped(build: Build, verbosity: int, priority: int)
    requires IsInt32(verbosity) && IsInt32(priority)
    ensures Dropped(build, verbosity, priority) <==>
      !build.debug && (if verbosity >= 0 then priority < 0 || priority > verbosity else verbosity < priority < 0)
  {
    !build.debug && AsUnsigned(verbosity) < AsUnsigned(priority)
  }

  /** GFX2_LogV: the sink of a message, or None when it is filtered out. */
  function Route(build: Build, verbosity: int, priority: int): (r: Option<Sink>)
    requires IsInt32(verbosity) && IsInt32(priority)
    ensures r.None? <==> Dropped(build, verbosity, priority)
    ensures r.Some? ==> (r.value.SdlLog? <==> build.sdlLog)
  {
    if Dropped(build, verbosity, priority) then None
    else if build.sdlLog then Some(SdlLog(SdlPriorityOf(priority)))
    else if AsUnsigned(priority) >= GFX2_INFO then Some(Stdout)
    else Some(Stderr)
  }

  /**
   * In a release build with a non-negative verbosity, a message is dropped
   * exactly when its priority is above the verbosity or negative (the
   * unsigned comparison makes negative priorities huge).
   */
  lemma ReleaseFilter(verbosity: int, priority: int)
    requires IsInt32(verbosity) && IsInt32(priority) && verbosity >= 0
    ensures Route(Build(false, false), verbosity, priority).None? <==> priority < 0 || priority > verbosity
    ensures Route(Build(false, true), verbosity, priority).None? <==> priority < 0 || priority > verbosity
  {
  }

  /** A debug build never drops a message. */
  lemma DebugBuildKeepsAll(sdlLog: bool, verbosity: int, priority: int)
    requires IsInt32(verbosity) && IsInt32(priority)
    ensures Route(Build(true, sdlLog), verbosity, priority).Some?
  {
  }

  /** If a message is shown, every message of a more severe (smaller, non-negative) priority is shown too. */
  lemma MoreSevereAlsoShown(build: Build, verbosity: int, p: int, q: int)
    requires IsInt32(verbosity) && IsInt32(p) && 0 <= q <= p
    requires Route(build, verbosity, p).Some?
    ensures Route(build, verbosity, q).Some?
  {
  }

  /** With the default verbosity a release build shows errors, warnings and information, and hides debug messages. */
  lemma DefaultVerbosity(build: Build)
    requires !build.debug
    ensures Route(build, DEFAULT_VERBOSITY, GFX2_ERROR).Some?
    ensures Route(build, DEFAULT_VERBOSITY, GFX2_WARNING).Some?
    ensures Route(build, DEFAULT_VERBOSITY, GFX2_INFO).Some?
    ensures Route(build, DEFAULT_VERBOSITY, GFX2_DEBUG).None?
  {
  }

  /**
   * Without the SDL log, errors and warnings go to stderr, and every other
   * priority that is shown goes to stdout: information and debug messages,
   * but also unknown priorities, negative ones included, since the unsigned
   * cast makes them large.
   */
  lemma StreamChoice(debug: bool, verbosity: int, priority: int)
    requires IsInt32(verbosity) && IsInt32(priority)
    requires Route(Build(debug, false), verbosity, priority).Some?
    ensures priority == GFX2_ERROR || priority == GFX2_WARNING ==> Route(Build(debug, false), verbosity, priority) == Some(Stderr)
    ensures priority != GFX2_ERROR && priority != GFX2_WARNING ==> Route(Build(debug, false), verbosity, priority) == Some(Stdout)
  {
  }

  /** With the SDL log, each known priority is logged at its own SDL level and any other priority as critical. */
  lemma SdlChoice(debug: bool, verbosity: int, priority: int)
    requires IsInt32(verbosity) && IsInt32(priority)
    requires Route(Build(debug, true), verbosity, priority).Some?
    ensures priority == GFX2_ERROR ==> Route(Build(debug, true), verbosity, priority) == Some(SdlLog(SdlError))
    ensures priority == GFX2_WARNING ==> Route(Build(debug, true), verbosity, priority) == Some(SdlLog(SdlWarn))
    ensures priority == GFX2_INFO ==> Route(Build(debug, true), verbosity, priority) == Some(SdlLog(SdlInfo))
    ensures priority == GFX2_DEBUG ==> Route(Build(debug, true), verbosity, priority) == Some(SdlLog(SdlDebug))
    ensures !(GFX2_ERROR <= priority <= GFX2_DEBUG) ==> Route(Build(debug, true), verbosity, priority) == Some(SdlLog(SdlCritical))
  {
  }

  /** The SDL priorities of the four levels are distinct and never the one used for unknown levels. */
  lemma SdlLevelsDistinct(p: int, q: int)
    requires GFX2_ERROR <= p <= GFX2_DEBUG && GFX2_ERROR <= q <= GFX2_DEBUG
    ensures SdlPriorityOf(p) != SdlCritical
    ensures SdlPriorityOf(p) == SdlPriorityOf(q) <==> p == q
  {
  }

  // ---------------------------------------------------------------------
  // Hexadecimal dump

  /** An upper-case hexadecimal digit. */
  function UpperDigit(d: nat): char
    requires d < 16
  {
    if d < 10 then ('0' as int + d) as char else ('A' as int + d - 10) as char
  }

  /** A lower-case hexadecimal digit. */
  function LowerDigit(d: nat): char
    requires d < 16
  {
    if d < 10 then ('0' as int + d) as char else ('a' as int + d - 10) as char
  }

  /** printf `%0*lX`: n in upper-case hexadecimal, zero-padded to at least `width` digits. */
  function HexUpper(n: nat, width: nat): (s: string)
    decreases n + width
  {
    if n == 0 && width == 0 then ""
    else HexUpper(n / 16, if width > 0 then width - 1 else 0) + [UpperDigit(n % 16)]
  }

  /** printf `%02x`: a byte as two lower-case hexadecimal digits. */
  function Hex2(b: byte): (s: string) {
    [LowerDigit(b as int / 16), LowerDigit(b as int % 16)]
  }

  /** The value of one hexadecimal digit of either case (-1 for anything else). */
  function DigitValue(c: char): int {
    if '0' <= c <= '9' then c as int - '0' as int
    else if 'A' <= c <= 'F' then c as int - 'A' as int + 10
    else if 'a' <= c <= 'f' then c as int - 'a' as int + 10
    else -1
  }

  /** Reading a string of hexadecimal digits back, most significant first. */
  function HexValue(s: string): int {
    if |s| == 0 then 0 else HexValue(s[..|s| - 1]) * 16 + DigitValue(s[|s| - 1])
  }

  /** The printable column of the dump: bytes 32..126 stand for themselves, the rest for a dot. */
  function AsciiChar(b: byte): char {
    if 32 <= b < 127 then (b as int) as char else '.'
  }

  function Spaces(n: nat): (s: string)
    ensures |s| == n && forall i :: 0 <= i < n ==> s[i] == ' '
  {
    seq(n, _ => ' ')
  }

  /** The hexadecimal column of a dump line: " %02x" per byte. */
  function HexBytes(chunk: seq<byte>): string {
    if |chunk| == 0 then "" else HexBytes(chunk[..|chunk| - 1]) + " " + Hex2(chunk[|chunk| - 1])
  }

  function AsciiColumn(chunk: seq<byte>): (s: string)
    ensures |s| == |chunk| && forall j :: 0 <= j < |chunk| ==> s[j] == AsciiChar(chunk[j])
  {
    seq(|chunk|, j requires 0 <= j < |chunk| => AsciiChar(chunk[j]))
  }

  /** The start of a dump line: header, six-digit offset and colon. */
  function LinePrefix(header: string, offset: nat): string {
    header + HexUpper(offset, 6) + ":"
  }

  /** One line of the dump for up to 16 bytes found at `offset`. */
  function HexLine(header: string, chunk: seq<byte>, offset: nat): (r: string)
    requires |chunk| <= 16
    ensures |r| == |LinePrefix(header, offset)| + 51 + |chunk|
  {
    HexBytesLength(chunk);
    LinePrefix(header, offset) + HexBytes(chunk) + Spaces(3 * (16 - |chunk|)) + " | " + AsciiColumn(chunk)
  }

  /** The number of lines of a dump of `count` bytes: one per started group of sixteen. */
  function DumpLines(count: int): nat {
    if count <= 0 then 0 else (count + 15) / 16
  }

  /** The lines of a dump of `count` bytes of `data` from `offset`: line k shows the (at most sixteen) bytes from offset + 16k. */
  function HexDump(header: string, data: seq<byte>, offset: nat, count: int): (r: seq<string>)
    requires count <= 0 || offset + count <= |data|
    ensures count <= 0 ==> r == []
    ensures count > 0 ==> 16 * (|r| - 1) < count <= 16 * |r|
  {
    seq(DumpLines(count), k requires 0 <= k < DumpLines(count) =>
      HexLine(header, data[offset + 16 * k..offset + 16 * k + Min(16, count - 16 * k)], offset + 16 * k))
  }

  /**
   * GFX2_LogHexDump: formats the dump line by line. Each line is then
   * handed to GFX2_Log with the dump's priority, so it goes through Route.
   */
  method LogHexDump(header: string, data: seq<byte>, offset0: nat, count0: int) returns (lines: seq<string>)
    requires count0 <= 0 || offset0 + count0 <= |data|
    ensures lines == HexDump(header, data, offset0, count0)
  {
    ghost var dump := HexDump(header, data, offset0, count0);
    var offset: nat, count := offset0, count0;
    lines := [];
    while count > 0
      invariant count > 0 ==> offset == offset0 + 16 * |lines| && count == count0 - 16 * |lines|
      invariant count <= 0 ==> |lines| == |dump|
      invariant |lines| <= |dump| && lines == dump[..|lines|]
      decreases count
    {
      var line, i := FormatLine(header, data, offset, count);
      assert dump[|lines|] == line;
      PrefixSnoc(dump, |lines|);
      lines := lines + [line];
      count := count - i;
      offset := offset + i;
    }
    assert lines == dump[..|dump|];
  }

  /** The prefix of j + 1 elements extends the prefix of j elements by element j. */
  lemma PrefixSnoc<T>(s: seq<T>, j: nat)
    requires j < |s|
    ensures s[..j + 1] == s[..j] + [s[j]]
  {
  }

  /** The body of the dump loop: one line for the next (at most) sixteen bytes, and how many it shows. */
  method FormatLine(header: string, data: seq<byte>, offset: nat, count: int) returns (line: string, i: nat)
    requires 0 < count && offset + count <= |data|
    ensures i == Min(count, 16)
    ensures line == HexLine(header, data[offset..offset + i], offset)
  {
    i := if count < 16 then count else 16;
    var chunk := data[offset..offset + i];
    line := LinePrefix(header, offset);
    line := AppendHexBytes(line, chunk);
    if i < 16 {
      line := line + Spaces(3 * (16 - i));
    } else {
      assert line + Spaces(0) == line;
    }
    line := line + " | ";
    line := AppendAscii(line, chunk);
  }

  /** The first loop of a line: " %02x" for each byte. */
  method AppendHexBytes(line0: string, chunk: seq<byte>) returns (line: string)
    ensures line == line0 + HexBytes(chunk)
  {
    line := line0;
    var i := 0;
    while i < |chunk|
      invariant i <= |chunk|
      invariant line == line0 + HexBytes(chunk[..i])
    {
      HexBytesSnoc(chunk, i);
      AppendAssoc(line0, HexBytes(chunk[..i]), " " + Hex2(chunk[i]));
      line := line + (" " + Hex2(chunk[i]));
      i := i + 1;
    }
    assert chunk[..i] == chunk;
  }

  /** The second loop of a line: the printable character of each byte. */
  method AppendAscii(line0: string, chunk: seq<byte>) returns (line: string)
    ensures line == line0 + AsciiColumn(chunk)
  {
    line := line0;
    var i := 0;
    while i < |chunk|
      invariant i <= |chunk|
      invariant line == line0 + AsciiColumn(chunk[..i])
    {
      assert AsciiColumn(chunk[..i + 1]) == AsciiColumn(chunk[..i]) + [AsciiChar(chunk[i])];
      AppendAssoc(line0, AsciiColumn(chunk[..i]), [AsciiChar(chunk[i])]);
      line := line + [AsciiChar(chunk[i])];
      i := i + 1;
    }
    assert chunk[..i] == chunk;
  }

  /** The hexadecimal column grows by " %02x" of the next byte. */
  lemma HexBytesSnoc(chunk: seq<byte>, i: nat)
    requires i < |chunk|
    ensures HexBytes(chunk[..i + 1]) == HexBytes(chunk[..i]) + (" " + Hex2(chunk[i]))
  {
    assert chunk[..i + 1][..i] == chunk[..i];
    AppendAssoc(HexBytes(chunk[..i]), " ", Hex2(chunk[i]));
  }

  /** The offset is printed with exactly six digits up to 0xFFFFFF. */
  lemma {:induction false} HexUpperWidth(n: nat, width: nat, digits: nat)
    requires width <= digits && n < Pow16(digits)
    ensures |HexUpper(n, width)| <= digits
    ensures n < Pow16(width) ==> |HexUpper(n, width)| == width
    decreases n + width
  {
    if n == 0 && width == 0 {
    } else {
      var w' := if width > 0 then width - 1 else 0;
      HexUpperWidth(n / 16, w', digits - 1);
    }
  }

  function Pow16(k: nat): nat {
    if k == 0 then 1 else 16 * Pow16(k - 1)
  }

  /** Reading the printed offset back gives the offset. */
  lemma {:induction false} HexUpperValue(n: nat, width: nat)
    ensures HexValue(HexUpper(n, width)) == n
    decreases n + width
  {
    if n == 0 && width == 0 {
    } else {
      var w' := if width > 0 then width - 1 else 0;
      HexUpperValue(n / 16, w');
      UpperDigitValue(n % 16);
      var s := HexUpper(n / 16, w');
      assert (s + [UpperDigit(n % 16)])[..|s|] == s;
    }
  }

  lemma UpperDigitValue(d: nat)
    requires d < 16
    ensures DigitValue(UpperDigit(d)) == d
  {
  }

  lemma LowerDigitValue(d: nat)
    requires d < 16
    ensures DigitValue(LowerDigit(d)) == d
  {
  }

  /** Reading the two printed digits back gives the byte. */
  lemma Hex2Value(b: byte)
    ensures HexValue(Hex2(b)) == b
  {
    var s := Hex2(b);
    LowerDigitValue(b / 16);
    LowerDigitValue(b % 16);
    assert s[..1] == [s[0]];
    assert s[..1][..0] == [];
    assert HexValue(s[..1]) == b / 16;
  }

  /** The hexadecimal column takes three characters per byte. */
  lemma {:induction false} HexBytesLength(chunk: seq<byte>)
    ensures |HexBytes(chunk)| == 3 * |chunk|
  {
    if |chunk| > 0 {
      HexBytesLength(chunk[..|chunk| - 1]);
    }
  }

  /** The hexadecimal column takes three characters per byte: a space and the two digits. */
  lemma {:induction false} HexBytesAt(chunk: seq<byte>)
    ensures |HexBytes(chunk)| == 3 * |chunk|
    ensures forall j :: 0 <= j < |chunk| ==> HexBytes(chunk)[3 * j..3 * j + 3] == " " + Hex2(chunk[j])
  {
    if |chunk| > 0 {
      var init := chunk[..|chunk| - 1];
      HexBytesAt(init);
      forall j | 0 <= j < |chunk|
        ensures HexBytes(chunk)[3 * j..3 * j + 3] == " " + Hex2(chunk[j])
      {
        if j < |chunk| - 1 {
          assert HexBytes(chunk)[3 * j..3 * j + 3] == HexBytes(init)[3 * j..3 * j + 3];
        }
      }
    }
  }

  /** Where each of five concatenated pieces sits in the whole, given the positions where they start. */
  lemma ConcatParts<T>(a: seq<T>, b: seq<T>, c: seq<T>, d: seq<T>, e: seq<T>, r: seq<T>, i: nat, j: nat, k: nat, m: nat)
    requires r == a + b + c + d + e
    requires i == |a| && j == i + |b| && k == j + |c| && m == k + |d|
    ensures r[..i] == a && r[i..j] == b && r[k..m] == d && r[m..] == e
  {
    var l1 := a + b;
    var l2 := l1 + c;
    var l3 := l2 + d;
    assert r[..m] == l3 && l3[..k] == l2 && l2[..j] == l1;
    assert r[k..m] == l3[k..];
    assert r[..i] == l1[..i];
    assert r[i..j] == l1[i..];
  }

  /**
   * Layout of a dump line: after the prefix come 48 characters of
   * hexadecimal column and padding, the " | " separator, then one printable
   * character per byte.
   */
  lemma HexLineLayout(header: string, chunk: seq<byte>, offset: nat)
    requires |chunk| <= 16
    ensures var r, p := HexLine(header, chunk, offset), |LinePrefix(header, offset)|;
      && r[..p] == LinePrefix(header, offset)
      && r[p + 48..p + 51] == " | " && r[p + 51..] == AsciiColumn(chunk)
  {
    HexBytesLength(chunk);
    var prefix := LinePrefix(header, offset);
    var p := |prefix|;
    ConcatParts(prefix, HexBytes(chunk), Spaces(3 * (16 - |chunk|)), " | ", AsciiColumn(chunk),
                HexLine(header, chunk, offset), p, p + 3 * |chunk|, p + 48, p + 51);
  }

  /** The hexadecimal column of a dump line follows the prefix. */
  lemma HexLineColumn(header: string, chunk: seq<byte>, offset: nat)
    requires |chunk| <= 16
    ensures var r, p := HexLine(header, chunk, offset), |LinePrefix(header, offset)|;
      r[p..p + 3 * |chunk|] == HexBytes(chunk)
  {
    var hex := HexBytes(chunk);
    HexBytesLength(chunk);
    var prefix := LinePrefix(header, offset);
    var p := |prefix|;
    var r := HexLine(header, chunk, offset);
    var rest := Spaces(3 * (16 - |chunk|)) + " | " + AsciiColumn(chunk);
    assert r == prefix + hex + rest by {
      AppendAssoc(prefix + hex, Spaces(3 * (16 - |chunk|)), " | ");
      AppendAssoc(prefix + hex, Spaces(3 * (16 - |chunk|)) + " | ", AsciiColumn(chunk));
    }
    SliceMiddle(prefix, hex, rest);
  }

  lemma SliceMiddle<T>(a: seq<T>, b: seq<T>, c: seq<T>)
    ensures (a + b + c)[|a|..|a| + |b|] == b
  {
    assert (a + b + c)[..|a| + |b|] == a + b;
  }

  /**
   * A full line needs |header| + 6 + 69 bytes with its terminating NUL, so
   * with a six-digit offset it fits the 128-byte line buffer exactly when
   * the header is at most 53 characters long.
   */
  lemma FullLineFitsBuffer(header: string, chunk: seq<byte>, offset: nat)
    requires |chunk| == 16 && offset < Pow16(6)
    ensures |HexLine(header, chunk, offset)| + 1 <= 128 <==> |header| <= 53
  {
    HexUpperWidth(offset, 6, 6);
  }
}
