/**
 * The table of video modes: a fixed array filled from index 0 with a count
 * of the modes in use, and the comparison used to sort it by resolution.
 */
module VideoModes {
  import opened Common

  /**
   * One entry of Video_mode: a resolution (C shorts), the SDL mode number,
   * whether it is fullscreen, and its state (128: windowed, not
   * selectable; 1: supported fullscreen; the low two bits also carry the
   * user's preference).
   */
  datatype VideoMode = VideoMode(width: int, height: int, mode: byte, fullscreen: word, state: byte)

  /** Width and height are C `short` fields. */
  predicate ShortSized(m: VideoMode) {
    IsShort(m.width) && IsShort(m.height)
  }

  /** The state a new mode receives: 128 when windowed, 1 when its fullscreen mode is supported, 0 (skipped) otherwise. */
  function InitialState(fullscreen: word, fullscreenSupported: bool): (r: byte)
    ensures r != 0 <==> fullscreen == 0 || fullscreenSupported
    ensures fullscreen == 0 ==> r == 128
  {
    if fullscreen == 0 then 128 else if fullscreenSupported then 1 else 0
  }

  /** Video_mode and Nb_video_modes. */
  class VideoModeTable {
    var modes: array<VideoMode>
    var count: int

    /** The count stays within the array, and every listed mode has short dimensions. */
    predicate Valid()
      reads this, modes
    {
      && 0 <= count <= modes.Length
      && forall k :: 0 <= k < count ==> ShortSized(modes[k])
    }

    /** The modes in use. */
    function Listed(): seq<VideoMode>
      reads this, modes
      requires Valid()
    {
      modes[..count]
    }

    constructor (capacity: nat, blank: VideoMode)
      ensures Valid() && count == 0 && modes.Length == capacity && fresh(modes)
    {
      modes := new VideoMode[capacity](_ => blank);
      count := 0;
    }

    /**
     * Set_video_mode: refuses when the table already holds capacity - 1
     * modes, skips a fullscreen mode the display cannot show, and otherwise
     * appends the mode with its initial state and counts it.
     * `fullscreenSupported` is the display's answer for this resolution.
     */
    method SetVideoMode(width: int, height: int, mode: byte, fullscreen: word, fullscreenSupported: bool)
      requires Valid() && IsShort(width) && IsShort(height)
      modifies this, modes
      ensures Valid() && modes == old(modes)
      ensures old(count) >= modes.Length - 1 || InitialState(fullscreen, fullscreenSupported) == 0 ==>
        count == old(count) && modes[..] == old(modes[..])
      ensures old(count) < modes.Length - 1 && InitialState(fullscreen, fullscreenSupported) != 0 ==>
        count == old(count) + 1
        && Listed() == old(Listed()) + [VideoMode(width, height, mode, fullscreen, InitialState(fullscreen, fullscreenSupported))]
        && modes[count..] == old(modes[..])[count..]
      ensures count <= Max(old(count), modes.Length - 1)
    {
      if count >= modes.Length - 1 {
        return;
      }
      var supported: byte := 0;
      if fullscreen == 0 {
        supported := 128;
      } else if fullscreenSupported {
        supported := 1;
      }
      if supported == 0 {
        return;
      }
      ghost var before := modes[..count];
      modes[count] := VideoMode(width, height, mode, fullscreen, supported);
      count := count + 1;
      assert modes[..count] == before + [VideoMode(width, height, mode, fullscreen, supported)];
    }
  }

  /**
   * Compare_video_modes: the difference of the widths, or when they are
   * equal the difference of the heights; its sign orders modes by width,
   * then by height.
   */
  function CompareVideoModes(a: VideoMode, b: VideoMode): (r: int)
    ensures r < 0 <==> a.width < b.width || (a.width == b.width && a.height < b.height)
    ensures r == 0 <==> a.width == b.width && a.height == b.height
    ensures r > 0 <==> a.width > b.width || (a.width == b.width && a.height > b.height)
    ensures ShortSized(a) && ShortSized(b) ==> -65536 < r < 65536
  {
    if a.width - b.width != 0 then a.width - b.width else a.height - b.height
  }

  /** Swapping the operands flips the sign of the comparison. */
  lemma CompareAntisymmetric(a: VideoMode, b: VideoMode)
    ensures CompareVideoModes(a, b) == -CompareVideoModes(b, a)
  {
  }

  /** The order the comparison induces is transitive, so sorting with it is well defined. */
  lemma CompareTransitive(a: VideoMode, b: VideoMode, c: VideoMode)
    requires CompareVideoModes(a, b) <= 0 && CompareVideoModes(b, c) <= 0
    ensures CompareVideoModes(a, c) <= 0
  {
  }

  /** Whether a sequence of modes is ordered by the comparison. */
  predicate SortedByResolution(s: seq<VideoMode>) {
    forall i, j :: 0 <= i < j < |s| ==> CompareVideoModes(s[i], s[j]) <= 0
  }

  /** A sequence sorted by the comparison is sorted by width, and by height among equal widths. */
  lemma SortedMeansLexicographic(s: seq<VideoMode>, i: int, j: int)
    requires SortedByResolution(s) && 0 <= i < j < |s|
    ensures s[i].width < s[j].width || (s[i].width == s[j].width && s[i].height <= s[j].height)
  {
  }
}
