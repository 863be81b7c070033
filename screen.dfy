/**
 * The screen layer: bounds-checked pixel access on the 8-bit screen
 * surface, the cumulated dirty-rectangle bookkeeping that decides what
 * gets pushed to the display, the conversion of a padded 8-bit surface to
 * a packed byte field, and the reading of a multi-byte pixel.
 */
module Screen {
  import opened Common

  // ---------------------------------------------------------------------
  // Pixel access on the 8-bit screen surface

  /** Whether (x, y) lies on a w x h surface. */
  predicate OnSurface(w: int, h: int, x: int, y: int) {
    0 <= x < w && 0 <= y < h
  }

  /** Two different points of a surface never share a byte: rows are `pitch` apart and no wider than `pitch`. */
  lemma {:induction false} PixelIndexInjective(w: int, pitch: int, x: int, y: int, x': int, y': int)
    requires 0 <= x < w <= pitch && 0 <= x' < w && 0 <= y && 0 <= y'
    requires (x, y) != (x', y')
    ensures x + y * pitch != x' + y' * pitch
  {
    if y < y' {
      MulMonotone(y + 1, y', pitch);
    } else if y' < y {
      MulMonotone(y' + 1, y, pitch);
    }
  }

  /** A point of an h-row surface lies within its h * pitch bytes. */
  lemma PixelIndexInRange(w: int, h: int, pitch: int, x: int, y: int)
    requires 0 <= w <= pitch && OnSurface(w, h, x, y)
    ensures 0 <= x + y * pitch < h * pitch
  {
    MulMonotone(y + 1, h, pitch);
  }

  /** The 8-bit screen surface: `w` x `h` pixels stored row after row, rows `pitch` bytes apart. */
  class ScreenSurface {
    var w: int
    var h: int
    var pitch: int
    var pixels: array<byte>

    ghost predicate Valid()
      reads this
    {
      0 <= w <= pitch && 0 <= h && h * pitch <= pixels.Length
    }

    constructor (width: nat, height: nat)
      ensures Valid() && w == width && h == height && pitch == width
      ensures fresh(pixels) && pixels.Length == width * height
      ensures forall i :: 0 <= i < pixels.Length ==> pixels[i] == 0
    {
      w, h, pitch := width, height, width;
      pixels := new byte[width * height](_ => 0);
    }

    /** Get_Screen_pixel: the pixel at (x, y), or 0 for a point off the surface. */
    function GetPixel(x: int, y: int): (v: byte)
      reads this, pixels
      requires Valid()
      ensures !OnSurface(w, h, x, y) ==> v == 0
      ensures OnSurface(w, h, x, y) ==> 0 <= x + y * pitch < pixels.Length && v == pixels[x + y * pitch]
    {
      if !OnSurface(w, h, x, y) then 0
      else
        PixelIndexInRange(w, h, pitch, x, y);
        pixels[x + y * pitch]
    }

    /**
     * Set_Screen_pixel: writes one pixel; a point off the surface changes
     * nothing (and is reported as out of bounds).
     */
    method SetPixel(x: int, y: int, value: byte) returns (outOfBounds: bool)
      requires Valid()
      modifies pixels
      ensures Valid()
      ensures outOfBounds <==> !OnSurface(w, h, x, y)
      ensures outOfBounds ==> pixels[..] == old(pixels[..])
      ensures !outOfBounds ==> GetPixel(x, y) == value
      ensures forall x', y' :: OnSurface(w, h, x', y') && (x', y') != (x, y) ==> GetPixel(x', y') == old(GetPixel(x', y'))
    {
      if y < 0 || x < 0 || y >= h || x >= w {
        return true;
      }
      PixelIndexInRange(w, h, pitch, x, y);
      pixels[x + y * pitch] := value;
      forall x', y' | OnSurface(w, h, x', y') && (x', y') != (x, y)
        ensures GetPixel(x', y') == old(GetPixel(x', y'))
      {
        PixelIndexInjective(w, pitch, x, y, x', y');
        PixelIndexInRange(w, h, pitch, x', y');
      }
      return false;
    }
  }

  // ---------------------------------------------------------------------
  // Cumulated screen updates

  /** A rectangle pushed to the display, in screen pixels. */
  datatype Rect = Rect(x: int, y: int, w: int, h: int)

  /** The display settings the flush reads: screen size in logical pixels, zoom factors, status line position. */
  datatype Display = Display(
    screenWidth: int, screenHeight: int,
    pixelWidth: int, pixelHeight: int,
    menuFactorX: int, menuFactorY: int,
    menuStatusY: int)

  /** The dirty box Min_X, Min_Y, Max_X, Max_Y (all C `short`), in logical pixels. */
  datatype Box = Box(minX: int, minY: int, maxX: int, maxY: int)

  predicate BoxIsShort(b: Box) {
    IsShort(b.minX) && IsShort(b.minY) && IsShort(b.maxX) && IsShort(b.maxY)
  }

  /** The box that means "everything": the initial value, and what an empty rectangle asks for. */
  const WHOLE_SCREEN: Box := Box(0, 0, 10000, 10000)

  /** The box after a flush: inverted, so that any rectangle replaces it. */
  const NOTHING: Box := Box(10000, 10000, 0, 0)

  predicate IsEmpty(b: Box) {
    b.minX >= b.maxX || b.minY >= b.maxY
  }

  /** `outer` contains `inner` (compared as boxes, whatever their emptiness). */
  predicate Encloses(outer: Box, inner: Box) {
    outer.minX <= inner.minX && outer.minY <= inner.minY && inner.maxX <= outer.maxX && inner.maxY <= outer.maxY
  }

  /** Update_rect: grows the box to take in a rectangle; an empty rectangle asks for the whole screen. */
  function AddRect(b: Box, x: int, y: int, width: nat, height: nat): (r: Box)
    ensures width == 0 || height == 0 ==> r == WHOLE_SCREEN
    ensures width > 0 && height > 0 ==> r.minX == Min(b.minX, x) && r.minY == Min(b.minY, y)
    ensures width > 0 && height > 0 && IsShort(x + width) && IsShort(y + height) ==> r.maxX == Max(b.maxX, x + width) && r.maxY == Max(b.maxY, y + height)
    ensures width > 0 && height > 0 ==> (r.maxX == b.maxX || IsShort(r.maxX)) && (r.maxY == b.maxY || IsShort(r.maxY))
  {
    if width == 0 || height == 0 then WHOLE_SCREEN
    else Box(
      if x < b.minX then x else b.minX,
      if y < b.minY then y else b.minY,
      if x + width > b.maxX then ToShort(x + width) else b.maxX,
      if y + height > b.maxY then ToShort(y + height) else b.maxY)
  }

  /**
   * When the far corner fits a `short`, the new box is the smallest box
   * enclosing both the old box and the rectangle.
   */
  lemma AddRectIsLeastEnclosing(b: Box, x: int, y: int, width: nat, height: nat, c: Box)
    requires width > 0 && height > 0 && IsShort(x + width) && IsShort(y + height)
    ensures Encloses(AddRect(b, x, y, width, height), b)
    ensures Encloses(AddRect(b, x, y, width, height), Box(x, y, x + width, y + height))
    ensures Encloses(c, b) && Encloses(c, Box(x, y, x + width, y + height)) ==> Encloses(c, AddRect(b, x, y, width, height))
  {
  }

  /** After a flush, the box becomes exactly the first rectangle added (if it starts left of and above 10000). */
  lemma FirstRectAfterFlush(x: int, y: int, width: nat, height: nat)
    requires width > 0 && height > 0 && IsShort(x + width) && IsShort(y + height)
    requires x < 10000 && y < 10000 && x + width > 0 && y + height > 0
    ensures AddRect(NOTHING, x, y, width, height) == Box(x, y, x + width, y + height)
  {
  }

  /** Min_X/Min_Y clamped at 0 before the flush. */
  function ClampOrigin(b: Box): Box {
    Box(if b.minX < 0 then 0 else b.minX, if b.minY < 0 then 0 else b.minY, b.maxX, b.maxY)
  }

  /** The rectangle Flush_update pushes for a dirty box, if any. */
  function FlushedRect(b: Box, d: Display): (r: Option<Rect>)
    ensures r.None? <==> IsEmpty(b)
    ensures r.Some? && d.pixelWidth >= 0 && d.pixelHeight >= 0 ==> r.value.x >= 0 && r.value.y >= 0
  {
    if IsEmpty(b) then None
    else
      var c := ClampOrigin(b);
      Some(Rect(
        c.minX * d.pixelWidth, c.minY * d.pixelHeight,
        Min(d.screenWidth - c.minX, c.maxX - c.minX) * d.pixelWidth,
        Min(d.screenHeight - c.minY, c.maxY - c.minY) * d.pixelHeight))
  }

  /** The box after Flush_update: reset to NOTHING after a push, left alone when empty. */
  function AfterFlush(b: Box): Box {
    if IsEmpty(b) then b else NOTHING
  }

  /**
   * The pushed rectangle is the dirty box clipped to the screen: it starts
   * at the box corner moved onto the screen, and ends at the box's far
   * corner or the screen's edge, whichever comes first.
   */
  lemma FlushedRectIsClippedBox(b: Box, d: Display)
    requires !IsEmpty(b) && d.pixelWidth > 0 && d.pixelHeight > 0
    ensures FlushedRect(b, d).Some?
    ensures var r := FlushedRect(b, d).value;
      && r.x == (if b.minX < 0 then 0 else b.minX) * d.pixelWidth
      && r.y == (if b.minY < 0 then 0 else b.minY) * d.pixelHeight
      && r.x + r.w == Min(d.screenWidth, b.maxX) * d.pixelWidth
      && r.y + r.h == Min(d.screenHeight, b.maxY) * d.pixelHeight
  {
    var c := ClampOrigin(b);
    var r := FlushedRect(b, d).value;
    Distribute(c.minX, Min(d.screenWidth - c.minX, c.maxX - c.minX), d.pixelWidth);
    Distribute(c.minY, Min(d.screenHeight - c.minY, c.maxY - c.minY), d.pixelHeight);
  }

  /** Nothing is pushed twice: right after a flush, a second flush pushes nothing. */
  lemma FlushIsIdempotent(b: Box, d: Display)
    ensures FlushedRect(AfterFlush(b), d).None?
    ensures AfterFlush(AfterFlush(b)) == AfterFlush(b)
  {
  }

  /** The status line dirty span, in characters: [begin, end). */
  datatype StatusSpan = StatusSpan(begin: int, end: int)

  /** The span after a flush. */
  const STATUS_CLEAN: StatusSpan := StatusSpan(25, 0)

  /** Update_status_line: merges `width` characters from `charPos` into the span. */
  function AddStatus(s: StatusSpan, charPos: int, width: int): (r: StatusSpan)
    ensures r.begin == Min(s.begin, charPos)
    ensures IsShort(charPos + width) ==> r.end == Max(s.end, charPos + width)
    ensures r.end == s.end || IsShort(r.end)
  {
    StatusSpan(
      if s.begin > charPos then charPos else s.begin,
      if s.end < charPos + width then ToShort(charPos + width) else s.end)
  }

  /** The merged span encloses the old one and the new characters, and is the least span that does. */
  lemma AddStatusIsLeastEnclosing(s: StatusSpan, charPos: int, width: int, t: StatusSpan)
    requires IsShort(charPos + width)
    ensures var r := AddStatus(s, charPos, width);
      && r.begin <= s.begin && r.begin <= charPos
      && s.end <= r.end && charPos + width <= r.end
      && (t.begin <= s.begin && t.begin <= charPos && s.end <= t.end && charPos + width <= t.end
          ==> t.begin <= r.begin && r.end <= t.end)
  {
  }

  /** After a flush, a status update within the 25 characters of the span start makes the span exactly those characters. */
  lemma FirstStatusAfterFlush(charPos: int, width: int)
    requires 0 <= charPos <= 25 && 0 < width && IsShort(charPos + width)
    ensures AddStatus(STATUS_CLEAN, charPos, width) == StatusSpan(charPos, charPos + width)
  {
  }

  /** The status-line rectangle Flush_update pushes, if the span's end is not 0. */
  function FlushedStatus(s: StatusSpan, d: Display): (r: Option<Rect>)
    ensures r.None? <==> s.end == 0
    ensures r.Some? ==> r.value.y == d.menuStatusY * d.pixelHeight && r.value.h == 8 * d.menuFactorY * d.pixelHeight
  {
    if s.end != 0 then
      Some(Rect(
        (18 + s.begin * 8) * d.menuFactorX * d.pixelWidth, d.menuStatusY * d.pixelHeight,
        (s.end - s.begin) * 8 * d.menuFactorX * d.pixelWidth, 8 * d.menuFactorY * d.pixelHeight))
    else None
  }

  /** The pushed status rectangle covers the span's characters, 8 zoomed pixels each, after an 18-pixel margin. */
  lemma FlushedStatusCoversSpan(s: StatusSpan, d: Display)
    requires s.end != 0
    ensures FlushedStatus(s, d).Some?
    ensures var r := FlushedStatus(s, d).value; var unit := 8 * d.menuFactorX * d.pixelWidth;
      && r.x == 18 * d.menuFactorX * d.pixelWidth + s.begin * unit
      && r.x + r.w == 18 * d.menuFactorX * d.pixelWidth + s.end * unit
  {
    var f := d.menuFactorX * d.pixelWidth;
    assert (18 + s.begin * 8) * d.menuFactorX * d.pixelWidth == (18 + s.begin * 8) * f;
    assert (s.end - s.begin) * 8 * d.menuFactorX * d.pixelWidth == (s.end - s.begin) * 8 * f;
    assert 8 * d.menuFactorX * d.pixelWidth == 8 * f;
  }

  /** The cumulated-update globals of the screen layer. */
  class UpdateTracker {
    var minX: int
    var minY: int
    var maxX: int
    var maxY: int
    var statusBegin: int
    var statusEnd: int

    ghost predicate Valid()
      reads this
    {
      IsShort(minX) && IsShort(minY) && IsShort(maxX) && IsShort(maxY) && IsShort(statusBegin) && IsShort(statusEnd)
    }

    function Dirty(): Box
      reads this
    {
      Box(minX, minY, maxX, maxY)
    }

    function Status(): StatusSpan
      reads this
    {
      StatusSpan(statusBegin, statusEnd)
    }

    /** The initial values: the whole screen is dirty, the status span is [0, 0). */
    constructor ()
      ensures Valid() && Dirty() == WHOLE_SCREEN && Status() == StatusSpan(0, 0)
    {
      minX, minY, maxX, maxY := 0, 0, 10000, 10000;
      statusBegin, statusEnd := 0, 0;
    }

    /** Update_rect (`short` position, `unsigned short` size). */
    method UpdateRect(x: int, y: int, width: word, height: word)
      requires Valid() && IsShort(x) && IsShort(y)
      modifies this
      ensures Valid()
      ensures Dirty() == AddRect(old(Dirty()), x, y, width, height)
      ensures Status() == old(Status())
    {
      if width == 0 || height == 0 {
        minX, minY := 0, 0;
        maxX, maxY := 10000, 10000;
      } else {
        if x < minX {
          minX := x;
        }
        if y < minY {
          minY := y;
        }
        if x + width > maxX {
          maxX := ToShort(x + width);
        }
        if y + height > maxY {
          maxY := ToShort(y + height);
        }
      }
    }

    /** Update_status_line (`short` position and width). */
    method UpdateStatusLine(charPos: int, width: int)
      requires Valid() && IsShort(charPos) && IsShort(width)
      modifies this
      ensures Valid()
      ensures Status() == AddStatus(old(Status()), charPos, width)
      ensures Dirty() == old(Dirty())
    {
      if statusEnd < charPos + width {
        statusEnd := ToShort(charPos + width);
      }
      if statusBegin > charPos {
        statusBegin := charPos;
      }
    }

    /** Flush_update: returns the rectangles pushed to the display, then resets what was pushed. */
    method FlushUpdate(d: Display) returns (main: Option<Rect>, status: Option<Rect>)
      requires Valid()
      modifies this
      ensures Valid()
      ensures main == FlushedRect(old(Dirty()), d)
      ensures status == FlushedStatus(old(Status()), d)
      ensures Dirty() == AfterFlush(old(Dirty()))
      ensures Status() == STATUS_CLEAN
    {
      main := None;
      if minX >= maxX || minY >= maxY {
        // nothing to do
      } else {
        if minX < 0 {
          minX := 0;
        }
        if minY < 0 {
          minY := 0;
        }
        main := Some(Rect(
          minX * d.pixelWidth, minY * d.pixelHeight,
          Min(d.screenWidth - minX, maxX - minX) * d.pixelWidth,
          Min(d.screenHeight - minY, maxY - minY) * d.pixelHeight));
        minX, minY := 10000, 10000;
        maxX, maxY := 0, 0;
      }
      status := None;
      if statusEnd != 0 {
        status := Some(Rect(
          (18 + statusBegin * 8) * d.menuFactorX * d.pixelWidth, d.menuStatusY * d.pixelHeight,
          (statusEnd - statusBegin) * 8 * d.menuFactorX * d.pixelWidth, 8 * d.menuFactorY * d.pixelHeight));
      }
      statusBegin := 25;
      statusEnd := 0;
    }
  }

  // ---------------------------------------------------------------------
  // Surface to byte field

  /** The row length of an 8-bit surface: the width rounded up to a multiple of 4. */
  function Stride(w: nat): (r: nat)
    ensures r % 4 == 0 && w <= r < w + 4
  {
    if w % 4 != 0 then w + (4 - w % 4) else w
  }

  /** Whether `pixels` holds n rows of w bytes from `start` on, `Stride(w)` bytes apart (the last row needs no padding). */
  predicate HoldsRows(pixels: seq<byte>, start: nat, w: nat, n: nat)
    decreases n
  {
    n == 0 || (start + w <= |pixels| && HoldsRows(pixels, start + Stride(w), w, n - 1))
  }

  /** The n rows of w bytes from `start` on, without their padding, one after the other. */
  function RowsFrom(pixels: seq<byte>, start: nat, w: nat, n: nat): seq<byte>
    requires HoldsRows(pixels, start, w, n)
    decreases n
  {
    if n == 0 then [] else pixels[start..start + w] + RowsFrom(pixels, start + Stride(w), w, n - 1)
  }

  /** The byte field of a w x h surface. */
  function Unpadded(pixels: seq<byte>, w: nat, h: nat): seq<byte>
    requires HoldsRows(pixels, 0, w, h)
  {
    RowsFrom(pixels, 0, w, h)
  }

  /** The byte field has w * h bytes. */
  lemma {:induction false} RowsFromLength(pixels: seq<byte>, start: nat, w: nat, n: nat)
    requires HoldsRows(pixels, start, w, n)
    ensures |RowsFrom(pixels, start, w, n)| == n * w
    decreases n
  {
    if n > 0 {
      RowsFromLength(pixels, start + Stride(w), w, n - 1);
      Distribute(n - 1, 1, w);
    }
  }

  /** Row y of the rows from `start` is found y strides further on. */
  lemma RowsFromRow(pixels: seq<byte>, start: nat, w: nat, n: nat, y: nat)
    requires HoldsRows(pixels, start, w, n) && y < n
    ensures |RowsFrom(pixels, start, w, n)| == n * w
    ensures y * w + w <= n * w
    ensures start + y * Stride(w) + w <= |pixels|
    ensures RowsFrom(pixels, start, w, n)[y * w..y * w + w] == pixels[start + y * Stride(w)..start + y * Stride(w) + w]
  {
    RowsFromLength(pixels, start, w, n);
    MulMonotone(y + 1, n, w);
    Distribute(y, 1, w);
    TimesIsProduct(y, w);
    TimesIsProduct(y, Stride(w));
    RowAt(pixels, start, w, n, y, y * w, start + y * Stride(w));
  }

  /** y times k, by repeated addition. */
  function Times(y: nat, k: nat): nat {
    if y == 0 then 0 else Times(y - 1, k) + k
  }

  lemma {:induction false} TimesIsProduct(y: nat, k: nat)
    ensures Times(y, k) == y * k
  {
    if y > 0 {
      TimesIsProduct(y - 1, k);
      Distribute(y - 1, 1, k);
    }
  }

  /** RowsFromRow with the offsets of row y, k in the rows and p in the pixels, written as repeated additions. */
  lemma {:induction false} RowAt(pixels: seq<byte>, start: nat, w: nat, n: nat, y: nat, k: nat, p: nat)
    requires HoldsRows(pixels, start, w, n) && y < n
    requires k == Times(y, w) && p == start + Times(y, Stride(w))
    ensures k + w <= |RowsFrom(pixels, start, w, n)| && p + w <= |pixels|
    ensures RowsFrom(pixels, start, w, n)[k..k + w] == pixels[p..p + w]
    decreases n
  {
    var stride := Stride(w);
    RowsFromFirst(pixels, start, w, n);
    var a, u := pixels[start..start + w], RowsFrom(pixels, start + stride, w, n - 1);
    if y == 0 {
      FirstRowOfAppend(a, u, w);
    } else {
      TimesStep(y, w);
      TimesStep(y, stride);
      var i, q := Times(y - 1, w), start + stride + Times(y - 1, stride);
      RowAt(pixels, start + stride, w, n - 1, y - 1, i, q);
      ShiftRow(a, u, pixels, i, w, k, q);
      assert q == p;
    }
  }

  /** The rows from `start` on: the first row, then the rows one stride further on. */
  lemma RowsFromFirst(pixels: seq<byte>, start: nat, w: nat, n: nat)
    requires HoldsRows(pixels, start, w, n) && n > 0
    ensures start + w <= |pixels| && HoldsRows(pixels, start + Stride(w), w, n - 1)
    ensures RowsFrom(pixels, start, w, n) == pixels[start..start + w] + RowsFrom(pixels, start + Stride(w), w, n - 1)
  {
  }

  /** One more addition of k. */
  lemma TimesStep(y: nat, k: nat)
    requires y > 0
    ensures Times(y, k) == Times(y - 1, k) + k
  {
  }

  /** The first w bytes of a + u are a, when a has w bytes. */
  lemma FirstRowOfAppend(a: seq<byte>, u: seq<byte>, w: nat)
    requires |a| == w
    ensures w <= |a + u| && (a + u)[0..0 + w] == a
  {
  }

  /** A row found at i in u is found at k = i + |a| in a + u. */
  lemma ShiftRow(a: seq<byte>, u: seq<byte>, pixels: seq<byte>, i: nat, w: nat, k: nat, p: nat)
    requires |a| == w && k == i + w && i + w <= |u| && p + w <= |pixels| && u[i..i + w] == pixels[p..p + w]
    ensures k + w <= |a + u| && (a + u)[k..k + w] == pixels[p..p + w]
  {
    SliceOfAppend(a, u, i + w, i + w + w);
  }

  /** Pixel x of row y of the byte field is pixel x of row y of the surface. */
  lemma UnpaddedAt(pixels: seq<byte>, w: nat, h: nat, x: nat, y: nat)
    requires HoldsRows(pixels, 0, w, h) && x < w && y < h
    ensures y * w + x < |Unpadded(pixels, w, h)|
    ensures y * Stride(w) + x < |pixels|
    ensures Unpadded(pixels, w, h)[y * w + x] == pixels[y * Stride(w) + x]
  {
    RowsFromRow(pixels, 0, w, h, y);
    ElementOfRow(Unpadded(pixels, w, h), pixels, y * w, 0 + y * Stride(w), w, x);
  }

  /** Byte x of a row of w bytes found at k in u and at p in `pixels`. */
  lemma ElementOfRow(u: seq<byte>, pixels: seq<byte>, k: nat, p: nat, w: nat, x: nat)
    requires k + w <= |u| && p + w <= |pixels| && u[k..k + w] == pixels[p..p + w] && x < w
    ensures k + x < |u| && p + x < |pixels| && u[k + x] == pixels[p + x]
  {
    assert u[k..k + w][x] == pixels[p..p + w][x];
  }

  lemma SliceOfAppend(a: seq<byte>, u: seq<byte>, i: nat, j: nat)
    requires |a| <= i <= j <= |a| + |u|
    ensures (a + u)[i..j] == u[i - |a|..j - |a|]
  {
  }

  /** A surface as the display stores it: each row followed by zero padding up to the stride. */
  function Padded(rows: seq<seq<byte>>, w: nat): seq<byte>
    requires forall i :: 0 <= i < |rows| ==> |rows[i]| == w
  {
    if |rows| == 0 then []
    else rows[0] + seq(Stride(w) - w, _ => 0) + Padded(rows[1..], w)
  }

  function Flatten(rows: seq<seq<byte>>): seq<byte> {
    if |rows| == 0 then [] else rows[0] + Flatten(rows[1..])
  }

  /** Rows laid out from `start` depend on nothing before `start`. */
  lemma {:induction false} RowsFromShift(prefix: seq<byte>, q: seq<byte>, w: nat, n: nat, start: nat)
    requires HoldsRows(q, start, w, n)
    ensures HoldsRows(prefix + q, |prefix| + start, w, n)
    ensures RowsFrom(prefix + q, |prefix| + start, w, n) == RowsFrom(q, start, w, n)
    decreases n
  {
    if n > 0 {
      RowsFromShift(prefix, q, w, n - 1, start + Stride(w));
      assert (prefix + q)[|prefix| + start..|prefix| + start + w] == q[start..start + w];
    }
  }

  /** Converting a padded surface gives back its rows, laid end to end. */
  lemma {:induction false} UnpaddedOfPadded(rows: seq<seq<byte>>, w: nat)
    requires forall i :: 0 <= i < |rows| ==> |rows[i]| == w
    ensures HoldsRows(Padded(rows, w), 0, w, |rows|)
    ensures Unpadded(Padded(rows, w), w, |rows|) == Flatten(rows)
  {
    if |rows| > 0 {
      var head := rows[0] + seq(Stride(w) - w, _ => 0);
      var q := Padded(rows[1..], w);
      UnpaddedOfPadded(rows[1..], w);
      RowsFromShift(head, q, w, |rows| - 1, 0);
      assert Padded(rows, w) == head + q;
      assert (head + q)[0..w] == rows[0];
    }
  }

  /**
   * Surface_to_bytefield: copies an 8-bit surface into a byte field without
   * row padding, into `dest` or a new buffer when `dest` is null; any
   * other pixel format gives null.
   */
  method SurfaceToBytefield(bytesPerPixel: int, w: nat, h: nat, pixels: seq<byte>, dest: array?<byte>)
      returns (r: array?<byte>)
    requires bytesPerPixel == 1 ==> HoldsRows(pixels, 0, w, h)
    requires bytesPerPixel == 1 && dest != null ==> w * h <= dest.Length
    modifies if dest == null then {} else {dest}
    ensures bytesPerPixel != 1 ==> r == null
    ensures bytesPerPixel == 1 ==> r != null && w * h <= r.Length && r[..w * h] == Unpadded(pixels, w, h)
    ensures bytesPerPixel == 1 && dest == null ==> fresh(r) && r.Length == w * h
    ensures bytesPerPixel == 1 && dest != null ==> r == dest && r[w * h..] == old(dest[w * h..])
    ensures bytesPerPixel != 1 && dest != null ==> dest[..] == old(dest[..])
  {
    if bytesPerPixel != 1 {
      return null;
    }
    if dest == null {
      r := new byte[w * h];
    } else {
      r := dest;
    }
    RowsFromLength(pixels, 0, w, h);
    CopyRows(pixels, w, h, r);
  }

  /** The copy loop of Surface_to_bytefield: h rows of w bytes, skipping each row's padding. */
  method CopyRows(pixels: seq<byte>, w: nat, h: nat, r: array<byte>)
    requires HoldsRows(pixels, 0, w, h) && |Unpadded(pixels, w, h)| <= r.Length
    modifies r
    ensures r[..|Unpadded(pixels, w, h)|] == Unpadded(pixels, w, h)
    ensures r[|Unpadded(pixels, w, h)|..] == old(r[|Unpadded(pixels, w, h)|..])
  {
    var remainder := RowPadding(w);
    ghost var whole := Unpadded(pixels, w, h);
    var d: nat := 0;
    var s: nat := 0;
    var y := 0;
    ghost var left: nat := h;
    while y < h
      invariant 0 <= y <= h && left == h - y && HoldsRows(pixels, s, w, left)
      invariant d + |RowsFrom(pixels, s, w, left)| <= r.Length
      invariant r[..d] + RowsFrom(pixels, s, w, left) == whole
      invariant r[d..] == old(r[d..])
    {
      var next := s + w + remainder;
      CopyNextRow(pixels, s, w, left, next, r, d, whole, old(r[..]));
      left := left - 1;
      d, s, y := d + w, next, y + 1;
    }
  }

  /** The padding bytes at the end of each row of an 8-bit surface of width w. */
  method RowPadding(w: nat) returns (remainder: nat)
    ensures w + remainder == Stride(w) && remainder < 4
  {
    remainder := if w % 4 != 0 then 4 - w % 4 else 0;
  }

  /** One step of the copy loop: the first of n rows goes to position d, after the rows before it. */
  method CopyNextRow(pixels: seq<byte>, s: nat, w: nat, ghost n: nat, next: nat, r: array<byte>, d: nat,
                     ghost whole: seq<byte>, ghost orig: seq<byte>)
    requires HoldsRows(pixels, s, w, n) && n > 0 && next == s + Stride(w)
    requires d + |RowsFrom(pixels, s, w, n)| <= r.Length == |orig|
    requires r[..d] + RowsFrom(pixels, s, w, n) == whole
    requires r[d..] == orig[d..]
    modifies r
    ensures HoldsRows(pixels, next, w, n - 1)
    ensures d + w + |RowsFrom(pixels, next, w, n - 1)| <= r.Length
    ensures r[..d + w] + RowsFrom(pixels, next, w, n - 1) == whole
    ensures r[d + w..] == orig[d + w..]
  {
    ghost var before, after := r[..d], r[d..];
    ghost var tail := RowsFrom(pixels, next, w, n - 1);
    FirstRow(pixels, s, w, n, next);
    CopyRow(pixels, s, r, d, w);
    AppendAssoc(before, pixels[s..s + w], tail);
    assert r[d + w..] == after[w..];
    SuffixEq(after, orig[d..], 0, w);
    assert orig[d..][w..] == orig[d + w..];
  }

  /** memcpy of one row: w bytes of `pixels` from s to `r` from d. */
  method CopyRow(pixels: seq<byte>, s: nat, r: array<byte>, d: nat, w: nat)
    requires s + w <= |pixels| && d + w <= r.Length
    modifies r
    ensures r[..d + w] == old(r[..d]) + pixels[s..s + w]
    ensures r[d + w..] == old(r[d + w..])
  {
    ghost var before := r[..d];
    forall k | 0 <= k < w {
      r[d + k] := pixels[s + k];
    }
    assert r[..d + w] == before + pixels[s..s + w];
  }

  /** The first of n rows, and the rows after it one stride further on, at `next`. */
  lemma FirstRow(pixels: seq<byte>, start: nat, w: nat, n: nat, next: nat)
    requires HoldsRows(pixels, start, w, n) && n > 0 && next == start + Stride(w)
    ensures start + w <= |pixels| && HoldsRows(pixels, next, w, n - 1)
    ensures RowsFrom(pixels, start, w, n) == pixels[start..start + w] + RowsFrom(pixels, next, w, n - 1)
  {
  }

  // ---------------------------------------------------------------------
  // Multi-byte pixels

  /** The number of bytes Get_SDL_pixel_hicolor reads: 3 or 2 for those formats, 4 for any other. */
  function PixelSize(bytesPerPixel: int): nat {
    if bytesPerPixel == 3 then 3 else if bytesPerPixel == 2 then 2 else 4
  }

  /** Bytes read least significant first. */
  function LittleEndian(bytes: seq<byte>): nat {
    if |bytes| == 0 then 0 else bytes[0] + 256 * LittleEndian(bytes[1..])
  }

  function Pow256(k: nat): nat {
    if k == 0 then 1 else 256 * Pow256(k - 1)
  }

  /** n bytes read least significant first make a number of n bytes. */
  lemma {:induction false} LittleEndianBound(bytes: seq<byte>)
    ensures LittleEndian(bytes) < Pow256(|bytes|)
    decreases |bytes|
  {
    if |bytes| > 0 {
      LittleEndianBound(bytes[1..]);
    }
  }

  /** n bytes read most significant first make a number of n bytes. */
  lemma {:induction false} BigEndianBound(bytes: seq<byte>)
    ensures BigEndian(bytes) < Pow256(|bytes|)
    decreases |bytes|
  {
    if |bytes| > 0 {
      BigEndianBound(bytes[..|bytes| - 1]);
    }
  }

  /** Bytes read most significant first. */
  function BigEndian(bytes: seq<byte>): nat {
    if |bytes| == 0 then 0 else BigEndian(bytes[..|bytes| - 1]) * 256 + bytes[|bytes| - 1]
  }

  /**
   * Get_SDL_pixel_hicolor as written: a 2- or 4-byte pixel is one word in
   * host byte order, but a 3-byte pixel is always assembled least
   * significant byte first, since its `#ifdef SDL_LIL_ENDIAN` tests a
   * macro that SDL defines on every host.
   */
  function HicolorPixel(bytesPerPixel: int, littleEndianHost: bool, pixels: seq<byte>, pitch: int, x: int, y: int): (r: nat)
    requires 0 <= y * pitch + x * PixelSize(bytesPerPixel)
    requires y * pitch + x * PixelSize(bytesPerPixel) + PixelSize(bytesPerPixel) <= |pixels|
    ensures r < 0x1_0000_0000
    ensures bytesPerPixel == 3 ==> r < 0x100_0000
    ensures littleEndianHost || bytesPerPixel != 3 ==> r == HostOrderPixel(bytesPerPixel, littleEndianHost, pixels, pitch, x, y)
  {
    var n := PixelSize(bytesPerPixel);
    var p := y * pitch + x * n;
    var bytes := pixels[p..p + n];
    LittleEndianBound(bytes);
    assert Pow256(3) == 0x100_0000 && Pow256(4) == 0x1_0000_0000;
    if n == 3 then LittleEndian(bytes) else HostOrderPixel(bytesPerPixel, littleEndianHost, pixels, pitch, x, y)
  }

  /**
   * Get_SDL_pixel_hicolor as its comments describe it: every pixel in host
   * byte order, a 3-byte pixel in the low three bytes on a little-endian
   * host and in the high three bytes on a big-endian one (the test
   * `SDL_BYTEORDER == SDL_LIL_ENDIAN`).
   */
  function HostOrderPixel(bytesPerPixel: int, littleEndianHost: bool, pixels: seq<byte>, pitch: int, x: int, y: int): (r: nat)
    requires 0 <= y * pitch + x * PixelSize(bytesPerPixel)
    requires y * pitch + x * PixelSize(bytesPerPixel) + PixelSize(bytesPerPixel) <= |pixels|
    ensures r < 0x1_0000_0000
    ensures littleEndianHost ==> r < Pow256(PixelSize(bytesPerPixel))
    ensures bytesPerPixel == 3 && !littleEndianHost ==> r % 256 == 0
  {
    var n := PixelSize(bytesPerPixel);
    var p := y * pitch + x * n;
    var bytes := pixels[p..p + n];
    LittleEndianBound(bytes);
    BigEndianBound(bytes);
    assert Pow256(3) == 0x100_0000 && Pow256(4) == 0x1_0000_0000;
    if littleEndianHost then LittleEndian(bytes)
    else if n == 3 then BigEndian(bytes) * 256
    else BigEndian(bytes)
  }

  /**
   * The bytes 1, 2, 3 on a big-endian host: the code as written answers
   * 0x030201, where the host-order reading is 0x01020300.
   */
  lemma ThreeBytePixelBigEndianHost()
    ensures HicolorPixel(3, false, [1, 2, 3], 0, 0, 0) == 0x03_0201
    ensures HostOrderPixel(3, false, [1, 2, 3], 0, 0, 0) == 0x0102_0300
  {
    var bytes: seq<byte> := [1, 2, 3];
    assert bytes[0..3] == bytes;
    assert bytes[1..][1..][1..] == [];
    assert bytes[..2] == [1, 2] && bytes[..2][..1] == [1] && [1][..0] == [];
    assert BigEndian([1]) == 1;
    assert BigEndian([1, 2]) == 0x0102;
    assert BigEndian(bytes) == 0x01_0203;
  }

  /** A 3-byte pixel as written, on any host: its top byte is zero and the three bytes come back in order from the least significant. */
  lemma ThreeBytePixelLittleEndian(pixels: seq<byte>, littleEndianHost: bool, pitch: int, x: int, y: int)
    requires 0 <= y * pitch + x * 3 && y * pitch + x * 3 + 3 <= |pixels|
    ensures var v := HicolorPixel(3, littleEndianHost, pixels, pitch, x, y); var p := y * pitch + x * 3;
      && v < 0x100_0000
      && v % 256 == pixels[p] && v / 256 % 256 == pixels[p + 1] && v / 0x1_0000 == pixels[p + 2]
  {
    var p := y * pitch + x * 3;
    var bytes := pixels[p..p + 3];
    assert LittleEndian(bytes[1..][1..][1..]) == 0;
    assert LittleEndian(bytes[1..][1..]) == pixels[p + 2] as int;
    assert LittleEndian(bytes[1..]) == pixels[p + 1] as int + 256 * pixels[p + 2] as int;
    assert LittleEndian(bytes) == pixels[p] as int + 256 * pixels[p + 1] as int + 0x1_0000 * pixels[p + 2] as int;
  }

  /** A 3-byte pixel read in host order on a big-endian host: its low byte is zero and the three bytes come back in order from the most significant. */
  lemma ThreeBytePixelBigEndian(pixels: seq<byte>, pitch: int, x: int, y: int)
    requires 0 <= y * pitch + x * 3 && y * pitch + x * 3 + 3 <= |pixels|
    ensures var v := HostOrderPixel(3, false, pixels, pitch, x, y); var p := y * pitch + x * 3;
      && v < 0x1_0000_0000 && v % 256 == 0
      && v / 0x100_0000 == pixels[p] && v / 0x1_0000 % 256 == pixels[p + 1] && v / 256 % 256 == pixels[p + 2]
  {
    var p := y * pitch + x * 3;
    var bytes := pixels[p..p + 3];
    var a, b, c := pixels[p] as int, pixels[p + 1] as int, pixels[p + 2] as int;
    assert BigEndian(bytes[..2][..1][..0]) == 0;
    assert BigEndian(bytes[..2][..1]) == a;
    assert BigEndian(bytes[..2]) == a * 256 + b;
    assert BigEndian(bytes) == (a * 256 + b) * 256 + c;
    var v := ((a * 256 + b) * 256 + c) * 256;
    assert v == a * 0x100_0000 + (b * 0x1_0000 + c * 256);
    DivModOf(a, b * 0x1_0000 + c * 256, 0x100_0000);
    assert v == (a * 256 + b) * 0x1_0000 + c * 256;
    DivModOf(a * 256 + b, c * 256, 0x1_0000);
    DivModOf(a, b, 256);
    assert v == ((a * 256 + b) * 256 + c) * 256 + 0;
    DivModOf((a * 256 + b) * 256 + c, 0, 256);
    DivModOf(a * 256 + b, c, 256);
  }
}
