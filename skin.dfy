/**
 * Reading the GUI skin and font images: the colour swatches at the top of
 * a skin, the search for the next element, the reading of a rectangular
 * block with its colour rules, the packing of 16x16 patterns into bit
 * rows, the centring of mouse cursors, and the parsing of an 8x8 font.
 */
module Skin {
  import opened Common

  /** An 8-bit indexed image: `w` x `h` pixels, row by row. */
  datatype Image = Image(w: nat, h: nat, rows: seq<seq<byte>>)

  /**
   * Get_GFX2_Surface_pixel. The accessor lives outside this model; here it
   * answers the stored pixel inside the image and 0 anywhere else.
   */
  function Pixel(img: Image, x: int, y: int): byte {
    if 0 <= x < img.w && 0 <= y < img.h && y < |img.rows| && x < |img.rows[y]| then img.rows[y][x] else 0
  }

  /** The colours a skin declares in its first row: Color[0..3] and Color_trans. */
  datatype SkinColors = SkinColors(color0: byte, color1: byte, color2: byte, color3: byte, trans: byte)

  // ---------------------------------------------------------------------
  // Seeking the next element

  /**
   * GUI_seek_down: from (0, startY), the first pixel of column 0 that is not
   * the neutral colour. The first pixel is always looked at; the search
   * stops at the bottom of the image. On failure the position is unchanged.
   */
  method GuiSeekDown(img: Image, startY: int, neutral: byte) returns (err: bool, x: int, y: int)
    ensures x == 0
    ensures err <==> forall k :: startY <= k < Max(img.h, startY + 1) ==> Pixel(img, 0, k) == neutral
    ensures err ==> y == startY
    ensures !err ==> startY <= y < Max(img.h, startY + 1) && Pixel(img, 0, y) != neutral
    ensures !err ==> forall k :: startY <= k < y ==> Pixel(img, 0, k) == neutral
  {
    x := 0;
    var k := startY;
    while true
      invariant startY <= k < Max(img.h, startY + 1)
      invariant forall j :: startY <= j < k ==> Pixel(img, 0, j) == neutral
      decreases Max(img.h, startY + 1) - k
    {
      var color := Pixel(img, x, k);
      if color != neutral {
        return false, x, k;
      }
      k := k + 1;
      if !(k < img.h) {
        break;
      }
    }
    return true, x, startY;
  }

  /**
   * GUI_seek_right: from (startX, y), the first pixel of row y that is not
   * the neutral colour. The first pixel is always looked at; the search
   * stops at the right edge. On failure the position is unchanged.
   */
  method GuiSeekRight(img: Image, startX: int, y: int, neutral: byte) returns (err: bool, x: int)
    ensures err <==> forall k :: startX <= k < Max(img.w, startX + 1) ==> Pixel(img, k, y) == neutral
    ensures err ==> x == startX
    ensures !err ==> startX <= x < Max(img.w, startX + 1) && Pixel(img, x, y) != neutral
    ensures !err ==> forall k :: startX <= k < x ==> Pixel(img, k, y) == neutral
  {
    var k := startX;
    while true
      invariant startX <= k < Max(img.w, startX + 1)
      invariant forall j :: startX <= j < k ==> Pixel(img, j, y) == neutral
      decreases Max(img.w, startX + 1) - k
    {
      var color := Pixel(img, k, y);
      if color != neutral {
        return false, k;
      }
      k := k + 1;
      if !(k < img.w) {
        break;
      }
    }
    return true, startX;
  }

  // ---------------------------------------------------------------------
  // Reading a block

  /**
   * The kinds of block: a GUI element (the four GUI colours only), a mouse
   * cursor (also transparent), a monochrome brush or pattern (white or
   * transparent, stored as 1 or 0), and a raw bitmap (anything).
   */
  datatype BlockType = GuiElement | MouseCursor | Monochrome | RawBitmap

  /** Whether a pixel colour is allowed in a block of type t. */
  predicate Accepts(t: BlockType, c: SkinColors, color: byte) {
    match t
    case GuiElement => color == c.color0 || color == c.color1 || color == c.color2 || color == c.color3
    case MouseCursor => color == c.color0 || color == c.color1 || color == c.color2 || color == c.color3 || color == c.trans
    case Monochrome => color == c.color3 || color == c.trans
    case RawBitmap => true
  }

  /** The value stored for an allowed pixel: a monochrome pixel becomes 1 unless transparent. */
  function Stored(t: BlockType, c: SkinColors, color: byte): byte {
    if t == Monochrome then (if color != c.trans then 1 else 0) else color
  }

  /** Whether a width x height block at (sx, sy) passes the size check (it must stay clear of the last row and column). */
  predicate Fits(img: Image, sx: int, sy: int, width: nat, height: nat) {
    sy + height < img.h && sx + width < img.w
  }

  /** Pixel (j, i) of the block at (sx, sy). */
  function BlockAt(img: Image, sx: int, sy: int, i: int, j: int): byte {
    Pixel(img, sx + j, sy + i)
  }

  /** Whether every pixel of the block is allowed for its type. */
  predicate BlockValid(t: BlockType, c: SkinColors, img: Image, sx: int, sy: int, width: nat, height: nat) {
    forall i :: 0 <= i < height ==> RowValid(t, c, img, sx, sy, width, i)
  }

  /** Whether every pixel of row i of the block is allowed for its type. */
  predicate RowValid(t: BlockType, c: SkinColors, img: Image, sx: int, sy: int, width: nat, i: int) {
    forall j :: 0 <= j < width ==> Accepts(t, c, BlockAt(img, sx, sy, i, j))
  }

  /** Whether the n rows of the block from row i on are valid, row after row. */
  predicate RowsValid(t: BlockType, c: SkinColors, img: Image, sx: int, sy: int, width: nat, i: int, n: nat)
    decreases n
  {
    n == 0 || (RowValid(t, c, img, sx, sy, width, i) && RowsValid(t, c, img, sx, sy, width, i + 1, n - 1))
  }

  lemma {:induction false} RowsValidFrom(t: BlockType, c: SkinColors, img: Image, sx: int, sy: int, width: nat, i: nat, n: nat)
    ensures RowsValid(t, c, img, sx, sy, width, i, n) <==> forall k :: i <= k < i + n ==> RowValid(t, c, img, sx, sy, width, k)
    decreases n
  {
    if n > 0 {
      RowsValidFrom(t, c, img, sx, sy, width, i + 1, n - 1);
    }
  }

  /** The stored values of row i of a block. */
  function BlockRow(t: BlockType, c: SkinColors, img: Image, sx: int, sy: int, width: nat, i: int): (r: seq<byte>)
    ensures |r| == width
  {
    seq(width, j requires 0 <= j < width => Stored(t, c, BlockAt(img, sx, sy, i, j)))
  }

  /** The stored values of n rows of a block from row i on, row after row. */
  function BlockRows(t: BlockType, c: SkinColors, img: Image, sx: int, sy: int, width: nat, i: int, n: nat): seq<byte>
    decreases n
  {
    if n == 0 then [] else BlockRow(t, c, img, sx, sy, width, i) + BlockRows(t, c, img, sx, sy, width, i + 1, n - 1)
  }

  /** The stored values of a whole block, `height` rows of `width` values. */
  function Block(t: BlockType, c: SkinColors, img: Image, sx: int, sy: int, width: nat, height: nat): (r: seq<byte>)
    ensures |r| == height * width
  {
    BlockRowsLength(t, c, img, sx, sy, width, 0, height);
    BlockRows(t, c, img, sx, sy, width, 0, height)
  }

  /** Value i * width + j of a block is the stored value of pixel (sx + j, sy + i). */
  lemma BlockPixel(t: BlockType, c: SkinColors, img: Image, sx: int, sy: int, width: nat, height: nat, i: nat, j: nat)
    requires i < height && j < width
    ensures i * width + j < |Block(t, c, img, sx, sy, width, height)|
    ensures Block(t, c, img, sx, sy, width, height)[i * width + j] == Stored(t, c, BlockAt(img, sx, sy, i, j))
  {
    BlockIndex(t, c, img, sx, sy, width, 0, height, i, j);
  }

  /** Rows of a block can be taken one more at the end. */
  lemma {:induction false} BlockRowsSnoc(t: BlockType, c: SkinColors, img: Image, sx: int, sy: int, width: nat, i: int, n: nat)
    ensures BlockRows(t, c, img, sx, sy, width, i, n + 1)
      == BlockRows(t, c, img, sx, sy, width, i, n) + BlockRow(t, c, img, sx, sy, width, i + n)
    decreases n
  {
    if n > 0 {
      BlockRowsSnoc(t, c, img, sx, sy, width, i + 1, n - 1);
    }
  }

  lemma {:induction false} BlockRowsLength(t: BlockType, c: SkinColors, img: Image, sx: int, sy: int, width: nat, i: int, n: nat)
    ensures |BlockRows(t, c, img, sx, sy, width, i, n)| == n * width
    decreases n
  {
    if n > 0 {
      BlockRowsLength(t, c, img, sx, sy, width, i + 1, n - 1);
      assert (n - 1) * width + width == n * width;
    }
  }

  /** Value k of the block, for k = i * width + j, is the stored value of pixel (sx + j, sy + i). */
  lemma {:induction false} BlockIndex(t: BlockType, c: SkinColors, img: Image, sx: int, sy: int, width: nat, i0: int, n: nat, i: nat, j: nat)
    requires i < n && j < width
    ensures |BlockRows(t, c, img, sx, sy, width, i0, n)| == n * width
    ensures i * width + j < n * width
    ensures BlockRows(t, c, img, sx, sy, width, i0, n)[i * width + j] == Stored(t, c, BlockAt(img, sx, sy, i0 + i, j))
    decreases n
  {
    BlockRowsLength(t, c, img, sx, sy, width, i0, n);
    MulMonotone(i + 1, n, width);
    Distribute(i, 1, width);
    var row := BlockRow(t, c, img, sx, sy, width, i0);
    var rest := BlockRows(t, c, img, sx, sy, width, i0 + 1, n - 1);
    assert BlockRows(t, c, img, sx, sy, width, i0, n) == row + rest;
    if i > 0 {
      BlockIndex(t, c, img, sx, sy, width, i0 + 1, n - 1, i - 1, j);
      Distribute(i - 1, 1, width);
      assert (row + rest)[i * width + j] == rest[(i - 1) * width + j];
    }
  }

  /**
   * Read_GUI_block: checks the block fits, then reads it row by row into
   * `dest`, stopping with an error at the first pixel its type refuses.
   */
  method ReadGuiBlock(c: SkinColors, img: Image, sx: int, sy: int, dest: array<byte>, width: nat, height: nat, t: BlockType)
      returns (err: bool)
    requires width * height <= dest.Length
    modifies dest
    ensures err <==> !(Fits(img, sx, sy, width, height) && BlockValid(t, c, img, sx, sy, width, height))
    ensures !err ==> dest[..width * height] == Block(t, c, img, sx, sy, width, height)
    ensures !Fits(img, sx, sy, width, height) ==> dest[..] == old(dest[..])
    ensures dest[width * height..] == old(dest[width * height..])
  {
    if sy + height >= img.h || sx + width >= img.w {
      return true;
    }
    BlockRowsLength(t, c, img, sx, sy, width, 0, height);
    RowsValidFrom(t, c, img, sx, sy, width, 0, height);
    err := ReadGuiRows(c, img, sx, sy, dest, width, height, t);
  }

  /** The row loop of Read_GUI_block, once the block fits: row after row into `dest`. */
  method ReadGuiRows(c: SkinColors, img: Image, sx: int, sy: int, dest: array<byte>, width: nat, height: nat, t: BlockType)
      returns (err: bool)
    requires |Block(t, c, img, sx, sy, width, height)| <= dest.Length
    modifies dest
    ensures err <==> !RowsValid(t, c, img, sx, sy, width, 0, height)
    ensures !err ==> dest[..|Block(t, c, img, sx, sy, width, height)|] == Block(t, c, img, sx, sy, width, height)
    ensures dest[|Block(t, c, img, sx, sy, width, height)|..] == old(dest[|Block(t, c, img, sx, sy, width, height)|..])
  {
    ghost var whole := Block(t, c, img, sx, sy, width, height);
    ghost var n := |whole|;
    ghost var orig := dest[..];
    ghost var left: nat := height;
    var p: nat := 0;
    var y := sy;
    var i := 0;
    while y < sy + height
      invariant i == y - sy && 0 <= i && i + left == height
      invariant p + |BlockRows(t, c, img, sx, sy, width, i, left)| == n
      invariant dest[..p] + BlockRows(t, c, img, sx, sy, width, i, left) == whole
      invariant dest[p..] == orig[p..]
      invariant RowsValid(t, c, img, sx, sy, width, 0, height) == RowsValid(t, c, img, sx, sy, width, i, left)
    {
      err := ReadNextRow(c, img, sx, sy, dest, p, width, i, left, t, whole, orig);
      if err {
        SuffixEq(dest[..], orig, p + width, n);
        return;
      }
      p := p + width;
      y := y + 1;
      i := i + 1;
      left := left - 1;
    }
    err := false;
  }

  /** Whether the `left` rows of a block from row i on are valid: row i and the rows after it. */
  lemma FirstRowValid(t: BlockType, c: SkinColors, img: Image, sx: int, sy: int, width: nat, i: int, left: nat)
    requires left > 0
    ensures RowsValid(t, c, img, sx, sy, width, i, left)
        <==> RowValid(t, c, img, sx, sy, width, i) && RowsValid(t, c, img, sx, sy, width, i + 1, left - 1)
  {
  }

  /** The first of n rows of a block, and the rows after it. */
  lemma FirstBlockRow(t: BlockType, c: SkinColors, img: Image, sx: int, sy: int, width: nat, i: int, left: nat)
    requires left > 0
    ensures BlockRows(t, c, img, sx, sy, width, i, left)
         == BlockRow(t, c, img, sx, sy, width, i) + BlockRows(t, c, img, sx, sy, width, i + 1, left - 1)
  {
  }

  /** One step of the row loop: row i goes to position p, after the rows before it. */
  method ReadNextRow(c: SkinColors, img: Image, sx: int, sy: int, dest: array<byte>, p: nat, width: nat, i: int, ghost left: nat,
                     t: BlockType, ghost whole: seq<byte>, ghost orig: seq<byte>)
      returns (err: bool)
    requires left > 0
    requires p + |BlockRows(t, c, img, sx, sy, width, i, left)| <= dest.Length == |orig|
    requires dest[..p] + BlockRows(t, c, img, sx, sy, width, i, left) == whole
    requires dest[p..] == orig[p..]
    modifies dest
    ensures err <==> !RowValid(t, c, img, sx, sy, width, i)
    ensures RowsValid(t, c, img, sx, sy, width, i, left)
        <==> !err && RowsValid(t, c, img, sx, sy, width, i + 1, left - 1)
    ensures p + width + |BlockRows(t, c, img, sx, sy, width, i + 1, left - 1)|
         == p + |BlockRows(t, c, img, sx, sy, width, i, left)|
    ensures !err ==> dest[..p + width] + BlockRows(t, c, img, sx, sy, width, i + 1, left - 1) == whole
    ensures dest[p + width..] == orig[p + width..]
  {
    ghost var before, after := dest[..p], dest[p..];
    ghost var row := BlockRow(t, c, img, sx, sy, width, i);
    ghost var rest := BlockRows(t, c, img, sx, sy, width, i + 1, left - 1);
    FirstBlockRow(t, c, img, sx, sy, width, i, left);
    FirstRowValid(t, c, img, sx, sy, width, i, left);
    err := ReadGuiRow(c, img, sx, sy, dest, p, width, i, t);
    assert dest[p + width..] == after[width..];
    SuffixEq(after, orig[p..], 0, width);
    assert orig[p..][width..] == orig[p + width..];
    if !err {
      AppendAssoc(before, row, rest);
      assert dest[..p + width] == before + row;
    }
  }

  /**
   * The inner loop of Read_GUI_block: row i of the block, stored from
   * position p of `dest` on, stopping at the first pixel its type refuses.
   */
  method ReadGuiRow(c: SkinColors, img: Image, sx: int, sy: int, dest: array<byte>, p: nat, width: nat, i: int, t: BlockType)
      returns (err: bool)
    requires p + width <= dest.Length
    modifies dest
    ensures err <==> !RowValid(t, c, img, sx, sy, width, i)
    ensures !err ==> dest[p..p + width] == BlockRow(t, c, img, sx, sy, width, i)
    ensures dest[..p] == old(dest[..p]) && dest[p + width..] == old(dest[p + width..])
  {
    ghost var row := BlockRow(t, c, img, sx, sy, width, i);
    var x := sx;
    var q := p;
    while x < sx + width
      invariant sx <= x <= sx + width && q == p + (x - sx)
      invariant dest[p..q] == row[..x - sx]
      invariant dest[..p] == old(dest[..p]) && dest[p + width..] == old(dest[p + width..])
      invariant forall j :: 0 <= j < x - sx ==> Accepts(t, c, BlockAt(img, sx, sy, i, j))
    {
      var color := Pixel(img, x, sy + i);
      assert color == BlockAt(img, sx, sy, i, x - sx);
      if t == GuiElement && (color != c.color0 && color != c.color1 && color != c.color2 && color != c.color3) {
        return true;
      }
      if t == MouseCursor && (color != c.color0 && color != c.color1 && color != c.color2 && color != c.color3 && color != c.trans) {
        return true;
      }
      if t == Monochrome {
        if color != c.color3 && color != c.trans {
          return true;
        }
        color := if color != c.trans then 1 else 0;
      }
      dest[q] := color;
      assert row[..x - sx + 1] == row[..x - sx] + [color];
      q := q + 1;
      x := x + 1;
    }
    assert row[..width] == row;
    err := false;
  }

  /** The bits of row y of a monochrome block, pixel x giving bit x: set unless transparent. */
  function PatternBits(c: SkinColors, img: Image, sx: int, sy: int, y: int): seq<bool> {
    seq(16, x requires 0 <= x < 16 => BlockAt(img, sx, sy, y, x) != c.trans)
  }

  /**
   * Read_GUI_pattern: reads a 16x16 monochrome block and packs it into 16
   * words, one per row: bit x of word y is set exactly when pixel (x, y) of
   * the block is not transparent. The source ors each pixel in at its bit;
   * as no bit is set twice, the model adds it.
   */
  method ReadGuiPattern(c: SkinColors, img: Image, sx: int, sy: int, dest: array<word>) returns (err: bool)
    requires 16 <= dest.Length
    modifies dest
    ensures err <==> !(Fits(img, sx, sy, 16, 16) && BlockValid(Monochrome, c, img, sx, sy, 16, 16))
    ensures !err ==> forall y :: 0 <= y < 16 ==> dest[y] == PackLow(PatternBits(c, img, sx, sy, y))
    ensures !err ==> forall y, x :: 0 <= y < 16 && 0 <= x < 16 ==> (Bit(dest[y], x) <==> BlockAt(img, sx, sy, y, x) != c.trans)
    ensures err ==> dest[..] == old(dest[..])
    ensures dest[16..] == old(dest[16..])
  {
    var buffer := new byte[256];
    err := ReadGuiBlock(c, img, sx, sy, buffer, 16, 16, Monochrome);
    if err {
      return;
    }
    assert buffer[..] == Block(Monochrome, c, img, sx, sy, 16, 16);
    PackPattern(c, img, sx, sy, buffer, dest);
    forall y, x | 0 <= y < 16 && 0 <= x < 16
      ensures Bit(dest[y], x) <==> BlockAt(img, sx, sy, y, x) != c.trans
    {
      PackLowBits(PatternBits(c, img, sx, sy, y), x);
    }
  }

  /** The row loop of Read_GUI_pattern: packs the 16 rows read from the block into 16 words. */
  method PackPattern(c: SkinColors, img: Image, sx: int, sy: int, buffer: array<byte>, dest: array<word>)
    requires buffer.Length == 256 && 16 <= dest.Length
    requires buffer[..] == Block(Monochrome, c, img, sx, sy, 16, 16)
    modifies dest
    ensures forall y :: 0 <= y < 16 ==> dest[y] == PackLow(PatternBits(c, img, sx, sy, y))
    ensures dest[16..] == old(dest[16..])
  {
    var y := 0;
    while y < 16
      invariant 0 <= y <= 16
      invariant forall i :: 0 <= i < y ==> dest[i] == PackLow(PatternBits(c, img, sx, sy, i))
      invariant dest[16..] == old(dest[16..])
    {
      var row := buffer[y * 16..y * 16 + 16];
      PatternRow(c, img, sx, sy, y);
      dest[y] := PackRow(row);
      y := y + 1;
    }
  }

  /** Row y of a monochrome 16x16 block holds 1 for each pixel that is not transparent, 0 for the others. */
  lemma PatternRow(c: SkinColors, img: Image, sx: int, sy: int, y: nat)
    requires y < 16
    ensures |Block(Monochrome, c, img, sx, sy, 16, 16)| == 256
    ensures var row := Block(Monochrome, c, img, sx, sy, 16, 16)[y * 16..y * 16 + 16];
      && (forall x :: 0 <= x < 16 ==> row[x] <= 1)
      && seq(16, x requires 0 <= x < 16 => row[x] == 1) == PatternBits(c, img, sx, sy, y)
  {
    var block := Block(Monochrome, c, img, sx, sy, 16, 16);
    BlockRowsLength(Monochrome, c, img, sx, sy, 16, 0, 16);
    var row := block[y * 16..y * 16 + 16];
    forall x | 0 <= x < 16
      ensures row[x] <= 1 && (row[x] == 1 <==> PatternBits(c, img, sx, sy, y)[x])
    {
      BlockIndex(Monochrome, c, img, sx, sy, 16, 0, 16, y, x);
      assert row[x] == block[y * 16 + x];
    }
  }

  /** The inner loop of Read_GUI_pattern: ors pixel x of a row of 0/1 values in at bit x. */
  method PackRow(row: seq<byte>) returns (w: word)
    requires |row| == 16 && forall x :: 0 <= x < 16 ==> row[x] <= 1
    ensures w == PackLow(seq(16, x requires 0 <= x < 16 => row[x] == 1))
  {
    ghost var bits := seq(16, x requires 0 <= x < 16 => row[x] == 1);
    w := 0;
    var x := 0;
    while x < 16
      invariant 0 <= x <= 16
      invariant w == PackLow(bits[..x])
    {
      assert bits[..x + 1] == bits[..x] + [bits[x]];
      PackLowSnoc(bits[..x], bits[x]);
      PackLowBound(bits[..x + 1]);
      MonotonePow2(x + 1, 16);
      Pow2Sixteen();
      w := w + row[x] * Pow2(x);
      x := x + 1;
    }
    assert bits[..16] == bits;
  }

  lemma Pow2Sixteen()
    ensures Pow2(16) == 65536
  {
    Pow2Add(8, 8);
    Pow2Add(4, 4);
    Pow2Add(2, 2);
  }

  lemma {:induction false} MonotonePow2(m: nat, n: nat)
    requires m <= n
    ensures Pow2(m) <= Pow2(n)
    decreases n
  {
    if m < n {
      MonotonePow2(m, n - 1);
    }
  }

  // ---------------------------------------------------------------------
  // Mouse cursors

  /** The cursor area read from the skin: 31 rows of 29 pixels. */
  const CURSOR_AREA_WIDTH: int := 29
  const CURSOR_AREA_HEIGHT: int := 31

  /** Pixel (x, y) of the cursor area. */
  function CursorAt(area: seq<byte>, x: int, y: int): byte
    requires |area| == CURSOR_AREA_WIDTH * CURSOR_AREA_HEIGHT && 0 <= x < CURSOR_AREA_WIDTH && 0 <= y < CURSOR_AREA_HEIGHT
  {
    area[y * CURSOR_AREA_WIDTH + x]
  }

  /** Whether column `col` is transparent over the 29 rows the search looks at. */
  predicate ColumnClear(area: seq<byte>, trans: byte, col: int)
    requires |area| == CURSOR_AREA_WIDTH * CURSOR_AREA_HEIGHT && 0 <= col < CURSOR_AREA_WIDTH
  {
    forall y :: 0 <= y < 29 ==> CursorAt(area, col, y) == trans
  }

  /** Whether row `row` is transparent over its 29 pixels. */
  predicate RowClear(area: seq<byte>, trans: byte, row: int)
    requires |area| == CURSOR_AREA_WIDTH * CURSOR_AREA_HEIGHT && 0 <= row < CURSOR_AREA_HEIGHT
  {
    forall x :: 0 <= x < 29 ==> CursorAt(area, x, row) == trans
  }

  /**
   * Center_GUI_cursor: the first non-transparent column and row (searched
   * among the first 14) give the hot spot offsets 14 - column and 14 - row,
   * and the sprite is the spriteWidth x spriteHeight area from there.
   */
  method CenterGuiCursor(trans: byte, area: seq<byte>, spriteWidth: nat, spriteHeight: nat)
      returns (offsetX: int, offsetY: int, sprite: seq<seq<byte>>)
    requires |area| == CURSOR_AREA_WIDTH * CURSOR_AREA_HEIGHT
    requires 14 + spriteWidth <= CURSOR_AREA_WIDTH && 14 + spriteHeight <= CURSOR_AREA_HEIGHT
    ensures 0 <= offsetX <= 14 && 0 <= offsetY <= 14
    ensures forall col :: 0 <= col < 14 - offsetX ==> ColumnClear(area, trans, col)
    ensures offsetX > 0 ==> !ColumnClear(area, trans, 14 - offsetX)
    ensures forall row :: 0 <= row < 14 - offsetY ==> RowClear(area, trans, row)
    ensures offsetY > 0 ==> !RowClear(area, trans, 14 - offsetY)
    ensures |sprite| == spriteHeight
    ensures forall y :: 0 <= y < spriteHeight ==> |sprite[y]| == spriteWidth
    ensures forall y, x :: 0 <= y < spriteHeight && 0 <= x < spriteWidth ==>
      sprite[y][x] == CursorAt(area, 14 - offsetX + x, 14 - offsetY + y)
  {
    // first non-empty column
    var found := false;
    var startX := 0;
    while startX < 14
      invariant 0 <= startX <= 14 && !found
      invariant forall col :: 0 <= col < startX ==> ColumnClear(area, trans, col)
    {
      var y := 0;
      while y < 29
        invariant 0 <= y <= 29 && !found
        invariant forall k :: 0 <= k < y ==> CursorAt(area, startX, k) == trans
      {
        if area[y * 29 + startX] != trans {
          assert CursorAt(area, startX, y) != trans;
          found := true;
          break;
        }
        y := y + 1;
      }
      if found {
        break;
      }
      startX := startX + 1;
    }
    // first non-empty row
    found := false;
    var startY := 0;
    while startY < 14
      invariant 0 <= startY <= 14 && !found
      invariant forall row :: 0 <= row < startY ==> RowClear(area, trans, row)
    {
      var x := 0;
      while x < 29
        invariant 0 <= x <= 29 && !found
        invariant forall k :: 0 <= k < x ==> CursorAt(area, k, startY) == trans
      {
        if area[startY * 29 + x] != trans {
          assert CursorAt(area, x, startY) != trans;
          found := true;
          break;
        }
        x := x + 1;
      }
      if found {
        break;
      }
      startY := startY + 1;
    }
    offsetX := 14 - startX;
    offsetY := 14 - startY;

    sprite := [];
    var y := 0;
    while y < spriteHeight
      invariant 0 <= y <= spriteHeight && |sprite| == y
      invariant forall i :: 0 <= i < y ==> |sprite[i]| == spriteWidth
      invariant forall i, x :: 0 <= i < y && 0 <= x < spriteWidth ==> sprite[i][x] == CursorAt(area, startX + x, startY + i)
    {
      var row := [];
      var x := 0;
      while x < spriteWidth
        invariant 0 <= x <= spriteWidth && |row| == x
        invariant forall k :: 0 <= k < x ==> row[k] == CursorAt(area, startX + k, startY + y)
      {
        row := row + [area[(startY + y) * 29 + startX + x]];
        x := x + 1;
      }
      sprite := sprite + [row];
      y := y + 1;
    }
  }

  // ---------------------------------------------------------------------
  // The swatches at the top of a skin

  /**
   * One swatch scan along the first row: from column x, the first later
   * column below `limit` whose pixel differs from c (the do-while loops of
   * Parse_skin: advance, give up at the limit, look).
   */
  function NextChange(img: Image, x: int, c: byte, limit: int): (r: Option<int>)
    ensures r.Some? ==> x < r.value < limit && Pixel(img, r.value, 0) != c
    decreases limit - x
  {
    if x + 1 >= limit then None
    else if Pixel(img, x + 1, 0) != c then Some(x + 1)
    else NextChange(img, x + 1, c, limit)
  }

  /** A scan stops at the first column after x that differs from c, or fails when all columns up to the limit match. */
  lemma {:induction false} NextChangeIsFirst(img: Image, x: int, c: byte, limit: int)
    ensures NextChange(img, x, c, limit).None? <==> forall k :: x < k < limit ==> Pixel(img, k, 0) == c
    ensures NextChange(img, x, c, limit).Some? ==>
      var n := NextChange(img, x, c, limit).value;
      x < n < limit && Pixel(img, n, 0) != c && forall k :: x < k < n ==> Pixel(img, k, 0) == c
    decreases limit - x
  {
    if x + 1 < limit && Pixel(img, x + 1, 0) == c {
      NextChangeIsFirst(img, x + 1, c, limit);
    }
  }

  /** Moving the limit one column further can only turn a failure into a stop at the old limit. */
  lemma {:induction false} NextChangeOneFurther(img: Image, x: int, c: byte, limit: int)
    ensures NextChange(img, x, c, limit + 1) == NextChange(img, x, c, limit)
      || (NextChange(img, x, c, limit).None? && NextChange(img, x, c, limit + 1) == Some(limit))
    decreases limit - x
  {
    if x + 1 < limit && Pixel(img, x + 1, 0) == c {
      NextChangeOneFurther(img, x + 1, c, limit);
    }
  }

  /** The first row, below row 0, whose column-0 pixel is not Color[0]; none if the bottom is reached first. */
  function RowAfterBlack(img: Image, y: int, c0: byte): (r: Option<int>)
    ensures r.Some? ==> y <= r.value && Pixel(img, 0, r.value) != c0
    decreases img.h - y
  {
    if Pixel(img, 0, y) != c0 then Some(y)
    else if y + 1 >= img.h then None
    else RowAfterBlack(img, y + 1, c0)
  }

  /** What Parse_skin learns from the top of a skin. */
  datatype SkinHeader = SkinHeader(colors: SkinColors, neutral: byte, cursorY: int)

  /**
   * The swatch scans of Parse_skin: five runs of equal colour along row 0
   * (black, dark, light, white, transparent) followed by the neutral colour,
   * then the first row not starting with black. `thirdLimit` is the limit of
   * the third scan.
   */
  function ScanHeader(img: Image, thirdLimit: int): (r: Option<SkinHeader>)
    ensures r.Some? ==> r.value.colors.color0 == Pixel(img, 0, 0) && r.value.neutral != r.value.colors.trans
    ensures r.Some? ==> 1 <= r.value.cursorY && Pixel(img, 0, r.value.cursorY) != r.value.colors.color0
  {
    var c0 := Pixel(img, 0, 0);
    match NextChange(img, 0, c0, img.w)
    case None => None
    case Some(x1) =>
      var c1 := Pixel(img, x1, 0);
      match NextChange(img, x1, c1, img.w)
      case None => None
      case Some(x2) =>
        var c2 := Pixel(img, x2, 0);
        match NextChange(img, x2, c2, thirdLimit)
        case None => None
        case Some(x3) =>
          var c3 := Pixel(img, x3, 0);
          match NextChange(img, x3, c3, img.w)
          case None => None
          case Some(x4) =>
            var trans := Pixel(img, x4, 0);
            match NextChange(img, x4, trans, img.w)
            case None => None
            case Some(x5) =>
              match RowAfterBlack(img, 1, c0)
              case None => None
              case Some(y) => Some(SkinHeader(SkinColors(c0, c1, c2, c3, trans), Pixel(img, x5, 0), y))
  }

  /** The header as Parse_skin scans it: its third scan gives up only past the image width. */
  function SkinHeaderAsWritten(img: Image): (r: Option<SkinHeader>)
    ensures r == ScanHeader(img, img.w)
  {
    ThirdScanLimitHarmless(img);
    ScanHeader(img, img.w + 1)
  }

  /**
   * The third scan's limit of width + 1 reads one pixel past the row, but
   * changes nothing: a run reaching the last column makes the fourth scan
   * fail anyway.
   */
  lemma ThirdScanLimitHarmless(img: Image)
    ensures ScanHeader(img, img.w + 1) == ScanHeader(img, img.w)
  {
    var c0 := Pixel(img, 0, 0);
    var r1 := NextChange(img, 0, c0, img.w);
    if r1.Some? {
      var x1 := r1.value;
      var r2 := NextChange(img, x1, Pixel(img, x1, 0), img.w);
      if r2.Some? {
        var x2 := r2.value;
        NextChangeOneFurther(img, x2, Pixel(img, x2, 0), img.w);
      }
    }
  }

  /** Each swatch colour differs from the one before it, and the rows between row 1 and the cursor row start with black. */
  lemma HeaderColorsDistinct(img: Image, thirdLimit: int)
    requires ScanHeader(img, thirdLimit).Some?
    ensures var h := ScanHeader(img, thirdLimit).value;
      && h.colors.color0 == Pixel(img, 0, 0)
      && h.colors.color1 != h.colors.color0
      && h.colors.color2 != h.colors.color1
      && h.colors.color3 != h.colors.color2
      && h.colors.trans != h.colors.color3
      && h.neutral != h.colors.trans
      && 1 <= h.cursorY && Pixel(img, 0, h.cursorY) != h.colors.color0
      && forall y :: 1 <= y < h.cursorY ==> Pixel(img, 0, y) == h.colors.color0
  {
    var c0 := Pixel(img, 0, 0);
    var x1 := NextChange(img, 0, c0, img.w).value;
    NextChangeIsFirst(img, 0, c0, img.w);
    var x2 := NextChange(img, x1, Pixel(img, x1, 0), img.w).value;
    NextChangeIsFirst(img, x1, Pixel(img, x1, 0), img.w);
    var x3 := NextChange(img, x2, Pixel(img, x2, 0), thirdLimit).value;
    NextChangeIsFirst(img, x2, Pixel(img, x2, 0), thirdLimit);
    var x4 := NextChange(img, x3, Pixel(img, x3, 0), img.w).value;
    NextChangeIsFirst(img, x3, Pixel(img, x3, 0), img.w);
    NextChangeIsFirst(img, x4, Pixel(img, x4, 0), img.w);
    RowAfterBlackIsFirst(img, 1, c0);
  }

  lemma {:induction false} RowAfterBlackIsFirst(img: Image, y: int, c0: byte)
    ensures RowAfterBlack(img, y, c0).Some? ==>
      var r := RowAfterBlack(img, y, c0).value;
      y <= r && Pixel(img, 0, r) != c0 && forall k :: y <= k < r ==> Pixel(img, 0, k) == c0
    decreases img.h - y
  {
    if Pixel(img, 0, y) == c0 && y + 1 < img.h {
      RowAfterBlackIsFirst(img, y + 1, c0);
    }
  }

  /** One of the five swatch loops of Parse_skin. */
  method ScanSwatch(img: Image, x0: int, c: byte, limit: int) returns (err: bool, x: int, color: byte)
    ensures err <==> NextChange(img, x0, c, limit).None?
    ensures !err ==> NextChange(img, x0, c, limit) == Some(x) && color == Pixel(img, x, 0)
  {
    x := x0;
    color := c;
    while true
      invariant NextChange(img, x0, c, limit) == NextChange(img, x, c, limit)
      decreases limit - x
    {
      x := x + 1;
      if x >= limit {
        return true, x, color;
      }
      color := Pixel(img, x, 0);
      if color != c {
        return false, x, color;
      }
    }
  }

  /**
   * The start of Parse_skin: reads the five swatches and the neutral
   * colour along row 0, then moves down column 0 past the black rows.
   */
  method ParseSkinHeader(img: Image) returns (err: bool, header: SkinHeader)
    ensures err <==> SkinHeaderAsWritten(img).None?
    ensures !err ==> SkinHeaderAsWritten(img) == Some(header)
  {
    header := SkinHeader(SkinColors(0, 0, 0, 0, 0), 0, 0);
    var c0 := Pixel(img, 0, 0);
    var e, x, c1, c2, c3, trans, neutral;
    e, x, c1 := ScanSwatch(img, 0, c0, img.w);
    if e {
      return true, header;
    }
    e, x, c2 := ScanSwatch(img, x, c1, img.w);
    if e {
      return true, header;
    }
    e, x, c3 := ScanSwatch(img, x, c2, img.w + 1);
    if e {
      return true, header;
    }
    e, x, trans := ScanSwatch(img, x, c3, img.w);
    if e {
      return true, header;
    }
    e, x, neutral := ScanSwatch(img, x, trans, img.w);
    if e {
      return true, header;
    }
    var y := 1;
    while Pixel(img, 0, y) == c0
      invariant RowAfterBlack(img, 1, c0) == RowAfterBlack(img, y, c0)
      decreases img.h - y
    {
      y := y + 1;
      if y >= img.h {
        return true, header;
      }
    }
    err := false;
    header := SkinHeader(SkinColors(c0, c1, c2, c3, trans), neutral, y);
  }

  // ---------------------------------------------------------------------
  // Fonts

  /** Parse_font's character count: the image area divided by 64. */
  function GlyphCount(img: Image): nat {
    (img.w * img.h) / 64
  }

  /** The top-left image pixel of character c: characters are laid out w / 8 to a line. */
  function GlyphX(img: Image, c: nat): int {
    var perLine := img.w / 8;
    if perLine == 0 then 0 else (c % perLine) * 8
  }

  function GlyphY(img: Image, c: nat): int {
    var perLine := img.w / 8;
    if perLine == 0 then 0 else (c / perLine) * 8
  }

  /** The image pixel Parse_font reads for pixel (x, y) of character c. */
  function GlyphSource(img: Image, c: nat, x: int, y: int): byte {
    Pixel(img, GlyphX(img, c) + x, GlyphY(img, c) + y)
  }

  /** Where pixel (x, y) of character c goes in the font. */
  function GlyphIndex(c: int, x: int, y: int): int {
    c * 64 + y * 8 + x
  }

  /** Whether every pixel read for the first `count` characters is 0 or 1. */
  predicate GlyphPixelsBinary(img: Image, count: nat) {
    forall c: nat, y, x :: c < count && 0 <= y < 8 && 0 <= x < 8 ==> GlyphSource(img, c, x, y) <= 1
  }

  /** Whether Parse_font accepts a font image. */
  function FontAccepted(img: Image, isMain: bool): (r: bool)
    ensures r ==> img.w % 8 == 0 && (isMain ==> img.w * img.h >= 256 * 64)
    ensures r ==> forall c: nat :: c < GlyphCount(img) ==> GlyphBinary(img, c)
  {
    img.w % 8 == 0 && !(isMain && GlyphCount(img) < 256) && GlyphPixelsBinary(img, GlyphCount(img))
  }

  /** Whether every pixel read for character c is 0 or 1. */
  predicate GlyphBinary(img: Image, c: nat) {
    forall y, x :: 0 <= y < 8 && 0 <= x < 8 ==> GlyphSource(img, c, x, y) <= 1
  }

  /** Whether the 64 bytes of character c in `font` hold what Parse_font reads for it. */
  predicate GlyphStored(font: seq<byte>, img: Image, c: nat)
    requires 64 * c + 64 <= |font|
  {
    forall y, x :: 0 <= y < 8 && 0 <= x < 8 ==> font[GlyphIndex(c, x, y)] == GlyphSource(img, c, x, y)
  }

  /** Whether the first `count` characters of `font` hold what Parse_font reads for them. */
  predicate GlyphsStored(font: seq<byte>, img: Image, count: nat)
    requires 64 * count <= |font|
  {
    forall c: nat, y, x :: c < count && 0 <= y < 8 && 0 <= x < 8 ==> font[GlyphIndex(c, x, y)] == GlyphSource(img, c, x, y)
  }

  /**
   * Parse_font: refuses an image whose width is not a multiple of 8, a main
   * font with fewer than 256 characters, and any pixel other than 0 or 1;
   * otherwise stores 64 bytes per character, row by row.
   */
  method ParseFont(img: Image, isMain: bool) returns (font: Option<seq<byte>>)
    ensures font.Some? <==> FontAccepted(img, isMain)
    ensures font.Some? ==> |font.value| == 64 * GlyphCount(img) && GlyphsStored(font.value, img, GlyphCount(img))
  {
    if img.w % 8 != 0 {
      return None;
    }
    var count := (img.w * img.h) / 64;
    if isMain && count < 256 {
      return None;
    }
    var buffer := new byte[64 * count];
    var c := 0;
    while c < count
      invariant 0 <= c <= count
      invariant GlyphPixelsBinary(img, c)
      invariant GlyphsStored(buffer[..], img, c)
    {
      ghost var before := buffer[..];
      var ok := ReadGlyph(img, c, buffer);
      NextGlyphBinary(img, c);
      if !ok {
        GlyphNotBinary(img, c, count);
        return None;
      }
      NextGlyphStored(before, buffer[..], img, c);
      c := c + 1;
    }
    return Some(buffer[..]);
  }

  /** The body of Parse_font's character loop: reads the 8x8 pixels of character c into its 64 bytes. */
  method ReadGlyph(img: Image, c: nat, buffer: array<byte>) returns (ok: bool)
    requires 64 * c + 64 <= buffer.Length
    modifies buffer
    ensures ok <==> GlyphBinary(img, c)
    ensures ok ==> GlyphStored(buffer[..], img, c)
    ensures buffer[..64 * c] == old(buffer[..64 * c])
    ensures buffer[64 * c + 64..] == old(buffer[64 * c + 64..])
  {
    var gx := GlyphX(img, c);
    var gy := GlyphY(img, c);
    var y := 0;
    while y < 8
      invariant 0 <= y <= 8
      invariant forall y', x :: 0 <= y' < y && 0 <= x < 8 ==> GlyphSource(img, c, x, y') <= 1
      invariant forall y', x :: 0 <= y' < y && 0 <= x < 8 ==> buffer[GlyphIndex(c, x, y')] == GlyphSource(img, c, x, y')
      invariant buffer[..64 * c] == old(buffer[..64 * c])
      invariant buffer[64 * c + 64..] == old(buffer[64 * c + 64..])
    {
      var x := 0;
      while x < 8
        invariant 0 <= x <= 8
        invariant forall y', x' :: 0 <= y' < y && 0 <= x' < 8 ==> GlyphSource(img, c, x', y') <= 1
        invariant forall x' :: 0 <= x' < x ==> GlyphSource(img, c, x', y) <= 1
        invariant forall y', x' :: 0 <= y' < y && 0 <= x' < 8 ==> buffer[GlyphIndex(c, x', y')] == GlyphSource(img, c, x', y')
        invariant forall x' :: 0 <= x' < x ==> buffer[GlyphIndex(c, x', y)] == GlyphSource(img, c, x', y)
        invariant buffer[..64 * c] == old(buffer[..64 * c])
        invariant buffer[64 * c + 64..] == old(buffer[64 * c + 64..])
      {
        var color := Pixel(img, gx + x, gy + y);
        assert color == GlyphSource(img, c, x, y);
        if color > 1 {
          return false;
        }
        buffer[c * 64 + y * 8 + x] := color;
        x := x + 1;
      }
      y := y + 1;
    }
    return true;
  }

  /** The first c + 1 characters read as 0 or 1 exactly when the first c do and character c does. */
  lemma NextGlyphBinary(img: Image, c: nat)
    ensures GlyphPixelsBinary(img, c + 1) <==> GlyphPixelsBinary(img, c) && GlyphBinary(img, c)
  {
  }

  /** A character below `count` with a pixel other than 0 or 1 makes the first `count` characters fail. */
  lemma GlyphNotBinary(img: Image, c: nat, count: nat)
    requires c < count && !GlyphBinary(img, c)
    ensures !GlyphPixelsBinary(img, count)
  {
  }

  /** Storing character c after the first c, and leaving their bytes alone, stores the first c + 1. */
  lemma NextGlyphStored(before: seq<byte>, after: seq<byte>, img: Image, c: nat)
    requires 64 * c + 64 <= |before| == |after|
    requires GlyphsStored(before, img, c) && GlyphStored(after, img, c)
    requires after[..64 * c] == before[..64 * c]
    ensures GlyphsStored(after, img, c + 1)
  {
    forall c': nat, y, x | c' < c && 0 <= y < 8 && 0 <= x < 8
      ensures after[GlyphIndex(c', x, y)] == GlyphSource(img, c', x, y)
    {
      assert after[GlyphIndex(c', x, y)] == after[..64 * c][GlyphIndex(c', x, y)];
    }
  }

  /** When both sides of a font image are multiples of 8, every pixel Parse_font reads lies inside the image. */
  lemma GlyphReadsInside(img: Image, c: nat, x: int, y: int)
    requires img.w % 8 == 0 && img.h % 8 == 0
    requires c < GlyphCount(img) && 0 <= x < 8 && 0 <= y < 8
    ensures 0 <= GlyphX(img, c) + x < img.w && 0 <= GlyphY(img, c) + y < img.h
  {
    var p := img.w / 8;
    var r := img.h / 8;
    assert img.w * img.h == 64 * (p * r) by {
      assert img.w * img.h == (8 * p) * (8 * r);
    }
    assert GlyphCount(img) == p * r;
    assert c < p * r;
    assert p > 0;
    var q := c / p;
    assert q * p <= c by {
      assert c == q * p + c % p;
    }
    assert q * p < r * p;
    assert q < r;
    assert GlyphY(img, c) == q * 8;
  }

  /**
   * With a height that is not a multiple of 8, the character count still
   * takes in the last, partial line of characters, whose lower rows lie
   * below the image: a 16 x 12 image holds 3 characters, and character 2
   * is read from rows 8 to 15.
   */
  lemma GlyphReadsBelowPartialLine(rows: seq<seq<byte>>)
    ensures var img := Image(16, 12, rows);
      GlyphCount(img) == 3 && GlyphY(img, 2) + 7 >= img.h
  {
  }
}
