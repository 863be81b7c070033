/**
 * Monochrome paintbrushes and their bit-packed form: a brush of n pixels is
 * stored in (n + 7) / 8 bytes, pixel i in byte i / 8 at bit 0x80 >> (i % 8),
 * that is, the first pixel of each byte in its most significant bit. The
 * built-in brushes and the configuration file both use this layout.
 */
module Paintbrushes {
  import opened Common

  /**
   * One entry of Paintbrush: its shape, size, hot spot, and its pixels row
   * by row (pixel i is Sprite[i / width][i % width] of the source).
   */
  datatype Paintbrush = Paintbrush(shape: byte, width: word, height: word, offsetX: word, offsetY: word, sprite: seq<byte>)

  /** Whether pixel i of a packed bitmap is set: bit 7 - i % 8 of byte i / 8. */
  predicate PackedPixel(bitmap: seq<byte>, i: nat)
    requires i / 8 < |bitmap|
  {
    Bit(bitmap[i / 8], 7 - i % 8)
  }

  /** The number of bytes n pixels pack into. */
  function PackedSize(n: nat): nat {
    (n + 7) / 8
  }

  /** The n pixels of a packed bitmap, 1 where the bit is set and 0 elsewhere. */
  function Unpack(bitmap: seq<byte>, n: nat): (r: seq<byte>)
    requires PackedSize(n) <= |bitmap|
    ensures |r| == n
  {
    seq(n, i requires 0 <= i < n => if PackedPixel(bitmap, i) then 1 else 0)
  }

  /** The pixels of byte j of the packed form, listed from bit 0 up: entry m is pixel 8 j + 7 - m. */
  function GroupBits(sprite: seq<byte>, j: nat, limit: int): seq<bool> {
    seq(8, m requires 0 <= m < 8 => var i := 8 * j + 7 - m; i < limit && i < |sprite| && sprite[i] != 0)
  }

  /** Byte j of the packed form of a sprite: its non-zero pixels among pixels 8 j to 8 j + 7. */
  function PackedByte(sprite: seq<byte>, j: nat): byte {
    Pow2Eight();
    PackLowBound(GroupBits(sprite, j, |sprite|));
    PackLow(GroupBits(sprite, j, |sprite|))
  }

  /** The packed form of a sprite, a bit per pixel, set for every non-zero pixel. */
  function Pack(sprite: seq<byte>): (r: seq<byte>)
    ensures |r| == PackedSize(|sprite|)
  {
    seq(PackedSize(|sprite|), j requires 0 <= j < PackedSize(|sprite|) => PackedByte(sprite, j))
  }

  /** The pixels a brush keeps through packing: 1 for every non-zero pixel, 0 elsewhere. */
  function Normalized(sprite: seq<byte>): (r: seq<byte>)
    ensures |r| == |sprite|
  {
    seq(|sprite|, i requires 0 <= i < |sprite| => if sprite[i] != 0 then 1 else 0)
  }

  lemma Pow2Eight()
    ensures Pow2(8) == 256
  {
    Pow2Add(4, 4);
    Pow2Add(2, 2);
  }

  /** Unpacking a packed sprite gives back its pixels, each non-zero pixel as 1. */
  lemma UnpackPack(sprite: seq<byte>)
    ensures Unpack(Pack(sprite), |sprite|) == Normalized(sprite)
  {
    var n := |sprite|;
    forall i | 0 <= i < n
      ensures PackedPixel(Pack(sprite), i) <==> sprite[i] != 0
    {
      var j := i / 8;
      var bits := GroupBits(sprite, j, n);
      PackLowBits(bits, 7 - i % 8);
      assert 8 * j + 7 - (7 - i % 8) == i;
    }
  }

  /** Packing the pixels of a bitmap gives back the bitmap, when its size is a whole number of bytes. */
  lemma PackUnpack(bitmap: seq<byte>)
    ensures Pack(Unpack(bitmap, 8 * |bitmap|)) == bitmap
  {
    var n := 8 * |bitmap|;
    var sprite := Unpack(bitmap, n);
    forall j | 0 <= j < |bitmap|
      ensures PackedByte(sprite, j) == bitmap[j]
    {
      var bits := GroupBits(sprite, j, n);
      assert bits == seq(8, m requires 0 <= m < 8 => Bit(bitmap[j], m)) by {
        forall m | 0 <= m < 8
          ensures bits[m] == Bit(bitmap[j], m)
        {
          var i := 8 * j + 7 - m;
          assert i / 8 == j && i % 8 == 7 - m;
        }
      }
      Pow2Eight();
      PackLowOfBits(bitmap[j], 8);
    }
  }

  /** A value below 2^k is the packing of its k low bits. */
  lemma {:induction false} PackLowOfBits(v: nat, k: nat)
    requires v < Pow2(k)
    ensures PackLow(seq(k, m requires 0 <= m < k => Bit(v, m))) == v
  {
    var bits := seq(k, m requires 0 <= m < k => Bit(v, m));
    if k > 0 {
      var tail := seq(k - 1, m requires 0 <= m < k - 1 => Bit(v / 2, m));
      assert bits[1..] == tail;
      PackLowOfBits(v / 2, k - 1);
    }
  }

  // ---------------------------------------------------------------------
  // The loops of the source

  /** The bits of the byte being built once pixels up to (not including) pixel i are or-ed in. */
  function PartialBits(sprite: seq<byte>, i: nat): seq<bool> {
    GroupBits(sprite, i / 8, i)
  }

  /** Setting a clear bit at position m adds 2^m. */
  lemma {:induction false} PackLowSetBit(bits: seq<bool>, m: nat)
    requires m < |bits| && !bits[m]
    ensures PackLow(bits[m := true]) == PackLow(bits) + Pow2(m)
    decreases m
  {
    if m > 0 {
      assert bits[m := true][1..] == bits[1..][m - 1 := true];
      PackLowSetBit(bits[1..], m - 1);
    }
  }

  lemma {:induction false} PackLowOfClear(bits: seq<bool>)
    requires forall m :: 0 <= m < |bits| ==> !bits[m]
    ensures PackLow(bits) == 0
  {
    if |bits| > 0 {
      PackLowOfClear(bits[1..]);
    }
  }

  /** One step of the encoding loop: pixel i joins the byte being built. */
  lemma PartialBitsStep(sprite: seq<byte>, i: nat)
    requires i < |sprite|
    ensures !PartialBits(sprite, i)[7 - i % 8]
    ensures i % 8 != 7 ==>
      PartialBits(sprite, i + 1) == (if sprite[i] != 0 then PartialBits(sprite, i)[7 - i % 8 := true] else PartialBits(sprite, i))
    ensures i % 8 == 7 ==>
      GroupBits(sprite, i / 8, |sprite|) == (if sprite[i] != 0 then PartialBits(sprite, i)[7 - i % 8 := true] else PartialBits(sprite, i))
    ensures i % 8 == 7 ==> PartialBits(sprite, i + 1) == seq(8, _ => false)
  {
    var before := PartialBits(sprite, i);
    var after := if sprite[i] != 0 then before[7 - i % 8 := true] else before;
    assert 8 * (i / 8) + 7 - (7 - i % 8) == i;
    if i % 8 != 7 {
      assert (i + 1) / 8 == i / 8;
      forall m | 0 <= m < 8
        ensures PartialBits(sprite, i + 1)[m] == after[m]
      {
      }
    } else {
      forall m | 0 <= m < 8
        ensures GroupBits(sprite, i / 8, |sprite|)[m] == after[m]
      {
      }
    }
  }

  /**
   * The encoding loop of Save_CFG: or each non-zero pixel into the current
   * byte, emit it after every eighth pixel, and emit a last partial byte.
   */
  method PackSprite(sprite: seq<byte>) returns (out: seq<byte>)
    ensures out == Pack(sprite)
  {
    out := [];
    var current: byte := 0;
    var i := 0;
    assert PartialBits(sprite, 0) == seq(8, _ => false);
    PackLowOfClear(seq(8, _ => false));
    while i < |sprite|
      invariant 0 <= i <= |sprite|
      invariant |out| == i / 8
      invariant forall j :: 0 <= j < i / 8 ==> out[j] == PackedByte(sprite, j)
      invariant current == PackLow(PartialBits(sprite, i))
    {
      PackStep(sprite, i);
      if sprite[i] != 0 {
        current := current + Pow2(7 - i % 8);
      }
      if i % 8 == 7 {
        out := out + [current];
        current := 0;
      }
      i := i + 1;
    }
    if i % 8 != 0 {
      assert PartialBits(sprite, i) == GroupBits(sprite, i / 8, |sprite|);
      out := out + [current];
    }
  }

  /** One turn of the encoding loop in numbers: pixel i adds its bit, and the eighth pixel completes a byte. */
  lemma PackStep(sprite: seq<byte>, i: nat)
    requires i < |sprite|
    ensures var next := PackLow(PartialBits(sprite, i)) + (if sprite[i] != 0 then Pow2(7 - i % 8) else 0);
      && next < 256
      && (i % 8 != 7 ==> next == PackLow(PartialBits(sprite, i + 1)))
      && (i % 8 == 7 ==> next == PackedByte(sprite, i / 8) && PackLow(PartialBits(sprite, i + 1)) == 0)
  {
    Pow2Eight();
    PartialBitsStep(sprite, i);
    var bits := PartialBits(sprite, i);
    if sprite[i] != 0 {
      PackLowSetBit(bits, 7 - i % 8);
      PackLowBound(bits[7 - i % 8 := true]);
    } else {
      PackLowBound(bits);
    }
    PackLowOfClear(seq(8, _ => false));
  }

  /**
   * The decoding loop of Load_CFG: read a byte before every eighth pixel
   * (failing when the input runs out) and set each pixel from its bit.
   */
  method ReadSprite(input: seq<byte>, n: nat) returns (ok: bool, sprite: seq<byte>, rest: seq<byte>)
    ensures ok <==> PackedSize(n) <= |input|
    ensures ok ==> sprite == Unpack(input, n) && rest == input[PackedSize(n)..]
  {
    sprite := [];
    rest := input;
    var current: byte := 0;
    var i := 0;
    while i < n
      invariant 0 <= i <= n && PackedSize(i) <= |input|
      invariant rest == input[PackedSize(i)..]
      invariant sprite == Unpack(input, i)
      invariant i % 8 != 0 ==> current == input[i / 8]
    {
      var read, pixel;
      read, current, rest, pixel := ReadSpritePixel(input, n, i, current, rest);
      if !read {
        return false, sprite, rest;
      }
      sprite := sprite + [pixel];
      i := i + 1;
    }
    ok := true;
  }

  /**
   * One turn of the sprite loop: pixel i, from bit 7 - i % 8 of the current
   * byte, after taking the next byte of the input when i starts a byte;
   * fails when no byte is left to take, so that n pixels do not fit.
   */
  method ReadSpritePixel(input: seq<byte>, n: nat, i: nat, current: byte, rest: seq<byte>)
      returns (ok: bool, current': byte, rest': seq<byte>, pixel: byte)
    requires i < n && PackedSize(i) <= |input| && rest == input[PackedSize(i)..]
    requires i % 8 != 0 ==> current == input[i / 8]
    ensures ok <==> PackedSize(i + 1) <= |input|
    ensures !ok ==> |input| < PackedSize(n)
    ensures ok ==> rest' == input[PackedSize(i + 1)..] && ((i + 1) % 8 != 0 ==> current' == input[(i + 1) / 8])
    ensures ok ==> Unpack(input, i + 1) == Unpack(input, i) + [pixel]
  {
    current', rest' := current, rest;
    if i % 8 == 0 {
      if |rest| == 0 {
        return false, current', rest', 0;
      }
      current' := rest[0];
      rest' := rest[1..];
    }
    pixel := if Bit(current', 7 - i % 8) then 1 else 0;
    ok := true;
  }

  /**
   * Init_paintbrush with a bitmap: sets brush `index` to the given shape
   * and size, its hot spot to the middle, and its pixels from the bitmap.
   */
  method InitPaintbrush(brushes: array<Paintbrush>, index: nat, width: word, height: word, shape: byte, bitmap: seq<byte>)
    requires index < brushes.Length && PackedSize(width * height) <= |bitmap|
    modifies brushes
    ensures brushes[index] == Paintbrush(shape, width, height, width / 2, height / 2, Unpack(bitmap, width * height))
    ensures forall k :: 0 <= k < brushes.Length && k != index ==> brushes[k] == old(brushes[k])
  {
    var sprite := [];
    var i := 0;
    while i < width * height
      invariant 0 <= i <= width * height
      invariant sprite == Unpack(bitmap, i)
    {
      sprite := sprite + [if Bit(bitmap[i / 8], 7 - i % 8) then 1 else 0];
      i := i + 1;
    }
    brushes[index] := Paintbrush(shape, width, height, width / 2, height / 2, sprite);
  }
}
