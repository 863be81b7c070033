/**
 * Shared vocabulary of the model: the fixed-width integer types of the C
 * sources and an optional value.
 */
module Common {

  /** An unsigned 8-bit value (`byte` of the sources). */
  type byte = b: int | 0 <= b < 256

  /** An unsigned 16-bit value (`word` of the sources). */
  type word = w: int | 0 <= w < 65536

  datatype Option<T> = None | Some(value: T)

  /** Assignment of an `int` to a C `short`: 16-bit two's-complement wrap-around. */
  function ToShort(v: int): (r: int)
    ensures -32768 <= r < 32768
    ensures (r - v) % 65536 == 0
  {
    (v + 32768) % 65536 - 32768
  }

  /** Conversion of an `int` to a `word`: the value modulo 2^16. */
  function ToWord(v: int): (r: word)
    ensures v % 65536 == r
  {
    v % 65536
  }

  predicate IsShort(v: int) {
    -32768 <= v < 32768
  }

  function Min(a: int, b: int): (r: int)
    ensures r <= a && r <= b && (r == a || r == b)
  {
    if a < b then a else b
  }

  /** A C `short` keeps every value it can represent. */
  lemma ToShortKeepsShorts(v: int)
    requires IsShort(v)
    ensures ToShort(v) == v
  {
  }

  /** A `word` keeps every value it can represent. */
  lemma ToWordKeepsWords(v: int)
    requires 0 <= v < 65536
    ensures ToWord(v) == v
  {
  }

  lemma AppendAssoc<T>(a: seq<T>, b: seq<T>, c: seq<T>)
    ensures a + b + c == a + (b + c)
  {
  }

  /** Sequences that agree from i on agree from any later j on. */
  lemma SuffixEq<T>(a: seq<T>, b: seq<T>, i: nat, j: nat)
    requires i <= j <= |a| == |b| && a[i..] == b[i..]
    ensures a[j..] == b[j..]
  {
    assert a[j..] == a[i..][j - i..];
    assert b[j..] == b[i..][j - i..];
  }

  lemma MulMonotone(a: int, b: int, c: int)
    requires 0 <= a <= b && 0 <= c
    ensures a * c <= b * c
  {
  }

  lemma Distribute(a: int, b: int, p: int)
    ensures a * p + b * p == (a + b) * p
  {
  }

  /** Division and remainder of q d + r, for a remainder below d: q and r. */
  lemma DivModOf(q: int, r: int, d: int)
    requires 0 <= r < d
    ensures (q * d + r) / d == q && (q * d + r) % d == r
  {
    var x := q * d + r;
    var p, m := x / d, x % d;
    assert p * d + m == x && 0 <= m < d;
    Distribute(q, -p, d);
    if p < q {
      MulMonotone(1, q - p, d);
      assert false;
    } else if p > q {
      Distribute(p, -q, d);
      MulMonotone(1, p - q, d);
      assert false;
    }
  }

  function Max(a: int, b: int): int {
    if a < b then b else a
  }

  /** 2 to the power n. */
  function Pow2(n: nat): (r: nat)
    ensures r >= 1
  {
    if n == 0 then 1 else 2 * Pow2(n - 1)
  }

  /** Whether bit k (0 being the least significant) of v is set. */
  predicate Bit(v: nat, k: nat)
    decreases k
  {
    if k == 0 then v % 2 == 1 else Bit(v / 2, k - 1)
  }

  /** The value whose bit k is bits[k], least significant bit first. */
  function PackLow(bits: seq<bool>): nat {
    if |bits| == 0 then 0 else (if bits[0] then 1 else 0) + 2 * PackLow(bits[1..])
  }

  /** Packing keeps every bit: bit k of the packed value is bits[k], and every higher bit is clear. */
  lemma {:induction false} PackLowBits(bits: seq<bool>, k: nat)
    ensures k < |bits| ==> (Bit(PackLow(bits), k) <==> bits[k])
    ensures |bits| <= k ==> !Bit(PackLow(bits), k)
  {
    if k > 0 {
      if |bits| > 0 {
        PackLowBits(bits[1..], k - 1);
      } else {
        BitOfZero(k);
      }
    }
  }

  lemma {:induction false} BitOfZero(k: nat)
    ensures !Bit(0, k)
  {
    if k > 0 {
      BitOfZero(k - 1);
    }
  }

  /** n bits pack into a value below 2^n. */
  lemma {:induction false} PackLowBound(bits: seq<bool>)
    ensures PackLow(bits) < Pow2(|bits|)
  {
    if |bits| > 0 {
      PackLowBound(bits[1..]);
    }
  }

  /** Adding a bit at the top adds its weight. */
  lemma {:induction false} PackLowSnoc(bits: seq<bool>, b: bool)
    ensures PackLow(bits + [b]) == PackLow(bits) + (if b then Pow2(|bits|) else 0)
  {
    if |bits| > 0 {
      assert (bits + [b])[1..] == bits[1..] + [b];
      PackLowSnoc(bits[1..], b);
    } else {
      assert (bits + [b])[1..] == [];
    }
  }

  lemma {:induction false} Pow2Add(a: nat, b: nat)
    ensures Pow2(a + b) == Pow2(a) * Pow2(b)
    decreases a
  {
    if a > 0 {
      Pow2Add(a - 1, b);
    }
  }
}
