/**
 * Unsigned integers as bit strings: powers of two, bitwise AND and OR on
 * naturals, the masks the executor applies to the status word, and the
 * big-endian bit-field reader the executor decodes instructions with.
 */
module Bits {
  import opened Outcomes

  /** One memory cell: the source's `u8`. */
  type Byte = b: nat | b < 0x100

  function Pow2(n: nat): (r: nat)
    ensures r >= 1
  {
    if n == 0 then 1 else 2 * Pow2(n - 1)
  }

  /** `v << n` on unbounded naturals: v times 2^n. */
  function Shl(v: nat, n: nat): nat {
    if n == 0 then v else 2 * Shl(v, n - 1)
  }

  /** Rust's `<<` on a u64: the bits shifted past bit 63 are lost. */
  function Shl64(v: nat, n: nat): (r: nat)
    ensures r < 0x1_0000_0000_0000_0000
  {
    Shl(v, n) % 0x1_0000_0000_0000_0000
  }

  /** The shifts by the field widths the decoder uses, as multiplications by constants. */
  lemma {:induction false} ShlValues(x: nat)
    ensures Shl(x, 4) == 16 * x && Shl(x, 7) == 128 * x && Shl(x, 8) == 0x100 * x
  {
    assert Shl(x, 1) == 2 * x;
    assert Shl(x, 2) == 4 * x;
    assert Shl(x, 3) == 8 * x;
    assert Shl(x, 4) == 16 * x;
    assert Shl(x, 5) == 32 * x;
    assert Shl(x, 6) == 64 * x;
    assert Shl(x, 7) == 128 * x;
  }

  /** Shifting a k-bit number left by n gives a (k + n)-bit number. */
  lemma {:induction false} ShlBelow(v: nat, k: nat, n: nat)
    requires v < Pow2(k)
    ensures Shl(v, n) < Pow2(k + n)
  {
    if n > 0 {
      ShlBelow(v, k, n - 1);
    }
  }

  /** Rust's `>>` on an unsigned value. */
  function Shr(v: nat, n: nat): (r: nat)
    ensures r <= v
  {
    if n == 0 then v else Shr(v / 2, n - 1)
  }

  /** Shifting right by m is twice the shift by m + 1 plus bit m. */
  lemma {:induction false} ShrStep(x: nat, m: nat)
    ensures Shr(x, m) == 2 * Shr(x, m + 1) + BitAt(x, m)
  {
    if m > 0 {
      ShrStep(x / 2, m - 1);
    }
  }

  /** A number of n bits shifted right by n is 0. */
  lemma {:induction false} ShrBelow(x: nat, n: nat)
    requires x < Pow2(n)
    ensures Shr(x, n) == 0
  {
    if n > 0 {
      ShrBelow(x / 2, n - 1);
    }
  }

  /** `>>` is division by a power of two. */
  lemma {:induction false} ShrIsDiv(x: nat, n: nat)
    ensures Shr(x, n) == x / Pow2(n)
  {
    if n > 0 {
      ShrIsDiv(x / 2, n - 1);
      DivDiv(x, 2, Pow2(n - 1));
    }
  }

  lemma {:induction false} Pow2Values()
    ensures Pow2(1) == 2 && Pow2(2) == 4 && Pow2(4) == 16 && Pow2(6) == 64 && Pow2(7) == 128
    ensures Pow2(8) == 0x100 && Pow2(12) == 0x1000 && Pow2(15) == 0x8000 && Pow2(16) == 0x10000
    ensures Pow2(17) == 0x20000 && Pow2(20) == 0x10_0000 && Pow2(24) == 0x100_0000
    ensures Pow2(48) == 0x1_0000_0000_0000 && Pow2(64) == 0x1_0000_0000_0000_0000
  {
    assert Pow2(4) == 16;
    assert Pow2(8) == 256;
    assert Pow2(12) == 4096;
    assert Pow2(16) == 65536;
    assert Pow2(24) == 0x100_0000;
    assert Pow2(32) == 0x1_0000_0000;
    assert Pow2(40) == 0x100_0000_0000;
    assert Pow2(48) == 0x1_0000_0000_0000;
    assert Pow2(56) == 0x100_0000_0000_0000;
  }

  lemma {:induction false} Pow2Monotone(n: nat, m: nat)
    requires n <= m
    ensures Pow2(n) <= Pow2(m)
  {
    if n < m {
      Pow2Monotone(n, m - 1);
    }
  }

  // ----- Euclidean division facts -----

  lemma {:induction false} MulBound(m: int, k: int)
    requires m > 0
    ensures k >= 1 ==> m * k >= m
    ensures k <= -1 ==> m * k <= -m
  {
  }

  /** Quotient and remainder are determined by the division equation. */
  lemma {:induction false} DivUnique(n: int, m: int, q: int, r: int)
    requires m > 0 && 0 <= r < m && n == m * q + r
    ensures n / m == q && n % m == r
  {
    var q' := n / m;
    var r' := n % m;
    assert n == m * q' + r';
    assert m * (q' - q) == r - r';
    MulBound(m, q' - q);
  }

  lemma {:induction false} DivDiv(x: nat, a: nat, b: nat)
    requires a > 0 && b > 0
    ensures x / a / b == x / (a * b)
  {
    var q := x / (a * b);
    var r := x % (a * b);
    assert x == (a * b) * q + r;
    var s := r / a;
    assert r == a * s + r % a;
    assert a * (s - b + 1) == a * s - a * b + a;
    MulBound(a, s - b + 1);
    assert s < b;
    assert x == a * (b * q + s) + r % a;
    DivUnique(x, a, b * q + s, r % a);
    DivUnique(x / a, b, q, s);
  }

  // ----- Bitwise AND and OR on naturals -----

  /** `a & b`: bit i of the result is set iff bit i is set in both. */
  function BitAnd(a: nat, b: nat): (r: nat)
    ensures r <= a && r <= b
    decreases a + b
  {
    if a == 0 && b == 0 then 0
    else 2 * BitAnd(a / 2, b / 2) + (if a % 2 == 1 && b % 2 == 1 then 1 else 0)
  }

  /** `a | b`: bit i of the result is set iff bit i is set in either. */
  function BitOr(a: nat, b: nat): (r: nat)
    ensures a <= r && b <= r && r <= a + b
    decreases a + b
  {
    if a == 0 && b == 0 then 0
    else 2 * BitOr(a / 2, b / 2) + (if a % 2 == 1 || b % 2 == 1 then 1 else 0)
  }

  lemma {:induction false} AndUnfold(a: nat, b: nat)
    ensures BitAnd(a, b) == 2 * BitAnd(a / 2, b / 2) + (if a % 2 == 1 && b % 2 == 1 then 1 else 0)
  {
    if a == 0 && b == 0 {
      assert BitAnd(0, 0) == 0;
    }
  }

  lemma {:induction false} OrUnfold(a: nat, b: nat)
    ensures BitOr(a, b) == 2 * BitOr(a / 2, b / 2) + (if a % 2 == 1 || b % 2 == 1 then 1 else 0)
  {
    if a == 0 && b == 0 {
      assert BitOr(0, 0) == 0;
    }
  }

  /** Bit k of x. */
  function BitAt(x: nat, k: nat): (r: nat)
    ensures r < 2
  {
    if k == 0 then x % 2 else BitAt(x / 2, k - 1)
  }

  /** Bit k is the lowest bit of x shifted right by k. */
  lemma {:induction false} BitAtShr(x: nat, k: nat)
    ensures BitAt(x, k) == Shr(x, k) % 2
  {
    if k > 0 {
      BitAtShr(x / 2, k - 1);
    }
  }

  /** Dropping the lowest bit moves every other bit down by one. */
  lemma {:induction false} BitAtHalf(x: nat, k: nat)
    requires k > 0
    ensures BitAt(x / 2, k - 1) == BitAt(x, k)
  {
  }

  /** The lowest bit of 2q + c is c and the rest is q. */
  lemma {:induction false} LowBitAndHalf(q: nat, c: nat)
    requires c < 2
    ensures (2 * q + c) % 2 == c && (2 * q + c) / 2 == q
  {
    DivUnique(2 * q + c, 2, q, c);
  }

  /** Each bit of `a | b` is set iff it is set in a or in b. */
  lemma {:induction false} OrBit(a: nat, b: nat, k: nat)
    ensures BitAt(BitOr(a, b), k) == if BitAt(a, k) == 1 || BitAt(b, k) == 1 then 1 else 0
  {
    OrUnfold(a, b);
    LowBitAndHalf(BitOr(a / 2, b / 2), if a % 2 == 1 || b % 2 == 1 then 1 else 0);
    if k > 0 {
      OrBit(a / 2, b / 2, k - 1);
      assert BitAt(BitOr(a, b), k) == BitAt(BitOr(a / 2, b / 2), k - 1);
    }
  }

  /** Each bit of `a & b` is set iff it is set in both a and b. */
  lemma {:induction false} AndBit(a: nat, b: nat, k: nat)
    ensures BitAt(BitAnd(a, b), k) == if BitAt(a, k) == 1 && BitAt(b, k) == 1 then 1 else 0
  {
    AndUnfold(a, b);
    LowBitAndHalf(BitAnd(a / 2, b / 2), if a % 2 == 1 && b % 2 == 1 then 1 else 0);
    if k > 0 {
      AndBit(a / 2, b / 2, k - 1);
      assert BitAt(BitAnd(a, b), k) == BitAt(BitAnd(a / 2, b / 2), k - 1);
    }
  }

  /** The OR of two n-bit numbers has n bits. */
  lemma {:induction false} OrBelow(a: nat, b: nat, n: nat)
    requires a < Pow2(n) && b < Pow2(n)
    ensures BitOr(a, b) < Pow2(n)
  {
    if n > 0 {
      OrUnfold(a, b);
      OrBelow(a / 2, b / 2, n - 1);
    }
  }

  /** ANDing with n one-bits keeps a number of at most n bits. */
  lemma {:induction false} AndLowMask(x: nat, n: nat)
    requires x < Pow2(n)
    ensures BitAnd(x, Pow2(n) - 1) == x
  {
    if n > 0 {
      AndUnfold(x, Pow2(n) - 1);
      AndLowMask(x / 2, n - 1);
    }
  }

  /** `x | 2^k` sets bit k and keeps the others. */
  lemma {:induction false} OrPow2(x: nat, k: nat)
    ensures BitOr(x, Pow2(k)) == x + (if BitAt(x, k) == 1 then 0 else Pow2(k))
  {
    OrUnfold(x, Pow2(k));
    if k > 0 {
      OrPow2(x / 2, k - 1);
      BitAtHalf(x, k);
    } else {
      assert BitOr(x / 2, 0) == x / 2;
    }
  }

  /** `x | 3 * 2^k` sets bits k and k+1 and keeps the others. */
  lemma {:induction false} OrPow2Pair(x: nat, k: nat)
    ensures BitOr(x, 3 * Pow2(k)) ==
      x + (if BitAt(x, k) == 1 then 0 else Pow2(k)) + (if BitAt(x, k + 1) == 1 then 0 else 2 * Pow2(k))
  {
    OrUnfold(x, 3 * Pow2(k));
    if k > 0 {
      var p := Pow2(k - 1);
      assert Pow2(k) == 2 * p;
      assert 3 * Pow2(k) / 2 == 3 * p && 3 * Pow2(k) % 2 == 0;
      OrPow2Pair(x / 2, k - 1);
      BitAtHalf(x, k);
      BitAtHalf(x, k + 1);
    } else {
      OrPow2(x / 2, 0);
      BitAtHalf(x, 1);
    }
  }

  /** `x & 3 * 2^k` keeps only bits k and k+1. */
  lemma {:induction false} AndPow2Pair(x: nat, k: nat)
    ensures BitAnd(x, 3 * Pow2(k)) ==
      (if BitAt(x, k) == 1 then Pow2(k) else 0) + (if BitAt(x, k + 1) == 1 then 2 * Pow2(k) else 0)
  {
    AndUnfold(x, 3 * Pow2(k));
    if k > 0 {
      AndPow2Pair(x / 2, k - 1);
      BitAtHalf(x, k);
      BitAtHalf(x, k + 1);
    } else {
      AndUnfold(x / 2, 1);
      assert BitAnd(x / 2 / 2, 0) == 0;
      BitAtHalf(x, 1);
    }
  }

  /** On n bits, `x & m` with m = 2^n - 1 - 2^k clears bit k and keeps the others. */
  lemma {:induction false} AndClear(x: nat, n: nat, k: nat, m: nat)
    requires x < Pow2(n) && k < n && m == Pow2(n) - 1 - Pow2(k)
    ensures BitAnd(x, m) == x - (if BitAt(x, k) == 1 then Pow2(k) else 0)
    decreases k, 1
  {
    if k > 0 {
      AndClearAbove(x, n, k, m);
    } else {
      AndUnfold(x, m);
      assert Pow2(n) == 2 * Pow2(n - 1);
      assert m / 2 == Pow2(n - 1) - 1 && m % 2 == 0;
      AndLowMask(x / 2, n - 1);
    }
  }

  /** AndClear for k > 0: the lowest bit is kept and the rest is the same question one bit down. */
  lemma {:induction false} AndClearAbove(x: nat, n: nat, k: nat, m: nat)
    requires x < Pow2(n) && 0 < k < n && m == Pow2(n) - 1 - Pow2(k)
    ensures BitAnd(x, m) == x - (if BitAt(x, k) == 1 then Pow2(k) else 0)
    decreases k, 0
  {
    AndUnfold(x, m);
    assert Pow2(n) == 2 * Pow2(n - 1);
    assert Pow2(k) == 2 * Pow2(k - 1);
    assert m / 2 == Pow2(n - 1) - 1 - Pow2(k - 1) && m % 2 == 1;
    AndClear(x / 2, n - 1, k - 1, m / 2);
    BitAtHalf(x, k);
  }

  /** On n bits, `x & m` with m = 2^n - 1 - 3 * 2^k clears bits k and k+1 and keeps the others. */
  lemma {:induction false} AndClearPair(x: nat, n: nat, k: nat, m: nat)
    requires x < Pow2(n) && k + 1 < n && m == Pow2(n) - 1 - 3 * Pow2(k)
    ensures BitAnd(x, m) ==
      x - (if BitAt(x, k) == 1 then Pow2(k) else 0) - (if BitAt(x, k + 1) == 1 then 2 * Pow2(k) else 0)
    decreases k, 1
  {
    if k > 0 {
      AndClearPairAbove(x, n, k, m);
    } else {
      AndUnfold(x, m);
      assert Pow2(n) == 2 * Pow2(n - 1);
      assert Pow2(n - 1) == 2 * Pow2(n - 2);
      assert m / 2 == Pow2(n - 1) - 1 - 1 && m % 2 == 0;
      AndClear(x / 2, n - 1, 0, m / 2);
      BitAtHalf(x, 1);
    }
  }

  /** AndClearPair for k > 0: the lowest bit is kept and the rest is the same question one bit down. */
  lemma {:induction false} AndClearPairAbove(x: nat, n: nat, k: nat, m: nat)
    requires x < Pow2(n) && 0 < k && k + 1 < n && m == Pow2(n) - 1 - 3 * Pow2(k)
    ensures BitAnd(x, m) ==
      x - (if BitAt(x, k) == 1 then Pow2(k) else 0) - (if BitAt(x, k + 1) == 1 then 2 * Pow2(k) else 0)
    decreases k, 0
  {
    AndUnfold(x, m);
    assert Pow2(n) == 2 * Pow2(n - 1);
    assert Pow2(k) == 2 * Pow2(k - 1);
    assert m / 2 == Pow2(n - 1) - 1 - 3 * Pow2(k - 1) && m % 2 == 1;
    AndClearPair(x / 2, n - 1, k - 1, m / 2);
    BitAtHalf(x, k);
    BitAtHalf(x, k + 1);
  }

  // ----- Big-endian bit fields -----

  /** Bit k of the byte string, counting from the most significant bit of its first byte. */
  function Bit(data: seq<Byte>, k: nat): (r: nat)
    requires k < 8 * |data|
    ensures r < 2
    decreases |data|
  {
    if k < 8 then BitAt(data[0], 7 - k) else Bit(data[1..], k - 8)
  }

  /** Bit j of byte i, counting from the most significant end. */
  lemma {:induction false} BitOfByte(data: seq<Byte>, i: nat, j: nat)
    requires i < |data| && j < 8
    ensures Bit(data, 8 * i + j) == BitAt(data[i], 7 - j)
  {
    if i > 0 {
      BitOfByte(data[1..], i - 1, j);
      assert data[1..][i - 1] == data[i];
    }
  }

  /** The `width` bits starting at bit `pos`, read as an unsigned big-endian number. */
  function ReadBits(data: seq<Byte>, pos: nat, width: nat): (r: nat)
    requires pos + width <= 8 * |data|
    ensures r < Pow2(width)
    decreases |data|, width
  {
    if width == 0 then 0 else 2 * ReadBits(data, pos, width - 1) + Bit(data, pos + width - 1)
  }

  /** A cursor read of `width` bits at `pos`: it fails when the data runs out. */
  function Read(data: seq<Byte>, pos: nat, width: nat): (r: Option<nat>)
    ensures r.Some? <==> pos + width <= 8 * |data|
    ensures r.Some? ==> r.value < Pow2(width)
  {
    if pos + width <= 8 * |data| then Some(ReadBits(data, pos, width)) else None
  }

  /** Reading a+b bits is reading a bits and then the next b bits. */
  lemma {:induction false} ReadBitsConcat(data: seq<Byte>, pos: nat, a: nat, b: nat, w: nat)
    requires w == a + b && pos + w <= 8 * |data|
    ensures ReadBits(data, pos, w) == Shl(ReadBits(data, pos, a), b) + ReadBits(data, pos + a, b)
  {
    if b > 0 {
      ReadBitsConcat(data, pos, a, b - 1, w - 1);
    }
  }

  /** The first w bits of byte i are its w most significant bits. */
  lemma {:induction false} ReadBitsByteTop(data: seq<Byte>, i: nat, w: nat)
    requires i < |data| && w <= 8
    ensures ReadBits(data, 8 * i, w) == Shr(data[i], 8 - w)
  {
    if w == 0 {
      Pow2Values();
      ShrBelow(data[i], 8);
    } else {
      ReadBitsByteTop(data, i, w - 1);
      BitOfByte(data, i, w - 1);
      ShrStep(data[i], 8 - w);
    }
  }

  lemma {:induction false} ReadBitsByte(data: seq<Byte>, i: nat)
    requires i < |data|
    ensures ReadBits(data, 8 * i, 8) == data[i]
  {
    ReadBitsByteTop(data, i, 8);
  }

  lemma {:induction false} ReadBitsHighNibble(data: seq<Byte>, i: nat)
    requires i < |data|
    ensures ReadBits(data, 8 * i, 4) == data[i] as nat / 16
  {
    ReadBitsByteTop(data, i, 4);
    ShrIsDiv(data[i], 4);
    Pow2Values();
  }

  lemma {:induction false} ReadBitsLowNibble(data: seq<Byte>, i: nat)
    requires i < |data|
    ensures ReadBits(data, 8 * i + 4, 4) == data[i] as nat % 16
  {
    ByteSplit(data, i, 4, 4);
    Pow2Values();
    LowPart(data[i], ReadBits(data, 8 * i, 4), ReadBits(data, 8 * i + 4, 4), 4, 16);
  }

  lemma {:induction false} ReadBitsTopBit(data: seq<Byte>, i: nat)
    requires i < |data|
    ensures ReadBits(data, 8 * i, 1) == data[i] as nat / 128
  {
    ReadBitsByteTop(data, i, 1);
    ShrIsDiv(data[i], 7);
    Pow2Values();
  }

  lemma {:induction false} ReadBitsLowSeven(data: seq<Byte>, i: nat)
    requires i < |data|
    ensures ReadBits(data, 8 * i + 1, 7) == data[i] as nat % 128
  {
    ByteSplit(data, i, 1, 7);
    Pow2Values();
    LowPart(data[i], ReadBits(data, 8 * i, 1), ReadBits(data, 8 * i + 1, 7), 7, 128);
  }

  /** Byte i is its first w bits followed by its remaining v = 8 - w bits. */
  lemma {:induction false} ByteSplit(data: seq<Byte>, i: nat, w: nat, v: nat)
    requires i < |data| && w <= 8 && v == 8 - w
    ensures data[i] as nat == Shl(ReadBits(data, 8 * i, w), v) + ReadBits(data, 8 * i + w, v)
  {
    ByteSplitBits(data, 8 * i, w, v);
    ReadBitsByte(data, i);
  }

  lemma {:induction false} ByteSplitBits(data: seq<Byte>, p: nat, w: nat, v: nat)
    requires p + 8 <= 8 * |data| && w <= 8 && v == 8 - w
    ensures ReadBits(data, p, 8) == Shl(ReadBits(data, p, w), v) + ReadBits(data, p + w, v)
  {
    ReadBitsConcat(data, p, w, v, 8);
  }

  /** The low part of a value split at bit k (k being 4 or 7) is its remainder modulo 2^k. */
  lemma {:induction false} LowPart(x: nat, hi: nat, lo: nat, k: nat, m: nat)
    requires (k == 4 && m == 16) || (k == 7 && m == 128)
    requires lo < m && x == Shl(hi, k) + lo
    ensures lo == x % m
  {
    ShlValues(hi);
    DivUnique(x, m, hi, lo);
  }

  /** The 15-bit address of a SIC-format instruction starting at byte i. */
  lemma {:induction false} ReadBitsField15(data: seq<Byte>, i: nat)
    requires i + 2 < |data|
    ensures ReadBits(data, 8 * i + 9, 15) == data[i + 1] as nat % 128 * 0x100 + data[i + 2] as nat
  {
    ReadBitsConcat(data, 8 * i + 9, 7, 8, 15);
    ShlValues(ReadBits(data, 8 * i + 9, 7));
    ReadBitsLowSeven(data, i + 1);
    ReadBitsByte(data, i + 2);
  }

  /** The 12-bit field of a format-3 instruction starting at byte i. */
  lemma {:induction false} ReadBitsField12(data: seq<Byte>, i: nat)
    requires i + 2 < |data|
    ensures ReadBits(data, 8 * i + 12, 12) == data[i + 1] as nat % 16 * 0x100 + data[i + 2] as nat
  {
    ReadBitsConcat(data, 8 * i + 12, 4, 8, 12);
    ShlValues(ReadBits(data, 8 * i + 12, 4));
    ReadBitsLowNibble(data, i + 1);
    ReadBitsByte(data, i + 2);
  }

  /** The 20-bit field of a format-4 instruction starting at byte i. */
  lemma {:induction false} ReadBitsField20(data: seq<Byte>, i: nat)
    requires i + 3 < |data|
    ensures ReadBits(data, 8 * i + 12, 20) ==
      data[i + 1] as nat % 16 * 0x10000 + data[i + 2] as nat * 0x100 + data[i + 3] as nat
  {
    ReadBitsConcat(data, 8 * i + 12, 12, 8, 20);
    ShlValues(ReadBits(data, 8 * i + 12, 12));
    ReadBitsField12(data, i);
    ReadBitsByte(data, i + 3);
  }

  /** A value of at most 48 bits shifted left by at most 15 stays below 2^64. */
  lemma {:induction false} Shl64NoWrap(v: nat, n: nat)
    requires v < 0x1_0000_0000_0000 && n < 16
    ensures Shl64(v, n) == Shl(v, n)
  {
    Pow2Values();
    ShlBelow(v, 48, n);
    Pow2Monotone(48 + n, 64);
  }
}
