/** The checksum of the write-ahead log: CRC-32 with the reflected polynomial of section 8 of
    RFC 1952, as hash/crc32 computes it. */
module Crc {
  import opened Bits

  const POLY: nat := 0xEDB88320
  const ONES: nat := 0xFFFF_FFFF
  const LIMIT: nat := 0x1_0000_0000

  /** One bit of polynomial division. */
  function Shift(c: nat): nat {
    if c % 2 == 1 then Xor(c / 2, POLY) else c / 2
  }

  function Shifts(c: nat, n: nat): nat {
    if n == 0 then c else Shift(Shifts(c, n - 1))
  }

  function Feed(c: nat, b: byte): nat {
    Shifts(Xor(c, b), 8)
  }

  /** The register after the bytes of `data`. */
  function Register(c: nat, data: seq<byte>): nat {
    if data == [] then c else Feed(Register(c, data[..|data| - 1]), data[|data| - 1])
  }

  /** crc32.Update: the register is kept complemented between calls. */
  function Update(crc: nat, data: seq<byte>): nat {
    Xor(Register(Xor(crc, ONES), data), ONES)
  }

  /** crc32.ChecksumIEEE: everything in one go. */
  function Checksum(data: seq<byte>): nat {
    Update(0, data)
  }

  lemma Bounds()
    ensures Pow2(31) == 0x8000_0000 && Pow2(32) == LIMIT
  {
    assert Pow2(8) == 256;
    Pow2Add(8, 8);
    Pow2Add(16, 8);
    assert Pow2(7) == 128;
    Pow2Add(24, 7);
  }

  lemma ShiftFits(c: nat)
    requires c < LIMIT
    ensures Shift(c) < LIMIT
    ensures c % 2 == 1 <==> Shift(c) >= 0x8000_0000
  {
    Bounds();
    if c % 2 == 1 {
      XorTopBit(c / 2, POLY, 31);
    }
  }

  /** Dividing loses nothing: the top bit of the result tells which bit was shifted out. */
  lemma ShiftInjective(c: nat, d: nat)
    requires c < LIMIT && d < LIMIT && Shift(c) == Shift(d)
    ensures c == d
  {
    ShiftFits(c);
    ShiftFits(d);
    if c % 2 == 1 {
      XorCancel(c / 2, POLY);
      XorCancel(d / 2, POLY);
    }
  }

  lemma {:induction false} ShiftsFit(c: nat, n: nat)
    requires c < LIMIT
    ensures Shifts(c, n) < LIMIT
  {
    if n > 0 {
      ShiftsFit(c, n - 1);
      ShiftFits(Shifts(c, n - 1));
    }
  }

  lemma {:induction false} ShiftsInjective(c: nat, d: nat, n: nat)
    requires c < LIMIT && d < LIMIT && Shifts(c, n) == Shifts(d, n)
    ensures c == d
    decreases n
  {
    if n > 0 {
      ShiftsFit(c, n - 1);
      ShiftsFit(d, n - 1);
      ShiftInjective(Shifts(c, n - 1), Shifts(d, n - 1));
      ShiftsInjective(c, d, n - 1);
    }
  }

  lemma {:induction false} ShiftsAdd(c: nat, m: nat, n: nat)
    ensures Shifts(Shifts(c, m), n) == Shifts(c, m + n)
    decreases n
  {
    if n > 0 {
      ShiftsAdd(c, m, n - 1);
    }
  }

  lemma XorFits(c: nat, d: nat)
    requires c < LIMIT && d < LIMIT
    ensures Xor(c, d) < LIMIT
  {
    Bounds();
    XorBound(c, d, 32);
  }

  lemma {:induction false} RegisterFits(c: nat, data: seq<byte>)
    requires c < LIMIT
    ensures Register(c, data) < LIMIT
  {
    if data != [] {
      RegisterFits(c, data[..|data| - 1]);
      XorFits(Register(c, data[..|data| - 1]), data[|data| - 1]);
      ShiftsFit(Xor(Register(c, data[..|data| - 1]), data[|data| - 1]), 8);
    }
  }

  lemma {:induction false} RegisterConcat(c: nat, a: seq<byte>, b: seq<byte>)
    ensures Register(c, a + b) == Register(Register(c, a), b)
    decreases |b|
  {
    if b == [] {
      assert a + b == a;
    } else {
      RegisterConcat(c, a, b[..|b| - 1]);
      assert (a + b)[..|a + b| - 1] == a + b[..|b| - 1];
    }
  }

  /** Two writes to the streaming digest give the one-shot checksum of the concatenation. */
  lemma StreamingIsOneShot(a: seq<byte>, b: seq<byte>)
    ensures Update(Update(0, a), b) == Checksum(a + b)
  {
    var c := Register(Xor(0, ONES), a);
    XorCancel(c, ONES);
    RegisterConcat(Xor(0, ONES), a, b);
  }

  /** The register remembers where it was: different states stay different. */
  lemma {:induction false} RegisterInjective(c: nat, d: nat, data: seq<byte>)
    requires c < LIMIT && d < LIMIT && Register(c, data) == Register(d, data)
    ensures c == d
    decreases |data|
  {
    if data != [] {
      var front, b := data[..|data| - 1], data[|data| - 1];
      var c', d' := Register(c, front), Register(d, front);
      RegisterFits(c, front);
      RegisterFits(d, front);
      XorFits(c', b);
      XorFits(d', b);
      ShiftsInjective(Xor(c', b), Xor(d', b), 8);
      XorCancel(c', b);
      XorCancel(d', b);
      RegisterInjective(c, d, front);
    }
  }

  /** An even word passes through one division step unharmed. */
  lemma ShiftAbsorbs(u: nat, v: nat)
    ensures Shift(Xor(u, 2 * v)) == Xor(Shift(u), v)
  {
    XorUnfold(u, 2 * v);
    assert (2 * v) / 2 == v && (2 * v) % 2 == 0;
    if u % 2 == 1 {
      calc {
        Xor(Xor(u / 2, v), POLY);
        { XorAssociates(u / 2, v, POLY); XorCommutes(v, POLY); }
        Xor(u / 2, Xor(POLY, v));
        { XorAssociates(u / 2, POLY, v); }
        Xor(Xor(u / 2, POLY), v);
      }
    }
  }

  lemma Doubling(v: nat, p: nat)
    ensures v * (2 * p) == (2 * v) * p
  {
  }

  lemma {:induction false} ShiftsAbsorb(u: nat, v: nat, n: nat)
    ensures Shifts(Xor(u, v * Pow2(n)), n) == Xor(Shifts(u, n), v)
    decreases n
  {
    hide Xor, Shift;
    if n == 0 {
      assert v * Pow2(0) == v;
    } else {
      ShiftsAbsorb(u, 2 * v, n - 1);
      ShiftAbsorbs(Shifts(u, n - 1), v);
      Doubling(v, Pow2(n - 1));
    }
  }

  /** The bytes as one little-endian word. */
  function Word(data: seq<byte>): nat {
    if data == [] then 0 else Word(data[..|data| - 1]) + data[|data| - 1] * Pow2(8 * (|data| - 1))
  }

  lemma {:induction false} WordFits(data: seq<byte>)
    ensures Word(data) < Pow2(8 * |data|)
  {
    if data != [] {
      var n := |data| - 1;
      WordFits(data[..n]);
      Pow2Add(8 * n, 8);
      assert Pow2(8) == 256;
      var p := Pow2(8 * n);
      assert data[n] * p <= 255 * p by {
        MulMonotone(data[n], 255, p);
      }
      assert Pow2(8 * |data|) == p * 256;
    }
  }

  lemma MulMonotone(a: nat, b: nat, p: nat)
    requires a <= b
    ensures a * p <= b * p
  {
  }

  /** Feeding bytes one by one divides the word they form. */
  lemma {:induction false} RegisterIsWordDivision(c: nat, data: seq<byte>)
    ensures Register(c, data) == Shifts(Xor(c, Word(data)), 8 * |data|)
    decreases |data|
  {
    hide Xor, Shift, Pow2;
    if data == [] {
      XorZero(c);
    } else {
      var n := |data| - 1;
      var front, b := data[..n], data[n];
      var w, hi := Word(front), b * Pow2(8 * n);
      calc {
        Register(c, data);
        Shifts(Xor(Register(c, front), b), 8);
        { RegisterIsWordDivision(c, front); }
        Shifts(Xor(Shifts(Xor(c, w), 8 * n), b), 8);
        { ShiftsAbsorb(Xor(c, w), b, 8 * n); }
        Shifts(Shifts(Xor(Xor(c, w), hi), 8 * n), 8);
        { ShiftsAdd(Xor(Xor(c, w), hi), 8 * n, 8); }
        Shifts(Xor(Xor(c, w), hi), 8 * n + 8);
        { XorAssociates(c, w, hi); WordFits(front); XorDisjoint(w, b, 8 * n); }
        Shifts(Xor(c, w + hi), 8 * n + 8);
      }
    }
  }

  lemma {:induction false} WordInjective(x: seq<byte>, y: seq<byte>)
    requires |x| == |y| && Word(x) == Word(y)
    ensures x == y
  {
    if x != [] {
      var n := |x| - 1;
      WordFits(x[..n]);
      WordFits(y[..n]);
      QuotientUnique(Pow2(8 * n), x[n], Word(x[..n]), y[n], Word(y[..n]));
      WordInjective(x[..n], y[..n]);
      assert x == x[..n] + [x[n]] && y == y[..n] + [y[n]];
    }
  }

  /** Up to four bytes cannot be exchanged for others without leaving a trace in the register. */
  lemma BurstChangesRegister(c: nat, x: seq<byte>, y: seq<byte>)
    requires c < LIMIT && |x| == |y| <= 4 && x != y
    ensures Register(c, x) != Register(c, y)
  {
    if Register(c, x) == Register(c, y) {
      RegisterIsWordDivision(c, x);
      RegisterIsWordDivision(c, y);
      WordFits(x);
      WordFits(y);
      Pow2Monotone(8 * |x|, 32);
      Bounds();
      XorFits(c, Word(x));
      XorFits(c, Word(y));
      ShiftsInjective(Xor(c, Word(x)), Xor(c, Word(y)), 8 * |x|);
      XorCommutes(c, Word(x));
      XorCommutes(c, Word(y));
      XorCancel(Word(x), c);
      XorCancel(Word(y), c);
      WordInjective(x, y);
    }
  }

  /** The checksum detects every change that is confined to four consecutive bytes, wherever they
      are and however long the data is. */
  lemma BurstIsDetected(a: seq<byte>, x: seq<byte>, y: seq<byte>, z: seq<byte>)
    requires |x| == |y| <= 4 && x != y
    ensures Checksum(a + x + z) != Checksum(a + y + z)
  {
    var c := Register(Xor(0, ONES), a);
    RegisterFits(Xor(0, ONES), a);
    BurstChangesRegister(c, x, y);
    RegisterFits(c, x);
    RegisterFits(c, y);
    RegisterConcat(Xor(0, ONES), a, x);
    RegisterConcat(Xor(0, ONES), a, y);
    RegisterConcat(Xor(0, ONES), a + x, z);
    RegisterConcat(Xor(0, ONES), a + y, z);
    var rx, ry := Register(Register(c, x), z), Register(Register(c, y), z);
    if rx == ry {
      RegisterInjective(Register(c, x), Register(c, y), z);
    }
    XorCancel(rx, ONES);
    XorCancel(ry, ONES);
  }

  lemma ChecksumFits(data: seq<byte>)
    ensures Checksum(data) < LIMIT
  {
    RegisterFits(Xor(0, ONES), data);
    XorFits(Register(Xor(0, ONES), data), ONES);
  }

  // ---- which checksum this is ----

  /** The divisor is X^32 + X^26 + X^23 + X^22 + X^16 + X^12 + X^11 + X^10 + X^8 + X^7 + X^5 + X^4 + X^2 +
      X + 1, without its first term. */
  lemma DivisorIsThatOfTheStandard()
    ensures POLY == Pow2(31) + Pow2(30) + Pow2(29) + Pow2(27) + Pow2(26) + Pow2(24) + Pow2(23) + Pow2(21) +
                    Pow2(20) + Pow2(19) + Pow2(15) + Pow2(9) + Pow2(8) + Pow2(5)
  {
    assert Pow2(5) == 32 && Pow2(8) == 256 && Pow2(9) == 512;
    assert Pow2(15) == 64 * Pow2(9);
    assert Pow2(19) == 16 * Pow2(15) && Pow2(20) == 2 * Pow2(19) && Pow2(21) == 2 * Pow2(20);
    assert Pow2(23) == 4 * Pow2(21) && Pow2(24) == 2 * Pow2(23) && Pow2(26) == 4 * Pow2(24);
    assert Pow2(27) == 2 * Pow2(26) && Pow2(29) == 4 * Pow2(27);
    assert Pow2(30) == 2 * Pow2(29) && Pow2(31) == 2 * Pow2(30);
  }

  lemma {:induction false} ZeroStaysZero(n: nat)
    ensures Shifts(0, n) == 0
  {
    if n > 0 {
      ZeroStaysZero(n - 1);
    }
  }

  lemma {:induction false} Complement(x: nat, k: nat)
    requires x < Pow2(k)
    ensures Xor(x, Pow2(k) - 1) == Pow2(k) - 1 - x
  {
    if k > 0 {
      Complement(x / 2, k - 1);
      XorUnfold(x, Pow2(k) - 1);
      assert (Pow2(k) - 1) / 2 == Pow2(k - 1) - 1 && (Pow2(k) - 1) % 2 == 1;
    }
  }

  const FOUR_ONES: seq<byte> := [255, 255, 255, 255]

  /** Three values that fix the start, the division and the end of the computation. */
  lemma CheckValues()
    ensures Checksum([]) == 0
    ensures Checksum(FOUR_ONES) == 0xFFFF_FFFF
    ensures Checksum(FOUR_ONES + [128]) == 0x1247_7CDF
  {
    hide Xor, Shifts;
    Bounds();
    XorZero(ONES);
    XorSelf(ONES);
    OnesCancel();
    assert (FOUR_ONES + [128])[..4] == FOUR_ONES;
    XorZero(128);
    LastBitIsDivided();
    Complement(POLY, 32);
  }

  lemma OnesCancel()
    ensures Register(ONES, FOUR_ONES) == 0
  {
    hide Xor, Shifts, Register;
    RegisterIsWordDivision(ONES, FOUR_ONES);
    WordOfOnes();
    XorSelf(ONES);
    ZeroStaysZero(32);
  }

  lemma WordOfOnes()
    ensures Word(FOUR_ONES) == ONES
  {
    var d: seq<byte> := FOUR_ONES;
    assert d[..3] == [255, 255, 255] && d[1..] == [255, 255, 255];
    assert [255, 255, 255][..2] == [255, 255] && [255, 255, 255][1..] == [255, 255];
    assert [255, 255][..1] == [255] && [255, 255][1..] == [255] && [255][..0] == [] && [255][1..] == [];
    assert Pow2(8) == 256;
    Pow2Add(8, 8);
    Pow2Add(16, 8);
  }

  lemma LastBitIsDivided()
    ensures Shifts(128, 8) == POLY
  {
    XorZero(POLY);
    assert Shifts(128, 1) == 64 && Shifts(128, 2) == 32;
    assert Shifts(128, 4) == 8 && Shifts(128, 6) == 2 && Shifts(128, 7) == 1;
  }
}
