/** Machine arithmetic on natural numbers: powers of two, the bitwise operators the broker
    uses, and the two facts about them that its code relies on. */
module Bits {

  /** 2^64, the modulus of Go's uint64 and of the two's-complement int. */
  const WORD: nat := 0x1_0000_0000_0000_0000

  type byte = x: nat | x < 256

  function Pow2(k: nat): (p: nat)
    ensures p > 0
  {
    if k == 0 then 1 else 2 * Pow2(k - 1)
  }

  /** x & y */
  function And(x: nat, y: nat): nat
  {
    if x == 0 || y == 0 then 0
    else 2 * And(x / 2, y / 2) + (x % 2) * (y % 2)
  }

  /** x ^ y */
  function Xor(x: nat, y: nat): nat
    decreases x + y
  {
    if x == 0 then y
    else if y == 0 then x
    else 2 * Xor(x / 2, y / 2) + (x % 2 + y % 2) % 2
  }

  type u64 = x: nat | x < WORD

  /** x + y on uint64. */
  function Add64(x: u64, y: u64): u64
  {
    if x + y < WORD then x + y else x + y - WORD
  }

  /** x - y on uint64. */
  function Sub64(x: u64, y: u64): u64
  {
    if x >= y then x - y else x + WORD - y
  }

  lemma U64IsModular(x: u64, y: u64)
    ensures Add64(x, y) == (x + y) % WORD
    ensures Sub64(x, y) == (x - y) % WORD
  {
  }

  /** The value of an int after 64-bit two's-complement wrap-around. */
  function Wrap(x: int): (r: int)
    ensures -(WORD / 2) <= r < WORD / 2
    ensures (x - r) % WORD == 0
  {
    (x + WORD / 2) % WORD - WORD / 2
  }

  lemma WrapInRange(x: int)
    requires -(WORD / 2) <= x < WORD / 2
    ensures Wrap(x) == x
  {
  }

  lemma WrapIsMod(x: int, y: int)
    requires (x - y) % WORD == 0
    ensures Wrap(x) == Wrap(y)
  {
  }

  lemma MulCongruent(x: int, c: int)
    ensures (c * x - c * Wrap(x)) % WORD == 0
  {
    var q := (x - Wrap(x)) / WORD;
    assert x - Wrap(x) == q * WORD;
    assert c * x - c * Wrap(x) == (c * q) * WORD by {
      assert c * (x - Wrap(x)) == c * (q * WORD);
    }
    DivModUnique(c * x - c * Wrap(x), WORD, c * q, 0);
  }

  lemma {:induction false} Pow2Monotone(j: nat, k: nat)
    requires j <= k
    ensures Pow2(j) <= Pow2(k)
    decreases k
  {
    if j < k {
      Pow2Monotone(j, k - 1);
    }
  }

  lemma {:induction false} Pow2Add(j: nat, k: nat)
    ensures Pow2(j + k) == Pow2(j) * Pow2(k)
    decreases k
  {
    if k != 0 {
      Pow2Add(j, k - 1);
      assert Pow2(j + k) == 2 * Pow2(j + k - 1);
    }
  }

  lemma Pow2Of63()
    ensures Pow2(63) == WORD / 2
  {
    assert Pow2(7) == 128;
    Pow2Add(7, 7);
    Pow2Add(14, 7);
    Pow2Add(21, 21);
    Pow2Add(42, 21);
  }

  lemma MulAtLeast(a: int, b: int, d: int)
    requires a > b && d > 0
    ensures a * d >= b * d + d
  {
    assert (a - b - 1) * d >= 0;
    assert (a - b - 1) * d == a * d - b * d - d;
  }

  lemma QuotientUnique(d: int, q: int, r: int, q': int, r': int)
    requires d > 0 && q * d + r == q' * d + r'
    requires 0 <= r < d && 0 <= r' < d
    ensures q == q'
  {
    if q < q' {
      MulAtLeast(q', q, d);
    } else if q' < q {
      MulAtLeast(q, q', d);
    }
  }

  /** A quotient and remainder are determined by their defining equation. */
  lemma DivModUnique(x: int, d: int, q: int, r: int)
    requires d > 0 && x == q * d + r && 0 <= r < d
    ensures x / d == q && x % d == r
  {
    QuotientUnique(d, q, r, x / d, x % d);
  }

  lemma ModDouble(x: nat, p: nat)
    requires p > 0
    ensures x % (2 * p) == 2 * ((x / 2) % p) + x % 2
  {
    var h := x / 2;
    calc {
      x;
      2 * (h / p * p + h % p) + x % 2;
      (h / p) * (2 * p) + (2 * (h % p) + x % 2);
    }
    DivModUnique(x, 2 * p, h / p, 2 * (h % p) + x % 2);
  }

  lemma AndUnfold(x: nat, y: nat)
    requires y % 2 == 1
    ensures And(x, y) == 2 * And(x / 2, y / 2) + x % 2
  {
  }

  /** Masking with 2^k - 1 is the remainder modulo 2^k. */
  lemma {:induction false} AndMask(x: nat, k: nat)
    ensures And(x, Pow2(k) - 1) == x % Pow2(k)
  {
    if k == 0 {
      assert And(x, 0) == 0;
    } else {
      hide And;
      var p := Pow2(k - 1);
      AndUnfold(x, 2 * p - 1);
      assert (2 * p - 1) / 2 == p - 1;
      AndMask(x / 2, k - 1);
      ModDouble(x, p);
    }
  }

  /** Reducing modulo 2^64 first does not change a remainder modulo a divisor of 2^64. */
  lemma ModOfMod(x: int, d: int, q: int)
    requires d > 0 && q > 0
    ensures (x % (d * q)) % d == x % d
  {
    var m := d * q;
    var r := x % m;
    calc {
      x;
      x / m * m + r;
      (x / m * q) * d + (r / d * d + r % d);
      (x / m * q + r / d) * d + r % d;
    }
    DivModUnique(x, d, x / m * q + r / d, r % d);
  }

  lemma XorUnfold(x: nat, y: nat)
    ensures Xor(x, y) / 2 == Xor(x / 2, y / 2)
    ensures Xor(x, y) % 2 == (x % 2 + y % 2) % 2
  {
  }

  lemma {:induction false} XorCancel(x: nat, y: nat)
    ensures Xor(Xor(x, y), y) == x
    decreases x + y
  {
    hide Xor;
    XorZero(x);
    XorZero(y);
    if x == 0 {
      XorSelf(y);
    } else if y != 0 {
      XorCancel(x / 2, y / 2);
      XorUnfold(x, y);
      XorUnfold(Xor(x, y), y);
      SameHalves(Xor(Xor(x, y), y), x);
    }
  }

  lemma {:induction false} XorSelf(x: nat)
    ensures Xor(x, x) == 0
  {
    if x != 0 {
      XorSelf(x / 2);
    }
  }

  lemma {:induction false} XorCommutes(x: nat, y: nat)
    ensures Xor(x, y) == Xor(y, x)
    decreases x + y
  {
    if x != 0 && y != 0 {
      XorCommutes(x / 2, y / 2);
    }
  }

  lemma {:induction false} XorBound(x: nat, y: nat, k: nat)
    requires x < Pow2(k) && y < Pow2(k)
    ensures Xor(x, y) < Pow2(k)
    decreases k
  {
    if x != 0 && y != 0 {
      XorBound(x / 2, y / 2, k - 1);
    }
  }

  /** The top bit of one operand survives when the other operand does not have it. */
  lemma {:induction false} XorTopBit(x: nat, y: nat, k: nat)
    requires x < Pow2(k) <= y < Pow2(k + 1)
    ensures Pow2(k) <= Xor(x, y) < Pow2(k + 1)
    decreases k
  {
    if x != 0 {
      assert k > 0;
      XorTopBit(x / 2, y / 2, k - 1);
    }
  }

  lemma XorZero(x: nat)
    ensures Xor(0, x) == x == Xor(x, 0)
  {
  }

  lemma SameHalves(x: nat, y: nat)
    requires x / 2 == y / 2 && x % 2 == y % 2
    ensures x == y
  {
  }

  lemma {:induction false} XorAssociates(x: nat, y: nat, z: nat)
    ensures Xor(Xor(x, y), z) == Xor(x, Xor(y, z))
    decreases x + y + z
  {
    hide Xor;
    XorZero(x);
    XorZero(y);
    if x != 0 && y != 0 {
      XorAssociates(x / 2, y / 2, z / 2);
      XorUnfold(x, y);
      XorUnfold(y, z);
      XorUnfold(Xor(x, y), z);
      XorUnfold(x, Xor(y, z));
      SameHalves(Xor(Xor(x, y), z), Xor(x, Xor(y, z)));
    } else if x == 0 {
      XorZero(Xor(y, z));
    } else {
      XorZero(z);
    }
  }

  /** Numbers without a common bit add up under exclusive or. */
  lemma {:induction false} XorDisjoint(x: nat, y: nat, k: nat)
    requires x < Pow2(k)
    ensures Xor(x, y * Pow2(k)) == x + y * Pow2(k)
    decreases k
  {
    hide Xor;
    XorZero(y * Pow2(k));
    if k > 0 {
      var h := y * Pow2(k - 1);
      var z := y * Pow2(k);
      assert z == 2 * h;
      XorDisjoint(x / 2, y, k - 1);
      XorUnfold(x, z);
      SameHalves(Xor(x, z), x + z);
    }
  }
}
