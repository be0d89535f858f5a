/** Decimal numerals, as strconv.Itoa and the %06d verb print them. */
module Decimals {

  type digit = x: nat | x < 10

  function Decimal(n: nat): (d: seq<digit>)
    ensures |d| > 0
  {
    if n < 10 then [n] else Decimal(n / 10) + [n % 10]
  }

  function Zeros(k: nat): (d: seq<digit>)
    ensures |d| == k
  {
    if k == 0 then [] else [0] + Zeros(k - 1)
  }

  /** Padded with zeros to at least k digits. */
  function Padded(n: nat, k: nat): seq<digit> {
    var d := Decimal(n);
    if |d| < k then Zeros(k - |d|) + d else d
  }

  function Pow10(k: nat): (p: nat)
    ensures p > 0
  {
    if k == 0 then 1 else 10 * Pow10(k - 1)
  }

  /** The last k digits. */
  function Fixed(n: nat, k: nat): (d: seq<digit>)
    ensures |d| == k
  {
    if k == 0 then [] else Fixed(n / 10, k - 1) + [n % 10]
  }

  lemma {:induction false} FixedZero(k: nat)
    ensures Fixed(0, k) == Zeros(k)
  {
    if k > 0 {
      FixedZero(k - 1);
      ZerosSnoc(k - 1);
    }
  }

  lemma {:induction false} ZerosSnoc(k: nat)
    ensures Zeros(k) + [0] == Zeros(k + 1)
  {
    if k > 0 {
      ZerosSnoc(k - 1);
      assert Zeros(k) + [0] == [0] + (Zeros(k - 1) + [0]);
    }
  }

  /** A number below 10^k, padded to k digits, is its last k digits. */
  lemma {:induction false} PaddedIsFixed(n: nat, k: nat)
    requires n < Pow10(k) && k > 0
    ensures |Decimal(n)| <= k && Padded(n, k) == Fixed(n, k)
  {
    if n < 10 {
      FixedZero(k - 1);
    } else {
      assert n < 10 * Pow10(k - 1);
      PaddedIsFixed(n / 10, k - 1);
      hide Pow10;
      var d := Decimal(n / 10);
      assert Zeros(k - 1 - |d|) + (d + [n % 10]) == (Zeros(k - 1 - |d|) + d) + [n % 10];
    }
  }

  /** The value of a numeral. */
  function Value(d: seq<digit>): nat {
    if d == [] then 0 else Value(d[..|d| - 1]) * 10 + d[|d| - 1]
  }

  lemma {:induction false} ValueOfDecimal(n: nat)
    ensures Value(Decimal(n)) == n
  {
    if n < 10 {
      assert [n][..0] == [];
    } else {
      ValueOfDecimal(n / 10);
      assert Decimal(n)[..|Decimal(n)| - 1] == Decimal(n / 10);
    }
  }

  lemma {:induction false} ValueMonotone(d: seq<digit>, k: nat)
    requires k <= |d|
    ensures Value(d[..k]) <= Value(d)
    decreases |d|
  {
    if k < |d| {
      ValueMonotone(d[..|d| - 1], k);
      assert d[..|d| - 1][..k] == d[..k];
    } else {
      assert d[..k] == d;
    }
  }
}
