/** The retry delay that internal/queue/consumer_group.go computes in 64-bit arithmetic. */
module Backoff {
  import opened Bits

  const MILLISECOND: int := 1_000_000
  const CEILING: int := 10_000_000_000   // ten seconds, in nanoseconds

  /** The product the code forms in 64-bit arithmetic before it applies the ceiling. */
  function Raw(retry: nat): int
    requires retry >= 1
  {
    Wrap(Wrap(100 * Wrap(Pow2(retry - 1))) * MILLISECOND)
  }

  /** The delay of a negative acknowledgement, as computed. */
  function Delay(retry: nat): int
    requires retry >= 1
  {
    if Raw(retry) > CEILING then CEILING else Raw(retry)
  }

  /** The delay as documented: 100 ms doubled per retry, at most ten seconds. */
  function Intended(retry: nat): int
    requires retry >= 1
  {
    var d := 100 * MILLISECOND * Pow2(retry - 1);
    if d > CEILING then CEILING else d
  }

  /** The retry counts for which 64-bit overflow does no harm. */
  predicate Safe(retry: nat) {
    1 <= retry <= 37 || retry in {39, 45, 47, 52, 53, 54, 55}
  }

  lemma RawIsWrapped(retry: nat)
    requires retry >= 1
    ensures Raw(retry) == Wrap(100_000_000 * Pow2(retry - 1))
  {
    hide Wrap, Pow2;
    var p := Pow2(retry - 1);
    MulCongruent(p, 100);
    WrapIsMod(100 * p, 100 * Wrap(p));
    MulCongruent(100 * p, MILLISECOND);
    WrapIsMod(MILLISECOND * (100 * p), MILLISECOND * Wrap(100 * p));
  }

  lemma Pow2Values()
    ensures Pow2(36) == 68_719_476_736
    ensures Pow2(64) == WORD
  {
    assert Pow2(9) == 512;
    Pow2Add(9, 9);
    Pow2Add(18, 18);
    Pow2Of63();
  }

  /** Beyond the 64th retry nothing of the product is left in 64 bits. */
  lemma OverflowsToZero(retry: nat)
    requires retry >= 65
    ensures Raw(retry) == 0
  {
    RawIsWrapped(retry);
    Pow2Values();
    Pow2Add(64, retry - 65);
    var x := 100_000_000 * Pow2(retry - 1);
    assert x == (100_000_000 * Pow2(retry - 65)) * WORD;
    DivModUnique(x - 0, WORD, 100_000_000 * Pow2(retry - 65), 0);
    WrapIsMod(x, 0);
  }

  lemma RawDoubles(retry: nat, x: int)
    requires retry >= 1 && Raw(retry) == x
    ensures Raw(retry + 1) == Wrap(2 * x)
  {
    RawIsWrapped(retry);
    RawIsWrapped(retry + 1);
    var y := 100_000_000 * Pow2(retry - 1);
    MulCongruent(y, 2);
    WrapIsMod(2 * y, 2 * Wrap(y));
    assert Pow2(retry) == 2 * Pow2(retry - 1);
  }

  lemma NoOverflowUpTo37(retry: nat)
    requires 1 <= retry <= 37
    ensures Raw(retry) == 100_000_000 * Pow2(retry - 1) > 0
  {
    RawIsWrapped(retry);
    Pow2Values();
    Pow2Monotone(retry - 1, 36);
    WrapInRange(100_000_000 * Pow2(retry - 1));
  }

  lemma Table1(retry: nat)
    requires 37 < retry <= 46
    ensures if Safe(retry) then Raw(retry) > CEILING else Raw(retry) <= 0
    ensures Raw(46) == -4_890_909_195_324_358_656
  {
    hide Raw, Pow2;
    NoOverflowUpTo37(37);
    Pow2Values();
    RawDoubles(37, 6_871_947_673_600_000_000);
    RawDoubles(38, -4_702_848_726_509_551_616);
    RawDoubles(39, 9_041_046_620_690_448_384);
    RawDoubles(40, -364_650_832_328_654_848);
    RawDoubles(41, -729_301_664_657_309_696);
    RawDoubles(42, -1_458_603_329_314_619_392);
    RawDoubles(43, -2_917_206_658_629_238_784);
    RawDoubles(44, -5_834_413_317_258_477_568);
    RawDoubles(45, 6_777_917_439_192_596_480);
  }

  lemma Table2(retry: nat)
    requires 46 < retry <= 55
    ensures if Safe(retry) then Raw(retry) > CEILING else Raw(retry) <= 0
    ensures Raw(55) == 4_611_686_018_427_387_904
  {
    hide Raw, Pow2;
    Table1(46);
    RawDoubles(46, -4_890_909_195_324_358_656);
    RawDoubles(47, 8_664_925_683_060_834_304);
    RawDoubles(48, -1_116_892_707_587_883_008);
    RawDoubles(49, -2_233_785_415_175_766_016);
    RawDoubles(50, -4_467_570_830_351_532_032);
    RawDoubles(51, -8_935_141_660_703_064_064);
    RawDoubles(52, 576_460_752_303_423_488);
    RawDoubles(53, 1_152_921_504_606_846_976);
    RawDoubles(54, 2_305_843_009_213_693_952);
  }

  lemma Table3(retry: nat)
    requires 55 < retry <= 64
    ensures if Safe(retry) then Raw(retry) > CEILING else Raw(retry) <= 0
    ensures Raw(64) == 0
  {
    hide Raw, Pow2;
    Table2(55);
    RawDoubles(55, 4_611_686_018_427_387_904);
    RawDoubles(56, -9_223_372_036_854_775_808);
    RawDoubles(57, 0);
    RawDoubles(58, 0);
    RawDoubles(59, 0);
    RawDoubles(60, 0);
    RawDoubles(61, 0);
    RawDoubles(62, 0);
    RawDoubles(63, 0);
  }

  /** What the code computes is what is documented exactly for the safe retry counts: the first
      37, and the few later ones whose overflowed product happens to be large and positive. */
  lemma DelayIsAsIntended(retry: nat)
    requires retry >= 1
    ensures Delay(retry) == Intended(retry) <==> Safe(retry)
    ensures Delay(retry) > 0 <==> Safe(retry)
  {
    Pow2Values();
    if retry <= 37 {
      NoOverflowUpTo37(retry);
    } else {
      Pow2Monotone(36, retry - 1);
      if retry <= 46 {
        Table1(retry);
      } else if retry <= 55 {
        Table2(retry);
      } else if retry <= 64 {
        Table3(retry);
      } else {
        OverflowsToZero(retry);
      }
    }
  }

  /** Below the first overflow a later retry never waits less than an earlier one. */
  lemma DelayGrows(retry: nat, later: nat)
    requires 1 <= retry <= later <= 37
    ensures 0 < Delay(retry) <= Delay(later) <= CEILING
  {
    NoOverflowUpTo37(retry);
    NoOverflowUpTo37(later);
    Pow2Monotone(retry - 1, later - 1);
  }

  /** The 38th retry is the first to go wrong: its delay is not positive, so it is not delayed at all. */
  lemma FirstOverflow()
    ensures Delay(38) <= 0 && Intended(38) == CEILING
  {
    Table1(38);
    Pow2Values();
    Pow2Monotone(36, 37);
  }
}
