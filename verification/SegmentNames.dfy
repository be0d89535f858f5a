/** The order in which the log's segments are replayed: filepath.Glob sorts the file names, and
    the names carry the segment number, padded to six digits. */
module SegmentNames {
  import opened Decimals

  function Text(d: seq<digit>): string {
    seq(|d|, i requires 0 <= i < |d| => ('0' as int + d[i]) as char)
  }

  function Name(segment: nat): string {
    "vortexmq_" + Text(Padded(segment, 6)) + ".wal"
  }

  /** The order of file names. */
  predicate Before(a: string, b: string) {
    b != [] && (a == [] || a[0] < b[0] || (a[0] == b[0] && Before(a[1..], b[1..])))
  }

  lemma {:induction false} BeforeWithPrefix(p: string, a: string, b: string)
    ensures Before(p + a, p + b) == Before(a, b)
    decreases |p|
  {
    if p == [] {
      assert p + a == a && p + b == b;
    } else {
      assert (p + a)[1..] == p[1..] + a && (p + b)[1..] == p[1..] + b;
      BeforeWithPrefix(p[1..], a, b);
    }
  }

  /** Between names of equal length the first difference decides, whatever follows. */
  lemma {:induction false} BeforeWithSuffix(a: string, b: string, s: string, t: string)
    requires |a| == |b| && Before(a, b)
    ensures Before(a + s, b + t)
    decreases |a|
  {
    assert (a + s)[0] == a[0] && (b + t)[0] == b[0];
    if a[0] == b[0] {
      assert (a + s)[1..] == a[1..] + s && (b + t)[1..] == b[1..] + t;
      BeforeWithSuffix(a[1..], b[1..], s, t);
    }
  }

  lemma TextSnoc(d: seq<digit>, x: digit)
    ensures Text(d + [x]) == Text(d) + Text([x])
  {
  }

  lemma DigitOrder(x: digit, y: digit)
    requires x < y
    ensures Before(Text([x]), Text([y]))
  {
    assert Text([x])[0] < Text([y])[0];
  }

  /** Numerals of equal width are ordered like their numbers. */
  lemma {:induction false} FixedOrder(i: nat, j: nat, k: nat)
    requires i < j < Pow10(k)
    ensures Before(Text(Fixed(i, k)), Text(Fixed(j, k)))
    decreases k
  {
    hide Text;
    TextSnoc(Fixed(i / 10, k - 1), i % 10);
    TextSnoc(Fixed(j / 10, k - 1), j % 10);
    if i / 10 < j / 10 {
      FixedOrder(i / 10, j / 10, k - 1);
      TextLength(Fixed(i / 10, k - 1));
      TextLength(Fixed(j / 10, k - 1));
      BeforeWithSuffix(Text(Fixed(i / 10, k - 1)), Text(Fixed(j / 10, k - 1)), Text([i % 10]), Text([j % 10]));
    } else {
      DigitOrder(i % 10, j % 10);
      BeforeWithPrefix(Text(Fixed(i / 10, k - 1)), Text([i % 10]), Text([j % 10]));
    }
  }

  lemma TextLength(d: seq<digit>)
    ensures |Text(d)| == |d|
  {
  }

  /** Below a million the names are sorted as the segments were created. */
  lemma NamesInOrder(i: nat, j: nat)
    requires i < j < 1_000_000
    ensures Before(Name(i), Name(j))
  {
    assert Pow10(6) == 1_000_000;
    PaddedIsFixed(i, 6);
    PaddedIsFixed(j, 6);
    FixedOrder(i, j, 6);
    var a, b := Text(Padded(i, 6)), Text(Padded(j, 6));
    BeforeWithSuffix(a, b, ".wal", ".wal");
    BeforeWithPrefix("vortexmq_", a + ".wal", b + ".wal");
    assert Name(i) == "vortexmq_" + (a + ".wal") && Name(j) == "vortexmq_" + (b + ".wal");
  }

  lemma MillionthNumerals()
    ensures Padded(1_000_000, 6) == [1, 0, 0, 0, 0, 0, 0]
    ensures Padded(100_001, 6) == [1, 0, 0, 0, 0, 1]
  {
    assert Decimal(10) == [1, 0];
    assert Decimal(100) == [1, 0, 0];
    assert Decimal(1000) == [1, 0, 0, 0];
    assert Decimal(10_000) == [1, 0, 0, 0, 0];
    assert Decimal(100_000) == [1, 0, 0, 0, 0, 0];
  }

  lemma MillionthNames()
    ensures Name(1_000_000) == "vortexmq_10000" + "00.wal"
    ensures Name(100_001) == "vortexmq_10000" + "1.wal"
  {
    hide Padded;
    MillionthNumerals();
    assert Text([1, 0, 0, 0, 0, 0, 0]) == "1000000";
    assert Text([1, 0, 0, 0, 0, 1]) == "100001";
  }

  /** The name OpenWAL gives to the first segment. */
  lemma FirstName()
    ensures Name(1) == "vortexmq_000001.wal"
  {
    assert Zeros(2) == [0, 0];
    assert Zeros(5) == [0, 0, 0] + Zeros(2);
    assert Padded(1, 6) == [0, 0, 0, 0, 0, 1];
    assert Text([0, 0, 0, 0, 0, 1]) == "000001";
  }

  /** The millionth segment sorts before an earlier one. */
  lemma MillionthSortsEarly()
    ensures Before(Name(1_000_000), Name(100_001)) && !Before(Name(100_001), Name(1_000_000))
  {
    MillionthNames();
    BeforeWithPrefix("vortexmq_10000", "00.wal", "1.wal");
    BeforeWithPrefix("vortexmq_10000", "1.wal", "00.wal");
    hide Name;
  }

  // ---- different segments have different names ----

  lemma {:induction false} ZerosAreWorthNothing(k: nat, d: seq<digit>)
    ensures Value(Zeros(k) + d) == Value(d)
    decreases |d|
  {
    if d == [] {
      assert Zeros(k) + d == Zeros(k);
      ValueOfZeros(k);
    } else {
      var n := |d| - 1;
      assert (Zeros(k) + d)[..k + n] == Zeros(k) + d[..n];
      ZerosAreWorthNothing(k, d[..n]);
    }
  }

  lemma {:induction false} ValueOfZeros(k: nat)
    ensures Value(Zeros(k)) == 0
  {
    if k > 0 {
      ValueOfZeros(k - 1);
      ZerosSnoc(k - 1);
      assert (Zeros(k - 1) + [0])[..k - 1] == Zeros(k - 1);
    }
  }

  lemma TextInjective(a: seq<digit>, b: seq<digit>)
    requires Text(a) == Text(b)
    ensures a == b
  {
    assert |Text(a)| == |a| && |Text(b)| == |b|;
    forall i | 0 <= i < |a|
      ensures a[i] == b[i]
    {
      assert Text(a)[i] == ('0' as int + a[i]) as char;
      assert Text(b)[i] == ('0' as int + b[i]) as char;
    }
  }

  lemma NameInjective(i: nat, j: nat)
    requires Name(i) == Name(j)
    ensures i == j
  {
    var a, b := Padded(i, 6), Padded(j, 6);
    assert Name(i)[9..|Name(i)| - 4] == Text(a);
    assert Name(j)[9..|Name(j)| - 4] == Text(b);
    hide Text;
    TextInjective(a, b);
    ValueOfPadded(i);
    ValueOfPadded(j);
  }

  lemma ValueOfPadded(n: nat)
    ensures Value(Padded(n, 6)) == n
  {
    ValueOfDecimal(n);
    ZerosAreWorthNothing(if |Decimal(n)| < 6 then 6 - |Decimal(n)| else 0, Decimal(n));
  }

  // ---- the order is a strict total order ----

  lemma {:induction false} NotBeforeItself(a: string)
    ensures !Before(a, a)
    decreases |a|
  {
    if a != [] {
      NotBeforeItself(a[1..]);
    }
  }

  lemma {:induction false} OneIsBefore(a: string, b: string)
    ensures a == b || Before(a, b) || Before(b, a)
    decreases |a|
  {
    if a != [] && b != [] && a[0] == b[0] {
      OneIsBefore(a[1..], b[1..]);
      assert a == [a[0]] + a[1..] && b == [b[0]] + b[1..];
    }
  }

  lemma {:induction false} BeforeIsTransitive(a: string, b: string, c: string)
    requires Before(a, b) && Before(b, c)
    ensures Before(a, c)
    decreases |a|
  {
    if a != [] && a[0] == b[0] && b[0] == c[0] {
      BeforeIsTransitive(a[1..], b[1..], c[1..]);
    }
  }
}
