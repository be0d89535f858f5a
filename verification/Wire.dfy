/** RESP2 commands told byte by byte: their names, their numbers, and what the reader lets pass
    (internal/protocol/resp.go). */
module Wire {
  import opened Options
  import opened Bits
  import D = Decimals
  import opened Resp

  // ---- names ----

  /** The same text in capitals: small letters lose 32, everything else stays. */
  predicate Capitals(text: seq<byte>, name: seq<byte>) {
    && |name| == |text|
    && (forall i :: 0 <= i < |text| && 97 <= text[i] <= 122 ==> name[i] == text[i] - 32)
    && (forall i :: 0 <= i < |text| && !(97 <= text[i] <= 122) ==> name[i] == text[i])
  }

  /** A written array whose first element is ASCII text reads as the command that this text names, in
      capitals and without any small letter left. */
  lemma CommandIsNamedInCapitals(text: seq<byte>, args: seq<Option<seq<byte>>>, rest: seq<byte>,
                                 fold: seq<byte> -> seq<byte>)
    requires WithinLimits([Some(text)] + args) && forall i :: 0 <= i < |text| ==> text[i] < 128
    ensures var (r, after) := Next(Array([Some(text)] + args) + rest, fold);
            && r.Command? && r.args == args && after == rest
            && Capitals(text, r.name) && forall i :: 0 <= i < |r.name| ==> !(97 <= r.name[i] <= 122)
  {
    var els := [Some(text)] + args;
    hide Next, Array, WithinLimits;
    WrittenIsGo(els);
    ArrayReadsBackIffWithinLimits(els, rest, fold);
    assert els[0] == Some(text) && els[1..] == args;
  }

  lemma WrittenIsGo(els: seq<Option<seq<byte>>>)
    requires WithinLimits(els)
    ensures GoLengths(els)
  {
  }

  predicate SameButCase(a: seq<byte>, b: seq<byte>) {
    && |a| == |b|
    && (forall i :: 0 <= i < |a| ==>
          || a[i] == b[i]
          || (97 <= a[i] <= 122 && b[i] == a[i] - 32)
          || (97 <= b[i] <= 122 && a[i] == b[i] - 32))
  }

  /** Two spellings of a command that differ in case only are the same command. */
  lemma CaseMakesNoDifference(a: seq<byte>, b: seq<byte>, args: seq<Option<seq<byte>>>, rest: seq<byte>,
                              fold: seq<byte> -> seq<byte>)
    requires WithinLimits([Some(a)] + args) && WithinLimits([Some(b)] + args) && SameButCase(a, b)
    requires forall i :: 0 <= i < |a| ==> a[i] < 128
    ensures Next(Array([Some(a)] + args) + rest, fold) == Next(Array([Some(b)] + args) + rest, fold)
  {
    hide Next, Array, WithinLimits, SameButCase, Capitals;
    SmallIsSmall(a, b);
    CommandIsNamedInCapitals(a, args, rest, fold);
    CommandIsNamedInCapitals(b, args, rest, fold);
    var x, y := Next(Array([Some(a)] + args) + rest, fold), Next(Array([Some(b)] + args) + rest, fold);
    SameCapitals(a, b, x.0.name, y.0.name);
  }

  lemma SmallIsSmall(a: seq<byte>, b: seq<byte>)
    requires SameButCase(a, b) && forall i :: 0 <= i < |a| ==> a[i] < 128
    ensures forall i :: 0 <= i < |b| ==> b[i] < 128
  {
  }

  lemma SameCapitals(a: seq<byte>, b: seq<byte>, x: seq<byte>, y: seq<byte>)
    requires SameButCase(a, b) && Capitals(a, x) && Capitals(b, y)
    ensures x == y
  {
  }

  const PING: seq<byte> := [80, 73, 78, 71]
  const SMALL_PING: seq<byte> := [112, 105, 110, 103]

  /** A word of four letters as the only element of an array. */
  function OneWord(text: seq<byte>): seq<byte> {
    [42, 49, 13, 10, 36, 52, 13, 10] + text + [13, 10]
  }

  /** A command byte for byte, as it is written and as it is read, in capitals or not. */
  lemma PingIsPing(fold: seq<byte> -> seq<byte>)
    ensures Array([Some(PING)]) == OneWord(PING)
    ensures Next(OneWord(PING), fold) == (Command(PING, []), [])
    ensures Next(OneWord(SMALL_PING), fold) == (Command(PING, []), [])
  {
    hide Next, Array, OneWord;
    OneArrayOnTheWire(PING);
    OneArrayOnTheWire(SMALL_PING);
    OneWordReads(PING, fold);
    OneWordReads(SMALL_PING, fold);
  }

  lemma OneWordReads(text: seq<byte>, fold: seq<byte> -> seq<byte>)
    requires Capitals(text, PING)
    ensures Next(Array([Some(text)]), fold) == (Command(PING, []), [])
  {
    hide Next, Array, Capitals;
    CapitalsAreCapitals(text);
    assert [Some(text)] + [] == [Some(text)];
    assert Array([Some(text)]) + [] == Array([Some(text)]);
    CommandIsNamedInCapitals(text, [], [], fold);
    SameCapitals(text, text, Next(Array([Some(text)]), fold).0.name, PING) by {
      SameAsItself(text);
    }
  }

  lemma CapitalsAreCapitals(text: seq<byte>)
    requires Capitals(text, PING)
    ensures |text| == 4 && forall i :: 0 <= i < |text| ==> text[i] < 128
  {
  }

  lemma SameAsItself(text: seq<byte>)
    ensures SameButCase(text, text)
  {
  }

  lemma OneArrayOnTheWire(text: seq<byte>)
    requires |text| == 4
    ensures Array([Some(text)]) == OneWord(text)
  {
    assert [Some(text)][1..] == [];
    assert Bulks([]) == [];
    assert Itoa(1) == [49] && Itoa(4) == [52];
  }

  // ---- numbers ----

  /** A string of digits, however long, reads as its value wrapped to 64 bits. */
  lemma {:induction false} DigitsReadAsWrappedValue(d: seq<D.digit>)
    ensures Accumulate(Ascii(d)) == Wrap(D.Value(d))
    ensures d != [] ==> Uint(Ascii(d)) == Some(Wrap(D.Value(d)))
  {
    if d != [] {
      var n := |d| - 1;
      var v, x: int := D.Value(d[..n]), d[n];
      DigitsReadAsWrappedValue(d[..n]);
      assert Ascii(d)[..n] == Ascii(d[..n]);
      WrapOneMore(v, x);
    } else {
      WrapInRange(0);
    }
  }

  lemma WrapOneMore(v: int, x: int)
    ensures Wrap(Wrap(Wrap(v) * 10) + x) == Wrap(v * 10 + x)
  {
    hide Wrap;
    MulCongruent(v, 10);
    WrapIsMod(10 * v, 10 * Wrap(v));
    SumCongruent(v * 10, x);
  }

  lemma SumCongruent(y: int, x: int)
    ensures Wrap(Wrap(y) + x) == Wrap(y + x)
  {
    assert (y + x) - (Wrap(y) + x) == y - Wrap(y);
    WrapIsMod(y + x, Wrap(y) + x);
  }

  // ---- what the reader lets pass, and what it does not ----

  /** Any negative length means null. */
  lemma NegativeLengthIsNull(n: nat, rest: seq<byte>)
    requires 0 < n < WORD / 2
    ensures Element([DOLLAR, MINUS] + Itoa(n) + CRLF + rest) == (Args([None]), rest)
  {
    hide Line, Itoa, StripCR, Uint;
    var text := [DOLLAR, MINUS] + Itoa(n);
    var s := text + CRLF + rest;
    assert s == (text + [CR]) + [LF] + rest;
    LineIs(s, text + [CR], rest);
    StripAtEnd(text);
    assert text[1..] == [MINUS] + Itoa(n) && text[1..][1..] == Itoa(n);
    UintOfItoa(n);
    var m: int := n;
    WrapInRange(-m);
  }

  lemma StripAtEnd(text: seq<byte>)
    ensures StripCR(text + [CR]) == text
  {
    assert (text + [CR])[..|text|] == text;
  }

  /** The two bytes after a payload are skipped, whatever they are. */
  lemma TrailerIsNotLookedAt(b: seq<byte>, x: byte, y: byte, rest: seq<byte>)
    requires |b| <= MAX_BULK
    ensures Element([DOLLAR] + Itoa(|b|) + CRLF + (b + [x, y] + rest)) == (Args([Some(b)]), rest)
  {
    hide Line, Int, Itoa;
    var after := b + [x, y] + rest;
    HeaderLine(DOLLAR, |b|, after);
    UintOfItoa(|b|);
    assert ([DOLLAR] + Itoa(|b|))[1..] == Itoa(|b|);
    assert after[..|b|] == b && after[|b| + 2..] == rest;
  }

  /** A payload that ends too soon is an error. */
  lemma ShortPayloadFails(n: nat, after: seq<byte>)
    requires n <= MAX_BULK && |after| < n + 2
    ensures Element([DOLLAR] + Itoa(n) + CRLF + after) == (Bad(ShortPayload), [])
  {
    hide Line, Int, Itoa;
    HeaderLine(DOLLAR, n, after);
    UintOfItoa(n);
    assert ([DOLLAR] + Itoa(n))[1..] == Itoa(n);
  }

  /** A line that does not start like a bulk string is no element, and one that does not start like an
      array is an inline command; an empty one is an error in both cases. */
  lemma OtherLines(text: seq<byte>, rest: seq<byte>, fold: seq<byte> -> seq<byte>)
    requires NoLF(text)
    ensures var s := text + CRLF + rest;
            && (text == [] || text[0] != 36 ==> Element(s) == (Bad(NotBulk), rest))
            && (text == [] ==> Next(s, fold) == (Fail(EmptyLine), rest))
            && (text != [] && text[0] != 42 ==> Next(s, fold) == (Inline(text), rest))
  {
    hide Line, StripCR;
    var s := text + CRLF + rest;
    assert s == (text + [CR]) + [LF] + rest;
    LineIs(s, text + [CR], rest);
    StripAtEnd(text);
  }

  /** A last line that the stream ends without finishing is still a line when it is shorter than the
      64 KiB buffer; one that fills the buffer exactly is not. */
  lemma UnfinishedLine(s: seq<byte>)
    requires NoLF(s)
    ensures 0 < |s| < 65_536 ==> Line(s) == Some((s, []))
    ensures |s| == 65_536 && s[65_535] != 13 ==> Line(s) == None
    ensures |s| == 65_536 && s[65_535] == 13 ==> Line(s) == Some((s, []))
  {
    assert FindLF(s) == |s|;
    if |s| == 65_536 {
      assert TailIsLine(s) == TailIsLine(s[Piece(s)..]);
    }
  }
}
