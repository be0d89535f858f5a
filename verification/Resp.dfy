/** The RESP2 reader and writer of internal/protocol/resp.go. A stream is the sequence of bytes not
    read yet. */
module Resp {
  import opened Options
  import opened Bits
  import D = Decimals

  const LF: byte := 10
  const CR: byte := 13
  const ZERO: byte := 48
  const MINUS: byte := 45
  const STAR: byte := 42
  const DOLLAR: byte := 36
  const CRLF: seq<byte> := [CR, LF]

  const MAX_BULK: int := 64 * 1024 * 1024
  const MAX_ARGS: int := 65536

  /** The reader's buffer: a longer line arrives in pieces. */
  const CHUNK: nat := 64 * 1024

  // ---- integers ----

  predicate AllDigits(b: seq<byte>) {
    forall i :: 0 <= i < |b| ==> ZERO <= b[i] <= ZERO + 9
  }

  /** Accumulated digit by digit in 64-bit arithmetic. */
  function Accumulate(b: seq<byte>): int {
    if b == [] then 0 else Wrap(Wrap(Accumulate(b[..|b| - 1]) * 10) + (b[|b| - 1] - ZERO))
  }

  function Uint(b: seq<byte>): Option<int> {
    if b == [] || !AllDigits(b) then None else Some(Accumulate(b))
  }

  function Int(b: seq<byte>): Option<int> {
    if b != [] && b[0] == MINUS then
      match Uint(b[1..])
      case None => None
      case Some(n) => Some(Wrap(-n))
    else Uint(b)
  }

  /** parseUintBytes */
  method ParseUint(b: seq<byte>) returns (r: Option<int>)
    ensures r == Uint(b)
  {
    if |b| == 0 {
      return None;
    }
    var n := 0;
    for i := 0 to |b|
      invariant AllDigits(b[..i]) && n == Accumulate(b[..i])
    {
      var c := b[i];
      if c < ZERO || c > ZERO + 9 {
        assert !AllDigits(b);
        return None;
      }
      assert b[..i + 1][..i] == b[..i];
      n := Wrap(Wrap(n * 10) + (c - ZERO));
    }
    assert b[..|b|] == b;
    return Some(n);
  }

  /** parseIntBytes */
  method ParseInt(b: seq<byte>) returns (r: Option<int>)
    ensures r == Int(b)
  {
    if |b| == 0 {
      return None;
    }
    if b[0] == MINUS {
      var n := ParseUint(b[1..]);
      return if n.Some? then Some(Wrap(-n.value)) else None;
    }
    r := ParseUint(b);
  }

  function Ascii(d: seq<D.digit>): (b: seq<byte>)
    ensures |b| == |d| && forall i :: 0 <= i < |b| ==> b[i] == ZERO + d[i]
  {
    seq(|d|, i requires 0 <= i < |d| => ZERO + d[i])
  }

  /** strconv.Itoa of a length. */
  function Itoa(n: nat): (b: seq<byte>)
    ensures b != [] && AllDigits(b)
  {
    Ascii(D.Decimal(n))
  }

  lemma {:induction false} AccumulateIsValue(d: seq<D.digit>)
    requires D.Value(d) < WORD / 2
    ensures Accumulate(Ascii(d)) == D.Value(d)
  {
    if d != [] {
      D.ValueMonotone(d, |d| - 1);
      AccumulateIsValue(d[..|d| - 1]);
      assert Ascii(d)[..|d| - 1] == Ascii(d[..|d| - 1]);
      WrapInRange(D.Value(d[..|d| - 1]) * 10);
      WrapInRange(D.Value(d));
    }
  }

  /** Parsing inverts printing for every non-negative 64-bit integer. */
  lemma UintOfItoa(n: nat)
    requires n < WORD / 2
    ensures Uint(Itoa(n)) == Some(n) && Int(Itoa(n)) == Some(n)
  {
    D.ValueOfDecimal(n);
    AccumulateIsValue(D.Decimal(n));
  }

  // ---- lines ----

  /** Position of the first line feed, or the length. */
  function FindLF(s: seq<byte>): (k: nat)
    ensures k <= |s| && (k < |s| ==> s[k] == LF)
    ensures forall i :: 0 <= i < k ==> s[i] != LF
  {
    if s == [] then 0 else if s[0] == LF then 0 else 1 + FindLF(s[1..])
  }

  lemma FindLFAt(s: seq<byte>, k: nat)
    requires k < |s| && s[k] == LF && forall i :: 0 <= i < k ==> s[i] != LF
    ensures FindLF(s) == k
  {
  }

  function StripCR(b: seq<byte>): seq<byte> {
    if b != [] && b[|b| - 1] == CR then b[..|b| - 1] else b
  }

  /** The part of the stream a full buffer hands out; a final CR is kept back, because the LF it
      belongs to may follow. */
  function Piece(s: seq<byte>): nat
    requires |s| >= CHUNK
  {
    if s[CHUNK - 1] == CR then CHUNK - 1 else CHUNK
  }

  /** Whether a last line without line feed is returned: not when the pieces use the stream up. */
  predicate TailIsLine(s: seq<byte>)
    decreases |s|
  {
    if s == [] then false
    else if |s| < CHUNK then true
    else TailIsLine(s[Piece(s)..])
  }

  /** A line without its line ending, and the stream after it. */
  function Line(s: seq<byte>): Option<(seq<byte>, seq<byte>)> {
    var k := FindLF(s);
    if k < |s| then Some((StripCR(s[..k]), s[k + 1..]))
    else if TailIsLine(s) then Some((s, []))
    else None
  }

  // ---- commands ----

  datatype Failure =
    | EndOfStream | EmptyLine | BadCount | TooManyArgs | NotBulk | BadLength | BulkTooLong | ShortPayload

  /** `Inline` leaves the line as it is: how it splits into words is not modelled. */
  datatype Outcome =
    | Command(name: seq<byte>, args: seq<Option<seq<byte>>>)
    | Inline(line: seq<byte>)
    | Fail(why: Failure)

  datatype Args = Args(args: seq<Option<seq<byte>>>) | Bad(why: Failure)

  /** One element of a command array. */
  function Element(s: seq<byte>): (r: (Args, seq<byte>))
    ensures r.0.Args? ==> |r.0.args| == 1 && |r.1| < |s|
  {
    match Line(s)
    case None => (Bad(EndOfStream), [])
    case Some((line, rest)) =>
      if line == [] || line[0] != DOLLAR then (Bad(NotBulk), rest)
      else
        match Int(line[1..])
        case None => (Bad(BadLength), rest)
        case Some(n) =>
          if n > MAX_BULK then (Bad(BulkTooLong), rest)
          else if n < 0 then (Args([None]), rest)
          else if |rest| < n + 2 then (Bad(ShortPayload), [])
          else (Args([Some(rest[..n])]), rest[n + 2..])
  }

  function Elements(s: seq<byte>, count: nat): (Args, seq<byte>)
    decreases count
  {
    if count == 0 then (Args([]), s)
    else
      match Element(s)
      case (Bad(why), rest) => (Bad(why), rest)
      case (Args(one), rest) =>
        match Elements(rest, count - 1)
        case (Bad(why), rest') => (Bad(why), rest')
        case (Args(more), rest') => (Args(one + more), rest')
  }

  predicate IsAscii(b: seq<byte>) {
    forall i :: 0 <= i < |b| ==> b[i] < 128
  }

  function UpperByte(b: byte): byte {
    if 97 <= b <= 122 then b - 32 else b
  }

  /** bytes.ToUpper; what it does to text outside ASCII is the parameter `fold`. */
  function Upper(b: seq<byte>, fold: seq<byte> -> seq<byte>): seq<byte> {
    if IsAscii(b) then seq(|b|, i requires 0 <= i < |b| => UpperByte(b[i])) else fold(b)
  }

  function NameOf(arg: Option<seq<byte>>, fold: seq<byte> -> seq<byte>): seq<byte> {
    if arg.Some? then Upper(arg.value, fold) else []
  }

  /** ReadCommand: the next command of the stream and what follows it. */
  function Next(s: seq<byte>, fold: seq<byte> -> seq<byte>): (Outcome, seq<byte>) {
    match Line(s)
    case None => (Fail(EndOfStream), [])
    case Some((line, rest)) =>
      if line == [] then (Fail(EmptyLine), rest)
      else if line[0] != STAR then (Inline(line), rest)
      else
        match Uint(line[1..])
        case None => (Fail(BadCount), rest)
        case Some(count) =>
          if count <= 0 then (Fail(BadCount), rest)
          else if count > MAX_ARGS then (Fail(TooManyArgs), rest)
          else
            match Elements(rest, count)
            case (Bad(why), rest') => (Fail(why), rest')
            case (Args(args), rest') =>
              if args == [] then (Fail(BadCount), rest')
              else (Command(NameOf(args[0], fold), args[1..]), rest')
  }

  // ---- the reader ----

  predicate NoLF(s: seq<byte>) {
    forall i :: 0 <= i < |s| ==> s[i] != LF
  }

  lemma FindLFAfter(a: seq<byte>, b: seq<byte>)
    requires NoLF(a)
    ensures FindLF(a + b) == |a| + FindLF(b)
  {
    var k := FindLF(b);
    if k < |b| {
      FindLFAt(a + b, |a| + k);
    }
  }

  lemma StripAfter(a: seq<byte>, c: seq<byte>)
    requires c == [] && a != [] ==> a[|a| - 1] != CR
    ensures StripCR(a + c) == a + StripCR(c)
  {
    if c == [] {
      assert a + c == a;
    } else {
      assert (a + c)[..|a + c| - 1] == a + c[..|c| - 1];
    }
  }

  lemma LineIs(s: seq<byte>, line: seq<byte>, rest: seq<byte>)
    requires s == line + [LF] + rest && NoLF(line)
    ensures Line(s) == Some((StripCR(line), rest))
  {
    hide StripCR;
    FindLFAt(s, |line|);
    assert s[..|line|] == line && s[|line| + 1..] == rest;
  }

  /** The line of a stream of which `a` was read in pieces, when the rest of it is in `b`. */
  lemma LineFromPieces(a: seq<byte>, b: seq<byte>)
    requires NoLF(a) && FindLF(b) < |b|
    requires b[0] == LF && a != [] ==> a[|a| - 1] != CR
    ensures var k := FindLF(b);
            Line(a + b) == Some((a + StripCR(b[..k]), b[k + 1..]))
  {
    hide Line, FindLF, StripCR;
    var k := FindLF(b);
    FindLFAfter(a, b);
    assert b == b[..k] + [LF] + b[k + 1..];
    assert a + b == (a + b[..k]) + [LF] + b[k + 1..];
    LineIs(a + b, a + b[..k], b[k + 1..]);
    StripAfter(a, b[..k]);
  }

  /** What bufio.Reader.ReadLine does to the stream: a line, or a full buffer of one, or what is
      left at the end. */
  ghost predicate IsPiece(s: seq<byte>, piece: Option<seq<byte>>, isPrefix: bool, rest: seq<byte>) {
    var k := FindLF(s);
    if k < |s| && k < CHUNK then
      piece == Some(StripCR(s[..k])) && !isPrefix && rest == s[k + 1..]
    else if |s| >= CHUNK then
      piece == Some(s[..Piece(s)]) && isPrefix && rest == s[Piece(s)..]
    else
      !isPrefix && rest == [] && piece == if s == [] then None else Some(s)
  }

  /** `full` is the part of the first line of `s` that was read in pieces; `rest` follows. */
  ghost predicate Gathered(s: seq<byte>, full: seq<byte>, rest: seq<byte>) {
    && s == full + rest && NoLF(full)
    && (rest != [] && rest[0] == LF && full != [] ==> full[|full| - 1] != CR)
    && (FindLF(rest) == |rest| ==> TailIsLine(s) == TailIsLine(rest))
  }

  lemma GatherNothing(s: seq<byte>)
    ensures Gathered(s, [], s)
  {
    assert [] + s == s;
  }

  lemma GatherPiece(s: seq<byte>, full: seq<byte>, before: seq<byte>, piece: Option<seq<byte>>, rest: seq<byte>)
    requires Gathered(s, full, before) && IsPiece(before, piece, true, rest)
    ensures piece.Some? && Gathered(s, full + piece.value, rest) && |rest| < |before|
  {
    var p := piece.value;
    assert before == p + rest;
    assert NoLF(p);
    FindLFAfter(p, rest);
    hide FindLF;
    assert full + (p + rest) == (full + p) + rest;
  }

  lemma GatherLast(s: seq<byte>, full: seq<byte>, before: seq<byte>, piece: Option<seq<byte>>, rest: seq<byte>)
    requires Gathered(s, full, before) && IsPiece(before, piece, false, rest)
    ensures match Line(s)
            case None => piece == None && rest == []
            case Some((line, after)) => piece.Some? && full + piece.value == line && rest == after
  {
    hide TailIsLine, StripCR;
    if FindLF(before) < |before| {
      LineFromPieces(full, before);
    } else {
      FindLFAfter(full, before);
      ShortTail(before);
    }
  }

  lemma ShortTail(s: seq<byte>)
    requires |s| < CHUNK
    ensures TailIsLine(s) == (s != [])
  {
  }

  class Reader {
    var input: seq<byte>
    const fold: seq<byte> -> seq<byte>

    constructor (input: seq<byte>, fold: seq<byte> -> seq<byte>)
      ensures this.input == input && this.fold == fold
    {
      this.input, this.fold := input, fold;
    }

    method ReadPiece() returns (piece: Option<seq<byte>>, isPrefix: bool)
      modifies this`input
      ensures IsPiece(old(input), piece, isPrefix, input)
    {
      var k := FindLF(input);
      if k < |input| && k < CHUNK {
        piece, isPrefix := Some(StripCR(input[..k])), false;
        input := input[k + 1..];
      } else if |input| >= CHUNK {
        var n := Piece(input);
        piece, isPrefix := Some(input[..n]), true;
        input := input[n..];
      } else {
        piece, isPrefix := if |input| == 0 then None else Some(input), false;
        input := [];
      }
    }

    /** readLine: however many pieces it takes, the line comes out whole. */
    method ReadLine() returns (r: Option<seq<byte>>)
      modifies this`input
      ensures match Line(old(input))
              case None => r == None && input == []
              case Some((line, rest)) => r == Some(line) && input == rest
    {
      hide IsPiece, Gathered, Line;
      ghost var s, before := input, input;
      GatherNothing(s);
      var piece, isPrefix := ReadPiece();
      var full: seq<byte> := [];
      while isPrefix
        invariant Gathered(s, full, before) && IsPiece(before, piece, isPrefix, input)
        decreases |before|, isPrefix
      {
        GatherPiece(s, full, before, piece, input);
        full := full + piece.value;
        before := input;
        piece, isPrefix := ReadPiece();
      }
      GatherLast(s, full, before, piece, input);
      return if piece.None? then None else Some(full + piece.value);
    }

    /** One element of a command array. */
    method ReadElement() returns (r: Args)
      modifies this`input
      ensures (r, input) == Element(old(input))
    {
      hide Line, Int;
      var line := ReadLine();
      if line.None? {
        return Bad(EndOfStream);
      }
      if |line.value| == 0 || line.value[0] != DOLLAR {
        return Bad(NotBulk);
      }
      var n := ParseInt(line.value[1..]);
      if n.None? {
        return Bad(BadLength);
      }
      if n.value > MAX_BULK {
        return Bad(BulkTooLong);
      }
      if n.value < 0 {
        return Args([None]);
      }
      if |input| < n.value + 2 {
        input := [];
        return Bad(ShortPayload);
      }
      r := Args([Some(input[..n.value])]);
      input := input[n.value + 2..];
    }

    /** ReadCommand */
    method ReadCommand() returns (r: Outcome)
      modifies this`input
      ensures (r, input) == Next(old(input), fold)
    {
      hide Line, Uint, Element;
      var line := ReadLine();
      if line.None? {
        return Fail(EndOfStream);
      }
      if |line.value| == 0 {
        return Fail(EmptyLine);
      }
      if line.value[0] != STAR {
        return Inline(line.value);
      }
      var count := ParseUint(line.value[1..]);
      if count.None? || count.value <= 0 {
        return Fail(BadCount);
      }
      if count.value > MAX_ARGS {
        return Fail(TooManyArgs);
      }
      var args: seq<Option<seq<byte>>> := [];
      ghost var start := input;
      PrependNone(Elements(start, count.value));
      for i := 0 to count.value
        invariant Prepend(args, Elements(input, count.value - i)) == Elements(start, count.value)
      {
        ghost var here := input;
        ElementsUnfold(here, count.value - i);
        var one := ReadElement();
        if one.Bad? {
          return Fail(one.why);
        }
        PrependTwice(args, one.args, Elements(input, count.value - i - 1));
        args := args + one.args;
      }
      assert Elements(input, 0) == (Args([]), input);
      assert args + [] == args;
      if |args| == 0 {
        return Fail(BadCount);
      }
      return Command(NameOf(args[0], fold), args[1..]);
    }
  }

  function Prepend(args: seq<Option<seq<byte>>>, r: (Args, seq<byte>)): (Args, seq<byte>) {
    if r.0.Bad? then r else (Args(args + r.0.args), r.1)
  }

  lemma PrependNone(r: (Args, seq<byte>))
    ensures Prepend([], r) == r
  {
    if r.0.Args? {
      assert [] + r.0.args == r.0.args;
    }
  }

  lemma PrependTwice(a: seq<Option<seq<byte>>>, b: seq<Option<seq<byte>>>, r: (Args, seq<byte>))
    ensures Prepend(a, Prepend(b, r)) == Prepend(a + b, r)
  {
    if r.0.Args? {
      assert a + (b + r.0.args) == (a + b) + r.0.args;
    }
  }

  lemma ElementsUnfold(s: seq<byte>, count: nat)
    requires count > 0
    ensures Elements(s, count) == if Element(s).0.Bad? then Element(s)
                                  else Prepend(Element(s).0.args, Elements(Element(s).1, count - 1))
  {
    hide Element;
  }

  /** Whatever the stream holds, digit strings that overflow included, an accepted array command
      stands for 1 to 65536 elements, the one that gives its name included, each null or at most
      64 MiB; and reading it uses up part of the stream. */
  lemma AcceptedIsBounded(s: seq<byte>, fold: seq<byte> -> seq<byte>)
    ensures var (r, rest) := Next(s, fold);
            r.Command? ==> |rest| < |s| && exists els :: WithinLimits(els) && r == CommandOf(els, fold)
  {
    hide Line, Uint, Elements;
    if Line(s).Some? && Line(s).value.0 != [] {
      LineShrinks(s);
      var (line, rest) := Line(s).value;
      var n := Uint(line[1..]);
      if n.Some? && 0 < n.value <= MAX_ARGS {
        ElementsAreBounded(rest, n.value);
        if Elements(rest, n.value).0.Args? {
          var els := Elements(rest, n.value).0.args;
          assert WithinLimits(els);
        }
      }
    }
  }

  lemma LineShrinks(s: seq<byte>)
    ensures Line(s).Some? ==> |Line(s).value.1| < |s|
  {
  }

  lemma {:induction false} ElementsAreBounded(s: seq<byte>, count: nat)
    ensures var (r, rest) := Elements(s, count);
            r.Args? ==>
              && |r.args| == count && |rest| <= |s|
              && (forall i :: 0 <= i < count ==> r.args[i].None? || |r.args[i].value| <= 67_108_864)
    decreases count
  {
    hide Line, Int;
    if count > 0 {
      ElementsUnfold(s, count);
      ElementsAreBounded(Element(s).1, count - 1);
    }
  }

  // ---- the writer ----

  const NULL_BULK: seq<byte> := [DOLLAR, MINUS, ZERO + 1] + CRLF

  function Bulk(b: Option<seq<byte>>): seq<byte> {
    match b
    case None => NULL_BULK
    case Some(bytes) => [DOLLAR] + Itoa(|bytes|) + CRLF + bytes + CRLF
  }

  function Bulks(els: seq<Option<seq<byte>>>): seq<byte> {
    if els == [] then [] else Bulk(els[0]) + Bulks(els[1..])
  }

  function Array(els: seq<Option<seq<byte>>>): seq<byte> {
    [STAR] + Itoa(|els|) + CRLF + Bulks(els)
  }

  class Writer {
    var out: seq<byte>

    constructor ()
      ensures out == []
    {
      out := [];
    }

    method WriteBulkString(b: Option<seq<byte>>)
      modifies this
      ensures out == old(out) + Bulk(b)
    {
      if b.None? {
        out := out + NULL_BULK;
        return;
      }
      out := out + [DOLLAR];
      out := out + Itoa(|b.value|);
      out := out + CRLF;
      out := out + b.value;
      out := out + CRLF;
    }

    /** `None` is the nil slice, which is written like an empty one. */
    method WriteArray(elements: Option<seq<Option<seq<byte>>>>)
      modifies this
      ensures out == old(out) + Array(if elements.Some? then elements.value else [])
    {
      if elements.None? {
        NilArray();
        out := out + ([STAR, ZERO] + CRLF);
        return;
      }
      hide Itoa, Bulk;
      var els := elements.value;
      out := out + [STAR];
      out := out + Itoa(|els|);
      out := out + CRLF;
      WriteBulks(els);
      ArrayParts(old(out), els);
    }

    method WriteBulks(els: seq<Option<seq<byte>>>)
      modifies this
      ensures out == old(out) + Bulks(els)
    {
      hide Bulk;
      ghost var head := out;
      for i := 0 to |els|
        invariant out == head + Bulks(els[..i])
      {
        BulksSnoc(els[..i], els[i]);
        assert els[..i + 1] == els[..i] + [els[i]];
        Regroup(head, Bulks(els[..i]), Bulk(els[i]));
        WriteBulkString(els[i]);
      }
      assert els[..|els|] == els;
    }
  }

  lemma Regroup(a: seq<byte>, b: seq<byte>, c: seq<byte>)
    ensures a + (b + c) == (a + b) + c
  {
  }

  lemma ArrayParts(before: seq<byte>, els: seq<Option<seq<byte>>>)
    ensures before + Array(els) == before + [STAR] + Itoa(|els|) + CRLF + Bulks(els)
  {
    hide Itoa, Bulks;
    Regroup(before, [STAR] + Itoa(|els|) + CRLF, Bulks(els));
    Regroup(before, [STAR] + Itoa(|els|), CRLF);
    Regroup(before, [STAR], Itoa(|els|));
  }

  lemma NilArray()
    ensures Array([]) == [STAR, ZERO] + CRLF
  {
    assert D.Decimal(0) == [0];
  }

  lemma {:induction false} BulksSnoc(els: seq<Option<seq<byte>>>, e: Option<seq<byte>>)
    ensures Bulks(els + [e]) == Bulks(els) + Bulk(e)
  {
    hide Bulk;
    if els == [] {
      assert [e][1..] == [];
      assert els + [e] == [e];
      assert Bulk(e) + [] == Bulk(e);
    } else {
      BulksSnoc(els[1..], e);
      assert (els + [e])[1..] == els[1..] + [e];
      assert Bulk(els[0]) + (Bulks(els[1..]) + Bulk(e)) == Bulk(els[0]) + Bulks(els[1..]) + Bulk(e);
    }
  }

  // ---- reading back what was written ----

  /** A number on a line of its own, behind a type byte. */
  lemma HeaderLine(tag: byte, n: nat, rest: seq<byte>)
    requires tag != LF && tag != CR
    ensures Line([tag] + Itoa(n) + CRLF + rest) == Some(([tag] + Itoa(n), rest))
  {
    hide Line, Itoa;
    var text := [tag] + Itoa(n);
    var s := text + CRLF + rest;
    assert s == (text + [CR]) + [LF] + rest;
    LineIs(s, text + [CR], rest);
    assert (text + [CR])[..|text|] == text;
  }

  predicate Sendable(b: Option<seq<byte>>) {
    b.None? || |b.value| <= 67_108_864
  }

  /** A written bulk string reads back, whatever bytes it holds. */
  lemma ElementOfBulk(b: Option<seq<byte>>, rest: seq<byte>)
    requires Sendable(b)
    ensures Element(Bulk(b) + rest) == (Args([b]), rest)
  {
    if b.None? {
      NullLine(rest);
      hide Line;
      assert [MINUS, ZERO + 1][1..] == [ZERO + 1];
      MinusOne();
    } else {
      var n := |b.value|;
      var after := b.value + CRLF + rest;
      HeaderLine(DOLLAR, n, after);
      UintOfItoa(n);
      hide Line, Int, Itoa;
      assert Bulk(b) + rest == [DOLLAR] + Itoa(n) + CRLF + after;
      assert ([DOLLAR] + Itoa(n))[1..] == Itoa(n);
      assert after[..n] == b.value && after[n + 2..] == rest;
    }
  }

  lemma MinusOne()
    ensures Int([MINUS, ZERO + 1]) == Some(-1)
  {
    assert [MINUS, ZERO + 1][1..] == [ZERO + 1];
    assert [ZERO + 1][..0] == [];
    assert Accumulate([ZERO + 1]) == 1;
  }

  lemma NullLine(rest: seq<byte>)
    ensures Line(NULL_BULK + rest) == Some(([DOLLAR, MINUS, ZERO + 1], rest))
    ensures [DOLLAR, MINUS, ZERO + 1][1..] == [MINUS, ZERO + 1]
  {
    hide Line;
    var line := [DOLLAR, MINUS, ZERO + 1, CR];
    assert NULL_BULK + rest == line + [LF] + rest;
    LineIs(NULL_BULK + rest, line, rest);
    assert line[..3] == [DOLLAR, MINUS, ZERO + 1];
  }

  /** A bulk string over the limit is refused. */
  lemma ElementOfHugeBulk(b: seq<byte>, rest: seq<byte>)
    requires 67_108_864 < |b| < WORD / 2
    ensures Element(Bulk(Some(b)) + rest).0 == Bad(BulkTooLong)
  {
    hide Line, Int, Itoa, Uint, Accumulate;
    var after := b + CRLF + rest;
    HeaderLine(DOLLAR, |b|, after);
    UintOfItoa(|b|);
    assert Bulk(Some(b)) + rest == [DOLLAR] + Itoa(|b|) + CRLF + after;
    assert ([DOLLAR] + Itoa(|b|))[1..] == Itoa(|b|);
  }

  predicate AllSendable(els: seq<Option<seq<byte>>>) {
    forall i :: 0 <= i < |els| ==> Sendable(els[i])
  }

  lemma {:induction false} ElementsOfBulks(els: seq<Option<seq<byte>>>, rest: seq<byte>)
    requires AllSendable(els)
    ensures Elements(Bulks(els) + rest, |els|) == (Args(els), rest)
    decreases |els|
  {
    hide Element, Bulk;
    if els == [] {
      assert Bulks(els) + rest == rest;
    } else {
      var after := Bulks(els[1..]) + rest;
      ElementOfBulk(els[0], after);
      assert Bulks(els) + rest == Bulk(els[0]) + after;
      ElementsUnfold(Bulk(els[0]) + after, |els|);
      ElementsOfBulks(els[1..], rest);
      assert [els[0]] + els[1..] == els;
    }
  }

  predicate GoLengths(els: seq<Option<seq<byte>>>) {
    |els| < WORD / 2 && forall i :: 0 <= i < |els| && els[i].Some? ==> |els[i].value| < WORD / 2
  }

  lemma {:induction false} HugeBulkIsRefused(els: seq<Option<seq<byte>>>, rest: seq<byte>)
    requires GoLengths(els) && !AllSendable(els)
    ensures Elements(Bulks(els) + rest, |els|).0.Bad?
    decreases |els|
  {
    hide Element, Bulk;
    var after := Bulks(els[1..]) + rest;
    assert Bulks(els) + rest == Bulk(els[0]) + after;
    ElementsUnfold(Bulk(els[0]) + after, |els|);
    if Sendable(els[0]) {
      ElementOfBulk(els[0], after);
      HugeBulkIsRefused(els[1..], rest);
    } else {
      ElementOfHugeBulk(els[0].value, after);
    }
  }

  /** An array command within the limits. */
  predicate WithinLimits(els: seq<Option<seq<byte>>>) {
    1 <= |els| <= 65_536 && AllSendable(els)
  }

  /** The command an array stands for. */
  function CommandOf(els: seq<Option<seq<byte>>>, fold: seq<byte> -> seq<byte>): Outcome {
    if els == [] then Fail(BadCount) else Command(NameOf(els[0], fold), els[1..])
  }

  function CommandsOf(cmds: seq<seq<Option<seq<byte>>>>, fold: seq<byte> -> seq<byte>): (rs: seq<Outcome>)
    ensures |rs| == |cmds| && forall i :: 0 <= i < |cmds| ==> rs[i] == CommandOf(cmds[i], fold)
  {
    if cmds == [] then [] else [CommandOf(cmds[0], fold)] + CommandsOf(cmds[1..], fold)
  }

  /** A written array is read as the command it stands for, leaving the rest of the stream alone,
      exactly when it is within the limits. Elements may be null or any bytes, line endings
      included. */
  lemma ArrayReadsBackIffWithinLimits(els: seq<Option<seq<byte>>>, rest: seq<byte>, fold: seq<byte> -> seq<byte>)
    requires GoLengths(els)
    ensures WithinLimits(els) ==> Next(Array(els) + rest, fold) == (CommandOf(els, fold), rest)
    ensures !WithinLimits(els) ==> Next(Array(els) + rest, fold).0.Fail?
  {
    hide Line, Uint, Elements, Bulks, Itoa;
    var n := |els|;
    var after := Bulks(els) + rest;
    HeaderLine(STAR, n, after);
    UintOfItoa(n);
    assert Array(els) + rest == [STAR] + Itoa(n) + CRLF + after;
    assert ([STAR] + Itoa(n))[1..] == Itoa(n);
    if AllSendable(els) {
      ElementsOfBulks(els, rest);
    } else {
      HugeBulkIsRefused(els, rest);
    }
  }

  /** Several arrays, one behind the other. */
  function Pipeline(cmds: seq<seq<Option<seq<byte>>>>): seq<byte> {
    if cmds == [] then [] else Array(cmds[0]) + Pipeline(cmds[1..])
  }

  /** The next n commands of a stream and what follows them. */
  function Take(s: seq<byte>, n: nat, fold: seq<byte> -> seq<byte>): (seq<Outcome>, seq<byte>)
    decreases n
  {
    if n == 0 then ([], s)
    else
      var (first, rest) := Next(s, fold);
      var (more, rest') := Take(rest, n - 1, fold);
      ([first] + more, rest')
  }

  /** Pipelined commands are read one by one, in order, and nothing behind them is touched. */
  lemma {:induction false} PipelineReadsBack(cmds: seq<seq<Option<seq<byte>>>>, rest: seq<byte>,
                                             fold: seq<byte> -> seq<byte>)
    requires forall i :: 0 <= i < |cmds| ==> WithinLimits(cmds[i])
    ensures Take(Pipeline(cmds) + rest, |cmds|, fold) == (CommandsOf(cmds, fold), rest)
    decreases |cmds|
  {
    hide Next, Array, CommandOf;
    if cmds == [] {
      assert Pipeline(cmds) + rest == rest;
    } else {
      var after := Pipeline(cmds[1..]) + rest;
      assert Pipeline(cmds) + rest == Array(cmds[0]) + after;
      assert WithinLimits(cmds[0]);
      ArrayReadsBackIffWithinLimits(cmds[0], after, fold);
      PipelineReadsBack(cmds[1..], rest, fold);
    }
  }
}
