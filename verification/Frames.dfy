/** The record format of internal/wal/wal.go and the reader that stops at the first bad record. */
module Frames {
  import opened Options
  import opened Bits
  import opened Crc

  datatype Record = Record(op: byte, payload: seq<byte>)

  /** The longest payload whose record length still fits 32 bits is one byte shorter than this. */
  const TOO_LONG: nat := LIMIT - 9

  predicate Encodable(r: Record) {
    |r.payload| < TOO_LONG
  }

  /** The last k base-256 digits of a number, most significant first. */
  function Digits(n: nat, k: nat): (b: seq<byte>)
    ensures |b| == k
  {
    if k == 0 then [] else Digits(n / 256, k - 1) + [n % 256]
  }

  function Value(b: seq<byte>): nat {
    if b == [] then 0 else Value(b[..|b| - 1]) * 256 + b[|b| - 1]
  }

  lemma {:induction false} ValueOfDigits(n: nat, k: nat)
    requires n < Pow2(8 * k)
    ensures Value(Digits(n, k)) == n
    decreases k
  {
    if k > 0 {
      var d := Digits(n / 256, k - 1);
      EightBits(k);
      ValueOfDigits(n / 256, k - 1);
      assert (d + [n % 256])[..k - 1] == d;
    }
  }

  lemma EightBits(k: nat)
    requires k > 0
    ensures Pow2(8 * k) == 256 * Pow2(8 * (k - 1))
  {
    Pow2Add(8, 8 * (k - 1));
    assert Pow2(8) == 256;
  }

  lemma {:induction false} DigitsOfValue(b: seq<byte>)
    ensures Value(b) < Pow2(8 * |b|) && Digits(Value(b), |b|) == b
  {
    if b != [] {
      EightBits(|b|);
      DigitsOfValue(b[..|b| - 1]);
      assert b == b[..|b| - 1] + [b[|b| - 1]];
    }
  }

  /** binary.BigEndian.PutUint32 */
  function Big(n: nat): (b: seq<byte>)
    requires n < LIMIT
    ensures |b| == 4
  {
    Digits(n, 4)
  }

  /** binary.BigEndian.Uint32 */
  function FromBig(b: seq<byte>): nat
    requires |b| == 4
  {
    Value(b)
  }

  /** Most significant byte first. */
  lemma BigIsBigEndian(n: nat)
    requires n < LIMIT
    ensures Big(n) == [n / 16777216, n / 65536 % 256, n / 256 % 256, n % 256]
  {
    assert Digits(n / 16777216, 1) == [n / 16777216 % 256];
    assert Digits(n / 65536, 2) == Digits(n / 16777216, 1) + [n / 65536 % 256];
    assert Digits(n / 256, 3) == Digits(n / 65536, 2) + [n / 256 % 256];
  }

  lemma BigRoundTrip(n: nat)
    requires n < LIMIT
    ensures FromBig(Big(n)) == n
  {
    Bounds();
    ValueOfDigits(n, 4);
  }

  lemma BigInjective(b: seq<byte>)
    requires |b| == 4
    ensures FromBig(b) < LIMIT && Big(FromBig(b)) == b
  {
    Bounds();
    DigitsOfValue(b);
  }

  /** The checksum as the writer forms it: first the opcode, then the payload. */
  function Sum(r: Record): (c: nat)
    ensures c < LIMIT && c == Checksum([r.op] + r.payload)
  {
    StreamingIsOneShot([r.op], r.payload);
    ChecksumFits([r.op] + r.payload);
    Update(Update(0, [r.op]), r.payload)
  }

  /** The length field, in 32-bit arithmetic. */
  function FrameLength(r: Record): nat {
    (9 + |r.payload|) % LIMIT
  }

  /** The bytes written for a record, or nothing where the buffer is too short for the fixed part
      and the writer panics. A payload that does not fit the buffer is cut off by the copy. */
  function Frame(r: Record): Option<seq<byte>> {
    var total := FrameLength(r);
    if total < 9 then None
    else Some(Big(total) + Big(Sum(r)) + [r.op] +
              (if |r.payload| < total - 9 then r.payload else r.payload[..total - 9]))
  }

  lemma FrameOfEncodable(r: Record)
    requires Encodable(r)
    ensures Frame(r) == Some(Big(9 + |r.payload|) + Big(Sum(r)) + [r.op] + r.payload)
    ensures |Frame(r).value| == 9 + |r.payload|
  {
    hide Big, Sum;
    assert r.payload[..|r.payload|] == r.payload;
  }

  /** One turn of the reader's loop on what is left of a segment: a record, or the end. */
  function Read(b: seq<byte>): (r: Option<(Record, nat)>)
    ensures r.Some? ==> 9 <= r.value.1 <= |b| && r.value.1 == 9 + |r.value.0.payload|
  {
    if |b| < 8 then None
    else
      var total := FromBig(b[..4]);
      if total < 9 || |b| < total then None
      else if Checksum(b[8..total]) != FromBig(b[4..8]) then None
      else Some((Record(b[8], b[9..total]), total))
  }

  /** Everything the reader gets out of a segment. */
  function Records(b: seq<byte>): seq<Record>
    decreases |b|
  {
    match Read(b)
    case None => []
    case Some((r, n)) => [r] + Records(b[n..])
  }

  /** Reading a frame back, whatever follows it. */
  lemma ReadFrame(r: Record, rest: seq<byte>)
    requires Encodable(r)
    ensures Read(Frame(r).value + rest) == Some((r, |Frame(r).value|))
  {
    FrameOfEncodable(r);
    var total := 9 + |r.payload|;
    var b := Frame(r).value + rest;
    BigRoundTrip(total);
    BigRoundTrip(Sum(r));
    hide Big, FromBig, Checksum;
    hide Frame;
    assert b[..4] == Big(total);
    assert b[4..8] == Big(Sum(r));
    assert b[8..total] == [r.op] + r.payload;
    assert b[9..total] == r.payload;
  }

  lemma ReadFirst(r: Record, rest: seq<byte>)
    requires Encodable(r)
    ensures Frame(r).Some? && Records(Frame(r).value + rest) == [r] + Records(rest)
  {
    FrameOfEncodable(r);
    ReadFrame(r, rest);
    hide Read, Frame;
    var f := Frame(r).value;
    assert (f + rest)[|f|..] == rest;
  }

  /** A record survives being written and read exactly when its payload is short enough. */
  lemma RoundTripsIffEncodable(r: Record)
    ensures (Frame(r).Some? && Records(Frame(r).value) == [r]) <==> Encodable(r)
  {
    if Encodable(r) {
      EncodeOne(r);
      LogRoundTrips([r]);
    } else if Frame(r).Some? {
      LongFrameIsShort(r);
      FirstRecordFits(Frame(r).value);
    }
  }

  lemma LongFrameIsShort(r: Record)
    requires !Encodable(r) && Frame(r).Some?
    ensures |Frame(r).value| < LIMIT
  {
    hide Big, Checksum;
  }

  lemma FirstRecordFits(b: seq<byte>)
    ensures Records(b) != [] ==> 9 + |Records(b)[0].payload| <= |b|
  {
    hide FromBig, Checksum;
  }

  predicate AllEncodable(rs: seq<Record>) {
    forall i :: 0 <= i < |rs| ==> Encodable(rs[i])
  }

  /** The frames of a list of records, one after the other. */
  function Encode(rs: seq<Record>): seq<byte>
    requires AllEncodable(rs)
  {
    if rs == [] then []
    else
      FrameOfEncodable(rs[0]);
      Frame(rs[0]).value + Encode(rs[1..])
  }

  lemma {:induction false} EncodeConcat(a: seq<Record>, b: seq<Record>)
    requires AllEncodable(a) && AllEncodable(b)
    ensures Encode(a + b) == Encode(a) + Encode(b)
    decreases |a|
  {
    hide Encode, Frame, Encodable;
    EncodeUnfold(a);
    EncodeUnfold(a + b);
    if a == [] {
      assert a + b == b;
    } else {
      assert (a + b)[0] == a[0] && (a + b)[1..] == a[1..] + b;
      EncodeConcat(a[1..], b);
    }
  }

  lemma EncodeUnfold(rs: seq<Record>)
    requires AllEncodable(rs)
    ensures rs == [] ==> Encode(rs) == []
    ensures rs != [] ==> Frame(rs[0]).Some? && Encode(rs) == Frame(rs[0]).value + Encode(rs[1..])
  {
    if rs != [] {
      FrameOfEncodable(rs[0]);
    }
  }

  lemma EncodeOne(r: Record)
    requires Encodable(r)
    ensures Frame(r).Some? && Encode([r]) == Frame(r).value
  {
    FrameOfEncodable(r);
    assert [r][1..] == [];
    assert Encode([]) == [];
  }

  /** How many of the records lie wholly within the first n bytes. */
  function Whole(rs: seq<Record>, n: nat): (k: nat)
    requires AllEncodable(rs)
    ensures k <= |rs|
    decreases |rs|
  {
    if rs == [] then 0
    else
      FrameOfEncodable(rs[0]);
      var f := |Frame(rs[0]).value|;
      if f <= n then 1 + Whole(rs[1..], n - f) else 0
  }

  lemma WholeUnfold(rs: seq<Record>, n: nat)
    requires AllEncodable(rs)
    ensures rs == [] ==> Whole(rs, n) == 0
    ensures rs != [] ==>
              var f := 9 + |rs[0].payload|;
              Whole(rs, n) == if f <= n then 1 + Whole(rs[1..], n - f) else 0
  {
    if rs != [] {
      FrameOfEncodable(rs[0]);
    }
  }

  /** `Whole` is what its name says. */
  lemma {:induction false} WholeIsLargest(rs: seq<Record>, n: nat)
    requires AllEncodable(rs)
    ensures var k := Whole(rs, n);
            |Encode(rs[..k])| <= n && (k < |rs| ==> n < |Encode(rs[..k + 1])|)
    decreases |rs|
  {
    hide Encode, Frame, Whole, Encodable;
    EncodeUnfold([]);
    WholeUnfold(rs, n);
    if rs != [] {
      FrameOfEncodable(rs[0]);
      var f, k := |Frame(rs[0]).value|, Whole(rs, n);
      if f <= n {
        WholeIsLargest(rs[1..], n - f);
        EncodeUnfold(rs[..k]);
        assert rs[..k][1..] == rs[1..][..k - 1];
      }
      if k < |rs| {
        EncodeUnfold(rs[..k + 1]);
        assert rs[..k + 1][1..] == rs[1..][..k];
      }
    }
  }

  lemma {:induction false} WholeMonotone(rs: seq<Record>, m: nat, n: nat)
    requires AllEncodable(rs) && m <= n
    ensures Whole(rs, m) <= Whole(rs, n)
    decreases |rs|
  {
    if rs != [] {
      FrameOfEncodable(rs[0]);
      var f := |Frame(rs[0]).value|;
      if f <= m {
        WholeMonotone(rs[1..], m - f, n - f);
      }
    }
  }

  lemma {:induction false} WholeOfAll(rs: seq<Record>)
    requires AllEncodable(rs)
    ensures Whole(rs, |Encode(rs)|) == |rs|
  {
    if rs != [] {
      FrameOfEncodable(rs[0]);
      WholeOfAll(rs[1..]);
    }
  }

  /** A record that is cut short is not read, and neither is anything else. */
  lemma ReadCutFrame(r: Record, n: nat)
    requires Encodable(r) && n < 9 + |r.payload|
    ensures |Frame(r).value| == 9 + |r.payload|
    ensures Read(Frame(r).value[..n]) == None
  {
    FrameOfEncodable(r);
    var f := Frame(r).value;
    var total := 9 + |r.payload|;
    BigRoundTrip(total);
    hide Big, FromBig, Checksum;
    if n >= 8 {
      assert f[..n][..4] == Big(total);
    }
  }

  /** Reading any cut of a log returns exactly the records that lie wholly before the cut. */
  lemma {:induction false} CutLogYieldsWholeRecords(rs: seq<Record>, n: nat)
    requires AllEncodable(rs) && n <= |Encode(rs)|
    ensures Records(Encode(rs)[..n]) == rs[..Whole(rs, n)]
    decreases |rs|
  {
    hide Records, Frame, Encode, Read;
    EncodeUnfold(rs);
    if rs == [] {
      NothingToRead();
    } else {
      FrameOfEncodable(rs[0]);
      var f, rest := Frame(rs[0]).value, Encode(rs[1..]);
      if |f| <= n {
        var m := n - |f|;
        ReadFirst(rs[0], rest[..m]);
        assert (f + rest)[..n] == f + rest[..m];
        CutLogYieldsWholeRecords(rs[1..], m);
        assert rs[..Whole(rs, n)] == [rs[0]] + rs[1..][..Whole(rs[1..], m)];
      } else {
        ReadCutFrame(rs[0], n);
        assert (f + rest)[..n] == f[..n];
        UnreadableYieldsNothing(f[..n]);
      }
    }
  }

  lemma UnreadableYieldsNothing(b: seq<byte>)
    requires Read(b) == None
    ensures Records(b) == []
  {
  }

  lemma NothingToRead()
    ensures Records([]) == []
  {
  }

  /** So a whole log reads back as what was written. */
  lemma LogRoundTrips(rs: seq<Record>)
    requires AllEncodable(rs)
    ensures Records(Encode(rs)) == rs
  {
    WholeOfAll(rs);
    CutLogYieldsWholeRecords(rs, |Encode(rs)|);
    assert Encode(rs)[..|Encode(rs)|] == Encode(rs);
    assert rs[..|rs|] == rs;
  }

  /** Whatever comes after good records, they are read first. */
  lemma {:induction false} GoodRecordsFirst(rs: seq<Record>, rest: seq<byte>)
    requires AllEncodable(rs)
    ensures Records(Encode(rs) + rest) == rs + Records(rest)
    decreases |rs|
  {
    hide Records, Frame, Encode;
    EncodeUnfold(rs);
    if rs == [] {
      assert [] + rest == rest;
    } else {
      var f, tail := Frame(rs[0]).value, Encode(rs[1..]);
      assert (f + tail) + rest == f + (tail + rest);
      ReadFirst(rs[0], tail + rest);
      GoodRecordsFirst(rs[1..], rest);
      assert [rs[0]] + (rs[1..] + Records(rest)) == rs + Records(rest);
    }
  }

  /** A frame whose stored checksum does not match its body ends the reading of its segment. */
  lemma MismatchStops(total: nat, crc: nat, body: seq<byte>, rest: seq<byte>)
    requires 9 <= total < LIMIT && crc < LIMIT && |body| == total - 8
    requires Checksum(body) != crc
    ensures Records(Big(total) + Big(crc) + body + rest) == []
  {
    var b := Big(total) + Big(crc) + body + rest;
    BigRoundTrip(total);
    BigRoundTrip(crc);
    hide Big, FromBig, Checksum;
    assert b[..4] == Big(total);
    assert b[4..8] == Big(crc);
    assert b[8..total] == body;
  }

  /** Damage to up to four consecutive bytes of opcode and payload is always detected: the segment
      yields exactly the records before it. */
  lemma DamagedBodyIsDetected(before: seq<Record>, r: Record, a: seq<byte>, x: seq<byte>, y: seq<byte>, z: seq<byte>,
                              rest: seq<byte>)
    requires AllEncodable(before) && Encodable(r)
    requires [r.op] + r.payload == a + x + z
    requires |x| == |y| <= 4 && x != y
    ensures Records(Encode(before) + (Big(9 + |r.payload|) + Big(Sum(r)) + (a + y + z) + rest)) == before
  {
    BurstIsDetected(a, x, y, z);
    MismatchStops(9 + |r.payload|, Sum(r), a + y + z, rest);
    var bad := Big(9 + |r.payload|) + Big(Sum(r)) + (a + y + z) + rest;
    GoodRecordsFirst(before, bad);
    assert before + [] == before;
  }

  /** Any damage to the checksum field is detected in the same way. */
  lemma DamagedChecksumIsDetected(before: seq<Record>, r: Record, field: seq<byte>, rest: seq<byte>)
    requires AllEncodable(before) && Encodable(r) && |field| == 4 && field != Big(Sum(r))
    ensures Records(Encode(before) + (Big(9 + |r.payload|) + field + ([r.op] + r.payload) + rest)) == before
  {
    BigInjective(field);
    assert FromBig(field) != Sum(r);
    MismatchStops(9 + |r.payload|, FromBig(field), [r.op] + r.payload, rest);
    GoodRecordsFirst(before, Big(9 + |r.payload|) + field + ([r.op] + r.payload) + rest);
    assert before + [] == before;
  }

  lemma FrameParts(r: Record)
    requires Encodable(r)
    ensures Frame(r) == Some(Big(9 + |r.payload|) + Big(Sum(r)) + ([r.op] + r.payload))
  {
    FrameOfEncodable(r);
    hide Big, Frame, Sum;
    assert Big(9 + |r.payload|) + Big(Sum(r)) + [r.op] + r.payload ==
           Big(9 + |r.payload|) + Big(Sum(r)) + ([r.op] + r.payload);
  }

  /** A single changed byte anywhere behind the length field of a record is always detected. */
  lemma DamagedByteIsDetected(before: seq<Record>, r: Record, i: nat, b: byte, rest: seq<byte>)
    requires AllEncodable(before) && Encodable(r)
    requires Frame(r).Some? && 4 <= i < |Frame(r).value| && b != Frame(r).value[i]
    ensures Records(Encode(before) + (Frame(r).value[i := b] + rest)) == before
  {
    hide Big, Checksum, Frame, Records, Encode, Sum;
    FrameParts(r);
    var len, sum, body := Big(9 + |r.payload|), Big(Sum(r)), [r.op] + r.payload;
    if i < 8 {
      UpdateMiddle(len, sum, body, i, b);
      DamagedChecksumIsDetected(before, r, sum[i - 4 := b], rest);
    } else {
      var k := i - 8;
      UpdateLast(len, sum, body, i, b);
      assert body == body[..k] + [body[k]] + body[k + 1..];
      DamagedBodyIsDetected(before, r, body[..k], [body[k]], [b], body[k + 1..], rest);
    }
  }

  lemma UpdateMiddle(a: seq<byte>, m: seq<byte>, z: seq<byte>, i: nat, b: byte)
    requires |a| <= i < |a| + |m|
    ensures (a + m + z)[i := b] == a + m[i - |a| := b] + z
  {
  }

  lemma UpdateLast(a: seq<byte>, m: seq<byte>, z: seq<byte>, i: nat, b: byte)
    requires |a| + |m| <= i < |a| + |m| + |z|
    ensures var k := i - |a| - |m|;
            (a + m + z)[i := b] == a + m + (z[..k] + [b] + z[k + 1..])
  {
  }
}
