/** Reading the log back: `Replay` of internal/wal/wal.go, and what it finds after a crash or in a
    damaged log. */
module Recovery {
  import opened Options
  import opened Bits
  import opened Crc
  import opened Frames
  import opened Wal
  import opened Directory

  const OP_PUBLISH: byte := 1

  /** The records of all segments, in order; each segment is read up to its first bad record. */
  function ReadAll(files: seq<seq<byte>>): seq<Record> {
    if files == [] then [] else ReadAll(files[..|files| - 1]) + Records(files[|files| - 1])
  }

  /** The messages that replay hands out: publish records whose payload decodes. Acknowledgements
      and everything else are passed over. */
  function Publishes<M>(rs: seq<Record>, decode: seq<byte> -> Option<M>): seq<M> {
    if rs == [] then []
    else
      var r := rs[|rs| - 1];
      Publishes(rs[..|rs| - 1], decode) +
      if r.op == OP_PUBLISH && decode(r.payload).Some? then [decode(r.payload).value] else []
  }

  lemma {:induction false} PublishesConcat<M>(a: seq<Record>, b: seq<Record>, decode: seq<byte> -> Option<M>)
    ensures Publishes(a + b, decode) == Publishes(a, decode) + Publishes(b, decode)
    decreases |b|
  {
    if b == [] {
      assert a + b == a;
    } else {
      PublishesConcat(a, b[..|b| - 1], decode);
      assert (a + b)[..|a + b| - 1] == a + b[..|b| - 1];
    }
  }

  lemma PublishesOne<M>(r: Record, decode: seq<byte> -> Option<M>)
    ensures Publishes([r], decode) ==
            if r.op == OP_PUBLISH && decode(r.payload).Some? then [decode(r.payload).value] else []
  {
    assert [r][..0] == [];
  }

  /** One turn of the reading loop: header, length check, body, checksum. */
  method ReadRecord(f: seq<byte>, pos: nat) returns (r: Option<(Record, nat)>)
    requires pos <= |f|
    ensures r == Read(f[pos..])
  {
    hide Checksum, FromBig;
    ghost var rest := f[pos..];
    if |f| - pos < 8 {
      return None;
    }
    var total := FromBig(f[pos..pos + 4]);
    var expected := FromBig(f[pos + 4..pos + 8]);
    assert rest[..4] == f[pos..pos + 4] && rest[4..8] == f[pos + 4..pos + 8];
    if total < 9 || |f| - pos < total {
      return None;
    }
    var body := f[pos + 8..pos + total];
    assert rest[8..total] == body;
    if Checksum(body) != expected {
      return None;
    }
    assert rest[9..total] == body[1..] && rest[8] == body[0];
    return Some((Record(body[0], body[1..]), total));
  }

  lemma RecordsUnfold(b: seq<byte>)
    ensures Records(b) == if Read(b).None? then [] else [Read(b).value.0] + Records(b[Read(b).value.1..])
  {
  }

  /** The records before position `pos` are `done`. */
  ghost predicate ReadSoFar(f: seq<byte>, pos: nat, done: seq<Record>)
    requires pos <= |f|
  {
    Records(f) == done + Records(f[pos..])
  }

  lemma Progress<M>(f: seq<byte>, pos: nat, done: seq<Record>, decode: seq<byte> -> Option<M>)
    requires pos <= |f| && Read(f[pos..]).Some? && ReadSoFar(f, pos, done)
    ensures var (r, total) := Read(f[pos..]).value;
            && ReadSoFar(f, pos + total, done + [r])
            && Publishes(done + [r], decode) == Publishes(done, decode) +
                 if r.op == OP_PUBLISH && decode(r.payload).Some? then [decode(r.payload).value] else []
  {
    hide Records, Read, Publishes;
    var (r, total) := Read(f[pos..]).value;
    RecordsUnfold(f[pos..]);
    assert f[pos..][total..] == f[pos + total..];
    PublishesConcat(done, [r], decode);
    PublishesOne(r, decode);
  }

  lemma StartReading<M>(f: seq<byte>, decode: seq<byte> -> Option<M>)
    ensures ReadSoFar(f, 0, []) && Publishes([], decode) == []
  {
    assert f[0..] == f;
  }

  lemma Finished(f: seq<byte>, pos: nat, done: seq<Record>)
    requires pos <= |f| && Read(f[pos..]).None? && ReadSoFar(f, pos, done)
    ensures Records(f) == done
  {
    RecordsUnfold(f[pos..]);
  }

  /** Reads one segment up to its end or its first bad record. */
  method ReplaySegment<M>(f: seq<byte>, decode: seq<byte> -> Option<M>) returns (msgs: seq<M>)
    ensures msgs == Publishes(Records(f), decode)
  {
    msgs := [];
    var pos := 0;
    ghost var done: seq<Record> := [];
    var next := ReadRecord(f, pos);
    StartReading(f, decode);
    hide Records, Read, Publishes, ReadSoFar;
    while next.Some?
      invariant 0 <= pos <= |f| && next == Read(f[pos..])
      invariant next.Some? ==> 9 <= next.value.1 <= |f| - pos
      invariant ReadSoFar(f, pos, done)
      invariant msgs == Publishes(done, decode)
      decreases |f| - pos
    {
      var (r, total) := next.value;
      Progress(f, pos, done, decode);
      if r.op == OP_PUBLISH {
        var msg := decode(r.payload);
        if msg.Some? {
          msgs := msgs + [msg.value];
        }
      }
      done := done + [r];
      pos := pos + total;
      next := ReadRecord(f, pos);
    }
    Finished(f, pos, done);
  }

  /** The records found in a directory: those of its segment files, read in the order of their
      names. */
  ghost function ReadDirectory(dir: map<string, seq<byte>>): seq<Record> {
    ReadAll(InOrder(dir))
  }

  /** Reads every segment file of the directory, by name; the count is what the broker reports. */
  method Replay<M>(dir: map<string, seq<byte>>, decode: seq<byte> -> Option<M>) returns (msgs: seq<M>, count: nat)
    ensures msgs == Publishes(ReadDirectory(dir), decode)
    ensures count == |msgs|
  {
    hide Publishes, IsSegment;
    var names := Glob(dir);
    ghost var files := Contents(dir, names);
    msgs, count := [], 0;
    ReadNothing(decode);
    for i := 0 to |names|
      invariant msgs == Publishes(ReadAll(files[..i]), decode) && count == |msgs|
    {
      assert names[i] in names;
      var more := ReplaySegment(dir[names[i]], decode);
      assert files[..i + 1][..i] == files[..i];
      PublishesConcat(ReadAll(files[..i]), Records(files[i]), decode);
      msgs, count := msgs + more, count + |more|;
    }
    assert files[..|names|] == files;
  }

  lemma ReadNothing<M>(decode: seq<byte> -> Option<M>)
    ensures Publishes([], decode) == []
  {
  }

  lemma {:induction false} ReadAllConcat(a: seq<seq<byte>>, b: seq<seq<byte>>)
    ensures ReadAll(a + b) == ReadAll(a) + ReadAll(b)
    decreases |b|
  {
    hide Records;
    if b == [] {
      assert a + b == a;
    } else {
      ReadAllConcat(a, b[..|b| - 1]);
      assert (a + b)[..|a + b| - 1] == a + b[..|b| - 1];
    }
  }

  lemma ReadAllOne(f: seq<byte>)
    ensures ReadAll([f]) == Records(f)
  {
    assert [f][..0] == [];
  }

  /** What a crash can leave of the files: of each a prefix, but nothing that was synced is gone. The
      write buffer is gone. */
  ghost predicate CrashImage(files: seq<Segment>, image: seq<seq<byte>>) {
    && |image| == |files|
    && (forall i :: 0 <= i < |files| ==> image[i] <= files[i].bytes && |image[i]| >= files[i].synced)
  }

  /** How many of the logged records an fsync has made permanent. */
  ghost function Permanent(files: seq<Segment>, log: seq<seq<Record>>): nat
    requires |files| == |log| > 0 && AllEncodable(log[|log| - 1])
  {
    |Flat(log[..|log| - 1])| + Whole(log[|log| - 1], files[|files| - 1].synced)
  }

  lemma {:induction false} CompleteSegmentsReadBack(files: seq<Segment>, log: seq<seq<Record>>, image: seq<seq<byte>>)
    requires |files| == |log| && CrashImage(files, image)
    requires forall i :: 0 <= i < |log| ==> Complete(files[i], log[i])
    ensures ReadAll(image) == Flat(log)
    decreases |files|
  {
    if files != [] {
      var n := |files| - 1;
      CompleteSegmentsReadBack(files[..n], log[..n], image[..n]);
      assert Complete(files[n], log[n]);
      assert image[n] == files[n].bytes;
      LogRoundTrips(log[n]);
    }
  }

  lemma PrefixInOrder(files: seq<Segment>, buffer: seq<byte>, log: seq<seq<Record>>, image: seq<seq<byte>>)
    requires Consistent(files, buffer, log) && CrashImage(files, image)
    ensures ReadAll(image) <= Flat(log)
    ensures |ReadAll(image)| >= Permanent(files, log)
  {
    var n := |files| - 1;
    var rs, kept := log[n], |image[n]|;
    assert forall i :: 0 <= i < n ==> Complete(files[i], log[i]);
    CompleteSegmentsReadBack(files[..n], log[..n], image[..n]);
    assert image[n] == Encode(rs)[..kept];
    CutLogYieldsWholeRecords(rs, kept);
    WholeMonotone(rs, files[n].synced, kept);
    hide Records, Encode;
    assert ReadAll(image) == Flat(log[..n]) + rs[..Whole(rs, kept)];
    assert Flat(log) == Flat(log[..n]) + rs;
  }

  /** Whatever a crash leaves of fewer than a million segments, replay finds a prefix of what was
      logged, and that prefix contains every record that had become permanent. */
  lemma CrashLeavesAPrefix(files: seq<Segment>, buffer: seq<byte>, log: seq<seq<Record>>, image: seq<seq<byte>>)
    requires Consistent(files, buffer, log) && CrashImage(files, image) && |log| < FEW
    ensures ReadDirectory(Holding(image)) <= Flat(log)
    ensures |ReadDirectory(Holding(image))| >= Permanent(files, log)
  {
    hide Holding, InOrder, ReadAll, Permanent, Flat;
    FewAreReadInOrder(image);
    PrefixInOrder(files, buffer, log, image);
  }

  /** Once everything is durable, a crash loses nothing. */
  lemma DurableSurvivesCrash(files: seq<Segment>, buffer: seq<byte>, log: seq<seq<Record>>, image: seq<seq<byte>>)
    requires Consistent(files, buffer, log) && Durable(files, buffer) && CrashImage(files, image) && |log| < FEW
    ensures ReadDirectory(Holding(image)) == Flat(log)
  {
    hide Holding, InOrder, ReadAll, Flat;
    var n := |files| - 1;
    assert files[n].bytes + [] == files[n].bytes;
    assert Complete(files[n], log[n]);
    assert forall i :: 0 <= i < |log| ==> Complete(files[i], log[i]);
    CompleteSegmentsReadBack(files, log, image);
    FewAreReadInOrder(image);
  }

  /** A changed byte behind the length field of a record costs the rest of its segment and nothing
      else: the segments before and after it are read as ever. */
  lemma DamageIsContained(earlier: seq<seq<byte>>, before: seq<Record>, r: Record, i: nat, b: byte,
                          rest: seq<byte>, later: seq<seq<byte>>)
    requires AllEncodable(before) && Encodable(r) && |earlier| + 1 + |later| < FEW
    requires Frame(r).Some? && 4 <= i < |Frame(r).value| && b != Frame(r).value[i]
    ensures var damaged := Encode(before) + (Frame(r).value[i := b] + rest);
            ReadDirectory(Holding(earlier + [damaged] + later)) == ReadAll(earlier) + before + ReadAll(later)
  {
    hide Encode, Frame, Records, Holding, InOrder;
    var damaged := Encode(before) + (Frame(r).value[i := b] + rest);
    DamagedByteIsDetected(before, r, i, b, rest);
    ReadAllOne(damaged);
    ReadAllConcat(earlier, [damaged]);
    ReadAllConcat(earlier + [damaged], later);
    FewAreReadInOrder(earlier + [damaged] + later);
  }
}
