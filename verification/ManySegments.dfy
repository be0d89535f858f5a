/** A million segments are too many: logs that replay in the wrong order. */
module ManySegments {
  import opened Bits
  import opened Frames
  import opened Wal
  import opened SegmentNames
  import opened Directory
  import opened Recovery

  /** The segments after these records were written one by one to an empty log. */
  ghost function LogOf(rs: seq<Record>): (log: seq<seq<Record>>)
    requires AllEncodable(rs)
    ensures log != [] && AllEncodable(log[|log| - 1])
  {
    if rs == [] then [[]]
    else
      var log, r := LogOf(rs[..|rs| - 1]), rs[|rs| - 1];
      NextLogIsEncodable(log, r);
      NextLog(log, r)
  }

  lemma NextLogIsEncodable(log: seq<seq<Record>>, r: Record)
    requires log != [] && AllEncodable(log[|log| - 1]) && Encodable(r)
    ensures NextLog(log, r) != [] && AllEncodable(NextLog(log, r)[|NextLog(log, r)| - 1])
  {
    hide Encode;
  }

  /** A log, its files after writing `rs` to it, and what a crash may leave of them. */
  ghost predicate CanLeave(rs: seq<Record>, files: seq<Segment>, buffer: seq<byte>, image: seq<seq<byte>>) {
    AllEncodable(rs) && Consistent(files, buffer, LogOf(rs)) && CrashImage(files, image)
  }

  /** With n segments, whatever is written and wherever it crashes, replay finds a prefix. */
  ghost predicate AlwaysPrefix(n: nat) {
    forall rs, files, buffer, image ::
      CanLeave(rs, files, buffer, image) && |files| == n ==> ReadDirectory(Holding(image)) <= Flat(LogOf(rs))
  }

  // ---- a log of n segments, one record each ----

  function Tag(i: nat): byte {
    if i == 100_001 then 1 else if i == 1_000_000 then 2 else 0
  }

  /** All records but the last fill a segment. */
  function Entry(i: nat, n: nat): (r: Record)
    ensures Encodable(r) && |r.payload| > 0 && r.payload[0] == Tag(i)
    ensures |r.payload| == if i < n then MAX_SEGMENT else 1
  {
    Record(1, seq(if i < n then MAX_SEGMENT else 1, _ => Tag(i)))
  }

  function Entries(k: nat, n: nat): (rs: seq<Record>)
    ensures |rs| == k && AllEncodable(rs)
    ensures forall i :: 0 <= i < k ==> rs[i] == Entry(i + 1, n)
  {
    if k == 0 then [] else Entries(k - 1, n) + [Entry(k, n)]
  }

  function Singles(rs: seq<Record>): (log: seq<seq<Record>>)
    ensures |log| == |rs| && forall i :: 0 <= i < |rs| ==> log[i] == [rs[i]]
  {
    if rs == [] then [] else Singles(rs[..|rs| - 1]) + [[rs[|rs| - 1]]]
  }

  lemma EntryFills(i: nat, n: nat)
    requires i <= n
    ensures |Encode([Entry(i, n)])| >= MAX_SEGMENT <==> i < n
  {
    hide Entry, Encode, Frame;
    EncodeOne(Entry(i, n));
    FrameOfEncodable(Entry(i, n));
  }

  lemma {:induction false} OneEach(k: nat, n: nat)
    requires k <= n && n > 0
    ensures LogOf(Entries(k, n)) == Singles(Entries(k, n)) + if k < n then [[]] else []
    decreases k
  {
    hide Entry, Encode, NextLog;
    var rs := Entries(k, n);
    if k > 0 {
      OneEach(k - 1, n);
      assert rs[..k - 1] == Entries(k - 1, n);
      NextEntry(k, n);
    }
  }

  lemma NextEntry(k: nat, n: nat)
    requires 0 < k <= n
    ensures NextLog(Singles(Entries(k - 1, n)) + [[]], Entry(k, n)) ==
            Singles(Entries(k, n)) + if k < n then [[]] else []
  {
    hide Entry, Encode, Entries, Singles;
    var log := Singles(Entries(k - 1, n)) + [[]];
    EntryFills(k, n);
    assert [] + [Entry(k, n)] == [Entry(k, n)];
    assert log[k - 1 := [Entry(k, n)]] == Singles(Entries(k, n));
  }

  lemma {:induction false} FlatSingles(rs: seq<Record>)
    ensures Flat(Singles(rs)) == rs
  {
    if rs != [] {
      var n := |rs| - 1;
      FlatSingles(rs[..n]);
      assert Singles(rs)[..n] == Singles(rs[..n]);
    }
  }

  function Files(rs: seq<Record>): (files: seq<Segment>)
    requires AllEncodable(rs)
    ensures |files| == |rs|
    ensures forall i :: 0 <= i < |rs| ==> files[i] == Segment(Encode([rs[i]]), |Encode([rs[i]])|)
  {
    if rs == [] then []
    else Files(rs[..|rs| - 1]) + [Segment(Encode([rs[|rs| - 1]]), |Encode([rs[|rs| - 1]])|)]
  }

  function Bytes(files: seq<Segment>): (image: seq<seq<byte>>)
    ensures |image| == |files| && forall i :: 0 <= i < |files| ==> image[i] == files[i].bytes
  {
    if files == [] then [] else Bytes(files[..|files| - 1]) + [files[|files| - 1].bytes]
  }

  lemma EntriesCanBeLeft(n: nat)
    requires n > 0
    ensures var rs := Entries(n, n);
            var files := Files(rs);
            && CanLeave(rs, files, [], Bytes(files)) && LogOf(rs) == Singles(rs) && Durable(files, [])
  {
    hide Encode, Entry, Entries, LogOf;
    var rs := Entries(n, n);
    var files, log := Files(rs), Singles(rs);
    OneEach(n, n);
    assert log + [] == log;
    assert files[n - 1].bytes + [] == files[n - 1].bytes;
  }

  /** Files with one record each are read one record each. */
  lemma {:induction false} ReadOneEach(files: seq<seq<byte>>)
    requires forall i :: 0 <= i < |files| ==> |Records(files[i])| == 1
    ensures |ReadAll(files)| == |files|
    ensures forall i :: 0 <= i < |files| ==> ReadAll(files)[i] == Records(files[i])[0]
  {
    hide Records;
    if files != [] {
      ReadOneEach(files[..|files| - 1]);
    }
  }

  /** The file of that number holds that record. */
  lemma FileOfEntry(n: nat, i: nat)
    requires i < n
    ensures var dir := Holding(Bytes(Files(Entries(n, n))));
            Name(i + 1) in dir && Records(dir[Name(i + 1)]) == [Entry(i + 1, n)]
  {
    hide Encode, Records, Entry, Entries, Holding, Name;
    var rs := Entries(n, n);
    HoldsThem(Bytes(Files(rs)), i);
    LogRoundTrips([rs[i]]);
  }

  lemma EveryFileHoldsOne(n: nat)
    ensures var files := InOrder(Holding(Bytes(Files(Entries(n, n)))));
            forall i :: 0 <= i < |files| ==> |Records(files[i])| == 1
  {
    hide Encode, Records, Entry, Entries, Holding, Name, Before, IsSegment;
    var image := Bytes(Files(Entries(n, n)));
    var dir := Holding(image);
    var l := Listing(Segments(dir));
    SegmentsHeld(image);
    forall k | 0 <= k < |l|
      ensures l[k] in dir && |Records(dir[l[k]])| == 1
    {
      assert l[k] in l && l[k] in Names(n);
      var i :| 0 <= i < n && Names(n)[i] == l[k];
      FileOfEntry(n, i);
    }
  }

  /** From a million segments on there are logs, all of them permanent, whose replay is no prefix
      of what was written: the millionth record comes before the 100,001st. */
  lemma ManyAreReplayedOutOfOrder(n: nat)
    requires n >= FEW
    ensures var rs := Entries(n, n);
            && CanLeave(rs, Files(rs), [], Bytes(Files(rs))) && Durable(Files(rs), [])
            && !(ReadDirectory(Holding(Bytes(Files(rs)))) <= Flat(LogOf(rs)))
  {
    hide Encode, Records, Entry, Holding, Name, Before, IsSegment, LogOf, ReadAll, Flat, Entries, Singles, Files;
    var rs := Entries(n, n);
    var image := Bytes(Files(rs));
    var dir := Holding(image);
    EntriesCanBeLeft(n);
    FlatSingles(rs);
    var p, q := ManyAreNot(image);
    FileOfEntry(n, 999_999);
    FileOfEntry(n, 100_000);
    EveryFileHoldsOne(n);
    ReadOneEach(InOrder(dir));
    var found := ReadDirectory(dir);
    assert found[p] == Entry(1_000_000, n) && found[q] == Entry(100_001, n);
  }

  /** Replay finds a prefix of what was written, whatever that was and wherever a crash cut it off,
      exactly when there are fewer than a million segments. */
  lemma PrefixIffFewSegments(n: nat)
    requires n > 0
    ensures AlwaysPrefix(n) <==> n < FEW
  {
    hide Consistent, CrashImage, LogOf, Flat, ReadDirectory, Holding;
    if n < FEW {
      forall rs, files, buffer, image | CanLeave(rs, files, buffer, image) && |files| == n
        ensures ReadDirectory(Holding(image)) <= Flat(LogOf(rs))
      {
        SameNumber(files, buffer, LogOf(rs));
        CrashLeavesAPrefix(files, buffer, LogOf(rs), image);
      }
    } else {
      ManyAreReplayedOutOfOrder(n);
      var rs := Entries(n, n);
      assert CanLeave(rs, Files(rs), [], Bytes(Files(rs))) && |Files(rs)| == n;
    }
  }

  lemma SameNumber(files: seq<Segment>, buffer: seq<byte>, log: seq<seq<Record>>)
    requires Consistent(files, buffer, log)
    ensures |files| == |log|
  {
  }
}
