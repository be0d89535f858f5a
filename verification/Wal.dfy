/** The write-ahead log of internal/wal/wal.go: buffered appends to numbered segments, flushing,
    syncing and rotation, in one session that starts in an empty directory. File operations
    succeed. */
module Wal {
  import opened Bits
  import opened Frames

  datatype Policy = EverySecond | Always | Never

  const MAX_SEGMENT: nat := 64 * 1024 * 1024
  const BUFFER_SIZE: nat := 256 * 1024
  const FLUSH_AT: nat := 128 * 1024

  /** A segment file: what was handed to the operating system, and how much of it an fsync has
      made permanent. */
  datatype Segment = Segment(bytes: seq<byte>, synced: nat)

  function Flat<T>(s: seq<seq<T>>): seq<T> {
    if s == [] then [] else Flat(s[..|s| - 1]) + s[|s| - 1]
  }

  ghost predicate Complete(f: Segment, rs: seq<Record>) {
    AllEncodable(rs) && f.bytes == Encode(rs) && f.synced == |f.bytes|
  }

  /** The files and the write buffer hold the encodings of the logged records: every segment but
      the last is complete and permanent, and the buffer continues the last one. */
  ghost predicate Consistent(files: seq<Segment>, buffer: seq<byte>, log: seq<seq<Record>>) {
    && |files| == |log| > 0
    && (forall i :: 0 <= i < |log| - 1 ==> Complete(files[i], log[i]))
    && AllEncodable(log[|log| - 1])
    && files[|files| - 1].bytes + buffer == Encode(log[|log| - 1])
    && files[|files| - 1].synced <= |files[|files| - 1].bytes|
  }

  /** Everything written is on disk for good. */
  ghost predicate Durable(files: seq<Segment>, buffer: seq<byte>)
    requires files != []
  {
    buffer == [] && files[|files| - 1].synced == |files[|files| - 1].bytes|
  }

  /** A record goes to the last segment, and a segment that has reached its size is the last one
      no longer. */
  ghost function NextLog(log: seq<seq<Record>>, r: Record): seq<seq<Record>>
    requires log != [] && AllEncodable(log[|log| - 1]) && Encodable(r)
  {
    var last := log[|log| - 1] + [r];
    var log' := log[|log| - 1 := last];
    if |Encode(last)| >= 67_108_864 then log' + [[]] else log'
  }

  class WAL {
    const policy: Policy
    var files: seq<Segment>      // the directory, in the order of creation; the last one is active
    var buffer: seq<byte>
    var segmentID: nat
    var currentSize: nat
    var closed: bool
    ghost var log: seq<seq<Record>>   // the records written, by segment

    ghost predicate Shape()
      reads this
    {
      && Consistent(files, buffer, log)
      && segmentID == |files|
      && |buffer| <= BUFFER_SIZE
      && currentSize == |Encode(log[|log| - 1])|
    }

    ghost predicate Valid()
      reads this
    {
      Shape() && (policy == Always || closed ==> Durable(files, buffer))
    }

    ghost function Written(): seq<Record>
      reads this
    {
      Flat(log)
    }

    constructor (policy: Policy)
      ensures Valid() && Written() == [] && !closed && this.policy == policy
      ensures log == [[]]
    {
      this.policy := policy;
      files, buffer := [Segment([], 0)], [];
      segmentID, currentSize, closed := 1, 0, false;
      log := [[]];
      new;
      FlatOne<Record>([]);
      EncodeUnfold([]);
    }

    /** A write to the active file. */
    method WriteFile(p: seq<byte>)
      requires files != []
      modifies this`files
      ensures var last := |old(files)| - 1;
              files == old(files)[last := Segment(old(files)[last].bytes + p, old(files)[last].synced)]
    {
      var last := |files| - 1;
      files := files[last := Segment(files[last].bytes + p, files[last].synced)];
    }

    /** bufio.Writer.Flush */
    method Flush()
      requires files != []
      modifies this`files, this`buffer
      ensures buffer == []
      ensures var last := |old(files)| - 1;
              files == old(files)[last := Segment(old(files)[last].bytes + old(buffer), old(files)[last].synced)]
    {
      WriteFile(buffer);
      buffer := [];
    }

    /** bufio.Writer.Write: fills the buffer and flushes it, or writes through when the buffer is
        empty and the data does not fit it. */
    method BufferedWrite(data: seq<byte>)
      requires files != [] && |buffer| <= BUFFER_SIZE
      modifies this`files, this`buffer
      ensures |files| == |old(files)| && |buffer| <= 262144
      ensures var last := |files| - 1;
              && files[..last] == old(files)[..last]
              && files[last].bytes + buffer == old(files)[last].bytes + old(buffer) + data
              && files[last].synced == old(files)[last].synced
              && |files[last].bytes| >= |old(files)[last].bytes|
      ensures |old(buffer)| + |data| <= 262144 ==> files == old(files) && buffer == old(buffer) + data
      ensures |old(buffer)| + |data| > 262144 ==> |files[|files| - 1].bytes| > |old(files)[|files| - 1].bytes|
    {
      var p := data;
      ghost var last := |files| - 1;
      while |p| > BUFFER_SIZE - |buffer|
        invariant |files| == |old(files)| && |buffer| <= BUFFER_SIZE
        invariant files[..last] == old(files)[..last]
        invariant files[last].bytes + buffer + p == old(files)[last].bytes + old(buffer) + data
        invariant files[last].synced == old(files)[last].synced
        invariant |files[last].bytes| >= |old(files)[last].bytes|
        invariant (p == data && buffer == old(buffer)) || |files[last].bytes| > |old(files)[last].bytes|
        invariant |old(buffer)| + |data| <= BUFFER_SIZE ==> files == old(files) && buffer == old(buffer) && p == data
        decreases |p|, |buffer|
      {
        if |buffer| == 0 {
          WriteFile(p);
          p := [];
        } else {
          var n := BUFFER_SIZE - |buffer|;
          buffer := buffer + p[..n];
          p := p[n..];
          Flush();
        }
      }
      buffer := buffer + p;
    }

    /** fsync of the active file. */
    method SyncFile()
      requires files != []
      modifies this`files
      ensures var last := |old(files)| - 1;
              files == old(files)[last := Segment(old(files)[last].bytes, |old(files)[last].bytes|)]
    {
      var last := |files| - 1;
      files := files[last := Segment(files[last].bytes, |files[last].bytes|)];
    }

    /** Flushes and syncs the active file and starts the next one. */
    method RotateSegment()
      requires Valid() && !closed
      modifies this
      ensures Valid() && closed == old(closed)
      ensures log == old(log) + [[]] && Written() == old(Written())
      ensures Durable(files, buffer)
    {
      hide Encode, Flat;
      Flush();
      SyncFile();
      segmentID := segmentID + 1;
      files, buffer := files + [Segment([], 0)], [];
      currentSize := 0;
      FlatAppend(log, []);
      log := log + [[]];
      EncodeUnfold([]);
    }

    method AppendFrame(r: Record)
      requires Shape() && Encodable(r)
      modifies this`files, this`buffer, this`currentSize, this`log
      ensures Shape() && Written() == old(Written()) + [r]
      ensures log == old(log)[|old(log)| - 1 := old(log)[|old(log)| - 1] + [r]]
      ensures |old(buffer)| + 9 + |r.payload| <= 262144 ==>
                files == old(files) && |buffer| == |old(buffer)| + 9 + |r.payload|
    {
      hide Encode, Frame, Flat;
      LogAppend(log, r);
      FrameOfEncodable(r);
      BufferedWrite(Frame(r).value);
      currentSize := currentSize + |Frame(r).value|;
      log := log[|log| - 1 := log[|log| - 1] + [r]];
    }

    /** Appends one record. False only when the log is closed; under `Always` a record whose write
        succeeded is permanent, and otherwise it stays in the buffer until that holds 128 KiB or the
        segment is full. */
    method WriteRecord(op: byte, payload: seq<byte>) returns (ok: bool)
      requires Valid() && Encodable(Record(op, payload))
      modifies this
      ensures Valid() && closed == old(closed)
      ensures ok == !closed
      ensures ok ==> Written() == old(Written()) + [Record(op, payload)]
      ensures ok ==> log == NextLog(old(log), Record(op, payload))
      ensures !ok ==> log == old(log) && files == old(files) && buffer == old(buffer)
      ensures ok && policy == Always ==> Durable(files, buffer)
      ensures ok ==> |buffer| < 131072
      ensures ok && policy != Always && |log| == |old(log)| && |old(buffer)| + 9 + |payload| < 131072 ==>
                files == old(files) && |buffer| == |old(buffer)| + 9 + |payload|
    {
      hide Encode, Flat;
      if closed {
        return false;
      }
      AppendFrame(Record(op, payload));
      if policy == Always {
        Flush();
        SyncFile();
      } else if |buffer| >= FLUSH_AT {
        Flush();
      }
      if currentSize >= MAX_SEGMENT {
        RotateSegment();
      }
      return true;
    }

    /** Makes everything written so far permanent, unless the log is closed already. */
    method Sync()
      requires Valid()
      modifies this`files, this`buffer
      ensures Valid() && Durable(files, buffer)
    {
      if !closed {
        Flush();
        SyncFile();
      }
    }

    method Close()
      requires Valid()
      modifies this`files, this`buffer, this`closed
      ensures Valid() && closed && Durable(files, buffer)
    {
      if closed {
        return;
      }
      closed := true;
      Flush();
      SyncFile();
    }
  }

  lemma FlatOne<T>(s: seq<T>)
    ensures Flat([s]) == s
  {
    assert [s][..0] == [];
    assert Flat<T>([]) == [];
  }

  lemma FlatAppend<T>(s: seq<seq<T>>, last: seq<T>)
    ensures Flat(s + [last]) == Flat(s) + last
  {
    assert (s + [last])[..|s|] == s;
  }

  /** Appending to the last segment appends to the log as a whole. */
  lemma LogAppend(log: seq<seq<Record>>, r: Record)
    requires log != [] && AllEncodable(log[|log| - 1]) && Encodable(r)
    ensures var last := log[|log| - 1] + [r];
            && Flat(log[|log| - 1 := last]) == Flat(log) + [r]
            && AllEncodable(last)
            && Frame(r).Some? && Encode(last) == Encode(log[|log| - 1]) + Frame(r).value
  {
    var n := |log| - 1;
    var log' := log[n := log[n] + [r]];
    assert log'[..n] == log[..n];
    EncodeConcat(log[n], [r]);
    EncodeOne(r);
  }
}
