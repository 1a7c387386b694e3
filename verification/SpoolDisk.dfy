/** The spool directory: a head watermark file and the segment files, in name order.

    Crash model. A closed segment is complete. The active segment keeps everything fsynced and any
    byte prefix of what was written after. The head file holds its old or its new value. Deletions
    and truncations are durable in the order issued. */
module SpoolDisk {
  import opened Wrappers
  import opened Frames

  /** Checksum and round encoding, as parameters. */
  datatype Codec<!R> = Codec(crc: Checksum, enc: R -> seq<byte>, dec: seq<byte> -> Option<R>)

  /** The assumptions on the encoding: it is total, it decodes back, and a round fits a segment. */
  ghost predicate Sound<R(!new)>(c: Codec<R>) {
    forall r: R :: c.dec(c.enc(r)) == Some(r) && 8 + |c.enc(r)| <= SEGMENT_MAX_BYTES
  }

  /** A segment file: the sequence number in its name, its bytes, and how many of them are fsynced. */
  datatype File = File(first: int, data: seq<byte>, synced: nat)

  datatype Disk = Disk(headFile: Option<seq<byte>>, files: seq<File>)

  // ---- the head file ----

  function HeadBytes(crc: Checksum, head: int64): seq<byte> {
    var b := LittleEndian(ToU64(head), 8);
    b + LittleEndian(crc(b), 4)
  }

  /** The durable watermark: 0 on the first run, None for a corrupt file. */
  function ReadHead(crc: Checksum, headFile: Option<seq<byte>>): Option<int64> {
    match headFile
    case None => Some(0)
    case Some(b) =>
      if |b| != 12 || FromLittleEndian(b[8..12]) != crc(b[0..8]) then None
      else Some(FromU64(FromLittleEndian(b[0..8])))
  }

  lemma HeadRoundTrip(crc: Checksum, head: int64)
    ensures ReadHead(crc, Some(HeadBytes(crc, head))) == Some(head)
  {
    hide LittleEndian, FromLittleEndian, ToU64, FromU64;
    var b := LittleEndian(ToU64(head), 8);
    assert HeadBytes(crc, head)[0..8] == b;
    assert HeadBytes(crc, head)[8..12] == LittleEndian(crc(b), 4);
    U64RoundTrip(head);
    U32RoundTrip(crc(b));
  }

  // ---- one segment file against the log ----

  /** Sequence number after the last complete record of the file. */
  function End<R>(c: Codec<R>, f: File): int { f.first + |Scan(c.crc, f.data).recs| }

  /** Sequence number after the last complete record that is fsynced. */
  function DurableEnd<R>(c: Codec<R>, f: File): int { f.first + |Scan(c.crc, SyncedBytes(f)).recs| }

  function SyncedBytes(f: File): seq<byte> {
    if f.synced <= |f.data| then f.data[..f.synced] else f.data
  }

  /** The file ends on a frame boundary. */
  predicate Whole<R>(c: Codec<R>, f: File) { Scan(c.crc, f.data).stop == CleanEof }

  predicate RecordIs<R(==)>(c: Codec<R>, log: seq<R>, rec: Record, i: int) {
    0 <= i < |log| && rec.seqNo == i && c.dec(rec.body) == Some(log[i])
  }

  /** The file holds a contiguous piece of the log, the round at sequence number i being log[i],
      starting at the number in its name, and perhaps a torn tail. */
  ghost predicate Holds<R>(c: Codec<R>, log: seq<R>, f: File) {
    && 0 <= f.first
    && f.synced <= |f.data|
    && Scan(c.crc, f.data).stop != BadFrame
    && End(c, f) <= |log|
    && forall j :: 0 <= j < |Scan(c.crc, f.data).recs| ==> RecordIs(c, log, Scan(c.crc, f.data).recs[j], f.first + j)
  }

  function FrameOf<R>(c: Codec<R>, i: int64, r: R): seq<byte> {
    EncodeFrame(c.crc, Record(i, c.enc(r)))
  }

  lemma DurableEndBelow<R>(c: Codec<R>, log: seq<R>, f: File)
    requires Holds(c, log, f)
    ensures DurableEnd(c, f) <= End(c, f)
  {
    hide Scan;
    ScanCut(c.crc, f.data, f.synced);
  }

  /** Appending the next record of the log. */
  lemma AppendRecord<R(!new)>(c: Codec<R>, log: seq<R>, f: File)
    requires Sound(c) && Holds(c, log, f) && Whole(c, f)
    requires End(c, f) < |log| <= 0x7fff_ffff_ffff_ffff
    ensures var g := f.(data := f.data + FrameOf(c, End(c, f), log[End(c, f)]));
            && Holds(c, log, g) && Whole(c, g)
            && End(c, g) == End(c, f) + 1
            && DurableEnd(c, g) == DurableEnd(c, f)
  {
    hide Scan, EncodeFrame;
    var i := End(c, f);
    var rec := Record(i, c.enc(log[i]));
    var g := f.(data := f.data + FrameOf(c, i, log[i]));
    ScanOne(c.crc, rec);
    ScanConcat(c.crc, f.data, EncodeFrame(c.crc, rec));
    assert g.data[..g.synced] == f.data[..f.synced];
  }

  /** A write that failed or was cut half-way leaves a torn tail and no other trace. */
  lemma AppendTorn<R(!new)>(c: Codec<R>, log: seq<R>, f: File, k: nat)
    requires Sound(c) && Holds(c, log, f) && Whole(c, f)
    requires End(c, f) < |log| <= 0x7fff_ffff_ffff_ffff
    requires k < |FrameOf(c, End(c, f), log[End(c, f)])|
    ensures var g := f.(data := f.data + FrameOf(c, End(c, f), log[End(c, f)])[..k]);
            && Holds(c, log, g)
            && End(c, g) == End(c, f)
            && DurableEnd(c, g) == DurableEnd(c, f)
  {
    hide Scan, EncodeFrame;
    var i := End(c, f);
    var rec := Record(i, c.enc(log[i]));
    var frame := EncodeFrame(c.crc, rec);
    var g := f.(data := f.data + frame[..k]);
    TornFrame(c.crc, rec, k);
    ScanConcat(c.crc, f.data, frame[..k]);
    assert g.data[..g.synced] == f.data[..f.synced];
  }

  lemma TornFrame(crc: Checksum, rec: Record, k: nat)
    requires Fits(rec) && k < |EncodeFrame(crc, rec)|
    ensures Scan(crc, EncodeFrame(crc, rec)[..k]).recs == []
    ensures Scan(crc, EncodeFrame(crc, rec)[..k]).stop != BadFrame
  {
    hide Scan, EncodeFrame, DecodeFrame;
    var frame := EncodeFrame(crc, rec);
    DecodeEncode(crc, rec, []);
    assert frame + [] == frame;
    DecodePrefix(crc, frame, k);
    if k == 0 {
      ScanEmpty(crc);
      assert frame[..0] == [];
    } else {
      ScanStep(crc, frame[..k]);
    }
  }

  lemma SyncFile<R>(c: Codec<R>, log: seq<R>, f: File)
    requires Holds(c, log, f)
    ensures var g := f.(synced := |f.data|);
            Holds(c, log, g) && End(c, g) == End(c, f) && DurableEnd(c, g) == End(c, f)
  {
    hide Scan;
    assert f.data[..|f.data|] == f.data;
  }

  /** A crash: the file keeps a prefix of its bytes that covers the fsynced ones. */
  lemma CutFile<R>(c: Codec<R>, log: seq<R>, f: File, n: nat, synced: nat)
    requires Holds(c, log, f)
    requires f.synced <= synced <= n <= |f.data|
    ensures var g := File(f.first, f.data[..n], synced);
            && Holds(c, log, g)
            && End(c, g) <= End(c, f)
            && DurableEnd(c, f) <= DurableEnd(c, g)
  {
    hide Scan;
    ScanCut(c.crc, f.data, n);
    ScanCut(c.crc, f.data, synced);
    ScanCut(c.crc, f.data[..synced], f.synced);
    assert f.data[..synced][..f.synced] == f.data[..f.synced];
    assert f.data[..n][..synced] == f.data[..synced];
  }

  /** What recovery does to a torn tail. */
  function Truncated<R>(c: Codec<R>, f: File): File {
    var n := Scan(c.crc, f.data).consumed;
    File(f.first, f.data[..n], if f.synced <= n then f.synced else n)
  }

  lemma ScanConsumed(crc: Checksum, data: seq<byte>)
    requires Scan(crc, data).stop != BadFrame
    ensures var s := Scan(crc, data);
            Scan(crc, data[..s.consumed]) == Segment(s.recs, s.consumed, CleanEof)
  {
    hide Scan;
    var s := Scan(crc, data);
    ScanCut(crc, data, s.consumed);
    var t := Scan(crc, data[..s.consumed]);
    if |t.recs| < |s.recs| {
      FramesLenUpTo(s.recs, |t.recs| + 1);
    }
    assert t.recs == s.recs;
  }

  lemma FramesLenUpTo(recs: seq<Record>, k: nat)
    requires k <= |recs|
    ensures FramesLen(recs[..k]) <= FramesLen(recs)
  {
    hide *;
    assert recs[..|recs|] == recs;
    if k < |recs| { FramesLenMono(recs, k, |recs|); }
  }

  lemma TruncateFile<R>(c: Codec<R>, log: seq<R>, f: File)
    requires Holds(c, log, f)
    ensures var g := Truncated(c, f);
            && Holds(c, log, g) && Whole(c, g)
            && End(c, g) == End(c, f)
            && DurableEnd(c, g) == DurableEnd(c, f)
  {
    hide Scan;
    var g := Truncated(c, f);
    ScanConsumed(c.crc, f.data);
    var s := Scan(c.crc, f.data);
    if f.synced <= s.consumed {
      assert g.data[..g.synced] == f.data[..f.synced];
    } else {
      assert g.data[..g.synced] == g.data;
      ScanCut(c.crc, f.data, f.synced);
      var t := Scan(c.crc, f.data[..f.synced]);
      if |t.recs| < |s.recs| {
        FramesLenUpTo(s.recs, |t.recs| + 1);
      }
    }
  }

  /** The log may grow, or lose what the file does not hold. */
  lemma HoldsSameLog<R>(c: Codec<R>, log: seq<R>, log': seq<R>, f: File)
    requires Holds(c, log, f)
    requires End(c, f) <= |log'|
    requires forall i :: 0 <= i < |log| && i < |log'| && i < End(c, f) ==> log[i] == log'[i]
    ensures Holds(c, log', f)
  {
    hide Scan;
  }

  // ---- the whole directory ----

  function Last(d: Disk): File
    requires d.files != []
  {
    d.files[|d.files| - 1]
  }

  function WithLast(d: Disk, f: File): Disk
    requires d.files != []
  {
    d.(files := d.files[..|d.files| - 1] + [f])
  }

  /** A closed segment: complete, fsynced, not empty, and continued by the next one. */
  ghost predicate Closed<R>(c: Codec<R>, f: File, next: File) {
    && Whole(c, f)
    && f.synced == |f.data|
    && f.first < End(c, f)
    && End(c, f) == next.first
  }

  /** The directory mirrors a log: its segments hold one contiguous run of log entries; the durable
      watermark lies in it, at or below what is fsynced. */
  ghost predicate DiskOk<R>(c: Codec<R>, log: seq<R>, d: Disk, head: nat) {
    && d.files != []
    && ReadHead(c.crc, d.headFile) == Some(head)
    && (forall i :: 0 <= i < |d.files| ==> Holds(c, log, d.files[i]))
    && (forall i :: 0 <= i < |d.files| - 1 ==> Closed(c, d.files[i], d.files[i + 1]))
    && d.files[0].first <= head <= DurableEnd(c, Last(d))
  }

  /** Changing the active segment only. */
  lemma WithLastOk<R>(c: Codec<R>, log: seq<R>, d: Disk, head: nat, f: File)
    requires DiskOk(c, log, d, head)
    requires Holds(c, log, f) && f.first == Last(d).first && head <= DurableEnd(c, f)
    ensures DiskOk(c, log, WithLast(d, f), head)
    ensures Last(WithLast(d, f)) == f
  {
    hide Holds, Whole, End, DurableEnd, ReadHead;
    var e := WithLast(d, f);
    forall i | 0 <= i < |e.files| - 1
      ensures Closed(c, e.files[i], e.files[i + 1])
    {
      assert Closed(c, d.files[i], d.files[i + 1]);
    }
  }

  lemma DiskSameLog<R>(c: Codec<R>, log: seq<R>, log': seq<R>, d: Disk, head: nat)
    requires DiskOk(c, log, d, head)
    requires End(c, Last(d)) <= |log'|
    requires forall i :: 0 <= i < |log| && i < |log'| && i < End(c, Last(d)) ==> log[i] == log'[i]
    ensures DiskOk(c, log', d, head)
  {
    forall i | 0 <= i < |d.files|
      ensures Holds(c, log', d.files[i])
    {
      EndsIncrease(c, log, d, head, i);
      HoldsSameLog(c, log, log', d.files[i]);
    }
  }

  /** Files hold ascending pieces. */
  lemma {:induction false} EndsIncrease<R>(c: Codec<R>, log: seq<R>, d: Disk, head: nat, i: nat)
    requires DiskOk(c, log, d, head)
    requires i < |d.files|
    ensures End(c, d.files[i]) <= End(c, Last(d))
    decreases |d.files| - i
  {
    hide Holds, Whole, DurableEnd, ReadHead;
    if i < |d.files| - 1 {
      assert Closed(c, d.files[i], d.files[i + 1]);
      EndsIncrease(c, log, d, head, i + 1);
      assert d.files[i + 1].first <= End(c, d.files[i + 1]);
    }
  }

  /** A head file that is read holds exactly the bytes written for that watermark. */
  lemma HeadOnlyWritten(crc: Checksum, b: seq<byte>)
    requires ReadHead(crc, Some(b)).Some?
    ensures b == HeadBytes(crc, ReadHead(crc, Some(b)).value)
  {
    hide LittleEndian, FromLittleEndian, ToU64, FromU64, Pow256;
    LittleEndianInverse(b[0..8]);
    LittleEndianInverse(b[8..12]);
    Powers();
    CastInverse(FromLittleEndian(b[0..8]));
    assert b == b[0..8] + b[8..12];
  }
}
