/** Recovery: what openSpool rebuilds from the spool directory. */
module SpoolRecovery {
  import opened Wrappers
  import opened Frames
  import opened Overflow
  import opened SpoolDisk

  datatype OpenError =
    | HeadCorrupt
    | NonContiguous(got: int, want: int)
    | Undecodable(seqNo: int)
    | ActiveCorrupt
    | ClosedCorrupt
    | IoFailed

  datatype Staged<R> = Staged(seqNo: int64, round: R)

  datatype SegMeta = SegMeta(first: int, maxSeq: int)

  /** The fields of the running spool. */
  datatype Mem<R> = Mem(
    pending: seq<Staged<R>>,
    head: int,
    headDurable: int,
    segments: seq<SegMeta>,
    activeFirst: int,
    activeBytes: nat,
    activeMax: int,
    degraded: bool,
    closed: bool)

  /** The variables of the replay loop: the expected next number (-1 until the first record), the
      bounded live queue, and how many rounds were evicted from it. */
  datatype Replay<R> = Replay(want: int, live: seq<R>, dropped: nat)

  datatype Opened<R> = Opened(mem: Mem<R>, disk: Disk, head: int, live: seq<R>)

  // ---- the replay loop, as functions ----

  function ReplayRecord<R>(c: Codec<R>, b: Budget<R>, head: int, a: Replay<R>, rec: Record): Result<Replay<R>, OpenError> {
    if a.want >= 0 && rec.seqNo != a.want then Err(NonContiguous(rec.seqNo, a.want))
    else if rec.seqNo < head then Ok(a.(want := rec.seqNo + 1))
    else
      match c.dec(rec.body)
      case None => Err(Undecodable(rec.seqNo))
      case Some(r) =>
        Ok(Replay(rec.seqNo + 1, Admit(b, a.live, r), a.dropped + Evictions(b, a.live, b.size(r))))
  }

  function ReplayRecords<R>(c: Codec<R>, b: Budget<R>, head: int, a: Replay<R>, recs: seq<Record>): Result<Replay<R>, OpenError>
    decreases |recs|
  {
    if recs == [] then Ok(a)
    else
      match ReplayRecord(c, b, head, a, recs[0])
      case Err(e) => Err(e)
      case Ok(a') => ReplayRecords(c, b, head, a', recs[1..])
  }

  /** A torn tail is forgiven in the active segment only; a bad frame nowhere. */
  function StopError(stop: Stop, isLast: bool): Option<OpenError> {
    match stop
    case CleanEof => None
    case ShortFrame => if isLast then None else Some(ClosedCorrupt)
    case BadFrame => Some(if isLast then ActiveCorrupt else ClosedCorrupt)
  }

  function ReplayFile<R>(c: Codec<R>, b: Budget<R>, head: int, a: Replay<R>, f: File, isLast: bool): Result<Replay<R>, OpenError> {
    match ReplayRecords(c, b, head, a, Scan(c.crc, f.data).recs)
    case Err(e) => Err(e)
    case Ok(a') =>
      match StopError(Scan(c.crc, f.data).stop, isLast)
      case Some(e) => Err(e)
      case None => Ok(a')
  }

  function ReplayFiles<R>(c: Codec<R>, b: Budget<R>, head: int, a: Replay<R>, files: seq<File>): Result<Replay<R>, OpenError>
    decreases |files|
  {
    if files == [] then Ok(a)
    else
      match ReplayFile(c, b, head, a, files[0], |files| == 1)
      case Err(e) => Err(e)
      case Ok(a') => ReplayFiles(c, b, head, a', files[1..])
  }

  /** Largest sequence number of a segment, -1 if it holds no record. */
  function MaxSeq(recs: seq<Record>): int {
    if recs == [] then -1
    else
      var m := MaxSeq(recs[..|recs| - 1]);
      var s := recs[|recs| - 1].seqNo;
      if s > m then s else m
  }

  function Meta<R>(c: Codec<R>, f: File): SegMeta { SegMeta(f.first, MaxSeq(Scan(c.crc, f.data).recs)) }

  /** The closed segments that survive: those holding a record at or above the durable head. */
  function LiveClosed<R>(c: Codec<R>, head: int, files: seq<File>): seq<File> {
    if files == [] then []
    else (if Meta(c, files[0]).maxSeq < head then [] else [files[0]]) + LiveClosed(c, head, files[1..])
  }

  function Metas<R>(c: Codec<R>, files: seq<File>): (ms: seq<SegMeta>)
    ensures |ms| == |files|
    ensures forall i :: 0 <= i < |files| ==> ms[i] == Meta(c, files[i])
  {
    if files == [] then [] else [Meta(c, files[0])] + Metas(c, files[1..])
  }

  function Open<R>(c: Codec<R>, b: Budget<R>, d: Disk): Result<Opened<R>, OpenError> {
    match ReadHead(c.crc, d.headFile)
    case None => Err(HeadCorrupt)
    case Some(head) =>
      match ReplayFiles(c, b, head, Replay(-1, [], 0), d.files)
      case Err(e) => Err(e)
      case Ok(a) =>
        if d.files == [] then
          Ok(Opened(Mem([], head + a.dropped, head, [], head, 0, -1, false, false),
                    d.(files := [File(head, [], 0)]), head + a.dropped, a.live))
        else
          var last := Truncated(c, Last(d));
          var closed := LiveClosed(c, head, d.files[..|d.files| - 1]);
          Ok(Opened(Mem([], head + a.dropped, head, Metas(c, closed), last.first, |last.data|, Meta(c, last).maxSeq, false, false),
                    d.(files := closed + [last]), head + a.dropped, a.live))
  }

  // ---- what recovery finds in a directory that mirrors a log ----

  function Max(a: int, b: int): int { if a < b then b else a }

  /** The log entries in [lo, hi). */
  function Slice<R>(log: seq<R>, lo: int, hi: int): seq<R> {
    if 0 <= lo <= hi <= |log| then log[lo..hi] else []
  }

  /** The replay has consumed the log up to p: it holds what the running buffer would hold after
      admitting the live rounds so far, and has counted the others. */
  ghost predicate At<R>(b: Budget<R>, log: seq<R>, head: nat, a: Replay<R>, p: int) {
    && head <= |log| && 0 <= p <= |log|
    && a.live == AdmitAll(b, [], Slice(log, head, p))
    && a.dropped + |a.live| == Max(head, p) - head
  }

  lemma {:induction false} AdmitAllConcat<R>(b: Budget<R>, q: seq<R>, rs: seq<R>, ts: seq<R>)
    ensures AdmitAll(b, q, rs + ts) == AdmitAll(b, AdmitAll(b, q, rs), ts)
    decreases |rs|
  {
    hide Admit;
    if rs == [] {
      assert rs + ts == ts;
    } else {
      assert (rs + ts)[1..] == rs[1..] + ts;
      AdmitAllConcat(b, Admit(b, q, rs[0]), rs[1..], ts);
    }
  }

  lemma AdmitOne<R>(b: Budget<R>, q: seq<R>, r: R)
    ensures AdmitAll(b, q, [r]) == Admit(b, q, r)
    ensures |Admit(b, q, r)| + Evictions(b, q, b.size(r)) == |q| + 1
  {
    assert [r][1..] == [];
    assert AdmitAll(b, Admit(b, q, r), []) == Admit(b, q, r);
  }

  lemma ReplayRecordOk<R>(c: Codec<R>, b: Budget<R>, log: seq<R>, head: nat, a: Replay<R>, rec: Record, p: int)
    requires At(b, log, head, a, p)
    requires RecordIs(c, log, rec, p)
    requires a.want == -1 || a.want == p
    ensures ReplayRecord(c, b, head, a, rec).Ok?
    ensures var a' := ReplayRecord(c, b, head, a, rec).value;
            At(b, log, head, a', p + 1) && a'.want == p + 1
  {
    hide AdmitAll, Admit, Evictions;
    if p >= head {
      assert Slice(log, head, p + 1) == Slice(log, head, p) + [log[p]];
      AdmitAllConcat(b, [], Slice(log, head, p), [log[p]]);
      AdmitOne(b, a.live, log[p]);
    }
  }

  lemma {:induction false} ReplayRecordsOk<R>(c: Codec<R>, b: Budget<R>, log: seq<R>, head: nat, a: Replay<R>, recs: seq<Record>, p: int)
    requires At(b, log, head, a, p)
    requires forall j :: 0 <= j < |recs| ==> RecordIs(c, log, recs[j], p + j)
    requires p + |recs| <= |log|
    requires a.want == -1 || a.want == p
    ensures ReplayRecords(c, b, head, a, recs).Ok?
    ensures var a' := ReplayRecords(c, b, head, a, recs).value;
            At(b, log, head, a', p + |recs|) && a'.want == if recs == [] then a.want else p + |recs|
    decreases |recs|
  {
    hide At, ReplayRecord, RecordIs;
    if recs != [] {
      assert RecordIs(c, log, recs[0], p + 0);
      ReplayRecordOk(c, b, log, head, a, recs[0], p);
      forall j | 0 <= j < |recs[1..]|
        ensures RecordIs(c, log, recs[1..][j], p + 1 + j)
      {
        assert RecordIs(c, log, recs[j + 1], p + (j + 1));
      }
      ReplayRecordsOk(c, b, log, head, ReplayRecord(c, b, head, a, recs[0]).value, recs[1..], p + 1);
    }
  }

  lemma ReplayFileOk<R>(c: Codec<R>, b: Budget<R>, log: seq<R>, head: nat, a: Replay<R>, f: File, isLast: bool)
    requires Holds(c, log, f) && (!isLast ==> Whole(c, f))
    requires At(b, log, head, a, f.first)
    requires a.want == -1 || a.want == f.first
    ensures ReplayFile(c, b, head, a, f, isLast).Ok?
    ensures var a' := ReplayFile(c, b, head, a, f, isLast).value;
            At(b, log, head, a', End(c, f)) && (f.first < End(c, f) ==> a'.want == End(c, f))
  {
    hide Scan, At, RecordIs, ReplayRecords;
    ReplayRecordsOk(c, b, log, head, a, Scan(c.crc, f.data).recs, f.first);
  }

  lemma {:induction false} ReplayFilesOk<R>(c: Codec<R>, b: Budget<R>, log: seq<R>, d: Disk, head: nat, a: Replay<R>, i: nat)
    requires DiskOk(c, log, d, head)
    requires i < |d.files|
    requires At(b, log, head, a, d.files[i].first)
    requires a.want == -1 || a.want == d.files[i].first
    ensures ReplayFiles(c, b, head, a, d.files[i..]).Ok?
    ensures At(b, log, head, ReplayFiles(c, b, head, a, d.files[i..]).value, End(c, Last(d)))
    decreases |d.files| - i
  {
    hide At, Holds, Whole, End, DurableEnd, ReadHead, ReplayFile;
    var isLast := i == |d.files| - 1;
    assert d.files[i..][1..] == d.files[i + 1..];
    if !isLast {
      assert Closed(c, d.files[i], d.files[i + 1]);
    }
    ReplayFileOk(c, b, log, head, a, d.files[i], isLast);
    if !isLast {
      ReplayFilesOk(c, b, log, d, head, ReplayFile(c, b, head, a, d.files[i], isLast).value, i + 1);
    }
  }

  lemma {:induction false} MaxSeqIs<R>(c: Codec<R>, log: seq<R>, recs: seq<Record>, first: int)
    requires forall j :: 0 <= j < |recs| ==> RecordIs(c, log, recs[j], first + j)
    ensures MaxSeq(recs) == if recs == [] then -1 else first + |recs| - 1
    decreases |recs|
  {
    if recs != [] {
      MaxSeqIs(c, log, recs[..|recs| - 1], first);
      assert RecordIs(c, log, recs[|recs| - 1], first + (|recs| - 1));
    }
  }

  lemma MetaIs<R>(c: Codec<R>, log: seq<R>, f: File)
    requires Holds(c, log, f)
    ensures Meta(c, f) == SegMeta(f.first, if End(c, f) == f.first then -1 else End(c, f) - 1)
  {
    hide Scan, MaxSeq;
    MaxSeqIs(c, log, Scan(c.crc, f.data).recs, f.first);
  }

  // ---- deleting dead closed segments ----

  /** The directory without its first k files. */
  function Without(d: Disk, k: nat): Disk
    requires k <= |d.files|
  {
    d.(files := d.files[k..])
  }

  /** Deleting one dead closed segment from the front leaves a directory that mirrors the same log,
      with the same watermark. */
  lemma RemoveFirstOk<R>(c: Codec<R>, log: seq<R>, d: Disk, head: nat)
    requires DiskOk(c, log, d, head)
    requires |d.files| > 1 && Meta(c, d.files[0]).maxSeq < head
    ensures DiskOk(c, log, Without(d, 1), head)
    ensures Last(Without(d, 1)) == Last(d)
  {
    hide Holds, Whole, DurableEnd, ReadHead, Meta;
    assert Closed(c, d.files[0], d.files[1]);
    MetaIs(c, log, d.files[0]);
    var e := Without(d, 1);
    forall i | 0 <= i < |e.files| - 1
      ensures Closed(c, e.files[i], e.files[i + 1])
    {
      assert Closed(c, d.files[i + 1], d.files[i + 2]);
    }
  }

  /** Segments in front of a live one may be dead; behind a live one all are live. So the dead ones
      are a prefix of the list. */
  lemma {:induction false} LiveClosedIsSuffix<R>(c: Codec<R>, log: seq<R>, d: Disk, head: nat, bound: int)
    returns (k: nat)
    requires DiskOk(c, log, d, head)
    ensures k < |d.files|
    ensures LiveClosed(c, bound, d.files[..|d.files| - 1]) == d.files[k..|d.files| - 1]
    ensures forall i :: 0 <= i < k ==> Meta(c, d.files[i]).maxSeq < bound
    ensures forall i :: k <= i < |d.files| - 1 ==> Meta(c, d.files[i]).maxSeq >= bound
  {
    hide Holds, Whole, End, DurableEnd, ReadHead, Meta;
    k := FirstLive(c, log, d, head, bound, 0);
  }

  lemma {:induction false} FirstLive<R>(c: Codec<R>, log: seq<R>, d: Disk, head: nat, bound: int, i: nat)
    returns (k: nat)
    requires DiskOk(c, log, d, head)
    requires i < |d.files|
    ensures i <= k < |d.files|
    ensures LiveClosed(c, bound, d.files[i..|d.files| - 1]) == d.files[k..|d.files| - 1]
    ensures forall j :: i <= j < k ==> Meta(c, d.files[j]).maxSeq < bound
    ensures forall j :: k <= j < |d.files| - 1 ==> Meta(c, d.files[j]).maxSeq >= bound
    decreases |d.files| - i
  {
    hide Holds, Whole, End, DurableEnd, ReadHead, Meta;
    var n := |d.files| - 1;
    if i == n {
      k := n;
    } else {
      assert d.files[i..n][1..] == d.files[i + 1..n];
      if Meta(c, d.files[i]).maxSeq < bound {
        k := FirstLive(c, log, d, head, bound, i + 1);
      } else {
        k := i;
        AllLiveAfter(c, log, d, head, bound, i);
      }
    }
  }

  lemma {:induction false} AllLiveAfter<R>(c: Codec<R>, log: seq<R>, d: Disk, head: nat, bound: int, i: nat)
    requires DiskOk(c, log, d, head)
    requires i < |d.files| - 1 && Meta(c, d.files[i]).maxSeq >= bound
    ensures LiveClosed(c, bound, d.files[i..|d.files| - 1]) == d.files[i..|d.files| - 1]
    ensures forall j :: i <= j < |d.files| - 1 ==> Meta(c, d.files[j]).maxSeq >= bound
    decreases |d.files| - i
  {
    hide Holds, Whole, End, DurableEnd, ReadHead, Meta, DiskOk;
    var n := |d.files| - 1;
    assert d.files[i..n][1..] == d.files[i + 1..n];
    if i + 1 < n {
      NextMeta(c, log, d, head, i);
      AllLiveAfter(c, log, d, head, bound, i + 1);
    }
  }

  lemma NextMeta<R>(c: Codec<R>, log: seq<R>, d: Disk, head: nat, i: nat)
    requires DiskOk(c, log, d, head) && i + 2 < |d.files|
    ensures Meta(c, d.files[i]).maxSeq < Meta(c, d.files[i + 1]).maxSeq
  {
    hide Holds, Whole, DurableEnd, ReadHead, Meta;
    assert Closed(c, d.files[i], d.files[i + 1]) && Closed(c, d.files[i + 1], d.files[i + 2]);
    MetaIs(c, log, d.files[i]);
    MetaIs(c, log, d.files[i + 1]);
  }

  lemma {:induction false} WithoutOk<R>(c: Codec<R>, log: seq<R>, d: Disk, head: nat, k: nat)
    requires DiskOk(c, log, d, head)
    requires k < |d.files|
    requires forall i :: 0 <= i < k ==> Meta(c, d.files[i]).maxSeq < head
    ensures DiskOk(c, log, Without(d, k), head)
    ensures Last(Without(d, k)) == Last(d)
    decreases k
  {
    hide DiskOk, Meta;
    if k == 0 {
      assert Without(d, 0) == d;
    } else {
      RemoveFirstOk(c, log, d, head);
      WithoutOk(c, log, Without(d, 1), head, k - 1);
      assert Without(Without(d, 1), k - 1) == Without(d, k);
    }
  }

  // ---- the recovery theorem ----

  /** The running spool describes its directory: the metadata of every closed segment, the size and
      last number of the active one, the durable watermark. */
  ghost predicate Describes<R>(c: Codec<R>, m: Mem<R>, d: Disk) {
    && d.files != []
    && m.segments == Metas(c, d.files[..|d.files| - 1])
    && m.activeFirst == Last(d).first
    && m.activeBytes == |Last(d).data|
    && m.activeMax == Meta(c, Last(d)).maxSeq
    && ReadHead(c.crc, d.headFile) == Some(m.headDurable)
    && Whole(c, Last(d))
  }

  /** Opening a directory that mirrors a log never fails. It returns what the buffer's own policy
      keeps of the live log entries, at the right sequence numbers; it leaves a directory that mirrors
      the same log up to the same end, without a dead closed segment, and loses nothing that was fsynced. */
  lemma OpenTheorem<R>(c: Codec<R>, b: Budget<R>, log: seq<R>, d: Disk, head: nat)
    requires DiskOk(c, log, d, head)
    ensures Open(c, b, d).Ok?
    ensures var o := Open(c, b, d).value;
            && o.live == AdmitAll(b, [], Slice(log, head, End(c, Last(d))))
            && o.head == Max(head, End(c, Last(d))) - |o.live|
            && head <= End(c, Last(d))
            && o.mem.head == o.head && o.mem.headDurable == head
            && o.mem.pending == [] && !o.mem.degraded && !o.mem.closed
            && DiskOk(c, log, o.disk, head)
            && End(c, Last(o.disk)) == End(c, Last(d))
            && DurableEnd(c, Last(o.disk)) == DurableEnd(c, Last(d))
            && Describes(c, o.mem, o.disk)
            && NoneDead(c, o.disk, head)
  {
    hide ReplayFiles, LiveClosed, Truncated, DiskOk, Describes, Metas, Holds, AdmitAll, Meta, End, DurableEnd, Whole, NoneDead;
    OpenBounds(c, log, d, head);
    StartAt(b, log, head, d.files[0].first);
    ReplayFilesOk(c, b, log, d, head, Replay(-1, [], 0), 0);
    assert d.files[0..] == d.files;
    var k := LiveClosedIsSuffix(c, log, d, head, head);
    OpenDisk(c, log, d, head, k);
    OpenNoneDead(c, d, head, k);
    var o := Open(c, b, d).value;
    OpenDescribes(c, o.mem, o.disk, d.files[k..|d.files| - 1], Truncated(c, Last(d)));
  }

  /** Every closed segment holds a record at or above the head. */
  predicate NoneDead<R>(c: Codec<R>, d: Disk, head: int) {
    forall i :: 0 <= i < |d.files| - 1 ==> Meta(c, d.files[i]).maxSeq >= head
  }

  lemma OpenNoneDead<R>(c: Codec<R>, d: Disk, head: int, k: nat)
    requires k < |d.files| && forall i :: k <= i < |d.files| - 1 ==> Meta(c, d.files[i]).maxSeq >= head
    ensures NoneDead(c, d.(files := d.files[k..|d.files| - 1] + [Truncated(c, Last(d))]), head)
  {
    hide Meta, Truncated;
  }

  lemma OpenBounds<R>(c: Codec<R>, log: seq<R>, d: Disk, head: nat)
    requires DiskOk(c, log, d, head)
    ensures d.files != [] && ReadHead(c.crc, d.headFile) == Some(head)
    ensures 0 <= d.files[0].first <= head <= End(c, Last(d)) <= |log|
  {
    hide DurableEnd, ReadHead;
    DurableEndBelow(c, log, Last(d));
  }

  lemma StartAt<R>(b: Budget<R>, log: seq<R>, head: nat, first: int)
    requires 0 <= first <= head <= |log|
    ensures At(b, log, head, Replay(-1, [], 0), first)
  {}

  lemma OpenDisk<R>(c: Codec<R>, log: seq<R>, d: Disk, head: nat, k: nat)
    requires DiskOk(c, log, d, head)
    requires k < |d.files|
    requires forall i :: 0 <= i < k ==> Meta(c, d.files[i]).maxSeq < head
    ensures var e := d.(files := d.files[k..|d.files| - 1] + [Truncated(c, Last(d))]);
            && DiskOk(c, log, e, head)
            && Whole(c, Last(e))
            && End(c, Last(e)) == End(c, Last(d))
            && DurableEnd(c, Last(e)) == DurableEnd(c, Last(d))
  {
    hide *;
    var last := Truncated(c, Last(d));
    HeadBelowDurable(c, log, d, head);
    WithoutOk(c, log, d, head, k);
    TruncateFile(c, log, Last(d));
    TruncatedName(c, Last(d));
    WithLastOk(c, log, Without(d, k), head, last);
    WithLastWithout(d, k, last);
  }

  lemma WithLastWithout(d: Disk, k: nat, f: File)
    requires k < |d.files|
    ensures WithLast(Without(d, k), f) == d.(files := d.files[k..|d.files| - 1] + [f])
  {}

  lemma HeadBelowDurable<R>(c: Codec<R>, log: seq<R>, d: Disk, head: nat)
    requires DiskOk(c, log, d, head)
    ensures Holds(c, log, Last(d)) && head <= DurableEnd(c, Last(d))
  {}

  lemma TruncatedName<R>(c: Codec<R>, f: File)
    ensures Truncated(c, f).first == f.first
  {}

  lemma OpenDescribes<R>(c: Codec<R>, m: Mem<R>, d: Disk, closed: seq<File>, last: File)
    requires d.files == closed + [last]
    requires m.segments == Metas(c, closed) && m.activeFirst == last.first && m.activeBytes == |last.data|
    requires m.activeMax == Meta(c, last).maxSeq
    requires ReadHead(c.crc, d.headFile) == Some(m.headDurable) && Whole(c, last)
    ensures Describes(c, m, d)
  {
    assert d.files[..|d.files| - 1] == closed;
  }

  // ---- exactly which directories are accepted ----

  /** Each record is numbered one after the one before it. (A negative number is followed by any.) */
  predicate Numbered(recs: seq<Record>) {
    forall i :: 0 < i < |recs| ==> recs[i - 1].seqNo + 1 < 0 || recs[i].seqNo == recs[i - 1].seqNo + 1
  }

  /** The number after the last record; -1 before the first. */
  function NextWanted(want: int, recs: seq<Record>): int { if recs == [] then want else recs[|recs| - 1].seqNo + 1 }

  predicate StartsAt(want: int, recs: seq<Record>) { recs != [] && want >= 0 ==> recs[0].seqNo == want }

  predicate LiveDecode<R>(c: Codec<R>, head: int, recs: seq<Record>) {
    forall rec :: rec in recs ==> rec.seqNo < head || c.dec(rec.body).Some?
  }

  lemma {:induction false} ReplayRecordsIff<R>(c: Codec<R>, b: Budget<R>, head: int, a: Replay<R>, recs: seq<Record>)
    ensures ReplayRecords(c, b, head, a, recs).Ok? <==>
            StartsAt(a.want, recs) && Numbered(recs) && LiveDecode(c, head, recs)
    ensures ReplayRecords(c, b, head, a, recs).Ok? ==>
              ReplayRecords(c, b, head, a, recs).value.want == NextWanted(a.want, recs)
    decreases |recs|
  {
    hide Admit, Evictions;
    if recs != [] {
      var rest := recs[1..];
      NumberedCons(recs);
      LiveDecodeCons(c, head, recs);
      hide Numbered, LiveDecode;
      if ReplayRecord(c, b, head, a, recs[0]).Ok? {
        ReplayRecordsIff(c, b, head, ReplayRecord(c, b, head, a, recs[0]).value, rest);
      }
    }
  }

  lemma LiveDecodeCons<R>(c: Codec<R>, head: int, recs: seq<Record>)
    requires recs != []
    ensures LiveDecode(c, head, recs) <==>
            (recs[0].seqNo < head || c.dec(recs[0].body).Some?) && LiveDecode(c, head, recs[1..])
  {
    assert forall rec :: rec in recs <==> rec == recs[0] || rec in recs[1..];
  }

  lemma NumberedCons(recs: seq<Record>)
    requires recs != []
    ensures Numbered(recs) <==> Numbered(recs[1..]) && StartsAt(recs[0].seqNo + 1, recs[1..])
  {
    var rest := recs[1..];
    if Numbered(rest) && StartsAt(recs[0].seqNo + 1, rest) {
      forall i | 0 < i < |recs|
        ensures recs[i - 1].seqNo + 1 < 0 || recs[i].seqNo == recs[i - 1].seqNo + 1
      {
        if i > 1 { assert rest[i - 2].seqNo + 1 < 0 || rest[i - 1].seqNo == rest[i - 2].seqNo + 1; }
      }
    }
    if Numbered(recs) {
      forall i | 0 < i < |rest|
        ensures rest[i - 1].seqNo + 1 < 0 || rest[i].seqNo == rest[i - 1].seqNo + 1
      {
        assert recs[i].seqNo + 1 < 0 || recs[i + 1].seqNo == recs[i].seqNo + 1;
      }
    }
  }

  /** All records of all segments, in order. */
  function AllRecords<R>(c: Codec<R>, files: seq<File>): seq<Record> {
    if files == [] then [] else Scan(c.crc, files[0].data).recs + AllRecords(c, files[1..])
  }

  /** Closed segments end on a frame boundary; the last one may end in a torn frame, not in a bad one. */
  predicate StopsOk<R>(c: Codec<R>, files: seq<File>) {
    forall i :: 0 <= i < |files| ==>
      var stop := Scan(c.crc, files[i].data).stop;
      if i < |files| - 1 then stop == CleanEof else stop != BadFrame
  }

  lemma {:induction false} ReplayFilesIff<R>(c: Codec<R>, b: Budget<R>, head: int, a: Replay<R>, files: seq<File>)
    ensures ReplayFiles(c, b, head, a, files).Ok? <==>
            var all := AllRecords(c, files);
            StopsOk(c, files) && StartsAt(a.want, all) && Numbered(all) && LiveDecode(c, head, all)
    decreases |files|
  {
    hide Scan, ReplayRecords, Numbered, LiveDecode;
    if files != [] {
      var recs, rest := Scan(c.crc, files[0].data).recs, AllRecords(c, files[1..]);
      ReplayRecordsIff(c, b, head, a, recs);
      StopsCons(c, files);
      NumberedConcat(recs, rest);
      LiveDecodeConcat(c, head, recs, rest);
      if ReplayFile(c, b, head, a, files[0], |files| == 1).Ok? {
        ReplayFilesIff(c, b, head, ReplayFile(c, b, head, a, files[0], |files| == 1).value, files[1..]);
      }
    } else {
      NoneNumbered();
      NoneLive(c, head);
    }
  }

  lemma NoneLive<R>(c: Codec<R>, head: int)
    ensures LiveDecode(c, head, [])
  {}

  lemma StopsCons<R>(c: Codec<R>, files: seq<File>)
    requires files != []
    ensures StopsOk(c, files) <==>
            StopError(Scan(c.crc, files[0].data).stop, |files| == 1).None? && StopsOk(c, files[1..])
  {
    hide Scan;
    var rest := files[1..];
    if StopsOk(c, files) {
      forall i | 0 <= i < |rest|
        ensures var stop := Scan(c.crc, rest[i].data).stop; if i < |rest| - 1 then stop == CleanEof else stop != BadFrame
      {
        assert rest[i] == files[i + 1];
      }
    }
  }

  lemma {:induction false} NumberedConcat(a: seq<Record>, z: seq<Record>)
    ensures Numbered(a + z) <==> Numbered(a) && Numbered(z) && (a != [] ==> StartsAt(a[|a| - 1].seqNo + 1, z))
    decreases |a|
  {
    hide Numbered;
    if a == [] {
      assert a + z == z;
      NoneNumbered();
    } else {
      NumberedConcat(a[1..], z);
      assert (a + z)[1..] == a[1..] + z && (a + z)[0] == a[0];
      NumberedCons(a + z);
      NumberedCons(a);
      NoneNumbered();
    }
  }

  lemma NoneNumbered()
    ensures Numbered([])
  {}

  lemma LiveDecodeConcat<R>(c: Codec<R>, head: int, a: seq<Record>, z: seq<Record>)
    ensures LiveDecode(c, head, a + z) <==> LiveDecode(c, head, a) && LiveDecode(c, head, z)
  {
    assert forall rec :: rec in a + z <==> rec in a || rec in z;
  }

  /** Every segment's stop reason is allowed, all records together are numbered without a gap or a repetition, and
      every one at or above the watermark decodes. */
  predicate Acceptable<R>(c: Codec<R>, head: int, files: seq<File>) {
    StopsOk(c, files) && Numbered(AllRecords(c, files)) && LiveDecode(c, head, AllRecords(c, files))
  }

  /** openSpool accepts a directory exactly if the head file is absent or carries its own checksum, every closed
      segment is complete, the last one holds no bad frame, all records together are numbered without a gap or
      a repetition, and every live one decodes. */
  lemma OpenAcceptsIff<R>(c: Codec<R>, b: Budget<R>, d: Disk)
    ensures Open(c, b, d).Ok? <==>
            || (d.headFile.None? && Acceptable(c, 0, d.files))
            || exists h: int64 :: d.headFile == Some(HeadBytes(c.crc, h)) && Acceptable(c, h, d.files)
  {
    hide ReplayFiles, StopsOk, Numbered, LiveDecode, HeadBytes, ReadHead, LiveClosed, Truncated, AllRecords, Acceptable;
    NoHead(c.crc);
    if ReadHead(c.crc, d.headFile).Some? {
      AcceptsIff(c, b, ReadHead(c.crc, d.headFile).value, d.files);
      if d.headFile.Some? { HeadOnlyWritten(c.crc, d.headFile.value); }
    }
    if h: int64 :| d.headFile == Some(HeadBytes(c.crc, h)) && Acceptable(c, h, d.files) { HeadRoundTrip(c.crc, h); }
  }

  lemma NoHead(crc: Checksum)
    ensures ReadHead(crc, None) == Some(0)
  {}

  lemma AcceptsIff<R>(c: Codec<R>, b: Budget<R>, head: int, files: seq<File>)
    ensures ReplayFiles(c, b, head, Replay(-1, [], 0), files).Ok? <==> Acceptable(c, head, files)
  {
    hide ReplayFiles, StopsOk, Numbered, LiveDecode, AllRecords;
    ReplayFilesIff(c, b, head, Replay(-1, [], 0), files);
  }
}
