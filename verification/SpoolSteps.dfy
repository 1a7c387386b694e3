/** The spool's writes, one system call at a time, and what each of them keeps. A crash may strike
    between any two of them. */
module SpoolSteps {
  import opened Wrappers
  import opened Frames
  import opened SpoolDisk
  import opened SpoolRecovery

  const MAX_SEQ := 0x7fff_ffff_ffff_ffff

  /** One system call of a flush, with the failures the code handles by degrading. */
  datatype SpoolStep =
    | Sync
    | Roll
    | Write
    | WriteHead
    | Reclaim
    | SyncFault
    | RollFault(recorded: bool, created: bool)
    | WriteFault(kept: nat)
    | HeadFault(replaced: bool)

  predicate Off<R>(m: Mem<R>) { m.degraded || m.closed }

  function NextFrame<R>(c: Codec<R>, m: Mem<R>): seq<byte>
    requires m.pending != []
  {
    FrameOf(c, m.pending[0].seqNo, m.pending[0].round)
  }

  /** The next record would make the active segment too large. */
  predicate MustRoll<R>(c: Codec<R>, segMax: int, m: Mem<R>)
    requires m.pending != []
  {
    m.activeBytes > 0 && m.activeBytes + |NextFrame(c, m)| > segMax
  }

  /** Where the flush can make this call. */
  predicate Enabled<R>(c: Codec<R>, segMax: int, m: Mem<R>, d: Disk, st: SpoolStep) {
    && !Off(m) && d.files != []
    && match st
       case Sync | SyncFault => true
       case Roll | RollFault(_, _) => m.pending != [] && MustRoll(c, segMax, m) && Last(d).synced == |Last(d).data|
       case Write => m.pending != [] && !MustRoll(c, segMax, m)
       case WriteFault(kept) => m.pending != [] && !MustRoll(c, segMax, m) && kept <= |NextFrame(c, m)|
       case WriteHead | HeadFault(_) =>
         m.pending == [] && Last(d).synced == |Last(d).data| && 0 <= m.headDurable < m.head <= MAX_SEQ
       case Reclaim => |d.files| > 1 && m.segments != [] && m.segments[0].maxSeq < m.headDurable
  }

  function Degrade<R>(m: Mem<R>): Mem<R> { m.(pending := [], degraded := true) }

  function Synced(d: Disk): Disk
    requires d.files != []
  {
    WithLast(d, Last(d).(synced := |Last(d).data|))
  }

  function Appended(d: Disk, bytes: seq<byte>): Disk
    requires d.files != []
  {
    WithLast(d, Last(d).(data := Last(d).data + bytes))
  }

  function NewSegment(d: Disk, first: int): Disk { d.(files := d.files + [File(first, [], 0)]) }

  function Recorded<R>(m: Mem<R>): Mem<R> { m.(segments := m.segments + [SegMeta(m.activeFirst, m.activeMax)]) }

  function Fresh<R>(m: Mem<R>, first: int): Mem<R> {
    Recorded(m).(activeFirst := first, activeBytes := 0, activeMax := -1)
  }

  function Written<R>(c: Codec<R>, m: Mem<R>): Mem<R>
    requires m.pending != []
  {
    m.(pending := m.pending[1..],
       activeBytes := m.activeBytes + |NextFrame(c, m)|,
       activeMax := Max(m.activeMax, m.pending[0].seqNo))
  }

  function WithHead<R>(c: Codec<R>, d: Disk, head: int64): Disk { d.(headFile := Some(HeadBytes(c.crc, head))) }

  function AfterStep<R>(c: Codec<R>, segMax: int, m: Mem<R>, d: Disk, st: SpoolStep): (Mem<R>, Disk)
    requires Enabled(c, segMax, m, d, st)
  {
    match st
    case Sync => (m, Synced(d))
    case Roll => (Fresh(m, m.pending[0].seqNo), NewSegment(d, m.pending[0].seqNo))
    case Write => (Written(c, m), Appended(d, NextFrame(c, m)))
    case WriteHead => (m.(headDurable := m.head), WithHead(c, d, m.head))
    case Reclaim => (m.(segments := m.segments[1..]), Without(d, 1))
    case SyncFault => (Degrade(m), d)
    case RollFault(recorded, created) =>
      (Degrade(if recorded then Recorded(m) else m), if created then NewSegment(d, m.pending[0].seqNo) else d)
    case WriteFault(kept) => (Degrade(m), Appended(d, NextFrame(c, m)[..kept]))
    case HeadFault(replaced) =>
      (Degrade(m), if replaced then WithHead(c, d, m.head) else d)
  }

  // ---- the invariant ----

  predicate StagedIs<R(==)>(log: seq<R>, s: Staged<R>, i: int) { 0 <= i < |log| && s.seqNo == i && s.round == log[i] }

  /** The staged rounds are the log from `start` to its end. */
  ghost predicate Continues<R>(log: seq<R>, pending: seq<Staged<R>>, start: int) {
    && start + |pending| == |log|
    && forall i :: 0 <= i < |pending| ==> StagedIs(log, pending[i], start + i)
  }

  /** The spool and its directory mirror the log. A degraded or closed spool no longer follows it, but
      its directory still holds a true piece of it. */
  ghost predicate SpoolInv<R>(c: Codec<R>, log: seq<R>, m: Mem<R>, d: Disk, head: nat) {
    && |log| <= MAX_SEQ
    && DiskOk(c, log, d, head)
    && (!Off(m) ==>
          && Describes(c, m, d)
          && Continues(log, m.pending, End(c, Last(d)))
          && m.headDurable == head <= m.head <= |log|)
  }

  /** Sequence numbers below this are fsynced. */
  function FsyncedEnd<R>(c: Codec<R>, d: Disk): int
    requires d.files != []
  {
    DurableEnd(c, Last(d))
  }

  function HeadAfter<R>(m: Mem<R>, head: int, st: SpoolStep): int {
    if st == WriteHead || st == HeadFault(true) then m.head else head
  }

  /** What every step keeps: the invariant, and everything that was fsynced. */
  ghost predicate Kept<R>(c: Codec<R>, log: seq<R>, d: Disk, m': Mem<R>, d': Disk, head': int) {
    && d.files != [] && 0 <= head'
    && SpoolInv(c, log, m', d', head')
    && FsyncedEnd(c, d) <= FsyncedEnd(c, d')
  }

  // ---- metadata of the closed segments ----

  lemma {:induction false} MetasSnoc<R>(c: Codec<R>, files: seq<File>, f: File)
    ensures Metas(c, files + [f]) == Metas(c, files) + [Meta(c, f)]
  {
    if files == [] {
      assert [f][1..] == [] && files + [f] == [f];
    } else {
      assert (files + [f])[1..] == files[1..] + [f];
      MetasSnoc(c, files[1..], f);
    }
  }

  lemma InitOfWithLast(d: Disk, f: File)
    requires d.files != []
    ensures WithLast(d, f).files[..|WithLast(d, f).files| - 1] == d.files[..|d.files| - 1]
    ensures Last(WithLast(d, f)) == f
  {}

  /** Describing the directory again after a change to the active segment only. */
  lemma DescribesWithLast<R>(c: Codec<R>, m: Mem<R>, d: Disk, m': Mem<R>, f: File)
    requires Describes(c, m, d)
    requires f.first == Last(d).first && Whole(c, f)
    requires m'.segments == m.segments && m'.activeFirst == m.activeFirst && m'.headDurable == m.headDurable
    requires m'.activeBytes == |f.data| && m'.activeMax == Meta(c, f).maxSeq
    ensures Describes(c, m', WithLast(d, f))
  {
    hide Whole, Meta, Metas, ReadHead;
    InitOfWithLast(d, f);
  }

  lemma InvParts<R>(c: Codec<R>, log: seq<R>, m: Mem<R>, d: Disk, head: nat)
    requires SpoolInv(c, log, m, d, head) && !Off(m)
    ensures d.files != [] && Holds(c, log, Last(d)) && Whole(c, Last(d))
    ensures head <= DurableEnd(c, Last(d)) <= End(c, Last(d))
    ensures Meta(c, Last(d)) == SegMeta(Last(d).first, if End(c, Last(d)) == Last(d).first then -1 else End(c, Last(d)) - 1)
    ensures m.activeMax == Meta(c, Last(d)).maxSeq && m.activeFirst == Last(d).first
  {
    hide Holds, End, DurableEnd, Whole, Meta, ReadHead, Metas;
    DurableEndBelow(c, log, Last(d));
    MetaIs(c, log, Last(d));
  }

  // ---- the steps, one by one ----

  lemma SyncKeeps<R>(c: Codec<R>, log: seq<R>, m: Mem<R>, d: Disk, head: nat)
    requires SpoolInv(c, log, m, d, head) && !Off(m)
    ensures Kept(c, log, d, m, Synced(d), head)
    ensures FsyncedEnd(c, Synced(d)) == End(c, Last(d)) == End(c, Last(Synced(d)))
  {
    hide Holds, End, DurableEnd, Whole, ReadHead, Metas, DiskOk, Meta, Scan;
    InvParts(c, log, m, d, head);
    var f := Last(d).(synced := |Last(d).data|);
    SyncFile(c, log, Last(d));
    WithLastOk(c, log, d, head, f);
    SameData(c, Last(d), f);
    DescribesWithLast(c, m, d, m, f);
  }

  lemma SameData<R>(c: Codec<R>, f: File, g: File)
    requires f.data == g.data && f.first == g.first
    ensures Whole(c, f) == Whole(c, g) && Meta(c, f) == Meta(c, g) && End(c, f) == End(c, g)
  {}

  lemma WriteKeeps<R(!new)>(c: Codec<R>, segMax: int, log: seq<R>, m: Mem<R>, d: Disk, head: nat)
    requires Sound(c) && SpoolInv(c, log, m, d, head) && Enabled(c, segMax, m, d, Write)
    ensures Kept(c, log, d, Written(c, m), Appended(d, NextFrame(c, m)), head)
    ensures FsyncedEnd(c, Appended(d, NextFrame(c, m))) == FsyncedEnd(c, d)
  {
    hide Holds, End, DurableEnd, Whole, ReadHead, Metas, DiskOk, Meta, Scan, FrameOf, Describes, MustRoll, Sound, Continues;
    InvParts(c, log, m, d, head);
    ContinuesPop(log, m.pending, End(c, Last(d)));
    var f := Last(d).(data := Last(d).data + NextFrame(c, m));
    AppendRecord(c, log, Last(d));
    WithLastOk(c, log, d, head, f);
    MetaIs(c, log, f);
    NameBelow(c, log, Last(d));
    assert |f.data| == m.activeBytes + |NextFrame(c, m)| by { DescribedBytes(c, m, d); }
    DescribesWithLast(c, m, d, Written(c, m), f);
  }

  lemma DescribedBytes<R>(c: Codec<R>, m: Mem<R>, d: Disk)
    requires Describes(c, m, d)
    ensures m.activeBytes == |Last(d).data|
  {}

  lemma NameBelow<R>(c: Codec<R>, log: seq<R>, f: File)
    requires Holds(c, log, f)
    ensures 0 <= f.first <= End(c, f)
  {}

  lemma ContinuesPop<R>(log: seq<R>, pending: seq<Staged<R>>, start: int)
    requires Continues(log, pending, start) && pending != []
    ensures StagedIs(log, pending[0], start)
    ensures Continues(log, pending[1..], start + 1)
  {
    hide StagedIs;
    assert StagedIs(log, pending[0], start + 0);
    forall i | 0 <= i < |pending| - 1
      ensures StagedIs(log, pending[1..][i], start + 1 + i)
    {
      assert StagedIs(log, pending[i + 1], start + (i + 1));
    }
  }

  lemma WriteFaultKeeps<R(!new)>(c: Codec<R>, log: seq<R>, m: Mem<R>, d: Disk, head: nat, kept: nat)
    requires !Off(m) && d.files != [] && m.pending != [] && kept <= |NextFrame(c, m)|
    requires Sound(c) && SpoolInv(c, log, m, d, head)
    ensures Kept(c, log, d, Degrade(m), Appended(d, NextFrame(c, m)[..kept]), head)
  {
    hide Holds, End, DurableEnd, Whole, ReadHead, DiskOk, FrameOf, MustRoll, Sound, SpoolInv, Kept;
    WriterParts(c, log, m, d, head);
    var frame := NextFrame(c, m);
    var f := Last(d).(data := Last(d).data + frame[..kept]);
    if kept == |frame| {
      assert frame[..kept] == frame;
      AppendRecord(c, log, Last(d));
    } else {
      AppendTorn(c, log, Last(d), kept);
    }
    WithLastOk(c, log, d, head, f);
    DegradedKept(c, log, m, d, WithLast(d, f), head);
  }

  lemma WriterParts<R>(c: Codec<R>, log: seq<R>, m: Mem<R>, d: Disk, head: nat)
    requires SpoolInv(c, log, m, d, head) && !Off(m) && m.pending != []
    ensures d.files != [] && DiskOk(c, log, d, head) && Holds(c, log, Last(d)) && Whole(c, Last(d))
    ensures head <= DurableEnd(c, Last(d)) && End(c, Last(d)) < |log| <= MAX_SEQ
    ensures NextFrame(c, m) == FrameOf(c, End(c, Last(d)), log[End(c, Last(d))])
  {
    hide Holds, End, DurableEnd, Whole, ReadHead, DiskOk, FrameOf, Describes, Continues;
    InvParts(c, log, m, d, head);
    ContinuesPop(log, m.pending, End(c, Last(d)));
  }

  /** A degraded spool has nothing to keep but the directory. */
  lemma DegradedKept<R>(c: Codec<R>, log: seq<R>, m: Mem<R>, d: Disk, d': Disk, head: nat)
    requires d.files != [] && d'.files != [] && |log| <= MAX_SEQ && DiskOk(c, log, d', head)
    requires DurableEnd(c, Last(d)) <= DurableEnd(c, Last(d'))
    ensures Kept(c, log, d, Degrade(m), d', head)
  {
    hide DiskOk, DurableEnd;
  }

  lemma NewSegmentOk<R>(c: Codec<R>, log: seq<R>, d: Disk, head: nat)
    requires DiskOk(c, log, d, head)
    requires Whole(c, Last(d)) && Last(d).synced == |Last(d).data| && Last(d).data != []
    ensures var e := NewSegment(d, End(c, Last(d)));
            && DiskOk(c, log, e, head)
            && End(c, Last(e)) == DurableEnd(c, Last(e)) == End(c, Last(d))
            && Whole(c, Last(e)) && Meta(c, Last(e)).maxSeq == -1
  {
    hide Holds, End, DurableEnd, Whole, ReadHead, Meta;
    var g := File(End(c, Last(d)), [], 0);
    EmptyFile(c, log, g, Last(d));
    SyncedEnd(c, Last(d));
    NonEmptyHasRecord(c, Last(d));
    var e := NewSegment(d, End(c, Last(d)));
    forall i | 0 <= i < |e.files| - 1
      ensures Closed(c, e.files[i], e.files[i + 1])
    {
      if i < |d.files| - 1 {
        assert Closed(c, d.files[i], d.files[i + 1]);
      }
    }
  }

  lemma EmptyFile<R>(c: Codec<R>, log: seq<R>, g: File, f: File)
    requires Holds(c, log, f) && g == File(End(c, f), [], 0)
    ensures Holds(c, log, g) && Whole(c, g)
    ensures End(c, g) == DurableEnd(c, g) == g.first
    ensures Meta(c, g).maxSeq == -1
  {
    ScanEmpty(c.crc);
    assert SyncedBytes(g) == [];
  }

  lemma SyncedEnd<R>(c: Codec<R>, f: File)
    requires f.synced == |f.data|
    ensures DurableEnd(c, f) == End(c, f)
  {
    assert f.data[..f.synced] == f.data;
  }

  lemma NonEmptyHasRecord<R>(c: Codec<R>, f: File)
    requires Whole(c, f) && f.data != []
    ensures f.first < End(c, f)
  {
    hide DecodeFrame;
  }

  lemma RollKeeps<R>(c: Codec<R>, segMax: int, log: seq<R>, m: Mem<R>, d: Disk, head: nat)
    requires SpoolInv(c, log, m, d, head) && Enabled(c, segMax, m, d, Roll)
    ensures Kept(c, log, d, Fresh(m, m.pending[0].seqNo), NewSegment(d, m.pending[0].seqNo), head)
    ensures Kept(c, log, d, Degrade(m), NewSegment(d, m.pending[0].seqNo), head)
    ensures Kept(c, log, d, Degrade(Recorded(m)), NewSegment(d, m.pending[0].seqNo), head)
  {
    hide Holds, End, DurableEnd, Whole, ReadHead, Metas, DiskOk, Meta, Scan, FrameOf;
    InvParts(c, log, m, d, head);
    ContinuesPop(log, m.pending, End(c, Last(d)));
    NewSegmentOk(c, log, d, head);
    var e := NewSegment(d, m.pending[0].seqNo);
    assert e.files[..|e.files| - 1] == d.files[..|d.files| - 1] + [Last(d)];
    MetasSnoc(c, d.files[..|d.files| - 1], Last(d));
  }

  lemma WithHeadOk<R>(c: Codec<R>, log: seq<R>, d: Disk, head: nat, head': int64)
    requires DiskOk(c, log, d, head) && head <= head' <= DurableEnd(c, Last(d))
    ensures DiskOk(c, log, WithHead(c, d, head'), head')
  {
    hide Holds, End, DurableEnd, Whole, ReadHead, HeadBytes, Closed;
    HeadRoundTrip(c.crc, head');
  }

  lemma WithHeadDescribes<R>(c: Codec<R>, m: Mem<R>, d: Disk)
    requires Describes(c, m, d) && 0 <= m.head <= MAX_SEQ
    ensures Describes(c, m.(headDurable := m.head), WithHead(c, d, m.head))
  {
    hide Whole, Metas, Meta, ReadHead, HeadBytes;
    HeadRoundTrip(c.crc, m.head);
  }

  lemma HeadKeeps<R>(c: Codec<R>, segMax: int, log: seq<R>, m: Mem<R>, d: Disk, head: nat)
    requires SpoolInv(c, log, m, d, head) && Enabled(c, segMax, m, d, WriteHead)
    ensures var d' := WithHead(c, d, m.head);
            && Kept(c, log, d, m.(headDurable := m.head), d', m.head)
            && Kept(c, log, d, Degrade(m), d', m.head)
  {
    hide Holds, End, DurableEnd, Whole, ReadHead, Metas, Meta, Closed, Describes, DiskOk, HeadBytes;
    InvParts(c, log, m, d, head);
    SyncedEnd(c, Last(d));
    WithHeadOk(c, log, d, head, m.head);
    WithHeadDescribes(c, m, d);
  }

  lemma FirstMeta<R>(c: Codec<R>, m: Mem<R>, d: Disk)
    requires Describes(c, m, d) && m.segments != []
    ensures |d.files| > 1 && m.segments[0] == Meta(c, d.files[0])
    ensures Metas(c, d.files[1..|d.files| - 1]) == m.segments[1..]
  {
    hide Meta, Whole, ReadHead;
    assert d.files[..|d.files| - 1][1..] == d.files[1..|d.files| - 1];
  }

  lemma WithoutDescribes<R>(c: Codec<R>, m: Mem<R>, d: Disk)
    requires Describes(c, m, d) && m.segments != []
    ensures Describes(c, m.(segments := m.segments[1..]), Without(d, 1))
  {
    FirstMeta(c, m, d);
    hide Meta, Whole, ReadHead, Metas;
    assert d.files[1..][..|d.files[1..]| - 1] == d.files[1..|d.files| - 1];
  }

  lemma ReclaimKeeps<R>(c: Codec<R>, segMax: int, log: seq<R>, m: Mem<R>, d: Disk, head: nat)
    requires SpoolInv(c, log, m, d, head) && Enabled(c, segMax, m, d, Reclaim)
    ensures Kept(c, log, d, m.(segments := m.segments[1..]), Without(d, 1), head)
  {
    hide Holds, End, DurableEnd, Whole, ReadHead, DiskOk, Meta, Scan, Describes, Metas;
    FirstMeta(c, m, d);
    RemoveFirstOk(c, log, d, head);
    WithoutDescribes(c, m, d);
  }

  /** Every step of a flush, whether it succeeds or fails, keeps the mirror and loses nothing that was
      fsynced. */
  lemma StepKeeps<R(!new)>(c: Codec<R>, segMax: int, log: seq<R>, m: Mem<R>, d: Disk, head: nat, st: SpoolStep)
    requires Sound(c) && SpoolInv(c, log, m, d, head) && Enabled(c, segMax, m, d, st)
    ensures var (m', d') := AfterStep(c, segMax, m, d, st);
            Kept(c, log, d, m', d', HeadAfter(m, head, st))
  {
    hide Holds, End, DurableEnd, Whole, ReadHead, Metas, Meta, Scan, FrameOf, Describes, MustRoll, Sound, Continues, DiskOk;
    match st {
      case Sync => SyncKeeps(c, log, m, d, head);
      case Roll => RollKeeps(c, segMax, log, m, d, head);
      case Write => WriteKeeps(c, segMax, log, m, d, head);
      case WriteHead => HeadKeeps(c, segMax, log, m, d, head);
      case Reclaim => ReclaimKeeps(c, segMax, log, m, d, head);
      case SyncFault =>
      case RollFault(recorded, created) => RollKeeps(c, segMax, log, m, d, head);
      case WriteFault(kept) => WriteFaultKeeps(c, log, m, d, head, kept);
      case HeadFault(replaced) => HeadKeeps(c, segMax, log, m, d, head);
    }
  }

  // ---- how large a segment gets ----

  /** The segment holds at most segMax bytes, or at most one record and nothing behind it. */
  predicate Bounded<R>(c: Codec<R>, segMax: int, f: File) {
    var s := Scan(c.crc, f.data);
    |f.data| <= segMax || s.recs == [] || (|s.recs| == 1 && s.consumed == |f.data|)
  }

  predicate AllBounded<R>(c: Codec<R>, segMax: int, d: Disk) { forall i :: 0 <= i < |d.files| ==> Bounded(c, segMax, d.files[i]) }

  /** A cut does not make a segment larger. */
  lemma BoundedCut<R>(c: Codec<R>, segMax: int, f: File, g: File)
    requires Bounded(c, segMax, f) && Scan(c.crc, f.data).stop != BadFrame && |g.data| <= |f.data| && g.data == f.data[..|g.data|]
    ensures Bounded(c, segMax, g)
  {
    hide Scan;
    ScanCut(c.crc, f.data, |g.data|);
    var s, t := Scan(c.crc, f.data), Scan(c.crc, g.data);
    if |s.recs| == 1 && t.recs != [] {
      assert t.recs == s.recs;
      assert t.consumed == FramesLen(s.recs) == s.consumed;
    }
  }

  lemma BoundedWithLast<R>(c: Codec<R>, segMax: int, d: Disk, f: File)
    requires d.files != [] && AllBounded(c, segMax, d) && Bounded(c, segMax, f)
    ensures AllBounded(c, segMax, WithLast(d, f))
  {
    hide Bounded;
  }

  lemma BoundedEmpty<R>(c: Codec<R>, segMax: int, f: File)
    requires f.data == []
    ensures Bounded(c, segMax, f)
  {
    ScanEmpty(c.crc);
  }

  lemma BoundedNew<R>(c: Codec<R>, segMax: int, d: Disk, first: int)
    requires AllBounded(c, segMax, d)
    ensures AllBounded(c, segMax, NewSegment(d, first))
  {
    hide Bounded;
    BoundedEmpty(c, segMax, File(first, [], 0));
  }

  lemma LastBounded<R>(c: Codec<R>, segMax: int, d: Disk)
    requires d.files != [] && AllBounded(c, segMax, d)
    ensures Bounded(c, segMax, Last(d))
  {
    hide Bounded;
  }

  lemma BoundedBytes<R>(c: Codec<R>, segMax: int, f: File)
    requires |f.data| <= segMax
    ensures Bounded(c, segMax, f)
  {}

  /** The bytes of the active segment, and the frame to come: what a roll and a write go by. */
  lemma RollsWhenFull<R>(c: Codec<R>, segMax: int, m: Mem<R>, d: Disk, st: SpoolStep)
    requires Describes(c, m, d) && Enabled(c, segMax, m, d, st)
    ensures st.Roll? || st.RollFault? ==>
              && m.pending != [] && |Last(d).data| > 0
              && |Last(d).data| + |EncodeFrame(c.crc, Record(m.pending[0].seqNo, c.enc(m.pending[0].round)))| > segMax
    ensures st.Write? || st.WriteFault? ==>
              && m.pending != []
              && (|Last(d).data| == 0
                  || |Last(d).data| + |EncodeFrame(c.crc, Record(m.pending[0].seqNo, c.enc(m.pending[0].round)))| <= segMax)
  {
    hide Metas, Meta, Whole, ReadHead, EncodeFrame;
  }

  /** What is written to the active segment keeps it bounded. */
  lemma WriteBounded<R(!new)>(c: Codec<R>, segMax: int, m: Mem<R>, d: Disk, kept: nat)
    requires Sound(c) && Describes(c, m, d) && m.pending != [] && kept <= |NextFrame(c, m)|
    requires Enabled(c, segMax, m, d, Write) && AllBounded(c, segMax, d)
    ensures AllBounded(c, segMax, Appended(d, NextFrame(c, m)[..kept]))
  {
    hide AllBounded, Bounded, Describes, Enabled, Scan, EncodeFrame;
    var rec, frame := Record(m.pending[0].seqNo, c.enc(m.pending[0].round)), NextFrame(c, m);
    CanWrite(c, segMax, m, d);
    RollsWhenFull(c, segMax, m, d, Write);
    var f := Last(d).(data := Last(d).data + frame[..kept]);
    if |Last(d).data| == 0 {
      assert f.data == frame[..kept];
      FrameBounded(c, segMax, rec, f, kept);
    } else {
      BoundedBytes(c, segMax, f);
    }
    BoundedWithLast(c, segMax, d, f);
  }

  lemma CanWrite<R>(c: Codec<R>, segMax: int, m: Mem<R>, d: Disk)
    requires Enabled(c, segMax, m, d, Write)
    ensures d.files != []
  {}

  lemma FrameBounded<R(!new)>(c: Codec<R>, segMax: int, rec: Record, f: File, kept: nat)
    requires Fits(rec) && kept <= |EncodeFrame(c.crc, rec)| && f.data == EncodeFrame(c.crc, rec)[..kept]
    ensures Bounded(c, segMax, f)
  {
    hide Scan, EncodeFrame;
    if kept == |EncodeFrame(c.crc, rec)| {
      assert f.data == EncodeFrame(c.crc, rec);
      ScanOne(c.crc, rec);
    } else {
      TornFrame(c.crc, rec, kept);
    }
  }

  /** No call of a flush makes a segment larger than the limit, but for a record that exceeds it alone. */
  lemma StepBounded<R(!new)>(c: Codec<R>, segMax: int, m: Mem<R>, d: Disk, st: SpoolStep)
    requires Sound(c) && Describes(c, m, d) && Enabled(c, segMax, m, d, st) && AllBounded(c, segMax, d)
    ensures AllBounded(c, segMax, AfterStep(c, segMax, m, d, st).1)
  {
    hide Bounded, Describes, Metas, Meta, MustRoll, Sound, FrameOf, HeadBytes;
    match st {
      case Sync =>
        LastBounded(c, segMax, d);
        SameBounded(c, segMax, Last(d), Last(Synced(d)));
        BoundedWithLast(c, segMax, d, Last(Synced(d)));
      case Write =>
        WriteBounded(c, segMax, m, d, |NextFrame(c, m)|);
        assert NextFrame(c, m)[..|NextFrame(c, m)|] == NextFrame(c, m);
      case WriteFault(kept) => WriteBounded(c, segMax, m, d, kept);
      case Roll => BoundedNew(c, segMax, d, m.pending[0].seqNo);
      case RollFault(_, _) => BoundedNew(c, segMax, d, m.pending[0].seqNo);
      case _ =>
    }
  }

  lemma SameBounded<R>(c: Codec<R>, segMax: int, f: File, g: File)
    requires Bounded(c, segMax, f) && g.data == f.data
    ensures Bounded(c, segMax, g)
  {}
}
