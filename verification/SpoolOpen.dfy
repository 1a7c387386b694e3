/** openSpool of the agent, step by step: the decode loop, the deletion of dead segments, the new
    spool object. It computes exactly SpoolRecovery.Open, about which the recovery theorems speak. */
module SpoolOpen {
  import opened Wrappers
  import opened Frames
  import opened Overflow
  import opened SpoolDisk
  import opened SpoolRecovery
  import opened SpoolSteps
  import opened SpoolObject

  /** One live round enters the bounded queue; the oldest rounds leave until it fits. */
  method AdmitRound<R>(b: Budget<R>, queue: seq<R>, queueBytes: int, r: R) returns (live: seq<R>, liveBytes: int, evicted: nat)
    requires queueBytes == Total(b.size, queue)
    ensures live == Admit(b, queue, r) && liveBytes == Total(b.size, live)
    ensures evicted == Evictions(b, queue, b.size(r))
  {
    var sz := b.size(r);
    live, liveBytes, evicted := queue, queueBytes, 0;
    while |live| > 0 && (|live| >= b.capRounds || liveBytes + sz > b.maxBytes)
      invariant evicted <= |queue| && live == queue[evicted..] && liveBytes == Total(b.size, live)
      invariant Evictions(b, queue, sz) == evicted + Evictions(b, live, sz)
    {
      liveBytes := liveBytes - b.size(live[0]);
      live := live[1..];
      evicted := evicted + 1;
    }
    TotalSnoc(b.size, live, r);
    live := live + [r];
    liveBytes := liveBytes + sz;
  }

  lemma ReplayNext<R>(c: Codec<R>, b: Budget<R>, head: int, a: Replay<R>, recs: seq<Record>, i: nat)
    requires i < |recs|
    ensures ReplayRecords(c, b, head, a, recs[i..]) ==
            match ReplayRecord(c, b, head, a, recs[i])
            case Err(e) => Err(e)
            case Ok(a') => ReplayRecords(c, b, head, a', recs[i + 1..])
  {
    hide ReplayRecord;
    assert recs[i..][1..] == recs[i + 1..];
  }

  lemma MaxSeqNext(recs: seq<Record>, i: nat)
    requires i < |recs|
    ensures MaxSeq(recs[..i + 1]) == if recs[i].seqNo > MaxSeq(recs[..i]) then recs[i].seqNo else MaxSeq(recs[..i])
  {
    assert recs[..i + 1][..i] == recs[..i];
  }

  lemma ReplayDone<R>(c: Codec<R>, b: Budget<R>, head: int, a: Replay<R>, recs: seq<Record>)
    ensures ReplayRecords(c, b, head, a, recs[|recs|..]) == Ok(a)
  {}

  /** The records of one segment: contiguity, the largest number, the live rounds. */
  method ReplaySegment<R>(c: Codec<R>, b: Budget<R>, head: int, a: Replay<R>, queueBytes: int, recs: seq<Record>)
    returns (res: Result<Replay<R>, OpenError>, liveBytes: int, maxSeq: int)
    requires queueBytes == Total(b.size, a.live)
    ensures res == ReplayRecords(c, b, head, a, recs)
    ensures res.Ok? ==> liveBytes == Total(b.size, res.value.live) && maxSeq == MaxSeq(recs)
  {
    hide ReplayRecords, MaxSeq, Total, Admit, Evictions;
    var want, live := a.want, a.live;
    var dropped: nat := a.dropped;
    liveBytes, maxSeq := queueBytes, -1;
    var i := 0;
    assert recs[0..] == recs;
    assert maxSeq == MaxSeq(recs[..0]) by { MaxSeqNone(recs); }
    while i < |recs|
      invariant 0 <= i <= |recs|
      invariant ReplayRecords(c, b, head, a, recs) == ReplayRecords(c, b, head, Replay(want, live, dropped), recs[i..])
      invariant liveBytes == Total(b.size, live) && maxSeq == MaxSeq(recs[..i])
    {
      var rec := recs[i];
      ReplayNext(c, b, head, Replay(want, live, dropped), recs, i);
      MaxSeqNext(recs, i);
      if want >= 0 && rec.seqNo != want {
        return Err(NonContiguous(rec.seqNo, want)), liveBytes, maxSeq;
      }
      want := rec.seqNo + 1;
      if rec.seqNo > maxSeq { maxSeq := rec.seqNo; }
      if rec.seqNo >= head {
        match c.dec(rec.body) {
          case None =>
            return Err(Undecodable(rec.seqNo)), liveBytes, maxSeq;
          case Some(r) =>
            var evicted: nat;
            live, liveBytes, evicted := AdmitRound(b, live, liveBytes, r);
            dropped := dropped + evicted;
        }
      }
      i := i + 1;
    }
    ReplayDone(c, b, head, Replay(want, live, dropped), recs);
    assert recs[..i] == recs;
    return Ok(Replay(want, live, dropped)), liveBytes, maxSeq;
  }

  lemma MaxSeqNone(recs: seq<Record>)
    ensures MaxSeq(recs[..0]) == -1
  {}

  // ---- the decode loop over the segments ----

  /** A file is never fsynced beyond its end. */
  predicate Regular(f: File) { f.synced <= |f.data| }

  lemma ReplayNextFile<R>(c: Codec<R>, b: Budget<R>, head: int, a: Replay<R>, files: seq<File>, i: nat)
    requires i < |files|
    ensures ReplayFiles(c, b, head, a, files[i..]) ==
            match ReplayFile(c, b, head, a, files[i], i == |files| - 1)
            case Err(e) => Err(e)
            case Ok(a') => ReplayFiles(c, b, head, a', files[i + 1..])
  {
    hide ReplayFile;
    assert files[i..][1..] == files[i + 1..];
  }

  lemma ReplayFilesDone<R>(c: Codec<R>, b: Budget<R>, head: int, a: Replay<R>, files: seq<File>)
    ensures ReplayFiles(c, b, head, a, files[|files|..]) == Ok(a)
  {}

  lemma MetasNext<R>(c: Codec<R>, files: seq<File>, i: nat)
    requires i < |files|
    ensures Metas(c, files[..i + 1]) == Metas(c, files[..i]) + [Meta(c, files[i])]
  {
    hide Metas, Meta;
    MetasSnoc(c, files[..i], files[i]);
    assert files[..i + 1] == files[..i] + [files[i]];
  }

  // ---- failing system calls ----

  /** The call of openSpool that fails: making, locking or reading the directory; reading a segment;
      truncating the torn one; opening the active one; the directory sync after its creation. */
  datatype Fault = Healthy | NoAccess | Unreadable(i: nat) | Untruncated | Unopened | Unsynced

  predicate Torn<R>(c: Codec<R>, files: seq<File>) {
    files != [] && Scan(c.crc, files[|files| - 1].data).stop == ShortFrame
  }

  /** The fault hits the loop over the segments. */
  predicate Breaks<R>(c: Codec<R>, files: seq<File>, fault: Fault) {
    (fault.Unreadable? && fault.i < |files|) || (fault == Untruncated && Torn(c, files))
  }

  /** The fault hits a recovery of a sound directory. */
  predicate Fails<R>(c: Codec<R>, d: Disk, fault: Fault) {
    fault == NoAccess || Breaks(c, d.files, fault) || fault == Unopened || (fault == Unsynced && d.files == [])
  }

  /** What a failed recovery leaves: all its deletions and truncations, or none. */
  function Left<R>(c: Codec<R>, b: Budget<R>, d: Disk, fault: Fault): Disk
    requires Open(c, b, d).Ok?
  {
    if (fault == Unopened && d.files != []) || fault == Unsynced then Open(c, b, d).value.disk else d
  }

  /** One segment: read it, replay its records, judge how it ends. */
  method RecoverSegment<R>(c: Codec<R>, b: Budget<R>, head: int, a: Replay<R>, queueBytes: int, f: File, isLast: bool, truncates: bool)
    returns (res: Result<Replay<R>, OpenError>, liveBytes: int, meta: SegMeta, left: File)
    requires queueBytes == Total(b.size, a.live) && Regular(f)
    ensures var r := ReplayFile(c, b, head, a, f, isLast);
            res == if r.Ok? && isLast && !truncates && Scan(c.crc, f.data).stop == ShortFrame then Err(IoFailed) else r
    ensures res.Ok? ==> liveBytes == Total(b.size, res.value.live)
    ensures res.Ok? ==> meta == Meta(c, f) && left == if isLast then Truncated(c, f) else f
  {
    hide Scan, ReplayRecords, MaxSeq, Total;
    left := f;
    var recs, consumed, stop := ReadSegment(c.crc, f.data);
    var maxSeq;
    res, liveBytes, maxSeq := ReplaySegment(c, b, head, a, queueBytes, recs);
    meta := SegMeta(f.first, maxSeq);
    if res.Err? { return; }
    if stop != CleanEof {
      if isLast && stop == ShortFrame {
        if !truncates { return Err(IoFailed), liveBytes, meta, left; }
        left := File(f.first, f.data[..consumed], if f.synced <= consumed then f.synced else consumed);
      } else if isLast {
        res := Err(ActiveCorrupt);
      } else {
        res := Err(ClosedCorrupt);
      }
    } else {
      assert f.data[..consumed] == f.data;
    }
  }

  /** All segments, in name order. */
  method RecoverAll<R>(c: Codec<R>, b: Budget<R>, head: int, files: seq<File>, fault: Fault)
    returns (res: Result<Replay<R>, OpenError>, metas: seq<SegMeta>, left: seq<File>)
    requires forall i :: 0 <= i < |files| ==> Regular(files[i])
    ensures var r := ReplayFiles(c, b, head, Replay(-1, [], 0), files);
            if Breaks(c, files, fault) then res.Err? && (r.Ok? ==> res == Err(IoFailed)) else res == r
    ensures res.Ok? ==> metas == Metas(c, files) && left == Repaired(c, files)
  {
    hide ReplayFiles, ReplayFile, Metas, Meta, Truncated, Total, Repaired, Scan;
    var a: Replay<R> := Replay(-1, [], 0);
    var liveBytes := 0;
    EmptyTotal(b);
    metas, left := [], [];
    var i := 0;
    assert files[0..] == files && files[..0] == [];
    NoMetas(c);
    while i < |files|
      invariant 0 <= i <= |files|
      invariant ReplayFiles(c, b, head, Replay(-1, [], 0), files) == ReplayFiles(c, b, head, a, files[i..])
      invariant liveBytes == Total(b.size, a.live)
      invariant metas == Metas(c, files[..i])
      invariant left == if i < |files| || files == [] then files[..i] else Repaired(c, files)
      invariant Breaks(c, files, fault) ==> i < |files| && (fault.Unreadable? ==> i <= fault.i)
    {
      ReplayNextFile(c, b, head, a, files, i);
      MetasNext(c, files, i);
      RepairedIs(c, files);
      if fault == Unreadable(i) {
        return Err(IoFailed), metas, left;
      }
      var one, meta, f;
      one, liveBytes, meta, f := RecoverSegment(c, b, head, a, liveBytes, files[i], i == |files| - 1, fault != Untruncated);
      if one.Err? {
        return Err(one.error), metas, left;
      }
      a := one.value;
      metas := metas + [meta];
      left := left + [f];
      i := i + 1;
      assert files[..i] == files[..i - 1] + [files[i - 1]];
    }
    ReplayFilesDone(c, b, head, a, files);
    RepairedNone(c);
    assert files[..i] == files;
    return Ok(a), metas, left;
  }

  lemma EmptyTotal<R>(b: Budget<R>)
    ensures Total(b.size, []) == 0
  {}

  lemma NoMetas<R>(c: Codec<R>)
    ensures Metas(c, []) == []
  {}

  /** The segments after the torn tail of the last one was cut off. */
  function Repaired<R>(c: Codec<R>, files: seq<File>): seq<File> {
    if files == [] then [] else files[..|files| - 1] + [Truncated(c, files[|files| - 1])]
  }

  lemma RepairedIs<R>(c: Codec<R>, files: seq<File>)
    requires files != []
    ensures Repaired(c, files) == files[..|files| - 1] + [Truncated(c, files[|files| - 1])]
  {}

  lemma RepairedNone<R>(c: Codec<R>)
    ensures Repaired(c, []) == []
  {}

  // ---- deleting dead closed segments ----

  lemma LiveClosedNext<R>(c: Codec<R>, head: int, files: seq<File>, i: nat)
    requires i < |files|
    ensures LiveClosed(c, head, files[i..]) ==
            (if Meta(c, files[i]).maxSeq < head then [] else [files[i]]) + LiveClosed(c, head, files[i + 1..])
  {
    hide Meta;
    assert files[i..][1..] == files[i + 1..];
  }

  lemma LiveClosedNone<R>(c: Codec<R>, head: int, files: seq<File>)
    ensures LiveClosed(c, head, files[|files|..]) == []
  {}

  /** Every closed segment without a record at or above the durable head goes. */
  method DropDead<R>(c: Codec<R>, head: int, files: seq<File>, metas: seq<SegMeta>)
    returns (kept: seq<File>, segments: seq<SegMeta>)
    requires |metas| == |files| && forall i :: 0 <= i < |files| ==> metas[i] == Meta(c, files[i])
    ensures kept == LiveClosed(c, head, files) && segments == Metas(c, kept)
  {
    hide LiveClosed, Meta, Metas;
    kept, segments := [], [];
    NoMetas(c);
    var i := 0;
    assert files[0..] == files;
    while i < |files|
      invariant 0 <= i <= |files|
      invariant LiveClosed(c, head, files) == kept + LiveClosed(c, head, files[i..])
      invariant segments == Metas(c, kept)
    {
      LiveClosedNext(c, head, files, i);
      if metas[i].maxSeq >= head {
        MetasSnoc(c, kept, files[i]);
        kept := kept + [files[i]];
        segments := segments + [metas[i]];
      }
      i := i + 1;
    }
    LiveClosedNone(c, head, files);
  }

  /** openSpool: what it returns, the object it builds and the directory it leaves, whichever call fails. */
  method OpenSpool<R(!new)>(c: Codec<R>, segMax: int, b: Budget<R>, d: Disk, fault: Fault, machine: nat -> bool)
    returns (err: Option<OpenError>, sp: Spool?<R>, head: int, live: seq<R>, left: Disk)
    requires forall i :: 0 <= i < |d.files| ==> Regular(d.files[i])
    ensures match Open(c, b, d)
            case Err(e) => err.Some? && sp == null && left == d && (fault == Healthy ==> err == Some(e))
            case Ok(o) =>
              if Fails(c, d, fault) then err == Some(IoFailed) && sp == null && left == Left(c, b, d, fault)
              else
                && err == None && sp != null && fresh(sp)
                && sp.codec == c && sp.segMax == segMax && sp.M() == o.mem && sp.disk == o.disk == left && sp.machine == machine
                && head == o.head && live == o.live
  {
    hide ReplayFiles, LiveClosed, Metas, Meta, Truncated, ReadHead, Repaired, Scan;
    head, live := 0, [];
    if fault == NoAccess { return Some(IoFailed), null, 0, [], d; }
    var durable;
    match ReadHead(c.crc, d.headFile) {
      case None => return Some(HeadCorrupt), null, 0, [], d;
      case Some(h) => durable := h;
    }
    var res, metas, files := RecoverAll(c, b, durable, d.files, fault);
    if res.Err? {
      return Some(res.error), null, 0, [], d;
    }
    head, live := durable + res.value.dropped, res.value.live;
    var n := |d.files|;
    if n == 0 {
      if fault == Unopened { return Some(IoFailed), null, 0, [], d; }
      left := d.(files := [File(durable, [], 0)]);
      if fault == Unsynced { return Some(IoFailed), null, 0, [], left; }
      var mem := Mem([], head, durable, [], durable, 0, -1, false, false);
      sp := new Spool.Adopt(c, segMax, mem, left, machine);
      return None, sp, head, live, left;
    }
    RepairedIs(c, d.files);
    var closed, segments := DropDead(c, durable, d.files[..n - 1], metas[..n - 1]);
    var active := files[n - 1];
    left := d.(files := closed + [active]);
    if fault == Unopened { return Some(IoFailed), null, 0, [], left; }
    RepairedMeta(c, b, durable, d.files);
    var mem := Mem([], head, durable, segments, active.first, |active.data|, metas[n - 1].maxSeq, false, false);
    sp := new Spool.Adopt(c, segMax, mem, left, machine);
    return None, sp, head, live, left;
  }

  /** Cutting a torn tail off takes no record away. */
  lemma RepairedMeta<R>(c: Codec<R>, b: Budget<R>, head: int, files: seq<File>)
    requires files != [] && ReplayFiles(c, b, head, Replay(-1, [], 0), files).Ok?
    ensures Meta(c, Truncated(c, files[|files| - 1])) == Meta(c, files[|files| - 1])
  {
    hide Scan, ReplayRecords, ReplayFiles, MaxSeq, ReplayFile;
    assert files[0..] == files;
    LastReplayed(c, b, head, Replay(-1, [], 0), files, 0);
    ScanConsumed(c.crc, files[|files| - 1].data);
  }

  lemma {:induction false} LastReplayed<R>(c: Codec<R>, b: Budget<R>, head: int, a: Replay<R>, files: seq<File>, i: nat)
    requires i < |files| && ReplayFiles(c, b, head, a, files[i..]).Ok?
    ensures Scan(c.crc, files[|files| - 1].data).stop != BadFrame
    decreases |files| - i
  {
    hide Scan, ReplayRecords, ReplayFiles;
    ReplayNextFile(c, b, head, a, files, i);
    if i < |files| - 1 {
      LastReplayed(c, b, head, ReplayFile(c, b, head, a, files[i], false).value, files, i + 1);
    }
  }
}
