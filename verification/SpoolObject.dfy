/** The spool object of the running agent, and openSpool. */
module SpoolObject {
  import opened Wrappers
  import opened Frames
  import opened Overflow
  import opened SpoolDisk
  import opened SpoolRecovery
  import opened SpoolSteps

  // ---- runs of spool steps ----

  /** The calls can be made one after another, from m and d on. */
  ghost predicate StepsOk<R>(c: Codec<R>, segMax: int, m: Mem<R>, d: Disk, steps: seq<SpoolStep>)
    decreases |steps|, 0
  {
    |steps| == 0 ||
    (var init := steps[..|steps| - 1];
     && StepsOk(c, segMax, m, d, init)
     && var (m1, d1) := StepsEnd(c, segMax, m, d, init);
        Enabled(c, segMax, m1, d1, steps[|steps| - 1]))
  }

  ghost function StepsEnd<R>(c: Codec<R>, segMax: int, m: Mem<R>, d: Disk, steps: seq<SpoolStep>): (Mem<R>, Disk)
    requires StepsOk(c, segMax, m, d, steps)
    decreases |steps|, 1
  {
    if |steps| == 0 then (m, d)
    else
      var (m1, d1) := StepsEnd(c, segMax, m, d, steps[..|steps| - 1]);
      AfterStep(c, segMax, m1, d1, steps[|steps| - 1])
  }

  /** From m and d the steps lead to m1 and d1. */
  ghost predicate Leads<R>(c: Codec<R>, segMax: int, m: Mem<R>, d: Disk, steps: seq<SpoolStep>, m1: Mem<R>, d1: Disk) {
    StepsOk(c, segMax, m, d, steps) && StepsEnd(c, segMax, m, d, steps) == (m1, d1)
  }

  lemma LeadsNowhere<R>(c: Codec<R>, segMax: int, m: Mem<R>, d: Disk)
    ensures Leads(c, segMax, m, d, [], m, d)
  {}

  lemma LeadsOn<R>(c: Codec<R>, segMax: int, m: Mem<R>, d: Disk, steps: seq<SpoolStep>, m1: Mem<R>, d1: Disk, st: SpoolStep)
    requires Leads(c, segMax, m, d, steps, m1, d1) && Enabled(c, segMax, m1, d1, st)
    ensures var (m2, d2) := AfterStep(c, segMax, m1, d1, st);
            Leads(c, segMax, m, d, steps + [st], m2, d2)
  {
    hide Enabled, AfterStep;
    assert (steps + [st])[..|steps|] == steps;
  }

  lemma {:induction false} LeadsConcat<R>(
    c: Codec<R>, segMax: int, m: Mem<R>, d: Disk, a: seq<SpoolStep>, m1: Mem<R>, d1: Disk, b: seq<SpoolStep>, m2: Mem<R>, d2: Disk)
    requires Leads(c, segMax, m, d, a, m1, d1) && Leads(c, segMax, m1, d1, b, m2, d2)
    ensures Leads(c, segMax, m, d, a + b, m2, d2)
    decreases |b|
  {
    hide Enabled, AfterStep;
    if |b| == 0 {
      assert a + b == a;
    } else {
      var n := |b| - 1;
      var (m3, d3) := StepsEnd(c, segMax, m1, d1, b[..n]);
      LeadsConcat(c, segMax, m, d, a, m1, d1, b[..n], m3, d3);
      LeadsOn(c, segMax, m, d, a + b[..n], m3, d3, b[n]);
      assert a + b == a + b[..n] + [b[n]];
    }
  }

  /** A run of spool steps keeps the mirror and everything fsynced. */
  lemma {:induction false} LeadsSafely<R(!new)>(
    c: Codec<R>, segMax: int, log: seq<R>, m: Mem<R>, d: Disk, head: nat, steps: seq<SpoolStep>, m1: Mem<R>, d1: Disk)
    returns (head': nat)
    requires Sound(c) && SpoolInv(c, log, m, d, head)
    requires Leads(c, segMax, m, d, steps, m1, d1)
    ensures Kept(c, log, d, m1, d1, head')
    decreases |steps|
  {
    hide Enabled, AfterStep, SpoolInv, FsyncedEnd, HeadAfter, Sound;
    if |steps| == 0 {
      head' := head;
      KeptSelf(c, log, m, d, head);
    } else {
      var n := |steps| - 1;
      var (m2, d2) := StepsEnd(c, segMax, m, d, steps[..n]);
      var h := LeadsSafely(c, segMax, log, m, d, head, steps[..n], m2, d2);
      StepKeeps(c, segMax, log, m2, d2, h, steps[n]);
      head' := HeadAfter(m2, h, steps[n]);
    }
  }

  lemma KeptSelf<R>(c: Codec<R>, log: seq<R>, m: Mem<R>, d: Disk, head: nat)
    requires SpoolInv(c, log, m, d, head)
    ensures Kept(c, log, d, m, d, head)
  {}

  lemma SyncedLast(d: Disk)
    requires d.files != []
    ensures Synced(d).files != []
    ensures Last(Synced(d)).synced == |Last(Synced(d)).data| && |Synced(d).files| == |d.files|
  {}

  /** The calls numbered from..to all succeed. */
  predicate Succeed(machine: nat -> bool, from: nat, to: nat) { forall n: nat :: from <= n < to ==> machine(n) }

  /** The spool object. `disk` is its directory, `machine` says which of its system calls succeed. */
  class Spool<R(!new)> {
    const codec: Codec<R>
    const segMax: int // segmentMaxBytes, smaller in tests
    const machine: nat -> bool

    var disk: Disk
    var pending: seq<Staged<R>>
    var head: int
    var headDurable: int
    var segments: seq<SegMeta>
    var activeFirst: int
    var activeBytes: nat
    var activeMax: int
    var degraded: bool
    var closed: bool
    var errN: nat
    var reclaimedN: nat
    var callN: nat // system calls made

    function M(): Mem<R>
      reads this
    {
      Mem(pending, head, headDurable, segments, activeFirst, activeBytes, activeMax, degraded, closed)
    }

    /** The spool mirrors the log, its directory having durable watermark h. */
    ghost predicate Mirrors(log: seq<R>, h: nat)
      reads this
    {
      Sound(codec) && SpoolInv(codec, log, M(), disk, h)
    }

    lemma MirrorsIs(log: seq<R>, h: nat)
      requires Sound(codec) && SpoolInv(codec, log, M(), disk, h)
      ensures Mirrors(log, h)
    {}

    constructor Adopt(c: Codec<R>, segMax: int, m: Mem<R>, d: Disk, machine: nat -> bool)
      ensures codec == c && this.segMax == segMax && M() == m && disk == d && this.machine == machine
    {
      codec, this.segMax, disk, this.machine, callN := c, segMax, d, machine, 0;
      pending, head, headDurable, segments := m.pending, m.head, m.headDurable, m.segments;
      activeFirst, activeBytes, activeMax := m.activeFirst, m.activeBytes, m.activeMax;
      degraded, closed := m.degraded, m.closed;
      errN, reclaimedN := 0, 0;
    }

    /** A system call: the outcome is up to the machine. */
    method SystemCall() returns (ok: bool)
      modifies this`callN
      ensures ok == machine(old(callN)) && callN == old(callN) + 1
    {
      ok := machine(callN);
      callN := callN + 1;
    }

    /** Since `from` all calls succeeded, or the last one failed. */
    ghost predicate Outcome(from: nat, failed: bool)
      reads this`callN
    {
      from <= callN && (failed <==> !Succeed(machine, from, callN))
    }

    /** The spool's fields, its queue being q. */
    function V(q: seq<Staged<R>>): Mem<R>
      reads this
    {
      M().(pending := q)
    }

    method Append(seqNo: int64, r: R)
      modifies this
      ensures M() == if old(degraded || closed) then old(M()) else old(M()).(pending := old(pending) + [Staged(seqNo, r)])
      ensures disk == old(disk)
    {
      if degraded || closed { return; }
      pending := pending + [Staged(seqNo, r)];
    }

    method AdvanceHead(headSeq: int)
      modifies this
      ensures M() == if old(!degraded && !closed && headSeq > head) then old(M()).(head := headSeq) else old(M())
      ensures disk == old(disk)
    {
      if degraded || closed { return; }
      if headSeq > head { head := headSeq; }
    }

    /** rollLocked once the active segment is synced: close it, create the next one, sync the directory. */
    method NextSegment(nextSeq: int64, ghost q: seq<Staged<R>>, ghost m: Mem<R>, ghost d: Disk, ghost s0: seq<SpoolStep>)
      returns (failed: bool, ghost steps: seq<SpoolStep>)
      requires disk.files != [] && !degraded && !closed && Last(disk).synced == |Last(disk).data|
      requires q != [] && q[0].seqNo == nextSeq && MustRoll(codec, segMax, V(q))
      requires Leads(codec, segMax, m, d, s0, V(q), disk)
      modifies this
      ensures pending == old(pending) && disk.files != [] && !degraded && !closed
      ensures head == old(head) && headDurable == old(headDurable)
      ensures !failed ==> activeBytes == 0 && |disk.files| == |old(disk.files)| + 1 && Last(disk).data == []
      ensures Leads(codec, segMax, m, d, steps, if failed then Degrade(V(q)) else V(q), disk)
      ensures Outcome(old(callN), failed)
    {
      hide MustRoll, Leads, Enabled, AfterStep, Degrade, Succeed, Last, NewSegment;
      ghost var m1, d1 := V(q), disk;
      var from := callN;
      SucceedNone(machine, from);
      CanRoll(codec, segMax, m1, d1);
      RollLeads(codec, segMax, m, d, s0, m1, d1);
      NewSegmentIs(d1, nextSeq);
      var ok := SystemCall();
      SucceedNext(machine, from, from);
      if !ok { return true, s0 + [RollFault(false, false)]; }
      segments := segments + [SegMeta(activeFirst, activeMax)];
      ok := SystemCall();
      SucceedNext(machine, from, from + 1);
      if !ok {
        var created: bool := *;
        if created { disk := NewSegment(disk, nextSeq); }
        return true, s0 + [RollFault(true, created)];
      }
      disk := NewSegment(disk, nextSeq);
      ok := SystemCall();
      SucceedNext(machine, from, from + 2);
      if !ok { return true, s0 + [RollFault(true, true)]; }
      activeFirst, activeBytes, activeMax := nextSeq, 0, -1;
      return false, s0 + [Roll];
    }

    /** rollLocked: sync and close the active segment and start the next one. */
    method RollSegment(nextSeq: int64, ghost q: seq<Staged<R>>) returns (failed: bool, ghost steps: seq<SpoolStep>)
      requires disk.files != [] && !degraded && !closed
      requires q != [] && q[0].seqNo == nextSeq && MustRoll(codec, segMax, V(q))
      modifies this
      ensures pending == old(pending) && disk.files != [] && !degraded && !closed
      ensures head == old(head) && headDurable == old(headDurable)
      ensures !failed ==> activeBytes == 0 && |disk.files| == |old(disk.files)| + 1 && Last(disk).data == []
      ensures Leads(codec, segMax, old(V(q)), old(disk), steps, if failed then Degrade(V(q)) else V(q), disk)
      ensures Outcome(old(callN), failed)
    {
      hide MustRoll, Leads, Degrade;
      ghost var m, d := V(q), disk;
      LeadsNowhere(codec, segMax, m, d);
      var ok := SystemCall();
      if !ok {
        LeadsOn(codec, segMax, m, d, [], m, d, SyncFault);
        SyncFaultIs(codec, segMax, m, d);
        return true, [] + [SyncFault];
      }
      disk := Synced(disk);
      SyncedLast(d);
      LeadsOn(codec, segMax, m, d, [], m, d, Sync);
      failed, steps := NextSegment(nextSeq, q, m, d, [] + [Sync]);
    }

    /** The write of one frame to the active segment. */
    method WriteFrame(rec: Staged<R>, ghost q: seq<Staged<R>>) returns (failed: bool, ghost steps: seq<SpoolStep>)
      requires disk.files != [] && !degraded && !closed
      requires q != [] && q[0] == rec && !MustRoll(codec, segMax, V(q))
      modifies this
      ensures pending == old(pending) && disk.files != [] && !degraded && !closed
      ensures head == old(head) && headDurable == old(headDurable)
      ensures !failed ==>
                && |disk.files| == |old(disk.files)|
                && Last(disk).data == Last(old(disk)).data + FrameOf(codec, rec.seqNo, rec.round)
      ensures Outcome(old(callN), failed)
      ensures Leads(codec, segMax, old(V(q)), old(disk), steps, if failed then Degrade(V(q)) else V(q[1..]), disk)
    {
      hide Leads, MustRoll, FrameOf;
      LeadsNowhere(codec, segMax, V(q), disk);
      ghost var m, d := V(q), disk;
      var frame := FrameOf(codec, rec.seqNo, rec.round);
      var ok := SystemCall();
      if !ok {
        var wrote: int := *;
        var kept: nat := if 0 <= wrote <= |frame| then wrote else |frame|;
        disk := Appended(disk, frame[..kept]);
        LeadsOn(codec, segMax, m, d, [], m, d, WriteFault(kept));
        return true, [] + [WriteFault(kept)];
      }
      disk := Appended(disk, frame);
      activeBytes := activeBytes + |frame|;
      if rec.seqNo > activeMax { activeMax := rec.seqNo; }
      LeadsOn(codec, segMax, m, d, [], m, d, Write);
      return false, [] + [Write];
    }

    /** writeRecordLocked: append one record, rolling first exactly when the active segment holds something
        and the record would not fit behind it. */
    method WriteRecord(rec: Staged<R>, ghost q: seq<Staged<R>>) returns (failed: bool, ghost steps: seq<SpoolStep>)
      requires disk.files != [] && !degraded && !closed
      requires q != [] && q[0] == rec
      modifies this
      ensures pending == old(pending) && disk.files != [] && !degraded && !closed
      ensures head == old(head) && headDurable == old(headDurable)
      ensures !failed ==>
                var frame := FrameOf(codec, rec.seqNo, rec.round);
                if old(activeBytes) > 0 && old(activeBytes) + |frame| > segMax then
                  |disk.files| == |old(disk.files)| + 1 && Last(disk).data == frame
                else
                  |disk.files| == |old(disk.files)| && Last(disk).data == Last(old(disk)).data + frame
      ensures Outcome(old(callN), failed)
      ensures Leads(codec, segMax, old(V(q)), old(disk), steps, if failed then Degrade(V(q)) else V(q[1..]), disk)
    {
      hide Leads, FrameOf, Degrade;
      ghost var m, d := V(q), disk;
      LeadsNowhere(codec, segMax, m, d);
      steps := [];
      if activeBytes > 0 && activeBytes + |FrameOf(codec, rec.seqNo, rec.round)| > segMax {
        failed, steps := RollSegment(rec.seqNo, q);
        if failed { return true, steps; }
      }
      ghost var m1, d1, more := V(q), disk, [];
      failed, more := WriteFrame(rec, q);
      assert [] + FrameOf(codec, rec.seqNo, rec.round) == FrameOf(codec, rec.seqNo, rec.round);
      LeadsConcat(codec, segMax, m, d, steps, m1, d1, more, if failed then Degrade(V(q)) else V(q[1..]), disk);
      steps := steps + more;
    }

    /** The write loop of flushLocked: every staged record, in order. */
    method WriteAll() returns (failed: bool, ghost steps: seq<SpoolStep>)
      requires disk.files != [] && !degraded && !closed
      modifies this
      ensures disk.files != [] && !degraded && !closed
      ensures head == old(head) && headDurable == old(headDurable)
      ensures Leads(codec, segMax, old(M()), old(disk), steps, if failed then Degrade(M()) else V([]), disk)
      ensures Outcome(old(callN), failed)
    {
      hide Leads;
      ghost var m, d := M(), disk;
      LeadsNowhere(codec, segMax, m, d);
      steps := [];
      var i := 0;
      while i < |pending|
        invariant 0 <= i <= |pending| && pending == m.pending
        invariant disk.files != [] && !degraded && !closed
        invariant head == m.head && headDurable == m.headDurable
        invariant Leads(codec, segMax, m, d, steps, V(pending[i..]), disk)
        invariant Outcome(old(callN), false)
      {
        ghost var q, m1, d1 := pending[i..], V(pending[i..]), disk;
        ghost var more;
        failed, more := WriteRecord(pending[i], q);
        LeadsConcat(codec, segMax, m, d, steps, m1, d1, more, if failed then Degrade(V(q)) else V(q[1..]), disk);
        steps := steps + more;
        if failed { return true, steps; }
        assert q[1..] == pending[i + 1..];
        i := i + 1;
      }
      assert pending[i..] == [];
      return false, steps;
    }

    /** degradeLocked: from now on memory only. */
    method DegradeNow()
      modifies this
      ensures M() == Degrade(old(M())) && disk == old(disk) && callN == old(callN)
    {
      degraded, errN, pending := true, errN + 1, [];
    }

    /** os.Remove of the segment file of this name. */
    method RemoveFile(first: int)
      modifies this`disk
      ensures disk == RemoveNamed(old(disk), first)
    {
      disk := RemoveNamed(disk, first);
    }

    /** reclaimLocked: delete every closed segment whose records are all below the durable head. */
    method ReclaimDead(ghost log: seq<R>) returns (ghost steps: seq<SpoolStep>)
      requires 0 <= headDurable && Mirrors(log, headDurable) && !degraded && !closed
      modifies this
      ensures Leads(codec, segMax, old(M()), old(disk), steps, M(), disk)
      ensures !degraded && !closed && M() == old(M()).(segments := segments)
      ensures AllLive(segments, headDurable) && callN == old(callN)
    {
      hide Leads, SpoolInv, RemoveNamed, AllLive, Reclaiming;
      ghost var m, d := M(), disk;
      steps := [];
      var kept: seq<SegMeta> := [];
      var i := 0;
      ReclaimStart(codec, segMax, log, m, d);
      while i < |segments|
        invariant 0 <= i <= |segments| && M() == m && callN == old(callN)
        invariant Reclaiming(codec, segMax, log, m, d, steps, kept, i, disk)
      {
        if segments[i].maxSeq < headDurable {
          ReclaimRemoves(codec, segMax, log, m, d, steps, kept, i, disk);
          RemoveFile(segments[i].first);
          steps := steps + [Reclaim];
          reclaimedN := reclaimedN + 1;
        } else {
          ReclaimSpares(codec, segMax, log, m, d, steps, kept, i, disk);
          kept := kept + [segments[i]];
        }
        i := i + 1;
      }
      ReclaimEnd(codec, segMax, log, m, d, steps, kept, disk);
      segments := kept;
    }

    /** The fsync of flushLocked. */
    method SyncAll(ghost m0: Mem<R>, ghost d0: Disk, ghost s0: seq<SpoolStep>) returns (failed: bool, ghost steps: seq<SpoolStep>)
      requires !degraded && !closed && disk.files != [] && pending == []
      requires Leads(codec, segMax, m0, d0, s0, M(), disk)
      modifies this
      ensures Leads(codec, segMax, m0, d0, steps, M(), disk)
      ensures failed ==> degraded && pending == []
      ensures !failed ==> M() == old(M()) && disk == Synced(old(disk))
      ensures Outcome(old(callN), failed) && old(callN) < callN
    {
      hide Leads, Synced;
      var ok := SystemCall();
      if !ok {
        LeadsOn(codec, segMax, m0, d0, s0, M(), disk, SyncFault);
        DegradeNow();
        return true, s0 + [SyncFault];
      }
      LeadsOn(codec, segMax, m0, d0, s0, M(), disk, Sync);
      disk := Synced(disk);
      return false, s0 + [Sync];
    }

    /** The watermark write of flushLocked, and the deletions it allows. */
    method PersistHead(ghost log: seq<R>, ghost h: nat) returns (failed: bool, ghost steps: seq<SpoolStep>)
      requires Mirrors(log, h) && !degraded && !closed && pending == []
      requires disk.files != [] && Last(disk).synced == |Last(disk).data| && headDurable < head
      modifies this
      ensures Leads(codec, segMax, old(M()), old(disk), steps, M(), disk)
      ensures failed ==> degraded && pending == []
      ensures !failed ==> !degraded && !closed && pending == [] && head == old(head) == headDurable && AllLive(segments, headDurable)
      ensures Outcome(old(callN), failed)
    {
      hide Leads, SpoolInv, Synced, AllLive, HeadBytes;
      ghost var m, d := M(), disk;
      LeadsNowhere(codec, segMax, m, d);
      HeadRange(codec, log, m, d, h);
      var ok := SystemCall();
      if !ok {
        var replaced: bool := *;
        LeadsOn(codec, segMax, m, d, [], m, d, HeadFault(replaced));
        if replaced { disk := WithHead(codec, disk, head); }
        DegradeNow();
        return true, [] + [HeadFault(replaced)];
      }
      disk := WithHead(codec, disk, head);
      headDurable := head;
      LeadsOn(codec, segMax, m, d, [], m, d, WriteHead);
      HeadWritten(codec, segMax, log, m, d, h);
      ghost var m1, d1 := M(), disk;
      ghost var more := ReclaimDead(log);
      LeadsConcat(codec, segMax, m, d, [] + [WriteHead], m1, d1, more, M(), disk);
      return false, [] + [WriteHead] + more;
    }

    /** The part of flushLocked that writes and syncs. */
    method WriteAndSync(ghost log: seq<R>, ghost h: nat) returns (failed: bool, ghost steps: seq<SpoolStep>, ghost h1: nat)
      requires Mirrors(log, h) && !degraded && !closed
      modifies this
      ensures Leads(codec, segMax, old(M()), old(disk), steps, M(), disk)
      ensures failed ==> degraded && pending == []
      ensures !failed ==>
                && !degraded && !closed && pending == [] && Mirrors(log, h1)
                && head == old(head) && headDurable == old(headDurable)
                && disk.files != [] && Last(disk).synced == |Last(disk).data|
                && FsyncedEnd(codec, disk) == |log|
      ensures Outcome(old(callN), failed)
    {
      hide Leads, SpoolInv, FsyncedEnd, End, Synced, Kept;
      ghost var m, d := M(), disk;
      SomeFile(codec, log, m, d, h);
      h1 := h;
      failed, steps := WriteAll();
      if failed { DegradeNow(); return true, steps, h1; }
      pending := [];
      SyncedLast(disk);
      failed, steps := SyncAll(m, d, steps);
      if failed { return true, steps, h1; }
      h1 := LeadsSafely(codec, segMax, log, m, d, h, steps, M(), disk);
      AllFsynced(codec, log, d, M(), disk, h1);
    }

    /** flushLocked: write the staged records, sync, persist the head if it moved, reclaim. A disk
        error anywhere degrades the spool, and nothing else does. A degraded or closed spool only forgets
        its queue. */
    method Flush(ghost log: seq<R>, ghost h: nat) returns (failed: bool, ghost steps: seq<SpoolStep>)
      requires Mirrors(log, h)
      modifies this
      ensures old(degraded || closed) ==> !failed && steps == [] && M() == old(V([])) && disk == old(disk)
      ensures old(!degraded && !closed) ==> Leads(codec, segMax, old(M()), old(disk), steps, M(), disk)
      ensures failed ==> degraded && pending == []
      ensures old(!degraded && !closed) && !failed ==>
                && !degraded && !closed && pending == []
                && head == old(head) <= headDurable
                && disk.files != [] && FsyncedEnd(codec, disk) == |log|
                && (old(headDurable) < head ==> AllLive(segments, headDurable))
      ensures Outcome(old(callN), failed)
    {
      hide Leads, SpoolInv, FsyncedEnd, End, Degrade, AllLive, Kept;
      if degraded || closed {
        pending := [];
        return false, [];
      }
      ghost var m, d, h1 := M(), disk, h;
      failed, steps, h1 := WriteAndSync(log, h);
      if failed || head <= headDurable { return failed, steps; }
      ghost var m1, d1, more := M(), disk, [];
      failed, more := PersistHead(log, h1);
      LeadsConcat(codec, segMax, m, d, steps, m1, d1, more, M(), disk);
      steps := steps + more;
      h1 := LeadsSafely(codec, segMax, log, m1, d1, h1, more, M(), disk);
      StillFsynced(codec, log, d1, M(), disk, h1);
    }

    /** close: a last flush, then nothing more is written. */
    method Close(ghost log: seq<R>, ghost h: nat) returns (failed: bool, ghost steps: seq<SpoolStep>)
      requires Mirrors(log, h)
      modifies this
      ensures closed
      ensures old(degraded || closed) ==> disk == old(disk) && M() == old(M()).(pending := pending, closed := true)
      ensures pending == [] || (old(degraded) && pending == old(pending))
      ensures old(!degraded && !closed) ==>
                exists m: Mem<R> :: Leads(codec, segMax, old(M()), old(disk), steps, m, disk) && M() == m.(closed := true)
      ensures old(!degraded && !closed) && !failed ==> disk.files != [] && FsyncedEnd(codec, disk) == |log| && head <= headDurable
      ensures Outcome(old(callN), failed)
    {
      failed, steps := false, [];
      if !degraded {
        failed, steps := Flush(log, h);
      }
      closed := true;
    }
  }

  lemma SucceedNone(machine: nat -> bool, from: nat)
    ensures Succeed(machine, from, from)
  {}

  lemma SucceedNext(machine: nat -> bool, from: nat, to: nat)
    requires from <= to
    ensures Succeed(machine, from, to + 1) <==> Succeed(machine, from, to) && machine(to)
  {}

  lemma NewSegmentIs(d: Disk, first: int)
    ensures var e := NewSegment(d, first); e.files != [] && |e.files| == |d.files| + 1 && Last(e).data == []
  {}

  lemma CanRoll<R>(c: Codec<R>, segMax: int, m: Mem<R>, d: Disk)
    requires m.pending != [] && MustRoll(c, segMax, m) && !Off(m) && d.files != [] && Last(d).synced == |Last(d).data|
    ensures Enabled(c, segMax, m, d, Roll)
  {
    hide MustRoll;
  }

  /** The calls of a roll that lead on from a run, whichever of them fails. */
  lemma RollLeads<R>(c: Codec<R>, segMax: int, m0: Mem<R>, d0: Disk, s0: seq<SpoolStep>, m: Mem<R>, d: Disk)
    requires Leads(c, segMax, m0, d0, s0, m, d) && Enabled(c, segMax, m, d, Roll)
    ensures m.pending != [] && d.files != []
    ensures Leads(c, segMax, m0, d0, s0 + [RollFault(false, false)], Degrade(m), d)
    ensures Leads(c, segMax, m0, d0, s0 + [RollFault(true, false)], Degrade(Recorded(m)), d)
    ensures Leads(c, segMax, m0, d0, s0 + [RollFault(true, true)], Degrade(Recorded(m)), NewSegment(d, m.pending[0].seqNo))
    ensures Leads(c, segMax, m0, d0, s0 + [Roll], Fresh(m, m.pending[0].seqNo), NewSegment(d, m.pending[0].seqNo))
  {
    hide Leads, MustRoll, Degrade, Recorded, Fresh, NewSegment;
    LeadsOn(c, segMax, m0, d0, s0, m, d, RollFault(false, false));
    LeadsOn(c, segMax, m0, d0, s0, m, d, RollFault(true, false));
    LeadsOn(c, segMax, m0, d0, s0, m, d, RollFault(true, true));
    LeadsOn(c, segMax, m0, d0, s0, m, d, Roll);
  }

  lemma SyncFaultIs<R>(c: Codec<R>, segMax: int, m: Mem<R>, d: Disk)
    requires Enabled(c, segMax, m, d, SyncFault)
    ensures AfterStep(c, segMax, m, d, SyncFault) == (Degrade(m), d)
  {}

  lemma SomeFile<R>(c: Codec<R>, log: seq<R>, m: Mem<R>, d: Disk, head: nat)
    requires SpoolInv(c, log, m, d, head)
    ensures d.files != [] && |log| <= MAX_SEQ
  {}

  lemma HeadRange<R>(c: Codec<R>, log: seq<R>, m: Mem<R>, d: Disk, head: nat)
    requires SpoolInv(c, log, m, d, head) && !Off(m)
    ensures 0 <= m.headDurable == head <= m.head <= |log| <= MAX_SEQ
  {
    hide DiskOk, Describes, Continues;
  }

  lemma HeadWritten<R>(c: Codec<R>, segMax: int, log: seq<R>, m: Mem<R>, d: Disk, head: nat)
    requires SpoolInv(c, log, m, d, head) && Enabled(c, segMax, m, d, WriteHead)
    ensures SpoolInv(c, log, m.(headDurable := m.head), WithHead(c, d, m.head), m.head)
  {
    hide DiskOk, Describes, Continues, SpoolInv;
    HeadKeeps(c, segMax, log, m, d, head);
    KeptInv(c, log, d, m.(headDurable := m.head), WithHead(c, d, m.head), m.head);
  }

  /** With an empty queue and a synced active segment the whole log is on disk. */
  lemma AllFsynced<R>(c: Codec<R>, log: seq<R>, d: Disk, m: Mem<R>, d1: Disk, head: nat)
    requires Kept(c, log, d, m, d1, head) && !Off(m) && m.pending == []
    requires d1.files != [] && Last(d1).synced == |Last(d1).data|
    ensures SpoolInv(c, log, m, d1, head)
    ensures FsyncedEnd(c, d1) == |log|
  {
    hide DiskOk, Describes, End;
    SyncedEnd(c, Last(d1));
  }

  lemma StillFsynced<R>(c: Codec<R>, log: seq<R>, d: Disk, m: Mem<R>, d1: Disk, head: nat)
    requires Kept(c, log, d, m, d1, head) && FsyncedEnd(c, d) == |log|
    ensures d1.files != [] && FsyncedEnd(c, d1) == |log|
  {
    hide Describes, Continues, End;
    DiskTop(c, log, d1, head);
  }

  lemma DiskTop<R>(c: Codec<R>, log: seq<R>, d: Disk, head: nat)
    requires DiskOk(c, log, d, head)
    ensures d.files != [] && FsyncedEnd(c, d) <= |log|
  {
    assert Holds(c, log, Last(d));
    DurableEndBelow(c, log, Last(d));
  }

  // ---- facts the reclaim loop needs ----

  ghost predicate AllLive(ms: seq<SegMeta>, head: int) { forall i :: 0 <= i < |ms| ==> ms[i].maxSeq >= head }

  /** The reclaim loop after i segments: `kept` are the live ones among them. */
  ghost predicate Reclaiming<R>(
    c: Codec<R>, segMax: int, log: seq<R>, m: Mem<R>, d: Disk, steps: seq<SpoolStep>, kept: seq<SegMeta>, i: int, d1: Disk)
  {
    && 0 <= i <= |m.segments| && 0 <= m.headDurable && !Off(m)
    && Leads(c, segMax, m, d, steps, m.(segments := kept + m.segments[i..]), d1)
    && SpoolInv(c, log, m.(segments := kept + m.segments[i..]), d1, m.headDurable)
    && AllLive(kept, m.headDurable)
    && (kept != [] ==> AllLive(m.segments[i..], m.headDurable))
  }

  lemma ReclaimStart<R>(c: Codec<R>, segMax: int, log: seq<R>, m: Mem<R>, d: Disk)
    requires 0 <= m.headDurable && SpoolInv(c, log, m, d, m.headDurable) && !Off(m)
    ensures Reclaiming(c, segMax, log, m, d, [], [], 0, d)
  {
    hide SpoolInv, Leads;
    LeadsNowhere(c, segMax, m, d);
    assert [] + m.segments[0..] == m.segments;
  }

  lemma ReclaimRemoves<R>(
    c: Codec<R>, segMax: int, log: seq<R>, m: Mem<R>, d: Disk, steps: seq<SpoolStep>, kept: seq<SegMeta>, i: nat, d1: Disk)
    requires Reclaiming(c, segMax, log, m, d, steps, kept, i, d1)
    requires i < |m.segments| && m.segments[i].maxSeq < m.headDurable
    ensures Reclaiming(c, segMax, log, m, d, steps + [Reclaim], kept, i + 1, RemoveNamed(d1, m.segments[i].first))
  {
    hide SpoolInv, Leads, RemoveNamed;
    var rest := m.segments[i..];
    assert rest[0] == m.segments[i];
    assert kept == [];
    assert kept + rest == rest && kept + m.segments[i + 1..] == rest[1..];
    ReclaimOne(c, segMax, log, m, d, steps, m.(segments := rest), d1, m.headDurable);
  }

  lemma ReclaimSpares<R>(
    c: Codec<R>, segMax: int, log: seq<R>, m: Mem<R>, d: Disk, steps: seq<SpoolStep>, kept: seq<SegMeta>, i: nat, d1: Disk)
    requires Reclaiming(c, segMax, log, m, d, steps, kept, i, d1)
    requires i < |m.segments| && m.segments[i].maxSeq >= m.headDurable
    ensures Reclaiming(c, segMax, log, m, d, steps, kept + [m.segments[i]], i + 1, d1)
  {
    hide SpoolInv, Leads, AllLive;
    var rest := m.segments[i..];
    if kept == [] {
      assert kept + rest == rest;
      LaterLive(c, log, m.(segments := rest), d1, m.headDurable);
    }
    LiveTail(kept, m.segments, i, m.headDurable);
    assert kept + [m.segments[i]] + m.segments[i + 1..] == kept + rest;
  }

  lemma ReclaimEnd<R>(
    c: Codec<R>, segMax: int, log: seq<R>, m: Mem<R>, d: Disk, steps: seq<SpoolStep>, kept: seq<SegMeta>, d1: Disk)
    requires Reclaiming(c, segMax, log, m, d, steps, kept, |m.segments|, d1)
    ensures Leads(c, segMax, m, d, steps, m.(segments := kept), d1)
    ensures AllLive(kept, m.headDurable)
  {
    hide SpoolInv, Leads, AllLive;
    assert kept + m.segments[|m.segments|..] == kept;
  }

  lemma LiveTail(kept: seq<SegMeta>, ms: seq<SegMeta>, i: nat, head: int)
    requires i < |ms| && AllLive(kept, head) && ms[i].maxSeq >= head && AllLive(ms[i..], head)
    ensures AllLive(kept + [ms[i]], head) && AllLive(ms[i + 1..], head)
  {
    var later := ms[i + 1..];
    forall j | 0 <= j < |later|
      ensures later[j].maxSeq >= head
    {
      assert later[j] == ms[i..][j + 1];
    }
  }

  function RemoveNamed(d: Disk, first: int): Disk { d.(files := Unnamed(d.files, first)) }

  /** The files not called so. */
  function Unnamed(files: seq<File>, first: int): seq<File> {
    if files == [] then []
    else (if files[0].first == first then [] else [files[0]]) + Unnamed(files[1..], first)
  }

  lemma {:induction false} UnnamedAll(files: seq<File>, first: int)
    requires forall f :: f in files ==> f.first != first
    ensures Unnamed(files, first) == files
    decreases |files|
  {
    if files != [] {
      UnnamedAll(files[1..], first);
    }
  }

  /** Segment names ascend, so removing the oldest by name removes just that file. */
  lemma RemoveFirstNamed<R>(c: Codec<R>, log: seq<R>, m: Mem<R>, d: Disk, head: nat)
    requires SpoolInv(c, log, m, d, head) && !Off(m) && m.segments != []
    ensures RemoveNamed(d, m.segments[0].first) == Without(d, 1)
  {
    hide DiskOk, Metas, Meta, Whole, End, ReadHead, Continues;
    FirstMeta(c, m, d);
    MetaName(c, d.files[0]);
    forall i | 0 < i < |d.files|
      ensures d.files[i].first > d.files[0].first
    {
      NamesAscend(c, log, d, head, 0, i);
    }
    UnnamedAll(d.files[1..], d.files[0].first);
  }

  lemma MetaName<R>(c: Codec<R>, f: File)
    ensures Meta(c, f).first == f.first
  {}

  lemma {:induction false} NamesAscend<R>(c: Codec<R>, log: seq<R>, d: Disk, head: nat, i: nat, j: nat)
    requires DiskOk(c, log, d, head) && i < j < |d.files|
    ensures d.files[i].first < d.files[j].first
    decreases j - i
  {
    hide Holds, Whole, End, DurableEnd, ReadHead;
    assert Closed(c, d.files[j - 1], d.files[j]);
    if i + 1 < j {
      NamesAscend(c, log, d, head, i, j - 1);
    }
  }

  lemma CanReclaim<R>(c: Codec<R>, segMax: int, log: seq<R>, m: Mem<R>, d: Disk, head: nat)
    requires SpoolInv(c, log, m, d, head) && !Off(m) && m.segments != [] && m.segments[0].maxSeq < head
    ensures Enabled(c, segMax, m, d, Reclaim)
  {
    hide DiskOk, Metas, Meta, Whole, ReadHead, Continues;
    FirstMeta(c, m, d);
  }

  /** Deleting the oldest closed segment once it is dead. */
  lemma ReclaimOne<R>(
    c: Codec<R>, segMax: int, log: seq<R>, m: Mem<R>, d: Disk, steps: seq<SpoolStep>, m1: Mem<R>, d1: Disk, head: nat)
    requires Leads(c, segMax, m, d, steps, m1, d1)
    requires SpoolInv(c, log, m1, d1, head) && !Off(m1) && m1.segments != [] && m1.segments[0].maxSeq < head
    ensures var m2, d2 := m1.(segments := m1.segments[1..]), RemoveNamed(d1, m1.segments[0].first);
            Leads(c, segMax, m, d, steps + [Reclaim], m2, d2) && SpoolInv(c, log, m2, d2, head)
  {
    hide Leads, SpoolInv, RemoveNamed, Metas, Enabled;
    RemoveFirstNamed(c, log, m1, d1, head);
    CanReclaim(c, segMax, log, m1, d1, head);
    LeadsOn(c, segMax, m, d, steps, m1, d1, Reclaim);
    ReclaimKeeps(c, segMax, log, m1, d1, head);
    KeptInv(c, log, d1, m1.(segments := m1.segments[1..]), Without(d1, 1), head);
  }

  lemma KeptInv<R>(c: Codec<R>, log: seq<R>, d: Disk, m': Mem<R>, d': Disk, head: nat)
    requires Kept(c, log, d, m', d', head)
    ensures SpoolInv(c, log, m', d', head)
  {}

  /** Behind a live segment all segments are live. */
  lemma LaterLive<R>(c: Codec<R>, log: seq<R>, m: Mem<R>, d: Disk, head: nat)
    requires SpoolInv(c, log, m, d, head) && !Off(m) && m.segments != [] && m.segments[0].maxSeq >= head
    ensures AllLive(m.segments, head)
  {
    hide DiskOk, Metas, Meta, Whole, ReadHead, Continues;
    FirstMeta(c, m, d);
    AllLiveAfter(c, log, d, head, head, 0);
    MetasAt(c, d.files[..|d.files| - 1]);
  }

  lemma MetasAt<R>(c: Codec<R>, files: seq<File>)
    ensures forall i :: 0 <= i < |files| ==> Metas(c, files)[i] == Meta(c, files[i])
  {}
}
