/** How large the spool's segments get over whole runs of the agent. */
module SegmentBounds {
  import opened Wrappers
  import opened Frames
  import opened Overflow
  import opened SpoolDisk
  import opened SpoolRecovery
  import opened SpoolSteps
  import opened StoreForward

  lemma DiskSound<R>(c: Codec<R>, s: Sys<R>)
    requires Inv(c, s) && s.disk.files != []
    ensures Scan(c.crc, Last(s.disk).data).stop != BadFrame
  {
    hide End, DurableEnd, Whole, Scan, DurableHead, Describes, Continues, FlightOk, AllFatedBelow;
    DiskPart(c, s);
    assert Holds(c, s.log, Last(s.disk));
  }

  lemma Describing<R>(c: Codec<R>, s: Sys<R>)
    requires Inv(c, s) && s.up && !Off(s.mem)
    ensures Describes(c, s.mem, s.disk)
  {
    hide DiskOk, Describes, Continues, FlightOk, AllFatedBelow, DurableHead;
  }

  /** A file that keeps a prefix of the active segment. */
  lemma CutBounded<R>(c: Codec<R>, segMax: int, s: Sys<R>, f: File)
    requires Inv(c, s) && s.disk.files != [] && AllBounded(c, segMax, s.disk)
    requires |f.data| <= |Last(s.disk).data| && f.data == Last(s.disk).data[..|f.data|]
    ensures AllBounded(c, segMax, WithLast(s.disk, f))
  {
    hide Inv, Scan, AllBounded, Bounded;
    DiskSound(c, s);
    LastBounded(c, segMax, s.disk);
    BoundedCut(c, segMax, Last(s.disk), f);
    BoundedWithLast(c, segMax, s.disk, f);
  }

  lemma FewerBounded<R>(c: Codec<R>, segMax: int, d: Disk, k: nat)
    requires AllBounded(c, segMax, d) && k <= |d.files|
    ensures AllBounded(c, segMax, Without(d, k))
  {
    hide Bounded;
  }

  /** What openSpool leaves: fewer segments, the last one perhaps shorter, or a first empty one. */
  lemma RestartBounded<R>(c: Codec<R>, segMax: int, s: Sys<R>, b: Budget<R>)
    requires Inv(c, s) && !s.up && AllBounded(c, segMax, s.disk)
    ensures AllBounded(c, segMax, AfterRestart(c, s, b).disk)
  {
    hide *;
    RestartKeeps(c, s, b);
    RestartDisk(c, s, b);
    if s.disk.files == [] {
      OpenFresh(c, b);
      FirstDisk(c, s);
      FirstBounded(c, segMax);
    } else {
      DiskPart(c, s);
      var head := DurableHead(c, s.disk);
      var k := LiveClosedIsSuffix(c, s.log, s.disk, head, head);
      OpenLeaves(c, b, s.disk, head, k);
      var f := Truncated(c, Last(s.disk));
      TruncatedPrefix(c, Last(s.disk));
      CutBounded(c, segMax, s, f);
      WithLastFiles(s.disk, f);
      FewerBounded(c, segMax, WithLast(s.disk, f), k);
    }
  }

  lemma FirstDisk<R>(c: Codec<R>, s: Sys<R>)
    requires Inv(c, s) && s.disk.files == []
    ensures s.disk == Disk(None, [])
  {}

  lemma FirstBounded<R>(c: Codec<R>, segMax: int)
    ensures AllBounded(c, segMax, Disk(None, [File(0, [], 0)]))
  {
    hide Bounded;
    BoundedEmpty(c, segMax, File(0, [], 0));
  }

  lemma RestartDisk<R>(c: Codec<R>, s: Sys<R>, b: Budget<R>)
    requires Open(c, b, s.disk).Ok?
    ensures AfterRestart(c, s, b).disk == Open(c, b, s.disk).value.disk
  {
    hide Open, AdmitAll, AdvanceHead;
  }

  lemma WithLastFiles(d: Disk, f: File)
    requires d.files != []
    ensures |WithLast(d, f).files| == |d.files|
  {}

  lemma TruncatedPrefix<R>(c: Codec<R>, f: File)
    ensures var g := Truncated(c, f); |g.data| <= |f.data| && g.data == f.data[..|g.data|]
  {
    hide Scan;
  }

  lemma SpoolBounded<R(!new)>(c: Codec<R>, segMax: int, s: Sys<R>, st: SpoolStep)
    requires Sound(c) && Inv(c, s) && s.up && Enabled(c, segMax, s.mem, s.disk, st) && AllBounded(c, segMax, s.disk)
    ensures AllBounded(c, segMax, AfterSpool(c, segMax, s, st).disk)
  {
    hide Inv, Sound, Enabled, AllBounded, AfterStep, Describes;
    NotOffWhenEnabled(c, segMax, s.mem, s.disk, st);
    Describing(c, s);
    StepBounded(c, segMax, s.mem, s.disk, st);
  }

  lemma NotOffWhenEnabled<R>(c: Codec<R>, segMax: int, m: Mem<R>, d: Disk, st: SpoolStep)
    requires Enabled(c, segMax, m, d, st)
    ensures !Off(m)
  {
    hide MustRoll;
  }

  /** Every step keeps the segments within the limit. */
  lemma StepBounds<R(!new)>(c: Codec<R>, segMax: int, s: Sys<R>, step: Step<R>)
    requires Sound(c) && Inv(c, s) && CanStep(c, segMax, s, step) && AllBounded(c, segMax, s.disk)
    ensures AllBounded(c, segMax, After(c, segMax, s, step).disk)
  {
    hide Inv, Sound, Bounded, AllBounded, AfterSpool, AfterRestart, Enabled, MustEvict, Truncated, Without,
      Meta, Evictions, AdvanceHead, Stage, Removed, DurableHead, Cut;
    match step {
      case Spool(st) => SpoolBounded(c, segMax, s, st);
      case Crash(kept, synced) => CrashBounded(c, segMax, s, kept, synced);
      case TornTruncated =>
        TruncatedPrefix(c, Last(s.disk));
        CutBounded(c, segMax, s, Truncated(c, Last(s.disk)));
      case DeadRemoved => FewerBounded(c, segMax, s.disk, 1);
      case FirstCreated =>
        FirstCreatedKeeps(c, s);
        FirstBounded(c, segMax);
      case Restart(b) => RestartBounded(c, segMax, s, b);
      case _ =>
    }
  }

  lemma CrashBounded<R>(c: Codec<R>, segMax: int, s: Sys<R>, kept: nat, synced: nat)
    requires Inv(c, s) && s.disk.files != [] && kept <= |Last(s.disk).data| && AllBounded(c, segMax, s.disk)
    ensures AllBounded(c, segMax, AfterCrash(s, kept, synced).disk)
  {
    hide Inv, AllBounded;
    CutBounded(c, segMax, s, File(Last(s.disk).first, Last(s.disk).data[..kept], synced));
  }

  lemma {:induction false} RunBounds<R(!new)>(c: Codec<R>, segMax: int, s: Sys<R>, steps: seq<Step<R>>)
    requires Sound(c) && Inv(c, s) && Run(c, segMax, s, steps) && AllBounded(c, segMax, s.disk)
    ensures AllBounded(c, segMax, RunEnd(c, segMax, s, steps).disk)
    decreases |steps|
  {
    hide Inv, Sound, CanStep, After, AllBounded, Preserves;
    if steps != [] {
      StepSafe(c, segMax, s, steps[0]);
      StepBounds(c, segMax, s, steps[0]);
      RunBounds(c, segMax, After(c, segMax, s, steps[0]), steps[1..]);
    }
  }

  /** From the first start, over any run, with any crashes and restarts: a segment file holds at most segMax
      bytes, or at most one record and nothing behind it. */
  lemma SegmentsBounded<R(!new)>(c: Codec<R>, segMax: int, s: Sys<R>, steps: seq<Step<R>>, f: File)
    requires Sound(c) && Init(s) && Run(c, segMax, s, steps) && f in RunEnd(c, segMax, s, steps).disk.files
    ensures var r := Scan(c.crc, f.data);
            |f.data| <= segMax || r.recs == [] || (|r.recs| == 1 && r.consumed == |f.data|)
  {
    hide Inv, Sound, Run, RunEnd, Bounded;
    InitInv(c, s);
    RunBounds(c, segMax, s, steps);
    BoundedIs(c, segMax, f);
  }

  lemma BoundedIs<R>(c: Codec<R>, segMax: int, f: File)
    ensures Bounded(c, segMax, f) <==>
            var r := Scan(c.crc, f.data);
            |f.data| <= segMax || r.recs == [] || (|r.recs| == 1 && r.consumed == |f.data|)
  {
    hide Scan;
  }

  /** And at any point of such a run a segment is closed only if it is not empty and the next frame would
      not fit behind it; what is written fits, or is alone. */
  lemma ClosedWhenFull<R(!new)>(c: Codec<R>, segMax: int, s: Sys<R>, steps: seq<Step<R>>, st: SpoolStep)
    requires Sound(c) && Init(s) && Run(c, segMax, s, steps)
    requires CanStep(c, segMax, RunEnd(c, segMax, s, steps), Spool(st)) && (st.Roll? || st.Write?)
    ensures var e := RunEnd(c, segMax, s, steps);
            && e.disk.files != [] && e.mem.pending != []
            && var p := e.mem.pending[0];
               var size, frame := |Last(e.disk).data|, |EncodeFrame(c.crc, Record(p.seqNo, c.enc(p.round)))|;
               if st.Roll? then size > 0 && size + frame > segMax else size == 0 || size + frame <= segMax
  {
    hide Inv, Sound, Run, RunEnd, Describes, MustRoll, Preserves, EncodeFrame;
    InitInv(c, s);
    RunSafe(c, segMax, s, steps);
    var e := RunEnd(c, segMax, s, steps);
    NotOffWhenEnabled(c, segMax, e.mem, e.disk, st);
    Describing(c, e);
    RollsWhenFull(c, segMax, e.mem, e.disk, st);
  }
}
