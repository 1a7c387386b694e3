/** The agent's store-and-forward as a transition system: the buffer, its spool, the hub, and a process
    that may die at any point. Every call the code makes is one step; a flush is a run of spool steps.

    The log is the sequence of rounds given a sequence number: log[i] is the round numbered i. It is
    not a variable of the program. It forgets, at a restart, the rounds that were never found on disk,
    whose numbers are given out again. `acked`, `refused` and `evicted` record what became of a number:
    the hub acknowledged it, the hub refused it for good, or it was dropped for lack of room. */
module StoreForward {
  import opened Wrappers
  import opened Frames
  import opened Overflow
  import opened SpoolDisk
  import opened SpoolRecovery
  import opened SpoolSteps
  import opened Delivery

  /** The push in progress: none, a peeked batch, or a batch whose every round got a verdict. */
  datatype Flight<R> = Idle | Peeked(lo: int, batch: seq<R>) | Settling(lo: int, n: nat)

  datatype Sys<!R> = Sys(
    up: bool,
    budget: Budget<R>,
    rounds: seq<R>,
    headSeq: int,
    mem: Mem<R>,
    flight: Flight<R>,
    disk: Disk,
    log: seq<R>,
    acked: set<int>,
    refused: set<int>,
    evicted: set<int>)

  datatype Step<!R> =
    | MakeRoom(r: R)                 // add: evict the oldest rounds until r fits
    | Push(r: R)                     // add: append r to the buffer and to the spool's queue
    | Peek(n: nat)
    | Send(hub: Hub<R>, t: nat)
    | Commit
    | Spool(st: SpoolStep)           // one system call of the flusher
    | Close
    | Crash(kept: nat, synced: nat)  // of the active segment
    | TornTruncated                  // a recovery that did not get further
    | DeadRemoved                    // a recovery that did not get further
    | FirstCreated                   // a first start that did not get further
    | Restart(b: Budget<R>)

  function Down<R>(): Mem<R> { Mem([], 0, 0, [], 0, 0, -1, false, true) }

  /** Before the first start: an empty directory. */
  predicate Init<R(==)>(s: Sys<R>) {
    && !s.up && s.disk == Disk(None, []) && s.log == [] && s.rounds == [] && s.flight == Idle
    && s.mem == Down() && s.acked == {} && s.refused == {} && s.evicted == {}
  }

  function DurableHead<R>(c: Codec<R>, d: Disk): int {
    match ReadHead(c.crc, d.headFile)
    case None => 0
    case Some(h) => h
  }

  /** advanceHead: ignored by a degraded or closed spool, and never moving back. */
  function AdvanceHead<R>(m: Mem<R>, headSeq: int): Mem<R> {
    if !Off(m) && headSeq > m.head then m.(head := headSeq) else m
  }

  /** append: ignored by a degraded or closed spool. */
  function Stage<R>(m: Mem<R>, seqNo: int64, r: R): Mem<R> {
    if Off(m) then m else m.(pending := m.pending + [Staged(seqNo, r)])
  }

  predicate Between(lo: int, i: int, hi: int) { lo <= i < hi }

  function Range(lo: int, hi: int): set<int> { set i | lo <= i < hi && Between(lo, i, hi) }

  /** How many rounds a commit removes. */
  function Removed(rounds: nat, headSeq: int, upto: int): nat {
    var remove := upto - headSeq + 1;
    if remove <= 0 then 0 else if remove > rounds then rounds else remove
  }

  function Cut(d: Disk, kept: nat, synced: nat): Disk
    requires d.files != [] && kept <= |Last(d).data|
  {
    WithLast(d, File(Last(d).first, Last(d).data[..kept], synced))
  }

  predicate CanStep<R>(c: Codec<R>, segMax: int, s: Sys<R>, step: Step<R>) {
    match step
    case MakeRoom(r) => s.up
    case Push(r) => s.up && !MustEvict(s.budget, s.rounds, s.budget.size(r)) && 0 <= s.headSeq + |s.rounds| < MAX_SEQ
    case Peek(n) => s.up && s.flight == Idle && n <= |s.rounds|
    case Send(hub, t) => s.up && s.flight.Peeked?
    case Commit => s.up && s.flight.Settling?
    case Spool(st) => s.up && Enabled(c, segMax, s.mem, s.disk, st)
    case Close => s.up
    case Crash(kept, synced) => s.disk.files != [] && Last(s.disk).synced <= synced <= kept <= |Last(s.disk).data|
    case TornTruncated => !s.up && s.disk.files != []
    case DeadRemoved => !s.up && |s.disk.files| > 1 && Meta(c, s.disk.files[0]).maxSeq < DurableHead(c, s.disk)
    case FirstCreated => !s.up && s.disk.files == []
    case Restart(b) => !s.up
  }

  function AfterMakeRoom<R>(s: Sys<R>, r: R): Sys<R> {
    var k := Evictions(s.budget, s.rounds, s.budget.size(r));
    s.(rounds := s.rounds[k..],
       headSeq := s.headSeq + k,
       mem := AdvanceHead(s.mem, s.headSeq + k),
       evicted := s.evicted + Range(s.headSeq, s.headSeq + k))
  }

  function AfterPush<R>(s: Sys<R>, r: R): Sys<R>
    requires 0 <= s.headSeq + |s.rounds| < MAX_SEQ
  {
    var i := s.headSeq + |s.rounds|;
    s.(rounds := s.rounds + [r],
       mem := Stage(s.mem, i, r),
       log := s.log + [r],
       acked := s.acked - {i}, refused := s.refused - {i}, evicted := s.evicted - {i})
  }

  function AfterSend<R>(s: Sys<R>, hub: Hub<R>, t: nat): Sys<R>
    requires s.flight.Peeked?
  {
    var n, lo := |s.flight.batch|, s.flight.lo;
    var sent := SendBatch(hub, t, s.flight.batch, 0);
    var acks := set i | 0 <= i < n && AckedAt(sent.posts, i) :: lo + i;
    if sent.failed then s.(flight := Idle, acked := s.acked + acks)
    else
      var refusals := set i | 0 <= i < n && RefusedAt(sent.posts, i) :: lo + i;
      s.(flight := Settling(lo, n), acked := s.acked + acks, refused := s.refused + refusals)
  }

  function AfterCommit<R>(s: Sys<R>): Sys<R>
    requires s.flight.Settling?
  {
    var k := Removed(|s.rounds|, s.headSeq, s.flight.lo + s.flight.n - 1);
    s.(rounds := s.rounds[k..],
       headSeq := s.headSeq + k,
       mem := AdvanceHead(s.mem, s.headSeq + k),
       flight := Idle)
  }

  function AfterSpool<R>(c: Codec<R>, segMax: int, s: Sys<R>, st: SpoolStep): Sys<R>
    requires Enabled(c, segMax, s.mem, s.disk, st)
  {
    var (m, d) := AfterStep(c, segMax, s.mem, s.disk, st);
    s.(mem := m, disk := d)
  }

  function AfterCrash<R>(s: Sys<R>, kept: nat, synced: nat): Sys<R>
    requires s.disk.files != [] && kept <= |Last(s.disk).data|
  {
    s.(up := false, rounds := [], headSeq := 0, mem := Down(), flight := Idle, disk := Cut(s.disk, kept, synced))
  }

  /** openSpool and the buffer's reload; a failing openSpool stops the agent. */
  function AfterRestart<R>(c: Codec<R>, s: Sys<R>, b: Budget<R>): Sys<R> {
    match Open(c, b, s.disk)
    case Err(e) => s
    case Ok(o) =>
      var next := o.head + |o.live|;
      var rounds := AdmitAll(b, [], o.live);
      var headSeq := next - |rounds|;
      Sys(true, b, rounds, headSeq, AdvanceHead(o.mem, headSeq), Idle, o.disk,
          Slice(s.log, 0, next),
          set i | i in s.acked && i < next,
          set i | i in s.refused && i < next,
          (set i | i in s.evicted && i < next) + Range(DurableHead(c, s.disk), headSeq))
  }

  function After<R>(c: Codec<R>, segMax: int, s: Sys<R>, step: Step<R>): Sys<R>
    requires CanStep(c, segMax, s, step)
  {
    match step
    case MakeRoom(r) => AfterMakeRoom(s, r)
    case Push(r) => AfterPush(s, r)
    case Peek(n) => s.(flight := Peeked(s.headSeq, s.rounds[..n]))
    case Send(hub, t) => AfterSend(s, hub, t)
    case Commit => AfterCommit(s)
    case Spool(st) => AfterSpool(c, segMax, s, st)
    case Close => s.(mem := s.mem.(closed := true))
    case Crash(kept, synced) => AfterCrash(s, kept, synced)
    case TornTruncated => s.(disk := WithLast(s.disk, Truncated(c, Last(s.disk))))
    case DeadRemoved => s.(disk := Without(s.disk, 1))
    case FirstCreated => s.(disk := s.disk.(files := [File(DurableHead(c, s.disk), [], 0)]))
    case Restart(b) => AfterRestart(c, s, b)
  }

  // ---- the invariant ----

  predicate Fated<R>(s: Sys<R>, i: int) { i in s.acked || i in s.refused || i in s.evicted }

  ghost predicate AllFatedBelow<R>(s: Sys<R>, bound: int) { forall i :: 0 <= i < bound ==> Fated(s, i) }

  ghost predicate FlightOk<R>(s: Sys<R>) {
    match s.flight
    case Idle => true
    case Peeked(lo, batch) => 0 <= lo <= s.headSeq && lo + |batch| <= |s.log| && Slice(s.log, lo, lo + |batch|) == batch
    case Settling(lo, n) =>
      && 0 <= lo <= s.headSeq && lo + n <= |s.log|
      && forall i :: lo <= i < lo + n ==> i in s.acked || i in s.refused
  }

  ghost predicate Running<R>(c: Codec<R>, s: Sys<R>) {
    && 0 <= DurableHead(c, s.disk) <= s.headSeq <= |s.log|
    && s.rounds == Slice(s.log, s.headSeq, |s.log|)
    && SpoolInv(c, s.log, s.mem, s.disk, DurableHead(c, s.disk))
    && (!Off(s.mem) ==> s.mem.head == s.headSeq)
    && AllFatedBelow(s, s.headSeq)
    && FlightOk(s)
  }

  ghost predicate Stopped<R>(c: Codec<R>, s: Sys<R>) {
    && 0 <= DurableHead(c, s.disk)
    && DiskOk(c, s.log, s.disk, DurableHead(c, s.disk))
    && AllFatedBelow(s, DurableHead(c, s.disk))
  }

  ghost predicate Inv<R>(c: Codec<R>, s: Sys<R>) {
    && |s.log| <= MAX_SEQ
    && if s.disk.files == [] then !s.up && s.disk.headFile == None && s.log == []
       else if s.up then Running(c, s) else Stopped(c, s)
  }

  /** Numbers below this were fsynced at some time. */
  function EverFsynced<R>(c: Codec<R>, s: Sys<R>): int {
    if s.disk.files == [] then 0 else FsyncedEnd(c, s.disk)
  }

  /** What a step never undoes: a number once fsynced stays fsynced and keeps its round and its fate. */
  ghost predicate Preserves<R>(c: Codec<R>, s: Sys<R>, s': Sys<R>) {
    var n := EverFsynced(c, s);
    && n <= EverFsynced(c, s')
    && n <= |s.log| && n <= |s'.log|
    && (forall i :: 0 <= i < n ==> s'.log[i] == s.log[i])
    && (forall i :: 0 <= i < n && Fated(s, i) ==> Fated(s', i))
  }

  lemma DurableHeadIs<R>(c: Codec<R>, log: seq<R>, d: Disk, head: nat)
    requires DiskOk(c, log, d, head)
    ensures DurableHead(c, d) == head
  {}

  /** The fsynced part of the directory is part of the log. */
  lemma FsyncedInLog<R>(c: Codec<R>, s: Sys<R>)
    requires Inv(c, s)
    ensures 0 <= EverFsynced(c, s) <= |s.log|
    ensures s.disk.files != [] ==> EverFsynced(c, s) <= End(c, Last(s.disk)) <= |s.log|
    ensures s.disk.files != [] ==> 0 <= DurableHead(c, s.disk) <= EverFsynced(c, s)
  {
    if s.disk.files != [] {
      EndInLog(c, s.log, s.disk, DurableHead(c, s.disk));
    }
  }

  lemma EndInLog<R>(c: Codec<R>, log: seq<R>, d: Disk, head: nat)
    requires DiskOk(c, log, d, head)
    ensures head <= FsyncedEnd(c, d) <= End(c, Last(d)) <= |log|
  {
    assert Holds(c, log, Last(d));
    DurableEndBelow(c, log, Last(d));
  }

  /** A step that touches neither the directory nor the log, and only adds fates. */
  lemma SameDiskPreserves<R>(c: Codec<R>, s: Sys<R>, s': Sys<R>)
    requires Inv(c, s)
    requires s'.disk == s.disk && s'.log == s.log
    requires s.acked <= s'.acked && s.refused <= s'.refused && s.evicted <= s'.evicted
    ensures Preserves(c, s, s')
  {
    hide Inv, FsyncedEnd;
    FsyncedInLog(c, s);
  }

  // ---- add ----

  lemma MakeRoomKeeps<R>(c: Codec<R>, s: Sys<R>, r: R)
    requires Inv(c, s) && s.up
    ensures Inv(c, AfterMakeRoom(s, r)) && Preserves(c, s, AfterMakeRoom(s, r))
  {
    hide Evictions, SpoolInv, DurableHead, FsyncedEnd, EverFsynced, Preserves, FlightOk, AllFatedBelow, AdvanceHead, Off;
    var s' := AfterMakeRoom(s, r);
    SameDiskPreserves(c, s, s');
    EvictedFated(s, r);
    MoreFates(s, s', s.headSeq, s'.headSeq);
    FlightMoves(s, s');
    AdvanceKeeps(c, s.log, s.mem, s.disk, DurableHead(c, s.disk), s'.headSeq);
    SliceDrop(s.log, s.headSeq, s'.headSeq - s.headSeq);
  }

  lemma EvictedFated<R>(s: Sys<R>, r: R)
    ensures forall i :: Between(s.headSeq, i, AfterMakeRoom(s, r).headSeq) ==> Fated(AfterMakeRoom(s, r), i)
  {
    hide Evictions, AdvanceHead;
  }

  lemma SliceDrop<R>(log: seq<R>, lo: int, k: nat)
    requires 0 <= lo && lo + k <= |log|
    ensures Slice(log, lo, |log|)[k..] == Slice(log, lo + k, |log|)
    ensures Slice(log, lo, |log|)[..k] == Slice(log, lo, lo + k)
  {}

  /** advanceHead keeps the spool and its directory in step. */
  lemma AdvanceKeeps<R>(c: Codec<R>, log: seq<R>, m: Mem<R>, d: Disk, head: nat, headSeq: int)
    requires SpoolInv(c, log, m, d, head) && headSeq <= |log|
    ensures SpoolInv(c, log, AdvanceHead(m, headSeq), d, head)
    ensures Off(AdvanceHead(m, headSeq)) == Off(m)
    ensures !Off(m) && m.head <= headSeq ==> AdvanceHead(m, headSeq).head == headSeq
  {
    hide DiskOk, Continues;
  }

  /** Numbers below the new head got a fate. */
  lemma MoreFates<R>(s: Sys<R>, s': Sys<R>, lo: int, hi: int)
    requires AllFatedBelow(s, lo)
    requires s.acked <= s'.acked && s.refused <= s'.refused && s.evicted <= s'.evicted
    requires forall i :: Between(lo, i, hi) ==> Fated(s', i)
    ensures AllFatedBelow(s', hi)
  {
    forall i | 0 <= i < hi
      ensures Fated(s', i)
    {
      if i < lo { assert Fated(s, i); } else { assert Between(lo, i, hi); }
    }
  }

  /** The push in progress does not mind a moving head, nor further fates. */
  lemma FlightMoves<R>(s: Sys<R>, s': Sys<R>)
    requires FlightOk(s)
    requires s'.flight == s.flight && s.headSeq <= s'.headSeq && s'.log == s.log
    requires s.acked <= s'.acked && s.refused <= s'.refused
    ensures FlightOk(s')
  {}

  lemma PushKeeps<R>(c: Codec<R>, s: Sys<R>, r: R)
    requires Inv(c, s) && s.up && 0 <= s.headSeq + |s.rounds| < MAX_SEQ
    ensures Inv(c, AfterPush(s, r)) && Preserves(c, s, AfterPush(s, r))
  {
    hide SpoolInv, DurableHead, FsyncedEnd, EverFsynced, Preserves, FlightOk, AllFatedBelow, Stage, Off;
    assert s.headSeq + |s.rounds| == |s.log|;
    PushFates(c, s, r);
    PushFlight(s, r);
    StageKeeps(c, s.log, s.mem, s.disk, DurableHead(c, s.disk), r);
    assert Slice(s.log + [r], s.headSeq, |s.log| + 1) == s.rounds + [r];
  }

  /** append keeps the spool and its directory in step with the longer log. */
  lemma StageKeeps<R>(c: Codec<R>, log: seq<R>, m: Mem<R>, d: Disk, head: nat, r: R)
    requires SpoolInv(c, log, m, d, head) && |log| < MAX_SEQ
    ensures SpoolInv(c, log + [r], Stage(m, |log|, r), d, head)
    ensures Off(Stage(m, |log|, r)) == Off(m) && Stage(m, |log|, r).head == m.head
  {
    hide DiskOk, Continues;
    EndInLog(c, log, d, head);
    DiskSameLog(c, log, log + [r], d, head);
    if !Off(m) {
      StageContinues(log, m.pending, End(c, Last(d)), r);
    }
  }

  lemma StageContinues<R>(log: seq<R>, pending: seq<Staged<R>>, start: int, r: R)
    requires Continues(log, pending, start) && |log| < MAX_SEQ
    ensures Continues(log + [r], pending + [Staged(|log|, r)], start)
  {
    forall i | 0 <= i < |pending| + 1
      ensures StagedIs(log + [r], (pending + [Staged(|log|, r)])[i], start + i)
    {
      if i < |pending| { assert StagedIs(log, pending[i], start + i); }
    }
  }

  lemma PushFates<R>(c: Codec<R>, s: Sys<R>, r: R)
    requires Inv(c, s) && s.up && 0 <= s.headSeq + |s.rounds| < MAX_SEQ
    requires s.headSeq + |s.rounds| == |s.log| && s.headSeq <= |s.log| && AllFatedBelow(s, s.headSeq)
    ensures AllFatedBelow(AfterPush(s, r), s.headSeq)
    ensures Preserves(c, s, AfterPush(s, r))
  {
    hide Inv, FsyncedEnd;
    FsyncedInLog(c, s);
    forall i | 0 <= i < s.headSeq
      ensures Fated(AfterPush(s, r), i)
    {
      assert Fated(s, i);
    }
  }

  lemma PushFlight<R>(s: Sys<R>, r: R)
    requires FlightOk(s) && 0 <= s.headSeq + |s.rounds| < MAX_SEQ && s.headSeq + |s.rounds| == |s.log|
    ensures FlightOk(AfterPush(s, r))
  {}

  lemma SameFates<R>(s: Sys<R>, s': Sys<R>, bound: int)
    requires AllFatedBelow(s, bound)
    requires s'.acked == s.acked && s'.refused == s.refused && s'.evicted == s.evicted
    ensures AllFatedBelow(s', bound)
  {
    MoreFates(s, s', bound, bound);
  }

  // ---- push to the hub ----

  lemma PeekKeeps<R>(c: Codec<R>, s: Sys<R>, n: nat)
    requires Inv(c, s) && s.up && n <= |s.rounds|
    ensures var s' := s.(flight := Peeked(s.headSeq, s.rounds[..n]));
            Inv(c, s') && Preserves(c, s, s')
  {
    hide DurableHead, FsyncedEnd, EverFsynced, Preserves, SpoolInv, Fated, AllFatedBelow;
    var s' := s.(flight := Peeked(s.headSeq, s.rounds[..n]));
    SameDiskPreserves(c, s, s');
    SameFates(s, s', s.headSeq);
    SliceDrop(s.log, s.headSeq, n);
  }

  lemma SendKeeps<R>(c: Codec<R>, s: Sys<R>, hub: Hub<R>, t: nat)
    requires Inv(c, s) && s.up && s.flight.Peeked?
    ensures Inv(c, AfterSend(s, hub, t)) && Preserves(c, s, AfterSend(s, hub, t))
  {
    hide DiskOk, Describes, Continues, DurableHead, FsyncedEnd, EverFsynced, Preserves, SpoolInv, Fated, FlightOk, SendBatch, AllFatedBelow;
    var s' := AfterSend(s, hub, t);
    SameDiskPreserves(c, s, s');
    MoreFates(s, s', s.headSeq, s.headSeq);
    SendFlight(s, hub, t);
  }

  lemma SendFlight<R>(s: Sys<R>, hub: Hub<R>, t: nat)
    requires s.flight.Peeked? && FlightOk(s)
    ensures FlightOk(AfterSend(s, hub, t))
  {
    hide SendBatch, AckedAt, RefusedAt;
    var s', lo := AfterSend(s, hub, t), s.flight.lo;
    var sent := SendBatch(hub, t, s.flight.batch, 0);
    if !sent.failed {
      SendSettles(hub, t, s.flight.batch, 0);
      forall i | lo <= i < lo + |s.flight.batch|
        ensures i in s'.acked || i in s'.refused
      {
        assert i == lo + (i - lo);
        assert AckedAt(sent.posts, i - lo) || RefusedAt(sent.posts, i - lo);
      }
    }
  }

  /** The numbers a commit removes. */
  ghost predicate CommitTakes<R>(s: Sys<R>, i: int)
    requires s.flight.Settling?
  {
    s.headSeq <= i < AfterCommit(s).headSeq
  }

  /** Whatever adds evicted since the peek, a commit removes only rounds of the peeked batch, each of
      them acknowledged or refused by the hub. */
  lemma CommitRemovesOnlyTheBatch<R>(c: Codec<R>, s: Sys<R>, i: int)
    requires Inv(c, s) && s.up && s.flight.Settling?
    requires CommitTakes(s, i)
    ensures s.flight.lo <= i < s.flight.lo + s.flight.n
    ensures i in s.acked || i in s.refused
  {
    hide SpoolInv, DurableHead, AllFatedBelow;
  }

  lemma CommitKeeps<R>(c: Codec<R>, s: Sys<R>)
    requires Inv(c, s) && s.up && s.flight.Settling?
    ensures Inv(c, AfterCommit(s)) && Preserves(c, s, AfterCommit(s))
  {
    hide SpoolInv, DurableHead, FsyncedEnd, EverFsynced, Preserves, FlightOk, AllFatedBelow, AdvanceHead, Off;
    var s' := AfterCommit(s);
    SameDiskPreserves(c, s, s');
    forall i | Between(s.headSeq, i, s'.headSeq)
      ensures Fated(s', i)
    {
      CommitRemovesOnlyTheBatch(c, s, i);
    }
    MoreFates(s, s', s.headSeq, s'.headSeq);
    IdleOk(s');
    AdvanceKeeps(c, s.log, s.mem, s.disk, DurableHead(c, s.disk), s'.headSeq);
    SliceDrop(s.log, s.headSeq, s'.headSeq - s.headSeq);
  }

  lemma IdleOk<R>(s: Sys<R>)
    requires s.flight == Idle
    ensures FlightOk(s)
  {}

  // ---- the spool ----

  lemma SpoolKeeps<R(!new)>(c: Codec<R>, segMax: int, s: Sys<R>, st: SpoolStep)
    requires Sound(c) && Inv(c, s) && s.up && Enabled(c, segMax, s.mem, s.disk, st)
    ensures Inv(c, AfterSpool(c, segMax, s, st)) && Preserves(c, s, AfterSpool(c, segMax, s, st))
  {
    hide DurableHead, FsyncedEnd, FlightOk, AllFatedBelow, Enabled, AfterStep, Sound, Fated, SpoolInv, Off, Kept, HeadAfter;
    var head := DurableHead(c, s.disk);
    StepKeeps(c, segMax, s.log, s.mem, s.disk, head, st);
    var (m', d') := AfterStep(c, segMax, s.mem, s.disk, st);
    HeadAfterStep(c, segMax, s.log, s.mem, s.disk, head, st);
    FsyncedInLog(c, s);
    KeptParts(c, s.log, s.disk, m', d', HeadAfter(s.mem, head, st));
    SpoolFates(c, segMax, s, st);
  }

  lemma SpoolFates<R>(c: Codec<R>, segMax: int, s: Sys<R>, st: SpoolStep)
    requires s.up && Enabled(c, segMax, s.mem, s.disk, st)
    ensures var s' := AfterSpool(c, segMax, s, st);
            && (forall i :: Fated(s, i) ==> Fated(s', i))
            && (AllFatedBelow(s, s.headSeq) ==> AllFatedBelow(s', s.headSeq))
            && (FlightOk(s) ==> FlightOk(s'))
  {
    hide AfterStep, Enabled;
  }

  lemma KeptParts<R>(c: Codec<R>, log: seq<R>, d: Disk, m': Mem<R>, d': Disk, head': int)
    requires Kept(c, log, d, m', d', head')
    ensures SpoolInv(c, log, m', d', head')
    ensures d.files != [] && FsyncedEnd(c, d) <= FsyncedEnd(c, d')
    ensures d'.files != [] && DurableHead(c, d') == head' && head' <= FsyncedEnd(c, d') <= |log|
  {
    hide Describes, Continues, End, Holds, DurableHead;
    EndInLog(c, log, d', head');
    DurableHeadIs(c, log, d', head');
  }

  lemma HeadAfterStep<R>(c: Codec<R>, segMax: int, log: seq<R>, m: Mem<R>, d: Disk, head: nat, st: SpoolStep)
    requires SpoolInv(c, log, m, d, head) && Enabled(c, segMax, m, d, st)
    ensures head <= HeadAfter(m, head, st) <= m.head
    ensures var m' := AfterStep(c, segMax, m, d, st).0; !Off(m') ==> m'.head == m.head
    ensures !Off(m)
  {
    hide DiskOk, Describes, Continues, NextFrame, MustRoll;
  }

  lemma CloseKeeps<R>(c: Codec<R>, s: Sys<R>)
    requires Inv(c, s) && s.up
    ensures var s' := s.(mem := s.mem.(closed := true));
            Inv(c, s') && Preserves(c, s, s')
  {
    hide DurableHead, FsyncedEnd, EverFsynced, Preserves, Fated, DiskOk, Describes, Continues, AllFatedBelow, FlightOk;
    var s' := s.(mem := s.mem.(closed := true));
    SameDiskPreserves(c, s, s');
    SameFates(s, s', s.headSeq);
    FlightMoves(s, s');
  }

  // ---- crash and recovery ----

  lemma DiskPart<R>(c: Codec<R>, s: Sys<R>)
    requires Inv(c, s) && s.disk.files != []
    ensures 0 <= DurableHead(c, s.disk)
    ensures DiskOk(c, s.log, s.disk, DurableHead(c, s.disk))
    ensures AllFatedBelow(s, DurableHead(c, s.disk))
  {
    hide DurableHead, DiskOk, Describes, Continues, Fated, FlightOk;
  }

  /** A directory change while no process runs. */
  lemma StoppedKeeps<R>(c: Codec<R>, s: Sys<R>, s': Sys<R>)
    requires Inv(c, s) && s.disk.files != []
    requires !s'.up && s'.log == s.log
    requires s'.acked == s.acked && s'.refused == s.refused && s'.evicted == s.evicted
    requires DiskOk(c, s'.log, s'.disk, DurableHead(c, s.disk))
    requires FsyncedEnd(c, s.disk) <= FsyncedEnd(c, s'.disk)
    ensures Inv(c, s') && Preserves(c, s, s')
  {
    hide DurableHead, FsyncedEnd, Fated, Running, AllFatedBelow, DiskOk;
    DiskPart(c, s);
    FsyncedInLog(c, s);
    DiskHasFiles(c, s'.log, s'.disk, DurableHead(c, s.disk));
    StoppedFates(s, s', DurableHead(c, s.disk));
  }

  lemma StoppedFates<R>(s: Sys<R>, s': Sys<R>, bound: int)
    requires AllFatedBelow(s, bound)
    requires s'.acked == s.acked && s'.refused == s.refused && s'.evicted == s.evicted
    ensures AllFatedBelow(s', bound)
    ensures forall i :: Fated(s, i) ==> Fated(s', i)
  {
    SameFates(s, s', bound);
  }

  lemma DiskHasFiles<R>(c: Codec<R>, log: seq<R>, d: Disk, head: nat)
    requires DiskOk(c, log, d, head)
    ensures d.files != [] && DurableHead(c, d) == head
    ensures Holds(c, log, Last(d)) && head <= DurableEnd(c, Last(d))
    ensures End(c, Last(d)) <= |log|
  {
    hide DurableEnd, End;
    EndInLog(c, log, d, head);
  }

  /** Whatever a crash leaves of the active segment, the directory still mirrors the log and keeps
      everything that was fsynced. */
  lemma CutOk<R>(c: Codec<R>, log: seq<R>, d: Disk, head: nat, kept: nat, synced: nat)
    requires DiskOk(c, log, d, head)
    requires Last(d).synced <= synced <= kept <= |Last(d).data|
    ensures DiskOk(c, log, Cut(d, kept, synced), head)
    ensures FsyncedEnd(c, d) <= FsyncedEnd(c, Cut(d, kept, synced))
    ensures End(c, Last(Cut(d, kept, synced))) <= End(c, Last(d))
  {
    hide DiskOk, Holds, DurableEnd, End;
    DiskHasFiles(c, log, d, head);
    CutFile(c, log, Last(d), kept, synced);
    WithLastOk(c, log, d, head, File(Last(d).first, Last(d).data[..kept], synced));
  }

  lemma CrashKeeps<R>(c: Codec<R>, s: Sys<R>, kept: nat, synced: nat)
    requires Inv(c, s) && s.disk.files != [] && Last(s.disk).synced <= synced <= kept <= |Last(s.disk).data|
    ensures Inv(c, AfterCrash(s, kept, synced)) && Preserves(c, s, AfterCrash(s, kept, synced))
  {
    hide Inv, DiskOk, FsyncedEnd, DurableHead, Preserves, AllFatedBelow, End, Cut;
    DiskPart(c, s);
    CutOk(c, s.log, s.disk, DurableHead(c, s.disk), kept, synced);
    StoppedKeeps(c, s, AfterCrash(s, kept, synced));
  }

  lemma TornTruncatedKeeps<R>(c: Codec<R>, s: Sys<R>)
    requires Inv(c, s) && !s.up && s.disk.files != []
    ensures var s' := s.(disk := WithLast(s.disk, Truncated(c, Last(s.disk))));
            Inv(c, s') && Preserves(c, s, s')
  {
    hide Inv, DiskOk, DurableHead, Preserves, AllFatedBelow, End, Truncated, Holds, DurableEnd;
    DiskPart(c, s);
    var head := DurableHead(c, s.disk);
    DiskHasFiles(c, s.log, s.disk, head);
    TruncateFile(c, s.log, Last(s.disk));
    TruncatedName(c, Last(s.disk));
    WithLastOk(c, s.log, s.disk, head, Truncated(c, Last(s.disk)));
    StoppedKeeps(c, s, s.(disk := WithLast(s.disk, Truncated(c, Last(s.disk)))));
  }

  lemma DeadRemovedKeeps<R>(c: Codec<R>, s: Sys<R>)
    requires Inv(c, s) && !s.up && |s.disk.files| > 1 && Meta(c, s.disk.files[0]).maxSeq < DurableHead(c, s.disk)
    ensures var s' := s.(disk := Without(s.disk, 1));
            Inv(c, s') && Preserves(c, s, s')
  {
    hide Inv, DiskOk, DurableHead, Preserves, AllFatedBelow, End, DurableEnd, Meta;
    DiskPart(c, s);
    RemoveFirstOk(c, s.log, s.disk, DurableHead(c, s.disk));
    StoppedKeeps(c, s, s.(disk := Without(s.disk, 1)));
  }

  /** The first start in an empty directory. */
  lemma OpenFresh<R>(c: Codec<R>, b: Budget<R>)
    ensures Open(c, b, Disk(None, [])) ==
            Ok(Opened(Mem([], 0, 0, [], 0, 0, -1, false, false), Disk(None, [File(0, [], 0)]), 0, []))
    ensures SpoolInv(c, [], Mem([], 0, 0, [], 0, 0, -1, false, false), Disk(None, [File(0, [], 0)]), 0)
    ensures DurableHead(c, Disk(None, [File(0, [], 0)])) == 0
    ensures FsyncedEnd(c, Disk(None, [File(0, [], 0)])) == 0
  {
    ScanEmpty(c.crc);
    assert SyncedBytes(File(0, [], 0)) == [];
  }

  lemma FirstCreatedKeeps<R>(c: Codec<R>, s: Sys<R>)
    requires Inv(c, s) && !s.up && s.disk.files == []
    ensures var s' := s.(disk := s.disk.(files := [File(DurableHead(c, s.disk), [], 0)]));
            && Inv(c, s') && Preserves(c, s, s') && s'.disk == Disk(None, [File(0, [], 0)])
  {
    hide Open, DiskOk, FsyncedEnd, Describes, Continues;
    OpenFresh(c, Budget(1, 1, (r: R) => 0));
    assert s.disk == Disk(None, []);
  }

  /** Recovery of a directory that mirrors the log, as one running state. */
  lemma RecoveredInv<R>(c: Codec<R>, b: Budget<R>, log: seq<R>, d: Disk, head: nat)
    requires DiskOk(c, log, d, head) && |log| <= MAX_SEQ
    ensures Open(c, b, d).Ok?
    ensures var o := Open(c, b, d).value;
            var next := End(c, Last(d));
            && head <= FsyncedEnd(c, d) <= next <= |log|
            && o.live == AdmitAll(b, [], Slice(log, head, next))
            && o.head == next - |o.live| && o.mem.head == o.head && head <= o.head
            && !Off(o.mem)
            && SpoolInv(c, Slice(log, 0, next), o.mem, o.disk, head)
            && DurableHead(c, o.disk) == head
            && FsyncedEnd(c, o.disk) == FsyncedEnd(c, d)
  {
    hide DiskOk, AdmitAll, Open, Describes, End, DurableEnd, DurableHead;
    OpenTheorem(c, b, log, d, head);
    EndInLog(c, log, d, head);
    var o := Open(c, b, d).value;
    DiskHasFiles(c, log, d, head);
    DiskHasFiles(c, log, o.disk, head);
    DiskSameLog(c, log, Slice(log, 0, End(c, Last(d))), o.disk, head);
    AdmitAllShorter(b, Slice(log, head, End(c, Last(d))));
  }

  lemma AdmitAllShorter<R>(b: Budget<R>, rs: seq<R>)
    ensures |AdmitAll(b, [], rs)| <= |rs|
  {}

  /** The directory after a recovery that deletes the first k segments. */
  lemma OpenLeaves<R>(c: Codec<R>, b: Budget<R>, d: Disk, head: int, k: nat)
    requires d.files != [] && Open(c, b, d).Ok? && k < |d.files| && head == DurableHead(c, d)
    requires LiveClosed(c, head, d.files[..|d.files| - 1]) == d.files[k..|d.files| - 1]
    ensures Open(c, b, d).value.disk == Without(WithLast(d, Truncated(c, Last(d))), k)
  {
    hide LiveClosed, ReplayFiles, ReadHead, Truncated, Metas, Meta;
    var last := Truncated(c, Last(d));
    assert d.files[k..|d.files| - 1] + [last] == WithLast(d, last).files[k..];
  }

  lemma RestartFates<R>(c: Codec<R>, s: Sys<R>, b: Budget<R>)
    requires Open(c, b, s.disk).Ok?
    requires AllFatedBelow(s, DurableHead(c, s.disk))
    ensures var s' := AfterRestart(c, s, b);
            var o := Open(c, b, s.disk).value;
            && (s'.headSeq <= o.head + |o.live| ==> AllFatedBelow(s', s'.headSeq))
            && (forall i :: i < o.head + |o.live| && Fated(s, i) ==> Fated(s', i))
  {
    hide Open, AdmitAll, AdvanceHead, DurableHead, Slice;
    var s' := AfterRestart(c, s, b);
    var next := Open(c, b, s.disk).value.head + |Open(c, b, s.disk).value.live|;
    if s'.headSeq <= next {
      forall i | 0 <= i < s'.headSeq
        ensures Fated(s', i)
      {
        if i < DurableHead(c, s.disk) {
          assert Fated(s, i);
        } else {
          assert Between(DurableHead(c, s.disk), i, s'.headSeq);
        }
      }
    }
  }

  lemma RestartKeeps<R>(c: Codec<R>, s: Sys<R>, b: Budget<R>)
    requires Inv(c, s) && !s.up
    ensures Open(c, b, s.disk).Ok?
    ensures Inv(c, AfterRestart(c, s, b)) && Preserves(c, s, AfterRestart(c, s, b))
    ensures AfterRestart(c, s, b).up
  {
    if s.disk.files == [] {
      FirstStart(c, s, b);
    } else {
      LaterStart(c, s, b);
    }
  }

  lemma FirstStart<R>(c: Codec<R>, s: Sys<R>, b: Budget<R>)
    requires Inv(c, s) && !s.up && s.disk.files == []
    ensures Open(c, b, s.disk).Ok?
    ensures Inv(c, AfterRestart(c, s, b)) && Preserves(c, s, AfterRestart(c, s, b))
    ensures AfterRestart(c, s, b).up
  {
    hide Open, SpoolInv, FsyncedEnd, DurableHead, Stopped;
    OpenFresh(c, b);
    assert s.disk == Disk(None, []);
  }

  lemma LaterStart<R>(c: Codec<R>, s: Sys<R>, b: Budget<R>)
    requires Inv(c, s) && !s.up && s.disk.files != []
    ensures Open(c, b, s.disk).Ok?
    ensures Inv(c, AfterRestart(c, s, b)) && Preserves(c, s, AfterRestart(c, s, b))
    ensures AfterRestart(c, s, b).up
  {
    hide Open, SpoolInv, FsyncedEnd, DurableHead, Stopped, AdmitAll, DiskOk, Off, AllFatedBelow, Fated, End;
    DiskPart(c, s);
    var head, next := DurableHead(c, s.disk), End(c, Last(s.disk));
    RecoveredInv(c, b, s.log, s.disk, head);
    RestartFates(c, s, b);
    var o := Open(c, b, s.disk).value;
    ReloadKeepsAll(b, Slice(s.log, head, next));
    AdmitAllIsSuffix(b, [], Slice(s.log, head, next));
    SliceDrop(Slice(s.log, 0, next), head, |Slice(s.log, head, next)| - |o.live|);
    NonEmptyDir(c, Slice(s.log, 0, next), o.mem, o.disk, head);
    assert AdvanceHead(o.mem, o.head) == o.mem;
  }

  lemma NonEmptyDir<R>(c: Codec<R>, log: seq<R>, m: Mem<R>, d: Disk, head: nat)
    requires SpoolInv(c, log, m, d, head)
    ensures d.files != [] && |log| <= MAX_SEQ
  {}

  // ---- whole runs ----

  /** Every step keeps the invariant and everything that was fsynced. */
  lemma StepSafe<R(!new)>(c: Codec<R>, segMax: int, s: Sys<R>, step: Step<R>)
    requires Sound(c) && Inv(c, s) && CanStep(c, segMax, s, step)
    ensures Inv(c, After(c, segMax, s, step)) && Preserves(c, s, After(c, segMax, s, step))
  {
    hide Inv, Preserves, Sound, AfterMakeRoom, AfterPush, AfterSend, AfterCommit, AfterSpool, AfterCrash, AfterRestart, Meta, Enabled, MustEvict, DurableHead, Truncated;
    match step {
      case MakeRoom(r) => MakeRoomKeeps(c, s, r);
      case Push(r) => PushKeeps(c, s, r);
      case Peek(n) => PeekKeeps(c, s, n);
      case Send(hub, t) => SendKeeps(c, s, hub, t);
      case Commit => CommitKeeps(c, s);
      case Spool(st) => SpoolKeeps(c, segMax, s, st);
      case Close => CloseKeeps(c, s);
      case Crash(kept, synced) => CrashKeeps(c, s, kept, synced);
      case TornTruncated => TornTruncatedKeeps(c, s);
      case DeadRemoved => DeadRemovedKeeps(c, s);
      case FirstCreated => FirstCreatedKeeps(c, s);
      case Restart(b) => RestartKeeps(c, s, b);
    }
  }

  /** A run the code can make. */
  ghost predicate Run<R>(c: Codec<R>, segMax: int, s: Sys<R>, steps: seq<Step<R>>)
    decreases |steps|
  {
    steps == [] || (CanStep(c, segMax, s, steps[0]) && Run(c, segMax, After(c, segMax, s, steps[0]), steps[1..]))
  }

  ghost function RunEnd<R>(c: Codec<R>, segMax: int, s: Sys<R>, steps: seq<Step<R>>): Sys<R>
    requires Run(c, segMax, s, steps)
    decreases |steps|
  {
    if steps == [] then s else RunEnd(c, segMax, After(c, segMax, s, steps[0]), steps[1..])
  }

  lemma InitInv<R>(c: Codec<R>, s: Sys<R>)
    requires Init(s)
    ensures Inv(c, s)
  {}

  lemma PreservesTransitive<R>(c: Codec<R>, a: Sys<R>, b: Sys<R>, z: Sys<R>)
    requires Preserves(c, a, b) && Preserves(c, b, z)
    ensures Preserves(c, a, z)
  {
    hide EverFsynced, Fated;
  }

  lemma PreservesSelf<R>(c: Codec<R>, s: Sys<R>)
    requires Inv(c, s)
    ensures Preserves(c, s, s)
  {
    hide Inv, EverFsynced, Fated;
    FsyncedInLog(c, s);
  }

  lemma {:induction false} RunSafe<R(!new)>(c: Codec<R>, segMax: int, s: Sys<R>, steps: seq<Step<R>>)
    requires Sound(c) && Inv(c, s) && Run(c, segMax, s, steps)
    ensures Inv(c, RunEnd(c, segMax, s, steps)) && Preserves(c, s, RunEnd(c, segMax, s, steps))
    decreases |steps|
  {
    hide Inv, Preserves, Sound, CanStep, After;
    if steps == [] {
      PreservesSelf(c, s);
    } else {
      var s' := After(c, segMax, s, steps[0]);
      StepSafe(c, segMax, s, steps[0]);
      RunSafe(c, segMax, s', steps[1..]);
      PreservesTransitive(c, s, s', RunEnd(c, segMax, s', steps[1..]));
    }
  }

  /** Opening directory d under budget b gives back round r at number i, unless b itself has no room
      for it; it has if everything live fits. */
  ghost predicate GivesBack<R>(c: Codec<R>, b: Budget<R>, d: Disk, i: int, r: R) {
    && d.files != []
    && Open(c, b, d).Ok?
    && var o := Open(c, b, d).value;
       && 0 <= i < o.head + |o.live|
       && (o.head <= i ==> o.live[i - o.head] == r)
  }

  /** The round numbered i can still reach the hub: whatever a crash leaves of the active segment, the
      next recovery gives it back, and while the agent runs it is in its buffer. */
  ghost predicate Held<R(!new)>(c: Codec<R>, s: Sys<R>, i: int, r: R) {
    && s.disk.files != []
    && DurableHead(c, s.disk) <= i < FsyncedEnd(c, s.disk)
    && (forall kept: nat, synced: nat, b: Budget<R> {:trigger GivesBack(c, b, Cut(s.disk, kept, synced), i, r)} ::
          Last(s.disk).synced <= synced <= kept <= |Last(s.disk).data| ==> GivesBack(c, b, Cut(s.disk, kept, synced), i, r))
    && (s.up ==> 0 <= i - s.headSeq < |s.rounds| && s.rounds[i - s.headSeq] == r)
  }

  lemma FatedOrHeld<R(!new)>(c: Codec<R>, s: Sys<R>, i: int)
    requires Inv(c, s) && 0 <= i < EverFsynced(c, s)
    ensures i < |s.log|
    ensures Fated(s, i) || Held(c, s, i, s.log[i])
  {
    hide FsyncedEnd, DurableHead, Fated, SpoolInv, FlightOk, DiskOk, GivesBack, Cut;
    FsyncedInLog(c, s);
    if !Fated(s, i) {
      DiskPart(c, s);
      forall kept: nat, synced: nat, b: Budget<R> | Last(s.disk).synced <= synced <= kept <= |Last(s.disk).data|
        ensures GivesBack(c, b, Cut(s.disk, kept, synced), i, s.log[i])
      {
        CutGivesBack(c, b, s.log, s.disk, DurableHead(c, s.disk), kept, synced, i);
      }
    }
  }

  lemma CutGivesBack<R>(
    c: Codec<R>, b: Budget<R>, log: seq<R>, d: Disk, head: nat, kept: nat, synced: nat, i: int)
    requires DiskOk(c, log, d, head) && |log| <= MAX_SEQ
    requires Last(d).synced <= synced <= kept <= |Last(d).data|
    requires head <= i < FsyncedEnd(c, d) && i < |log|
    ensures GivesBack(c, b, Cut(d, kept, synced), i, log[i])
  {
    hide *;
    DiskHasFiles(c, log, d, head);
    CutOk(c, log, d, head, kept, synced);
    DiskHasFiles(c, log, Cut(d, kept, synced), head);
    OpenGivesBack(c, b, log, Cut(d, kept, synced), head, i);
  }

  lemma OpenGivesBack<R>(c: Codec<R>, b: Budget<R>, log: seq<R>, d: Disk, head: nat, i: int)
    requires DiskOk(c, log, d, head) && |log| <= MAX_SEQ
    requires d.files != [] && head <= i < FsyncedEnd(c, d) && i < |log|
    ensures GivesBack(c, b, d, i, log[i])
  {
    hide *;
    RecoveredInv(c, b, log, d, head);
    AdmittedAt(b, log, head, End(c, Last(d)), i);
    GivesBackOf(c, b, d, i, log[i]);
  }

  lemma GivesBackOf<R>(c: Codec<R>, b: Budget<R>, d: Disk, i: int, r: R)
    requires d.files != [] && Open(c, b, d).Ok?
    requires var o := Open(c, b, d).value;
             0 <= i < o.head + |o.live| && (o.head <= i ==> o.live[i - o.head] == r)
    ensures GivesBack(c, b, d, i, r)
  {
    hide Open;
  }

  /** What the policy keeps of log[head..next] ends at next, so each round sits at its own number. */
  lemma AdmittedAt<R>(b: Budget<R>, log: seq<R>, head: int, next: int, i: int)
    requires 0 <= head <= i < next <= |log|
    ensures var live := AdmitAll(b, [], Slice(log, head, next));
            next - |live| <= i ==> 0 <= i - (next - |live|) < |live| && live[i - (next - |live|)] == log[i]
  {
    hide AdmitAll;
    var rs := Slice(log, head, next);
    AdmitAllIsSuffix(b, [], rs);
    assert [] + rs == rs;
  }

  /** No loss. Take any run from the first start, and any point in it. A round fsynced by then keeps
      its number for ever; at the end of the run the hub has acknowledged it, or refused it for good,
      or it was evicted for lack of room, or the agent still holds it: recovery gives it back whatever
      a crash leaves, and, while the agent runs, its buffer has it. */
  lemma NoLoss<R(!new)>(c: Codec<R>, segMax: int, s: Sys<R>, before: seq<Step<R>>, later: seq<Step<R>>, i: int)
    requires Sound(c) && Init(s) && Run(c, segMax, s, before)
    requires var mid := RunEnd(c, segMax, s, before);
             Run(c, segMax, mid, later) && 0 <= i < EverFsynced(c, mid)
    ensures var mid := RunEnd(c, segMax, s, before);
            var end := RunEnd(c, segMax, mid, later);
            && i < |mid.log| && i < |end.log|
            && end.log[i] == mid.log[i]
            && (Fated(end, i) || Held(c, end, i, mid.log[i]))
  {
    hide Inv, Run, RunEnd, Sound, Init, Fated, Held, EverFsynced;
    InitInv(c, s);
    RunSafe(c, segMax, s, before);
    var mid := RunEnd(c, segMax, s, before);
    RunSafe(c, segMax, mid, later);
    FatedOrHeld(c, RunEnd(c, segMax, mid, later), i);
  }

  /** What openSpool finds in directory d of a log: it succeeds; it returns what the buffer's policy
      keeps of the log from the durable head to the last record found; that covers everything below
      `fsynced`; the next number continues the log. A budget that evicts nothing gets it all. */
  ghost predicate RecoversAll<R>(c: Codec<R>, b: Budget<R>, log: seq<R>, d: Disk, fsynced: int) {
    && d.files != []
    && Open(c, b, d).Ok?
    && var o, head, next := Open(c, b, d).value, DurableHead(c, d), End(c, Last(d));
       && 0 <= head <= fsynced <= next <= |log|
       && o.head + |o.live| == next
       && o.live == AdmitAll(b, [], Slice(log, head, next))
       && (Within(b, Slice(log, head, next)) && b.capRounds >= 1 ==> o.head == head && o.live == Slice(log, head, next))
  }

  lemma RecoversAllOf<R>(c: Codec<R>, b: Budget<R>, log: seq<R>, d: Disk, head: nat, fsynced: int)
    requires DiskOk(c, log, d, head) && |log| <= MAX_SEQ
    requires head <= fsynced <= FsyncedEnd(c, d)
    ensures RecoversAll(c, b, log, d, fsynced)
  {
    hide DiskOk, AdmitAll, Open, End, FsyncedEnd, DurableHead, SpoolInv, Within;
    DiskHasFiles(c, log, d, head);
    RecoveredInv(c, b, log, d, head);
    var live := Slice(log, head, End(c, Last(d)));
    if Within(b, live) && b.capRounds >= 1 {
      assert [] + live == live;
      AdmitAllWithin(b, [], live);
    }
  }

  /** A crash at any point of any run, whatever it leaves of the active segment: the next openSpool
      does not fail and recovers everything that was ever fsynced and is still live, at its own
      number, in order, so no number it can see is ever given to a second round. */
  lemma CrashRecovery<R(!new)>(
    c: Codec<R>, segMax: int, s: Sys<R>, steps: seq<Step<R>>, kept: nat, synced: nat, b: Budget<R>)
    requires Sound(c) && Init(s) && Run(c, segMax, s, steps)
    requires CanStep(c, segMax, RunEnd(c, segMax, s, steps), Crash(kept, synced))
    ensures var end := RunEnd(c, segMax, s, steps);
            RecoversAll(c, b, end.log, Cut(end.disk, kept, synced), EverFsynced(c, end))
  {
    hide Inv, Run, RunEnd, Sound, Init, DiskOk, FsyncedEnd, End, DurableHead, Cut, RecoversAll;
    InitInv(c, s);
    RunSafe(c, segMax, s, steps);
    var end := RunEnd(c, segMax, s, steps);
    DiskPart(c, end);
    FsyncedInLog(c, end);
    CutOk(c, end.log, end.disk, DurableHead(c, end.disk), kept, synced);
    LogBound(c, end);
    RecoversAllOf(c, b, end.log, Cut(end.disk, kept, synced), DurableHead(c, end.disk), EverFsynced(c, end));
  }

  lemma LogBound<R>(c: Codec<R>, s: Sys<R>)
    requires Inv(c, s)
    ensures |s.log| <= MAX_SEQ
  {}

  /** Recovery under any budget of at least one round, from any directory that mirrors a log. It keeps
      exactly the longest suffix of the live rounds that is within both bounds (or the newest round
      alone, if that one is oversized); it advances the head by exactly the number dropped; the
      buffer's reload then evicts nothing; and a second recovery before any flush gives the same
      answer. */
  lemma RecoveryKeepsLongestSuffix<R>(c: Codec<R>, b: Budget<R>, log: seq<R>, d: Disk, head: nat)
    returns (dropped: nat)
    requires DiskOk(c, log, d, head) && |log| <= MAX_SEQ && b.capRounds >= 1
    ensures Open(c, b, d).Ok?
    ensures var o := Open(c, b, d).value;
            var live := Slice(log, head, End(c, Last(d)));
            && LongestWithin(b, live, dropped)
            && o.live == live[dropped..]
            && o.head == head + dropped
            && AdmitAll(b, [], o.live) == o.live
            && Open(c, b, o.disk).Ok?
            && Open(c, b, o.disk).value.live == o.live && Open(c, b, o.disk).value.head == o.head
  {
    hide DiskOk, AdmitAll, Open, End, FsyncedEnd, DurableHead, SpoolInv, Within, LongestWithin, Describes;
    DiskHasFiles(c, log, d, head);
    OpenTheorem(c, b, log, d, head);
    var o := Open(c, b, d).value;
    DiskHasFiles(c, log, o.disk, head);
    OpenTheorem(c, b, log, o.disk, head);
    var live := Slice(log, head, End(c, Last(d)));
    EmptyIsLongest(b);
    var empty: seq<R> := [];
    assert empty[0..] == empty && empty + live == live;
    dropped := AdmitAllKeepsLongest(b, empty, 0, live);
    ReloadKeepsAll(b, live);
    LongestInside(b, live, dropped);
  }

  lemma LongestInside<R>(b: Budget<R>, q: seq<R>, start: nat)
    requires LongestWithin(b, q, start)
    ensures start <= |q|
  {}
}
