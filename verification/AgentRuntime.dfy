/** The running agent: its buffer and its spool objects, driven by the measure loop, the push loop and
    the flusher. Every method is a run of the store-and-forward system, so what is proved of all runs
    of that system holds of these objects. */
module AgentRuntime {
  import opened Wrappers
  import opened Frames
  import opened Overflow
  import opened SpoolDisk
  import opened SpoolRecovery
  import opened SpoolSteps
  import opened SpoolObject
  import opened SpoolOpen
  import opened Delivery
  import opened StoreForward
  import opened AgentBuffer

  /** The steps lead from s to t. */
  ghost predicate Follows<R>(c: Codec<R>, segMax: int, s: Sys<R>, steps: seq<Step<R>>, t: Sys<R>) {
    Run(c, segMax, s, steps) && RunEnd(c, segMax, s, steps) == t
  }

  lemma FollowsNothing<R>(c: Codec<R>, segMax: int, s: Sys<R>)
    ensures Follows(c, segMax, s, [], s)
  {}

  lemma FollowsOne<R>(c: Codec<R>, segMax: int, s: Sys<R>, step: Step<R>)
    requires CanStep(c, segMax, s, step)
    ensures Follows(c, segMax, s, [step], After(c, segMax, s, step))
  {
    hide CanStep, After;
    assert [step][1..] == [];
    assert RunEnd(c, segMax, After(c, segMax, s, step), []) == After(c, segMax, s, step);
  }

  lemma {:induction false} FollowsConcat<R>(c: Codec<R>, segMax: int, s: Sys<R>, a: seq<Step<R>>, t: Sys<R>, b: seq<Step<R>>, u: Sys<R>)
    requires Follows(c, segMax, s, a, t) && Follows(c, segMax, t, b, u)
    ensures Follows(c, segMax, s, a + b, u)
    decreases |a|
  {
    hide CanStep, After;
    if |a| == 0 {
      assert a + b == b;
    } else {
      FollowsConcat(c, segMax, After(c, segMax, s, a[0]), a[1..], t, b, u);
      assert (a + b)[0] == a[0] && (a + b)[1..] == a[1..] + b;
    }
  }

  lemma FollowsSafe<R(!new)>(c: Codec<R>, segMax: int, s: Sys<R>, steps: seq<Step<R>>, t: Sys<R>)
    requires Sound(c) && Inv(c, s) && Follows(c, segMax, s, steps, t)
    ensures Inv(c, t) && Preserves(c, s, t)
  {
    hide Sound, Inv, Preserves, Run, RunEnd;
    RunSafe(c, segMax, s, steps);
  }

  /** The system calls of a flush as steps of the system. */
  ghost function SpoolRun<R>(calls: seq<SpoolStep>): (steps: seq<Step<R>>)
    ensures |steps| == |calls|
  {
    if |calls| == 0 then [] else SpoolRun(calls[..|calls| - 1]) + [Spool(calls[|calls| - 1])]
  }

  lemma {:induction false} SpoolFollows<R>(c: Codec<R>, segMax: int, s: Sys<R>, calls: seq<SpoolStep>, m: Mem<R>, d: Disk)
    requires s.up && Leads(c, segMax, s.mem, s.disk, calls, m, d)
    ensures Follows(c, segMax, s, SpoolRun(calls), s.(mem := m, disk := d))
    decreases |calls|
  {
    hide Enabled, AfterStep, Follows;
    if |calls| == 0 {
      FollowsNothing(c, segMax, s);
    } else {
      var n := |calls| - 1;
      var (m1, d1) := StepsEnd(c, segMax, s.mem, s.disk, calls[..n]);
      SpoolFollows(c, segMax, s, calls[..n], m1, d1);
      var s1 := s.(mem := m1, disk := d1);
      FollowsOne(c, segMax, s1, Spool(calls[n]));
      FollowsConcat(c, segMax, s, SpoolRun(calls[..n]), s1, [Spool(calls[n])], s.(mem := m, disk := d));
    }
  }

  /** What the measure loop and the flusher do beside the push loop. */
  datatype Activity<!R> = Arrives(r: R) | FlusherTick

  /** The rounds that are measured meanwhile. */
  function Arrivals<R>(acts: seq<Activity<R>>): seq<R>
    decreases |acts|
  {
    if |acts| == 0 then []
    else Arrivals(acts[..|acts| - 1]) + if acts[|acts| - 1].Arrives? then [acts[|acts| - 1].r] else []
  }

  lemma NoArrivals<R>(acts: seq<Activity<R>>)
    ensures Arrivals(acts[..0]) == []
  {}

  lemma {:induction false} ArrivalsGrow<R>(acts: seq<Activity<R>>, i: nat)
    requires i <= |acts|
    ensures |Arrivals(acts[..i])| <= |Arrivals(acts)|
    decreases |acts|
  {
    if i < |acts| {
      ArrivalsGrow(acts[..|acts| - 1], i);
      assert acts[..|acts| - 1][..i] == acts[..i];
    } else {
      assert acts[..i] == acts;
    }
  }

  lemma NextArrival<R>(acts: seq<Activity<R>>, i: nat)
    requires i < |acts|
    ensures Arrivals(acts[..i + 1]) == Arrivals(acts[..i]) + if acts[i].Arrives? then [acts[i].r] else []
    ensures |Arrivals(acts[..i + 1])| <= |Arrivals(acts)|
  {
    assert acts[..i + 1][..i] == acts[..i];
    ArrivalsGrow(acts, i + 1);
  }

  /** One turn of the last flush: what happens before the peek, between peek and push, and between push and
      commit. */
  datatype Turn<!R> = Turn(gap: seq<Activity<R>>, before: seq<Activity<R>>, during: seq<Activity<R>>)

  /** How the last flush ended. */
  datatype Outcome = Drained | Expired | Failed

  function TurnArrivals<R>(turns: seq<Turn<R>>): seq<R>
    decreases |turns|
  {
    if |turns| == 0 then []
    else
      var turn := turns[|turns| - 1];
      TurnArrivals(turns[..|turns| - 1]) + (Arrivals(turn.gap) + Arrivals(turn.before) + Arrivals(turn.during))
  }

  lemma NoTurns<R>(turns: seq<Turn<R>>)
    ensures TurnArrivals(turns[..0]) == []
  {}

  lemma {:induction false} TurnsGrow<R>(turns: seq<Turn<R>>, i: nat)
    requires i <= |turns|
    ensures |TurnArrivals(turns[..i])| <= |TurnArrivals(turns)|
    decreases |turns|
  {
    hide Arrivals;
    if i < |turns| {
      TurnsGrow(turns[..|turns| - 1], i);
      assert turns[..|turns| - 1][..i] == turns[..i];
    } else {
      assert turns[..i] == turns;
    }
  }

  lemma NextTurn<R>(turns: seq<Turn<R>>, i: nat)
    requires i < |turns|
    ensures TurnArrivals(turns[..i + 1]) ==
            TurnArrivals(turns[..i]) + (Arrivals(turns[i].gap) + Arrivals(turns[i].before) + Arrivals(turns[i].during))
    ensures |TurnArrivals(turns[..i + 1])| <= |TurnArrivals(turns)|
  {
    hide Arrivals;
    assert turns[..i + 1][..i] == turns[..i];
    TurnsGrow(turns, i + 1);
  }

  /** One push of the last flush: how many posts came before it, its batch, what became of it. */
  datatype Pushed<!R> = Pushed(t: nat, batch: seq<R>, sent: Sent)

  /** The rounds pushed, in order. */
  function Batches<R>(pushes: seq<Pushed<R>>): seq<R>
    decreases |pushes|
  {
    if |pushes| == 0 then [] else Batches(pushes[..|pushes| - 1]) + pushes[|pushes| - 1].batch
  }

  function PostCount<R>(pushes: seq<Pushed<R>>): nat
    decreases |pushes|
  {
    if |pushes| == 0 then 0 else PostCount(pushes[..|pushes| - 1]) + |pushes[|pushes| - 1].sent.posts|
  }

  /** Each is the push of a batch with at least one round, and the hub counts on from push to push. */
  ghost predicate PushesOf<R>(hub: Hub<R>, t: nat, pushes: seq<Pushed<R>>) {
    forall k :: 0 <= k < |pushes| ==>
      && pushes[k].batch != [] && pushes[k].t == t + PostCount(pushes[..k])
      && pushes[k].sent == SendBatch(hub, pushes[k].t, pushes[k].batch, 0)
  }

  predicate NoneTransient<R>(pushes: seq<Pushed<R>>) {
    forall k :: 0 <= k < |pushes| ==> !GotTransient(pushes[k].sent.posts)
  }

  /** No batch is over either limit, a single round excepted. */
  predicate WithinLimits<R>(size: R -> nat, maxRounds: int, maxBytes: int, pushes: seq<Pushed<R>>) {
    forall k :: 0 <= k < |pushes| ==>
      |pushes[k].batch| <= maxRounds && (|pushes[k].batch| > 1 ==> Total(size, pushes[k].batch) <= maxBytes)
  }

  lemma NoneOver<R>(size: R -> nat, maxRounds: int, maxBytes: int)
    ensures WithinLimits(size, maxRounds, maxBytes, [])
  {}

  lemma WithinGrows<R>(size: R -> nat, rounds: seq<R>, maxRounds: int, maxBytes: int, pushes: seq<Pushed<R>>, p: Pushed<R>)
    requires WithinLimits(size, maxRounds, maxBytes, pushes) && Packed(size, rounds, maxRounds, maxBytes, |p.batch|)
    requires p.batch == rounds[..|p.batch|] && p.batch != []
    ensures WithinLimits(size, maxRounds, maxBytes, pushes + [p])
  {
    hide Total;
  }

  lemma NoPushes<R>(hub: Hub<R>, t: nat)
    ensures PushesOf(hub, t, []) && NoneTransient<R>([]) && Batches<R>([]) == [] && PostCount<R>([]) == 0
  {}

  lemma PushesGrow<R>(hub: Hub<R>, t: nat, pushes: seq<Pushed<R>>, p: Pushed<R>)
    requires PushesOf(hub, t, pushes) && p.batch != [] && p.t == t + PostCount(pushes)
    requires p.sent == SendBatch(hub, p.t, p.batch, 0)
    ensures PushesOf(hub, t, pushes + [p])
    ensures NoneTransient(pushes) && !GotTransient(p.sent.posts) ==> NoneTransient(pushes + [p])
    ensures Batches(pushes + [p]) == Batches(pushes) + p.batch && |Batches(pushes)| < |Batches(pushes + [p])|
    ensures PostCount(pushes + [p]) == PostCount(pushes) + |p.sent.posts|
  {
    hide SendBatch, GotTransient;
    var all := pushes + [p];
    assert all[..|pushes|] == pushes;
    forall k | 0 <= k < |all|
      ensures all[k].batch != [] && all[k].t == t + PostCount(all[..k]) && all[k].sent == SendBatch(hub, all[k].t, all[k].batch, 0)
    {
      if k < |pushes| { assert all[..k] == pushes[..k] && all[k] == pushes[k]; }
    }
  }

  lemma LastPush<R>(pushes: seq<Pushed<R>>)
    requires NoneTransient(pushes)
    ensures pushes != [] ==> !GotTransient(pushes[|pushes| - 1].sent.posts)
  {}

  class Agent<R(!new)> {
    const codec: Codec<R>
    const segMax: int
    const buf: Buffer<R>
    const spool: Spool<R>
    ghost var sys: Sys<R> // the state of the system these objects implement

    ghost predicate Valid()
      reads this, buf, spool
    {
      && buf.Valid() && buf.p == spool && spool.codec == codec && spool.segMax == segMax && Sound(codec)
      && Agrees(buf.budget, buf.rounds, buf.headSeq, spool.M(), spool.disk, sys)
      && Inv(codec, sys)
    }

    constructor (c: Codec<R>, segMax: int, b: Buffer<R>, sp: Spool<R>, ghost s: Sys<R>)
      ensures codec == c && this.segMax == segMax && buf == b && spool == sp && sys == s
    {
      codec, this.segMax, buf, spool, sys := c, segMax, b, sp, s;
    }

    /** The start of Run: recover the spool, adopt what it holds. s is the stopped system. It fails only
        if a system call does, and is then a recovery that did not get further; otherwise it is a restart,
        and the buffer it fills evicts nothing. */
    static method Start(c: Codec<R>, segMax: int, b: Budget<R>, d: Disk, fault: Fault, machine: nat -> bool, ghost s: Sys<R>)
      returns (err: Option<OpenError>, a: Agent?<R>, left: Disk, ghost steps: seq<Step<R>>, ghost t: Sys<R>)
      requires Sound(c) && Inv(c, s) && !s.up && s.disk == d && b.capRounds >= 1
      ensures err == if Fails(c, d, fault) then Some(IoFailed) else None
      ensures Follows(c, segMax, s, steps, t) && t.disk == left
      ensures err.Some? ==> a == null && t == s.(disk := left)
      ensures err.None? ==> a != null && fresh(a) && fresh(a.buf) && fresh(a.spool)
      ensures err.None? ==> a.Valid() && a.codec == c && a.segMax == segMax && a.buf.dropCnt == 0
      ensures err.None? ==> a.sys == t && steps == [Restart(b)]
    {
      hide *;
      RestartShape(c, s, b);
      var buf := new Buffer(b);
      var sp, head, live;
      err, sp, head, live, left := OpenSpool(c, segMax, b, d, fault, machine);
      if err.Some? {
        steps := FailedStart(c, segMax, s, b, fault);
        return err, null, left, steps, s.(disk := left);
      }
      buf.SetPersister(sp);
      buf.Reload(head, live);
      a := new Agent(c, segMax, buf, sp, AfterRestart(c, s, b));
      RestartFollows(c, segMax, s, b);
      RestartAgrees(c, s, b);
      ValidIs(a);
      steps, t := [Restart(b)], a.sys;
    }

    lemma Parts()
      requires Valid()
      ensures buf.Valid() && buf.p == spool && spool.codec == codec && spool.segMax == segMax && Sound(codec)
      ensures Agrees(buf.budget, buf.rounds, buf.headSeq, spool.M(), spool.disk, sys) && Inv(codec, sys)
      ensures sys.up && sys.rounds == buf.rounds && sys.headSeq == buf.headSeq && sys.budget == buf.budget
      ensures sys.mem == spool.M() && sys.disk == spool.disk
    {
      hide Inv, Sound;
    }

    /** A measured round is buffered and staged for the spool, under the next number. */
    method Measure(r: R) returns (ghost steps: seq<Step<R>>)
      requires Valid() && buf.headSeq + |buf.rounds| < MAX_SEQ
      modifies this, buf, spool
      ensures Valid() && Follows(codec, segMax, old(sys), steps, sys)
      ensures buf.rejCnt == old(buf.rejCnt) && sys.flight == old(sys.flight)
      ensures sys.log == old(sys.log) + [r]
      ensures buf.rounds == Admit(buf.budget, old(buf.rounds), r)
    {
      hide *;
      Parts();
      AddIs(codec, segMax, sys, r);
      buf.Add(r);
      steps := [MakeRoom(r)] + [Push(r)];
      sys := AfterPush(AfterMakeRoom(sys, r), r);
      ValidIs(this);
    }

    /** The next sequence number is the length of the log. */
    lemma NextNumber()
      requires Valid()
      ensures buf.headSeq + |buf.rounds| == |sys.log|
    {
      hide *;
      Parts();
      AdvanceIdle(codec, sys);
    }

    /** One tick of the flusher. When it succeeds, every round measured so far is fsynced. */
    method FlushSpool() returns (failed: bool, ghost steps: seq<Step<R>>)
      requires Valid()
      modifies this, spool
      ensures Valid() && Follows(codec, segMax, old(sys), steps, sys)
      ensures sys == old(sys).(mem := sys.mem, disk := sys.disk)
      ensures !failed && !Off(old(sys.mem)) ==> EverFsynced(codec, sys) == |sys.log|
      ensures failed <==> !Succeed(spool.machine, old(spool.callN), spool.callN)
    {
      hide Valid, Inv, Sound, Follows, Leads, SpoolInv, EverFsynced, FsyncedEnd, Agrees, DurableHead, SpoolRun, AllLive, Spool.Mirrors;
      Parts();
      ghost var s := sys;
      RunningParts(codec, s);
      spool.MirrorsIs(s.log, DurableHead(codec, s.disk));
      OffIs(s.mem);
      ghost var calls;
      failed, calls := spool.Flush(s.log, DurableHead(codec, s.disk));
      sys := s.(mem := spool.M(), disk := spool.disk);
      if Off(s.mem) {
        OffPending(buf.budget, buf.rounds, buf.headSeq, s.mem, s.disk, s);
        steps := [];
        FollowsNothing(codec, segMax, s);
      } else {
        steps := SpoolRun(calls);
        SpoolFollows(codec, segMax, s, calls, spool.M(), spool.disk);
      }
      FollowsSafe(codec, segMax, s, steps, sys);
      OffIs(sys.mem);
      AgreesIs(buf.budget, sys);
      ValidIs(this);
      if sys.disk.files != [] { EverFsyncedIs(codec, sys); }
    }

    /** What the measure loop and the flusher do while the push loop waits. */
    method Background(acts: seq<Activity<R>>) returns (ghost steps: seq<Step<R>>)
      requires Valid() && |sys.log| + |Arrivals(acts)| < MAX_SEQ
      modifies this, buf, spool
      ensures Valid() && Follows(codec, segMax, old(sys), steps, sys)
      ensures buf.rejCnt == old(buf.rejCnt) && sys.flight == old(sys.flight)
      ensures sys.log == old(sys.log) + Arrivals(acts)
      ensures Arrivals(acts) == [] ==> buf.rounds == old(buf.rounds) && buf.headSeq == old(buf.headSeq)
    {
      hide *;
      ghost var s := sys;
      FollowsNothing(codec, segMax, s);
      steps := [];
      var i := 0;
      NoArrivals(acts);
      while i < |acts|
        invariant 0 <= i <= |acts| && Valid() && Follows(codec, segMax, s, steps, sys)
        invariant buf.rejCnt == old(buf.rejCnt) && sys.flight == s.flight
        invariant sys.log == s.log + Arrivals(acts[..i])
        invariant Arrivals(acts[..i]) == [] ==> buf.rounds == old(buf.rounds) && buf.headSeq == old(buf.headSeq)
        modifies this, buf, spool
      {
        ghost var t, more := sys, [];
        NextArrival(acts, i);
        match acts[i] {
          case Arrives(r) =>
            NextNumber();
            more := Measure(r);
          case FlusherTick =>
            var failed;
            failed, more := FlushSpool();
        }
        FollowsConcat(codec, segMax, s, steps, t, more, sys);
        steps := steps + more;
        i := i + 1;
      }
      assert acts[..i] == acts;
    }

    /** The peek of the push loop. */
    method Peek(maxRounds: int, maxBytes: int) returns (batch: seq<R>, upto: int, ghost steps: seq<Step<R>>)
      requires Valid() && sys.flight == Idle
      modifies this
      ensures Valid() && Follows(codec, segMax, old(sys), steps, sys)
      ensures sys.flight == Peeked(buf.headSeq, batch) && sys.log == old(sys.log)
      ensures Packed(buf.budget.size, buf.rounds, maxRounds, maxBytes, |batch|)
      ensures batch == buf.rounds[..|batch|] && upto == buf.headSeq + |batch| - 1
    {
      hide *;
      Parts();
      batch, upto := buf.PeekBatch(maxRounds, maxBytes);
      PackedInside(buf.budget.size, buf.rounds, maxRounds, maxBytes, |batch|);
      steps := [StoreForward.Peek(|batch|)];
      PeekIs(codec, segMax, sys, |batch|);
      sys := sys.(flight := Peeked(sys.headSeq, batch));
      ValidIs(this);
    }

    /** The push of the peeked batch. */
    method Send(hub: Hub<R>, t: nat, batch: seq<R>) returns (sent: Sent, ghost steps: seq<Step<R>>)
      requires Valid() && sys.flight.Peeked? && sys.flight.batch == batch
      modifies this
      ensures Valid() && Follows(codec, segMax, old(sys), steps, sys)
      ensures sent == SendBatch(hub, t, batch, 0) && sys.log == old(sys.log)
      ensures sys.flight == if sent.failed then Idle else Settling(old(sys.flight.lo), |batch|)
    {
      hide *;
      Parts();
      sent := SendBatch(hub, t, batch, 0);
      steps := [StoreForward.Send(hub, t)];
      SendIs(codec, segMax, sys, hub, t);
      sys := AfterSend(sys, hub, t);
      ValidIs(this);
    }

    /** The commit after a push whose every round got a verdict. */
    method CommitBatch(upto: int) returns (ghost steps: seq<Step<R>>)
      requires Valid() && sys.flight.Settling? && upto == sys.flight.lo + sys.flight.n - 1
      modifies this, buf, spool
      ensures Valid() && Follows(codec, segMax, old(sys), steps, sys) && sys.flight == Idle && sys.log == old(sys.log)
      ensures buf.rejCnt == old(buf.rejCnt)
      ensures buf.rounds == old(buf.rounds)[Removed(|old(buf.rounds)|, old(buf.headSeq), upto)..]
    {
      hide *;
      Parts();
      CommitIs(codec, segMax, sys);
      buf.Commit(upto);
      steps := [Commit];
      sys := AfterCommit(sys);
      ValidIs(this);
    }

    /** The first half of a turn: a batch is peeked and sent, with what happens in between. */
    method PeekAndSend(hub: Hub<R>, t: nat, maxRounds: int, maxBytes: int, before: seq<Activity<R>>)
      returns (batch: seq<R>, upto: int, sent: Sent, ghost steps: seq<Step<R>>)
      requires Valid() && sys.flight == Idle && |sys.log| + |Arrivals(before)| < MAX_SEQ
      modifies this, buf, spool
      ensures Valid() && Follows(codec, segMax, old(sys), steps, sys)
      ensures Packed(buf.budget.size, old(buf.rounds), maxRounds, maxBytes, |batch|)
      ensures batch == old(buf.rounds)[..|batch|] && sent == SendBatch(hub, t, batch, 0)
      ensures sys.flight == if sent.failed then Idle else Settling(old(buf.headSeq), |batch|)
      ensures upto == old(buf.headSeq) + |batch| - 1 && buf.rejCnt == old(buf.rejCnt)
      ensures sys.log == old(sys.log) + Arrivals(before)
      ensures Arrivals(before) == [] ==> buf.rounds == old(buf.rounds) && buf.headSeq == old(buf.headSeq)
    {
      hide *;
      ghost var s := sys;
      batch, upto, steps := Peek(maxRounds, maxBytes);
      ghost var s1, more := sys, [];
      more := Background(before);
      FollowsConcat(codec, segMax, s, steps, s1, more, sys);
      steps, s1 := steps + more, sys;
      sent, more := Send(hub, t, batch);
      FollowsConcat(codec, segMax, s, steps, s1, more, sys);
      steps := steps + more;
    }

    /** One turn of the push loop, with what happens between the peek and the push and between the push
        and the commit. After a transient failure nothing is committed. Otherwise the batch goes and the
        refused rounds are counted. */
    method PushOnce(hub: Hub<R>, t: nat, maxRounds: int, maxBytes: int, before: seq<Activity<R>>, during: seq<Activity<R>>)
      returns (batch: seq<R>, sent: Sent, ghost steps: seq<Step<R>>)
      requires Valid() && sys.flight == Idle
      requires |sys.log| + |Arrivals(before)| + |Arrivals(during)| < MAX_SEQ
      modifies this, buf, spool
      ensures Valid() && Follows(codec, segMax, old(sys), steps, sys) && sys.flight == Idle
      ensures Packed(buf.budget.size, old(buf.rounds), maxRounds, maxBytes, |batch|)
      ensures batch == old(buf.rounds)[..|batch|] && sent == SendBatch(hub, t, batch, 0)
      ensures buf.rejCnt == old(buf.rejCnt) + if sent.failed then 0 else sent.dropped
      ensures sys.log == old(sys.log) + Arrivals(before) + Arrivals(during)
      ensures Arrivals(before) == Arrivals(during) == [] ==>
                buf.rounds == if sent.failed then old(buf.rounds) else old(buf.rounds)[|batch|..]
    {
      hide *;
      ghost var s := sys;
      var upto;
      batch, upto, sent, steps := PeekAndSend(hub, t, maxRounds, maxBytes, before);
      ghost var s1, more := sys, [];
      more := Background(during);
      FollowsConcat(codec, segMax, s, steps, s1, more, sys);
      steps, s1 := steps + more, sys;
      if sent.failed { return; }
      PackedInside(buf.budget.size, old(buf.rounds), maxRounds, maxBytes, |batch|);
      RemovedAll(|buf.rounds|, buf.headSeq, |batch|);
      more := Conclude(upto, sent.dropped);
      FollowsConcat(codec, segMax, s, steps, s1, more, sys);
      steps := steps + more;
    }

    /** The end of a push without a transient failure. */
    method Conclude(upto: int, dropped: nat) returns (ghost steps: seq<Step<R>>)
      requires Valid() && sys.flight.Settling? && upto == sys.flight.lo + sys.flight.n - 1
      modifies this, buf, spool
      ensures Valid() && Follows(codec, segMax, old(sys), steps, sys) && sys.flight == Idle && sys.log == old(sys.log)
      ensures buf.rejCnt == old(buf.rejCnt) + dropped
      ensures buf.rounds == old(buf.rounds)[Removed(|old(buf.rounds)|, old(buf.headSeq), upto)..]
    {
      hide *;
      steps := CommitBatch(upto);
      if dropped > 0 {
        CountRefused(dropped);
      }
    }

    method CountRefused(n: nat)
      requires Valid()
      modifies buf`rejCnt
      ensures Valid() && buf.rejCnt == old(buf.rejCnt) + n
    {
      buf.Reject(n);
    }

    /** finalFlush: push batch after batch until the buffer is empty, the time is up or a push fails. The
        wait for the measure loop may have run out and the flusher still runs, so rounds may arrive and be
        flushed at any point. It fails exactly if its last push got a transient answer, and no push before
        got one. Unless rounds arrive, the batches pushed are the buffer's rounds from the oldest on, each
        once, and against a hub that never answers so it drains, given more turns than rounds. */
    method FinalFlush(hub: Hub<R>, t: nat, maxRounds: int, maxBytes: int, turns: seq<Turn<R>>)
      returns (end: Outcome, pushes: seq<Pushed<R>>, ghost steps: seq<Step<R>>)
      requires Valid() && sys.flight == Idle && maxRounds >= 1
      requires |sys.log| + |TurnArrivals(turns)| < MAX_SEQ
      modifies this, buf, spool
      ensures Valid() && Follows(codec, segMax, old(sys), steps, sys) && sys.flight == Idle
      ensures PushesOf(hub, t, pushes)
      ensures WithinLimits(buf.budget.size, maxRounds, maxBytes, pushes)
      ensures end == Failed <==> pushes != [] && GotTransient(pushes[|pushes| - 1].sent.posts)
      ensures NoneTransient(if end == Failed then pushes[..|pushes| - 1] else pushes)
      ensures end == Drained ==> buf.rounds == []
      ensures end == Expired ==> |pushes| == |turns| && sys.log == old(sys.log) + TurnArrivals(turns)
      ensures TurnArrivals(turns) == [] ==>
                old(buf.rounds) == Batches(if end == Failed then pushes[..|pushes| - 1] else pushes) + buf.rounds
      ensures NeverTransient(hub) ==> end != Failed
      ensures TurnArrivals(turns) == [] && |turns| > |old(buf.rounds)| ==> end != Expired
    {
      hide *;
      ghost var s := sys;
      FollowsNothing(codec, segMax, s);
      steps, pushes := [], [];
      NoPushes(hub, t);
      NoneOver(buf.budget.size, maxRounds, maxBytes);
      var posts: nat := t;
      var i := 0;
      NoTurns(turns);
      assert buf.rounds == [] + buf.rounds;
      while i < |turns|
        invariant 0 <= i <= |turns| && Valid() && Follows(codec, segMax, s, steps, sys) && sys.flight == Idle
        invariant sys.log == s.log + TurnArrivals(turns[..i])
        invariant WithinLimits(buf.budget.size, maxRounds, maxBytes, pushes)
        invariant PushesOf(hub, t, pushes) && NoneTransient(pushes) && |pushes| == i && posts == t + PostCount(pushes)
        invariant TurnArrivals(turns[..i]) == [] ==> old(buf.rounds) == Batches(pushes) + buf.rounds
        invariant i <= |Batches(pushes)|
        modifies this, buf, spool
      {
        NextTurn(turns, i);
        ghost var s1, more := sys, [];
        more := Background(turns[i].gap);
        FollowsConcat(codec, segMax, s, steps, s1, more, sys);
        steps, s1 := steps + more, sys;
        if |buf.rounds| == 0 {
          LastPush(pushes);
          TurnsGrow(turns, i);
          return Drained, pushes, steps;
        }
        ghost var was := buf.rounds;
        var batch, sent;
        batch, sent, more := PushOnce(hub, posts, maxRounds, maxBytes, turns[i].before, turns[i].during);
        FollowsConcat(codec, segMax, s, steps, s1, more, sys);
        steps := steps + more;
        PackedInside(buf.budget.size, was, maxRounds, maxBytes, |batch|);
        WithinGrows(buf.budget.size, was, maxRounds, maxBytes, pushes, Pushed(posts, batch, sent));
        SendFailsIff(hub, posts, batch, 0);
        if sent.failed {
          PushesGrow(hub, t, pushes, Pushed(posts, batch, sent));
          if NeverTransient(hub) { SendNeverFails(hub, posts, batch, 0); }
          assert (pushes + [Pushed(posts, batch, sent)])[..|pushes|] == pushes;
          TurnsGrow(turns, i + 1);
          return Failed, pushes + [Pushed(posts, batch, sent)], steps;
        }
        PushesGrow(hub, t, pushes, Pushed(posts, batch, sent));
        assert was == batch + was[|batch|..];
        assert Batches(pushes) + was == Batches(pushes) + batch + was[|batch|..];
        pushes := pushes + [Pushed(posts, batch, sent)];
        posts := posts + |sent.posts|;
        i := i + 1;
      }
      assert turns[..i] == turns;
      LastPush(pushes);
      return Expired, pushes, steps;
    }

    /** Closing the spool at shutdown: one last flush. When it succeeds everything is on disk. */
    method CloseSpool() returns (failed: bool, ghost steps: seq<Step<R>>)
      requires Valid()
      modifies this, spool
      ensures Valid() && Follows(codec, segMax, old(sys), steps, sys)
      ensures Off(sys.mem)
      ensures !failed && !Off(old(sys.mem)) ==> EverFsynced(codec, sys) == |sys.log|
      ensures failed <==> !Succeed(spool.machine, old(spool.callN), spool.callN)
    {
      hide Valid, Inv, Sound, Follows, Leads, SpoolInv, EverFsynced, FsyncedEnd, Agrees, DurableHead, SpoolRun, Spool.Mirrors;
      Parts();
      ghost var s := sys;
      RunningParts(codec, s);
      spool.MirrorsIs(s.log, DurableHead(codec, s.disk));
      OffPending(buf.budget, buf.rounds, buf.headSeq, s.mem, s.disk, s);
      ghost var calls;
      failed, calls := spool.Close(s.log, DurableHead(codec, s.disk));
      sys := s.(mem := spool.M(), disk := spool.disk);
      if Off(s.mem) {
        CloseIs(codec, segMax, s);
        steps := [Close];
      } else {
        var m: Mem<R> :| Leads(codec, segMax, s.mem, s.disk, calls, m, spool.disk) && spool.M() == m.(closed := true);
        ghost var s1 := s.(mem := m, disk := spool.disk);
        SpoolFollows(codec, segMax, s, calls, m, spool.disk);
        FollowsSafe(codec, segMax, s, SpoolRun(calls), s1);
        CloseIs(codec, segMax, s1);
        steps := SpoolRun(calls) + [Close];
        FollowsConcat(codec, segMax, s, SpoolRun(calls), s1, [Close], sys);
      }
      FollowsSafe(codec, segMax, s, steps, sys);
      AgreesIs(buf.budget, sys);
      ValidIs(this);
      if sys.disk.files != [] { EverFsyncedIs(codec, sys); }
    }
  }

  /** The objects hold what the system's variables say. */
  ghost predicate Agrees<R>(b: Budget<R>, rounds: seq<R>, headSeq: int, m: Mem<R>, d: Disk, s: Sys<R>) {
    && s.up && s.budget == b && s.rounds == rounds && s.headSeq == headSeq && s.mem == m && s.disk == d
    && (Off(m) ==> m.pending == [])
  }

  lemma ValidIs<R(!new)>(a: Agent<R>)
    requires a.buf.Valid() && a.buf.p == a.spool && a.spool.codec == a.codec && a.spool.segMax == a.segMax && Sound(a.codec)
    requires Agrees(a.buf.budget, a.buf.rounds, a.buf.headSeq, a.spool.M(), a.spool.disk, a.sys) && Inv(a.codec, a.sys)
    ensures a.Valid()
  {}

  lemma AgreesIs<R>(b: Budget<R>, s: Sys<R>)
    requires s.up && s.budget == b && (Off(s.mem) ==> s.mem.pending == [])
    ensures Agrees(b, s.rounds, s.headSeq, s.mem, s.disk, s)
  {}

  // ---- start ----

  /** What a restart recovers fits the buffer as it is. */
  lemma RestartShape<R>(c: Codec<R>, s: Sys<R>, b: Budget<R>)
    requires Inv(c, s) && !s.up
    ensures forall i :: 0 <= i < |s.disk.files| ==> Regular(s.disk.files[i])
    ensures Open(c, b, s.disk).Ok?
    ensures var o := Open(c, b, s.disk).value;
            && AdmitAll(b, [], o.live) == o.live && !Off(o.mem)
            && var t := AfterRestart(c, s, b);
               t.up && t.budget == b && t.rounds == o.live && t.headSeq == o.head && t.mem == o.mem && t.disk == o.disk
  {
    hide *;
    if s.disk.files == [] {
      FreshShape(c, s, b);
    } else {
      LaterShape(c, s, b);
    }
  }

  lemma FreshShape<R>(c: Codec<R>, s: Sys<R>, b: Budget<R>)
    requires Inv(c, s) && !s.up && s.disk.files == []
    ensures Open(c, b, s.disk).Ok?
    ensures var o := Open(c, b, s.disk).value;
            && AdmitAll(b, [], o.live) == o.live && !Off(o.mem)
            && var t := AfterRestart(c, s, b);
               t.up && t.budget == b && t.rounds == o.live && t.headSeq == o.head && t.mem == o.mem && t.disk == o.disk
  {
    hide Open, SpoolInv, FsyncedEnd, DurableHead, Stopped;
    OpenFresh(c, b);
    assert s.disk == Disk(None, []);
  }

  lemma LaterShape<R>(c: Codec<R>, s: Sys<R>, b: Budget<R>)
    requires Inv(c, s) && !s.up && s.disk.files != []
    ensures forall i :: 0 <= i < |s.disk.files| ==> Regular(s.disk.files[i])
    ensures Open(c, b, s.disk).Ok?
    ensures var o := Open(c, b, s.disk).value;
            && AdmitAll(b, [], o.live) == o.live && !Off(o.mem)
            && var t := AfterRestart(c, s, b);
               t.up && t.budget == b && t.rounds == o.live && t.headSeq == o.head && t.mem == o.mem && t.disk == o.disk
  {
    hide *;
    DiskPart(c, s);
    InvLog(c, s);
    var head := DurableHead(c, s.disk);
    FilesRegular(c, s.log, s.disk, head);
    RecoveredInv(c, b, s.log, s.disk, head);
    ReloadKeepsAll(b, Slice(s.log, head, End(c, Last(s.disk))));
    RestartIs(c, s, b);
  }

  lemma InvLog<R>(c: Codec<R>, s: Sys<R>)
    requires Inv(c, s)
    ensures |s.log| <= MAX_SEQ
  {}

  lemma FilesRegular<R>(c: Codec<R>, log: seq<R>, d: Disk, head: nat)
    requires DiskOk(c, log, d, head)
    ensures forall i :: 0 <= i < |d.files| ==> Regular(d.files[i])
  {
    hide Scan, End, Closed;
  }

  lemma RestartIs<R>(c: Codec<R>, s: Sys<R>, b: Budget<R>)
    requires Open(c, b, s.disk).Ok?
    ensures var o, t := Open(c, b, s.disk).value, AfterRestart(c, s, b);
            && t.up && t.budget == b && t.disk == o.disk
            && t.rounds == AdmitAll(b, [], o.live) && t.headSeq == o.head + |o.live| - |t.rounds|
            && (o.mem.head == t.headSeq ==> t.mem == o.mem)
  {
    hide Open, AdmitAll;
  }

  lemma RestartFollows<R>(c: Codec<R>, segMax: int, s: Sys<R>, b: Budget<R>)
    requires Inv(c, s) && !s.up
    ensures Follows(c, segMax, s, [Restart(b)], AfterRestart(c, s, b))
  {
    hide AfterRestart, Run, RunEnd, Inv;
    FollowsOne(c, segMax, s, Restart(b));
  }

  lemma RestartAgrees<R>(c: Codec<R>, s: Sys<R>, b: Budget<R>)
    requires Inv(c, s) && !s.up
    ensures var t := AfterRestart(c, s, b);
            Agrees(b, t.rounds, t.headSeq, t.mem, t.disk, t) && Inv(c, t)
  {
    hide *;
    RestartKeeps(c, s, b);
    RestartShape(c, s, b);
    NotOff(AfterRestart(c, s, b));
  }

  lemma NotOff<R>(s: Sys<R>)
    requires s.up && !Off(s.mem)
    ensures Agrees(s.budget, s.rounds, s.headSeq, s.mem, s.disk, s)
  {}

  // ---- a start that fails ----

  /** Dead segments go one by one. */
  lemma {:induction false} DropRun<R>(c: Codec<R>, segMax: int, s: Sys<R>, k: nat) returns (steps: seq<Step<R>>)
    requires !s.up && k < |s.disk.files|
    requires forall i :: 0 <= i < k ==> Meta(c, s.disk.files[i]).maxSeq < DurableHead(c, s.disk)
    ensures Follows(c, segMax, s, steps, s.(disk := Without(s.disk, k)))
    decreases k
  {
    hide Follows, Meta, ReadHead;
    if k == 0 {
      steps := [];
      FollowsNothing(c, segMax, s);
      assert Without(s.disk, 0) == s.disk;
    } else {
      var s1 := s.(disk := Without(s.disk, 1));
      FollowsOne(c, segMax, s, DeadRemoved);
      var more := DropRun(c, segMax, s1, k - 1);
      assert Without(s1.disk, k - 1) == Without(s.disk, k);
      FollowsConcat(c, segMax, s, [DeadRemoved], s1, more, s.(disk := Without(s.disk, k)));
      steps := [DeadRemoved] + more;
    }
  }

  /** A recovery cuts the torn tail off, then deletes the dead segments. */
  lemma RecoveryRun<R>(c: Codec<R>, segMax: int, s: Sys<R>, b: Budget<R>) returns (steps: seq<Step<R>>)
    requires Inv(c, s) && !s.up && s.disk.files != []
    ensures Open(c, b, s.disk).Ok?
    ensures Follows(c, segMax, s, steps, s.(disk := Open(c, b, s.disk).value.disk))
  {
    hide *;
    DiskPart(c, s);
    InvLog(c, s);
    var d, head := s.disk, DurableHead(c, s.disk);
    RecoveredInv(c, b, s.log, d, head);
    var k := LiveClosedIsSuffix(c, s.log, d, head, head);
    var d1 := WithLast(d, Truncated(c, Last(d)));
    TornStep(c, segMax, s);
    var s1 := s.(disk := d1);
    TruncatedDead(c, d, head, k);
    var more := DropRun(c, segMax, s1, k);
    OpenLeaves(c, b, d, head, k);
    FollowsConcat(c, segMax, s, [TornTruncated], s1, more, s.(disk := Without(d1, k)));
    steps := [TornTruncated] + more;
  }

  lemma TornStep<R>(c: Codec<R>, segMax: int, s: Sys<R>)
    requires !s.up && s.disk.files != []
    ensures Follows(c, segMax, s, [TornTruncated], s.(disk := WithLast(s.disk, Truncated(c, Last(s.disk)))))
  {
    hide Follows, Truncated;
    FollowsOne(c, segMax, s, TornTruncated);
  }

  lemma TruncatedDead<R>(c: Codec<R>, d: Disk, head: int, k: nat)
    requires k < |d.files| && head == DurableHead(c, d)
    requires forall i :: 0 <= i < k ==> Meta(c, d.files[i]).maxSeq < head
    ensures var e := WithLast(d, Truncated(c, Last(d)));
            && k < |e.files| && DurableHead(c, e) == head
            && forall i :: 0 <= i < k ==> Meta(c, e.files[i]).maxSeq < head
  {
    hide Meta, Truncated, ReadHead;
    var e := WithLast(d, Truncated(c, Last(d)));
    forall i | 0 <= i < k
      ensures Meta(c, e.files[i]).maxSeq < head
    {
      assert e.files[i] == d.files[i];
    }
  }

  /** A start that fails at a system call is a run of the system. */
  lemma FailedStart<R>(c: Codec<R>, segMax: int, s: Sys<R>, b: Budget<R>, fault: Fault) returns (steps: seq<Step<R>>)
    requires Inv(c, s) && !s.up && Open(c, b, s.disk).Ok? && Fails(c, s.disk, fault)
    ensures Follows(c, segMax, s, steps, s.(disk := Left(c, b, s.disk, fault)))
  {
    hide Inv, Open, Follows, Torn;
    if fault == Unopened && s.disk.files != [] {
      steps := RecoveryRun(c, segMax, s, b);
    } else if fault == Unsynced {
      FirstLeaves(c, s, b);
      FollowsOne(c, segMax, s, FirstCreated);
      steps := [FirstCreated];
    } else {
      FollowsNothing(c, segMax, s);
      steps := [];
    }
  }

  lemma FirstLeaves<R>(c: Codec<R>, s: Sys<R>, b: Budget<R>)
    requires Inv(c, s) && !s.up && s.disk.files == []
    ensures Open(c, b, s.disk).Ok?
    ensures Open(c, b, s.disk).value.disk == s.disk.(files := [File(DurableHead(c, s.disk), [], 0)])
  {
    hide Open, FsyncedEnd, SpoolInv, Stopped;
    OpenFresh(c, b);
    FirstCreatedKeeps(c, s);
    assert s.disk == Disk(None, []);
  }

  // ---- add ----

  /** The head of the spool follows the buffer's, so telling it again changes nothing. */
  lemma AdvanceIdle<R>(c: Codec<R>, s: Sys<R>)
    requires Inv(c, s) && s.up
    ensures AdvanceHead(s.mem, s.headSeq) == s.mem
    ensures 0 <= s.headSeq && s.headSeq + |s.rounds| == |s.log|
  {
    hide SpoolInv, DurableHead, AllFatedBelow, FlightOk;
  }

  lemma EvictIs<R>(c: Codec<R>, s: Sys<R>, k: nat)
    requires Inv(c, s) && s.up
    ensures AfterEvict(s.mem, k, s.headSeq + k) == AdvanceHead(s.mem, s.headSeq + k)
  {
    hide Inv, AdvanceHead;
    AdvanceIdle(c, s);
  }

  /** An add is the two steps that make room and push. */
  lemma AddIs<R(!new)>(c: Codec<R>, segMax: int, s: Sys<R>, r: R)
    requires Sound(c) && Inv(c, s) && s.up && s.headSeq + |s.rounds| < MAX_SEQ
    requires Agrees(s.budget, s.rounds, s.headSeq, s.mem, s.disk, s)
    ensures 0 <= s.headSeq
    ensures var k := Evictions(s.budget, s.rounds, s.budget.size(r));
            && k <= |s.rounds|
            && var s1 := AfterMakeRoom(s, r);
               && 0 <= s1.headSeq + |s1.rounds| < MAX_SEQ
               && var s2 := AfterPush(s1, r);
                  && Follows(c, segMax, s, [MakeRoom(r)] + [Push(r)], s2)
                  && s2.rounds == Admit(s.budget, s.rounds, r) && s2.headSeq == s.headSeq + k
                  && s2.mem == Stage(AfterEvict(s.mem, k, s.headSeq + k), s.headSeq + |s.rounds|, r)
                  && s2.disk == s.disk && s2.flight == s.flight && s2.log == s.log + [r] && s2.budget == s.budget
                  && Agrees(s2.budget, s2.rounds, s2.headSeq, s2.mem, s2.disk, s2) && Inv(c, s2)
  {
    hide *;
    AdvanceIdle(c, s);
    var k := Evictions(s.budget, s.rounds, s.budget.size(r));
    EvictIs(c, s, k);
    AddShape(s, r);
    var s1 := AfterMakeRoom(s, r);
    MakeRoomKeeps(c, s, r);
    PushKeeps(c, s1, r);
    CanAdd(c, segMax, s, r);
    FollowsOne(c, segMax, s, MakeRoom(r));
    FollowsOne(c, segMax, s1, Push(r));
    FollowsConcat(c, segMax, s, [MakeRoom(r)], s1, [Push(r)], AfterPush(s1, r));
    AddAgrees(s, r);
  }

  lemma AddShape<R>(s: Sys<R>, r: R)
    requires 0 <= s.headSeq && s.headSeq + |s.rounds| < MAX_SEQ && s.up
    ensures var k := Evictions(s.budget, s.rounds, s.budget.size(r));
            var s1 := AfterMakeRoom(s, r);
            && k <= |s.rounds| && s1.up
            && s1.headSeq + |s1.rounds| == s.headSeq + |s.rounds|
            && !MustEvict(s1.budget, s1.rounds, s1.budget.size(r))
            && var s2 := AfterPush(s1, r);
               && s2.rounds == Admit(s.budget, s.rounds, r) && s2.headSeq == s.headSeq + k
               && s2.mem == Stage(AdvanceHead(s.mem, s.headSeq + k), s.headSeq + |s.rounds|, r)
               && s2.disk == s.disk && s2.flight == s.flight && s2.log == s.log + [r] && s2.budget == s.budget && s2.up
  {
    hide Stage, AdvanceHead, MustEvict;
  }

  lemma CanAdd<R>(c: Codec<R>, segMax: int, s: Sys<R>, r: R)
    requires 0 <= s.headSeq && s.headSeq + |s.rounds| < MAX_SEQ && s.up
    ensures CanStep(c, segMax, s, MakeRoom(r)) && After(c, segMax, s, MakeRoom(r)) == AfterMakeRoom(s, r)
    ensures var s1 := AfterMakeRoom(s, r);
            && 0 <= s1.headSeq + |s1.rounds| < MAX_SEQ
            && CanStep(c, segMax, s1, Push(r)) && After(c, segMax, s1, Push(r)) == AfterPush(s1, r)
  {
    hide MustEvict, AfterMakeRoom, AfterPush;
    AddShape(s, r);
  }

  lemma AddAgrees<R>(s: Sys<R>, r: R)
    requires Agrees(s.budget, s.rounds, s.headSeq, s.mem, s.disk, s) && 0 <= s.headSeq && s.headSeq + |s.rounds| < MAX_SEQ
    ensures var s1 := AfterMakeRoom(s, r);
            && 0 <= s1.headSeq + |s1.rounds| < MAX_SEQ
            && var s2 := AfterPush(s1, r);
               Agrees(s2.budget, s2.rounds, s2.headSeq, s2.mem, s2.disk, s2)
  {
    hide Evictions;
  }

  // ---- flush ----

  lemma RunningParts<R>(c: Codec<R>, s: Sys<R>)
    requires Inv(c, s) && s.up
    ensures 0 <= DurableHead(c, s.disk) && SpoolInv(c, s.log, s.mem, s.disk, DurableHead(c, s.disk))
  {
    hide SpoolInv, DurableHead, AllFatedBelow, FlightOk;
  }

  lemma OffIs<R>(m: Mem<R>)
    ensures Off(m) <==> m.degraded || m.closed
  {}

  lemma EverFsyncedIs<R>(c: Codec<R>, s: Sys<R>)
    requires s.disk.files != []
    ensures EverFsynced(c, s) == FsyncedEnd(c, s.disk)
  {}

  lemma OffPending<R>(b: Budget<R>, rounds: seq<R>, headSeq: int, m: Mem<R>, d: Disk, s: Sys<R>)
    requires Agrees(b, rounds, headSeq, m, d, s)
    ensures Off(m) ==> m.pending == []
  {}

  lemma CloseIs<R>(c: Codec<R>, segMax: int, s: Sys<R>)
    requires s.up
    ensures Follows(c, segMax, s, [Close], s.(mem := s.mem.(closed := true)))
  {
    hide Follows;
    FollowsOne(c, segMax, s, Close);
  }

  // ---- push ----

  lemma PackedInside<R>(size: R -> nat, rounds: seq<R>, maxRounds: int, maxBytes: int, take: nat)
    requires Packed(size, rounds, maxRounds, maxBytes, take)
    ensures take <= |rounds| && (rounds != [] && maxRounds >= 1 ==> take >= 1)
  {}

  lemma RemovedAll(rounds: nat, headSeq: int, n: nat)
    ensures n <= rounds ==> Removed(rounds, headSeq, headSeq + n - 1) == n
  {}

  /** The buffer and the spool are as they were. */
  lemma SameObjects<R>(b: Budget<R>, s: Sys<R>, s': Sys<R>)
    requires Agrees(b, s.rounds, s.headSeq, s.mem, s.disk, s)
    requires s' == s.(flight := s'.flight, acked := s'.acked, refused := s'.refused)
    ensures Agrees(b, s.rounds, s.headSeq, s.mem, s.disk, s')
  {}

  lemma PeekIs<R>(c: Codec<R>, segMax: int, s: Sys<R>, n: nat)
    requires Inv(c, s) && s.up && s.flight == Idle && n <= |s.rounds|
    requires Agrees(s.budget, s.rounds, s.headSeq, s.mem, s.disk, s)
    ensures var s' := s.(flight := Peeked(s.headSeq, s.rounds[..n]));
            && Follows(c, segMax, s, [Peek(n)], s') && Inv(c, s')
            && Agrees(s.budget, s.rounds, s.headSeq, s.mem, s.disk, s')
  {
    hide Follows, Inv, Agrees;
    PeekKeeps(c, s, n);
    FollowsOne(c, segMax, s, Peek(n));
    SameObjects(s.budget, s, s.(flight := Peeked(s.headSeq, s.rounds[..n])));
  }

  lemma SendIs<R>(c: Codec<R>, segMax: int, s: Sys<R>, hub: Hub<R>, t: nat)
    requires Inv(c, s) && s.up && s.flight.Peeked?
    requires Agrees(s.budget, s.rounds, s.headSeq, s.mem, s.disk, s)
    ensures var s', sent := AfterSend(s, hub, t), SendBatch(hub, t, s.flight.batch, 0);
            && Follows(c, segMax, s, [Send(hub, t)], s') && Inv(c, s')
            && Agrees(s.budget, s.rounds, s.headSeq, s.mem, s.disk, s')
            && s'.flight == (if sent.failed then Idle else Settling(s.flight.lo, |s.flight.batch|))
            && s'.log == s.log
  {
    hide *;
    SendKeeps(c, s, hub, t);
    CanSend(c, segMax, s, hub, t);
    FollowsOne(c, segMax, s, Send(hub, t));
    SendShape(s, hub, t);
    SameObjects(s.budget, s, AfterSend(s, hub, t));
  }

  lemma CanSend<R>(c: Codec<R>, segMax: int, s: Sys<R>, hub: Hub<R>, t: nat)
    requires s.up && s.flight.Peeked?
    ensures CanStep(c, segMax, s, Send(hub, t)) && After(c, segMax, s, Send(hub, t)) == AfterSend(s, hub, t)
  {
    hide AfterSend;
  }

  lemma SendShape<R>(s: Sys<R>, hub: Hub<R>, t: nat)
    requires s.flight.Peeked?
    ensures var s', sent := AfterSend(s, hub, t), SendBatch(hub, t, s.flight.batch, 0);
            && s' == s.(flight := s'.flight, acked := s'.acked, refused := s'.refused)
            && s'.flight == if sent.failed then Idle else Settling(s.flight.lo, |s.flight.batch|)
  {
    hide SendBatch, AckedAt, RefusedAt;
  }

  lemma CommitIs<R>(c: Codec<R>, segMax: int, s: Sys<R>)
    requires Inv(c, s) && s.up && s.flight.Settling?
    requires Agrees(s.budget, s.rounds, s.headSeq, s.mem, s.disk, s)
    ensures var s', upto := AfterCommit(s), s.flight.lo + s.flight.n - 1;
            var k := Removed(|s.rounds|, s.headSeq, upto);
            && k <= |s.rounds|
            && Follows(c, segMax, s, [Commit], s') && Inv(c, s')
            && s'.up && s'.budget == s.budget && s'.rounds == s.rounds[k..] && s'.headSeq == s.headSeq + k
            && s'.mem == (if upto >= s.headSeq then AdvanceHead(s.mem, s.headSeq + k) else s.mem)
            && s'.disk == s.disk && s'.flight == Idle && s'.log == s.log
            && Agrees(s.budget, s'.rounds, s'.headSeq, s'.mem, s'.disk, s')
  {
    hide *;
    CommitKeeps(c, s);
    CanCommit(c, segMax, s);
    FollowsOne(c, segMax, s, Commit);
    AdvanceIdle(c, s);
    CommitShape(s);
    CommitAgrees(s);
  }

  lemma CanCommit<R>(c: Codec<R>, segMax: int, s: Sys<R>)
    requires s.up && s.flight.Settling?
    ensures CanStep(c, segMax, s, Commit) && After(c, segMax, s, Commit) == AfterCommit(s)
  {
    hide AfterCommit;
  }

  lemma CommitShape<R>(s: Sys<R>)
    requires s.flight.Settling? && AdvanceHead(s.mem, s.headSeq) == s.mem
    ensures var s', upto := AfterCommit(s), s.flight.lo + s.flight.n - 1;
            var k := Removed(|s.rounds|, s.headSeq, upto);
            && k <= |s.rounds|
            && s'.up == s.up && s'.budget == s.budget && s'.rounds == s.rounds[k..] && s'.headSeq == s.headSeq + k
            && s'.mem == (if upto >= s.headSeq then AdvanceHead(s.mem, s.headSeq + k) else s.mem)
            && s'.disk == s.disk && s'.flight == Idle && s'.log == s.log
  {
    hide AdvanceHead;
  }

  lemma CommitAgrees<R>(s: Sys<R>)
    requires s.flight.Settling? && Agrees(s.budget, s.rounds, s.headSeq, s.mem, s.disk, s)
    ensures var s' := AfterCommit(s);
            Agrees(s.budget, s'.rounds, s'.headSeq, s'.mem, s'.disk, s')
  {}

  // ---- the theorems are about something ----

  /** There are encodings that meet the assumptions. */
  lemma SomeCodec() returns (c: Codec<bool>)
    ensures Sound(c)
  {
    c := Codec(b => 0, r => if r then [1] else [0], (s: seq<byte>) => if s == [1] then Some(true) else Some(false));
  }

  lemma FirstState<R>(c: Codec<R>, s: Sys<R>, b: Budget<R>)
    requires Init(s)
    ensures var t := AfterRestart(c, s, b);
            && t.up && t.budget == b && t.log == [] && t.rounds == [] && t.headSeq == 0 && !Off(t.mem)
            && t.mem.pending == [] && t.mem.activeBytes == 0 && t.mem.head == 0
            && t.headSeq + |t.rounds| < MAX_SEQ
  {
    hide Open, SpoolInv, FsyncedEnd, DurableHead;
    OpenFresh(c, b);
  }

  /** One staged round in an empty segment can be written, and then synced. */
  lemma WriteAndSyncOne<R(!new)>(c: Codec<R>, segMax: int, s: Sys<R>) returns (t: Sys<R>)
    requires Sound(c) && Inv(c, s) && s.up && !Off(s.mem) && |s.mem.pending| == 1 && s.mem.activeBytes == 0
    ensures Follows(c, segMax, s, [Spool(Write)] + [Spool(Sync)], t)
    ensures t.log == s.log && EverFsynced(c, t) == |s.log|
  {
    hide Inv, Sound, Follows, NextFrame, SpoolInv, DurableHead, FsyncedEnd, End, Synced, Written, Appended;
    RunningParts(c, s);
    SomeFile(c, s.log, s.mem, s.disk, DurableHead(c, s.disk));
    var m, d := Written(c, s.mem), Appended(s.disk, NextFrame(c, s.mem));
    var s1 := s.(mem := m, disk := d);
    FollowsOne(c, segMax, s, Spool(Write));
    StepSafe(c, segMax, s, Spool(Write));
    WrittenIs(c, s.mem, s.disk);
    t := s1.(disk := Synced(d));
    FollowsOne(c, segMax, s1, Spool(Sync));
    FollowsConcat(c, segMax, s, [Spool(Write)], s1, [Spool(Sync)], t);
    RunningParts(c, s1);
    SyncKeeps(c, s.log, m, d, DurableHead(c, d));
    QueueEmpty(c, s.log, m, d, DurableHead(c, d));
    SyncedLast(d);
    EverFsyncedIs(c, t);
  }

  lemma WrittenIs<R>(c: Codec<R>, m: Mem<R>, d: Disk)
    requires |m.pending| == 1 && d.files != []
    ensures Written(c, m).pending == [] && Off(Written(c, m)) == Off(m)
    ensures Appended(d, NextFrame(c, m)).files != []
  {}

  lemma QueueEmpty<R>(c: Codec<R>, log: seq<R>, m: Mem<R>, d: Disk, head: nat)
    requires SpoolInv(c, log, m, d, head) && !Off(m) && m.pending == [] && d.files != []
    ensures End(c, Last(d)) == |log|
  {
    hide DiskOk, Describes, End;
  }

  /** From the first start there is a run after which a measured round is fsynced, for every round, budget
      and segment size: the no-loss theorem is not about an empty set of rounds. */
  lemma SomeRoundIsFsynced<R(!new)>(c: Codec<R>, segMax: int, s: Sys<R>, b: Budget<R>, r: R)
    returns (steps: seq<Step<R>>, t: Sys<R>)
    requires Sound(c) && Init(s)
    ensures Follows(c, segMax, s, steps, t) && t.log == [r] && EverFsynced(c, t) == 1
  {
    hide *;
    InitInv(c, s);
    InitDown(s);
    RestartFollows(c, segMax, s, b);
    RestartAgrees(c, s, b);
    var s1 := AfterRestart(c, s, b);
    FirstState(c, s, b);
    AddIs(c, segMax, s1, r);
    var s2 := AfterPush(AfterMakeRoom(s1, r), r);
    AddedFirst(s1, r);
    t := WriteAndSyncOne(c, segMax, s2);
    var add := [MakeRoom(r)] + [Push(r)];
    FollowsConcat(c, segMax, s, [Restart(b)], s1, add, s2);
    FollowsConcat(c, segMax, s, [Restart(b)] + add, s2, [Spool(Write)] + [Spool(Sync)], t);
    steps := [Restart(b)] + add + ([Spool(Write)] + [Spool(Sync)]);
  }

  lemma InitDown<R>(s: Sys<R>)
    requires Init(s)
    ensures !s.up
  {}

  lemma AddedFirst<R>(s: Sys<R>, r: R)
    requires s.log == [] && s.rounds == [] && s.headSeq == 0 && !Off(s.mem) && s.mem.pending == [] && s.mem.activeBytes == 0 && s.mem.head == 0
    ensures 0 <= AfterMakeRoom(s, r).headSeq + |AfterMakeRoom(s, r).rounds| < MAX_SEQ
    ensures var t := AfterPush(AfterMakeRoom(s, r), r);
            |t.mem.pending| == 1 && t.mem.activeBytes == 0 && !Off(t.mem) && t.up == s.up && t.log == [r]
  {}
}
