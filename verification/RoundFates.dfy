/** Where the fates of the rounds come from: every number the model files under acknowledged, refused or
    evicted was put there by an answer of the hub or by a full buffer, for the round it still stands for. */
module RoundFates {
  import opened Wrappers
  import opened Frames
  import opened Overflow
  import opened SpoolDisk
  import opened SpoolRecovery
  import opened SpoolSteps
  import opened Delivery
  import opened StoreForward

  datatype Fate = Acknowledged | Refused | Evicted

  function Having<R>(s: Sys<R>, fate: Fate): set<int> {
    match fate
    case Acknowledged => s.acked
    case Refused => s.refused
    case Evicted => s.evicted
  }

  /** Round r, numbered i, is in the batch of this push, and some post with it got one of the answers. */
  predicate Answered<R(==)>(s: Sys<R>, step: Step<R>, i: int, r: R, good: bool) {
    && step.Send? && s.flight.Peeked?
    && 0 <= i - s.flight.lo < |s.flight.batch| && s.flight.batch[i - s.flight.lo] == r
    && exists p :: p in SendBatch(step.hub, step.t, s.flight.batch, 0).posts && p.lo <= i - s.flight.lo < p.hi &&
         if good then p.resp == Accepted else p.resp == Malformed || (p.resp == TooLarge && p.hi == p.lo + 1)
  }

  /** Round r, numbered i, is in the buffer, and with it and all that came later there is no room for the new one. */
  predicate InTheWay<R(==)>(s: Sys<R>, step: Step<R>, i: int, r: R) {
    && step.MakeRoom? && 0 <= i - s.headSeq < |s.rounds| && s.rounds[i - s.headSeq] == r
    && var q := s.rounds[i - s.headSeq..];
       |q| >= s.budget.capRounds || Total(s.budget.size, q) + s.budget.size(step.r) > s.budget.maxBytes
  }

  /** Round r, numbered i, is live on disk, and older than the oldest that the restarted buffer has. */
  predicate LeftBehind<R(==)>(c: Codec<R>, s: Sys<R>, step: Step<R>, i: int, r: R) {
    && step.Restart? && 0 <= i < |s.log| && s.log[i] == r
    && DurableHead(c, s.disk) <= i < AfterRestart(c, s, step.b).headSeq
  }

  /** The step gives round r, numbered i, this fate. */
  predicate Causes<R(==)>(c: Codec<R>, s: Sys<R>, step: Step<R>, fate: Fate, i: int, r: R) {
    match fate
    case Acknowledged => Answered(s, step, i, r, true)
    case Refused => Answered(s, step, i, r, false) && !SendBatch(step.hub, step.t, s.flight.batch, 0).failed
    case Evicted => InTheWay(s, step, i, r) || LeftBehind(c, s, step, i, r)
  }

  /** Some step of the run does. */
  ghost predicate Caused<R>(c: Codec<R>, segMax: int, s: Sys<R>, steps: seq<Step<R>>, fate: Fate, i: int, r: R)
    requires Run(c, segMax, s, steps)
    decreases |steps|
  {
    steps != [] && (Causes(c, s, steps[0], fate, i, r) || Caused(c, segMax, After(c, segMax, s, steps[0]), steps[1..], fate, i, r))
  }

  /** Only numbers that were given out have a fate. */
  ghost predicate InLog<R>(s: Sys<R>) {
    forall i :: i in s.acked || i in s.refused || i in s.evicted ==> 0 <= i < |s.log|
  }

  /** In state t, number i has this fate since before, for the same round, or because of the step. */
  predicate Explained<R(==)>(c: Codec<R>, s: Sys<R>, step: Step<R>, t: Sys<R>, fate: Fate, i: int) {
    i in Having(t, fate) ==>
      && 0 <= i < |t.log|
      && ((i in Having(s, fate) && i < |s.log| && s.log[i] == t.log[i]) || Causes(c, s, step, fate, i, t.log[i]))
  }

  lemma SameFates<R>(c: Codec<R>, s: Sys<R>, step: Step<R>, t: Sys<R>, fate: Fate, i: int)
    requires InLog(s) && t.log == s.log && t.acked == s.acked && t.refused == s.refused && t.evicted == s.evicted
    ensures Explained(c, s, step, t, fate, i)
  {
    hide Causes;
  }

  lemma MakeRoomFates<R>(c: Codec<R>, s: Sys<R>, r: R, fate: Fate, i: int)
    requires InLog(s) && BufferPart(s)
    ensures Explained(c, s, MakeRoom(r), AfterMakeRoom(s, r), fate, i)
  {
    hide Total, AdvanceHead;
    var k := Evictions(s.budget, s.rounds, s.budget.size(r));
    if fate == Evicted && s.headSeq <= i < s.headSeq + k {
      assert MustEvict(s.budget, s.rounds[i - s.headSeq..], s.budget.size(r));
      assert InTheWay(s, MakeRoom(r), i, s.log[i]);
    }
  }

  /** The buffer holds the newest rounds of the log. */
  predicate BufferPart<R(==)>(s: Sys<R>) {
    0 <= s.headSeq && s.headSeq + |s.rounds| == |s.log| && s.rounds == s.log[s.headSeq..]
  }

  lemma BufferIs<R>(c: Codec<R>, s: Sys<R>)
    requires Inv(c, s) && s.up
    ensures BufferPart(s)
  {
    hide SpoolInv, DurableHead, AllFatedBelow, FlightOk;
  }

  lemma PushFates<R>(c: Codec<R>, s: Sys<R>, r: R, fate: Fate, i: int)
    requires InLog(s) && BufferPart(s) && s.headSeq + |s.rounds| < MAX_SEQ
    ensures Explained(c, s, Push(r), AfterPush(s, r), fate, i)
  {
    hide Causes, Stage;
  }

  lemma SendFates<R>(c: Codec<R>, s: Sys<R>, hub: Hub<R>, t: nat, fate: Fate, i: int)
    requires InLog(s) && s.flight.Peeked? && FlightOk(s)
    ensures Explained(c, s, Send(hub, t), AfterSend(s, hub, t), fate, i)
  {
    hide SendBatch;
    var lo, batch, posts := s.flight.lo, s.flight.batch, SendBatch(hub, t, s.flight.batch, 0).posts;
    if 0 <= i - lo < |batch| {
      assert batch[i - lo] == s.log[i];
      if fate == Acknowledged && AckedAt(posts, i - lo) {
        var k :| 0 <= k < |posts| && posts[k].lo <= i - lo < posts[k].hi && posts[k].resp == Accepted;
        assert posts[k] in posts;
        assert Answered(s, Send(hub, t), i, s.log[i], true);
      }
      if fate == Refused && RefusedAt(posts, i - lo) {
        var k :| 0 <= k < |posts| && posts[k].lo <= i - lo < posts[k].hi && Final(posts[k]);
        assert posts[k] in posts;
        assert Answered(s, Send(hub, t), i, s.log[i], false);
      }
    }
  }

  lemma RestartLog<R>(c: Codec<R>, s: Sys<R>, b: Budget<R>)
    requires Open(c, b, s.disk).Ok? && AfterRestart(c, s, b).up && Inv(c, AfterRestart(c, s, b))
    ensures var o := Open(c, b, s.disk).value;
            && 0 <= o.head + |o.live| <= |s.log| && AfterRestart(c, s, b).headSeq <= o.head + |o.live|
            && AfterRestart(c, s, b).log == s.log[..o.head + |o.live|]
  {
    hide Open, AdmitAll, AdvanceHead, DurableHead, Inv;
    BufferIs(c, AfterRestart(c, s, b));
  }

  lemma RestartExplained<R>(c: Codec<R>, s: Sys<R>, b: Budget<R>, fate: Fate, i: int)
    requires InLog(s) && Inv(c, s) && !s.up
    ensures Explained(c, s, Restart(b), AfterRestart(c, s, b), fate, i)
  {
    hide Open, AdmitAll, AdvanceHead, DurableHead, Inv;
    RestartKeeps(c, s, b);
    RestartLog(c, s, b);
    DurableHeadAtLeast(c, s);
    if fate == Evicted && DurableHead(c, s.disk) <= i < AfterRestart(c, s, b).headSeq {
      assert LeftBehind(c, s, Restart(b), i, s.log[i]);
    }
  }

  lemma DurableHeadAtLeast<R>(c: Codec<R>, s: Sys<R>)
    requires Inv(c, s)
    ensures 0 <= DurableHead(c, s.disk)
  {
    hide SpoolInv, DiskOk, AllFatedBelow, FlightOk;
  }

  lemma FlightPart<R>(c: Codec<R>, s: Sys<R>)
    requires Inv(c, s) && s.up
    ensures FlightOk(s)
  {
    hide SpoolInv, DiskOk, AllFatedBelow, FlightOk, DurableHead;
  }

  lemma StepFates<R>(c: Codec<R>, segMax: int, s: Sys<R>, step: Step<R>, fate: Fate, i: int)
    requires Inv(c, s) && InLog(s) && CanStep(c, segMax, s, step)
    ensures Explained(c, s, step, After(c, segMax, s, step), fate, i)
  {
    hide Inv, InLog, Explained, AfterMakeRoom, AfterPush, AfterSend, AfterRestart, AfterStep, Enabled, DurableHead, Truncated, Meta, MustEvict;
    if s.up { BufferIs(c, s); FlightPart(c, s); }
    match step {
      case MakeRoom(r) => MakeRoomFates(c, s, r, fate, i);
      case Push(r) => PushFates(c, s, r, fate, i);
      case Send(hub, t) => SendFates(c, s, hub, t, fate, i);
      case Restart(b) => RestartExplained(c, s, b, fate, i);
      case _ => SameFates(c, s, step, After(c, segMax, s, step), fate, i);
    }
  }

  lemma StepInLog<R>(c: Codec<R>, segMax: int, s: Sys<R>, step: Step<R>)
    requires Inv(c, s) && InLog(s) && CanStep(c, segMax, s, step)
    ensures InLog(After(c, segMax, s, step))
  {
    hide Inv, CanStep, After, Causes;
    var t := After(c, segMax, s, step);
    forall i | i in t.acked || i in t.refused || i in t.evicted
      ensures 0 <= i < |t.log|
    {
      StepFates(c, segMax, s, step, Acknowledged, i);
      StepFates(c, segMax, s, step, Refused, i);
      StepFates(c, segMax, s, step, Evicted, i);
    }
  }

  lemma {:induction false} RunFates<R(!new)>(c: Codec<R>, segMax: int, s: Sys<R>, steps: seq<Step<R>>, fate: Fate, i: int)
    requires Sound(c) && Inv(c, s) && InLog(s) && Run(c, segMax, s, steps)
    requires i in Having(RunEnd(c, segMax, s, steps), fate)
    ensures var end := RunEnd(c, segMax, s, steps);
            && 0 <= i < |end.log|
            && ((i in Having(s, fate) && i < |s.log| && s.log[i] == end.log[i]) || Caused(c, segMax, s, steps, fate, i, end.log[i]))
    decreases |steps|
  {
    hide Inv, Sound, CanStep, After, Causes, Having, InLog;
    if steps == [] {
      HavingInLog(s, fate, i);
    } else {
      var t := After(c, segMax, s, steps[0]);
      StepSafe(c, segMax, s, steps[0]);
      StepInLog(c, segMax, s, steps[0]);
      RunFates(c, segMax, t, steps[1..], fate, i);
      StepFates(c, segMax, s, steps[0], fate, i);
    }
  }

  lemma HavingInLog<R>(s: Sys<R>, fate: Fate, i: int)
    requires InLog(s) && i in Having(s, fate)
    ensures 0 <= i < |s.log|
  {}

  /** From the first start, over any run: a number that is filed as acknowledged, refused or evicted stands for a
      round, and some step of the run had the hub accept a post with just that round, or refuse one for good in a
      push without a transient failure, or found no room for a new round beside it and all later ones, or
      restarted with a buffer that begins behind it. */
  lemma FatesHaveCauses<R(!new)>(c: Codec<R>, segMax: int, s: Sys<R>, steps: seq<Step<R>>, fate: Fate, i: int)
    requires Sound(c) && Init(s) && Run(c, segMax, s, steps)
    requires i in Having(RunEnd(c, segMax, s, steps), fate)
    ensures 0 <= i < |RunEnd(c, segMax, s, steps).log|
    ensures Caused(c, segMax, s, steps, fate, i, RunEnd(c, segMax, s, steps).log[i])
  {
    hide Inv, Sound, Run, RunEnd, Caused;
    InitInv(c, s);
    RunFates(c, segMax, s, steps, fate, i);
  }
}
