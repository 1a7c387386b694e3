/** The planner of the scheduler: phase-aligned firing times on each target's own cadence. Times and
    steps are integers (nanoseconds); a time may lie before the epoch. */
module Planning {

  datatype Job = Job(name: string, step: int)

  // ---- the grid ----

  /** Go's remainder: the sign of the dividend. */
  function GoRem(a: int, b: int): int
    requires b > 0
  {
    if a >= 0 then a % b else -((-a) % b)
  }

  /** The least multiple of step strictly after now, on the grid shifted by offset. */
  predicate LeastAfter(now: int, step: int, offset: int, p: int)
    requires step > 0
  {
    now < p <= now + step && (p - offset) % step == 0
  }

  /** NextDelay: the delay to the next grid point. */
  function NextDelay(now: int, step: int, offset: int): (d: int)
    ensures step <= 0 ==> d == 0
    ensures step > 0 ==> LeastAfter(now, step, offset, now + d)
  {
    if step <= 0 then 0
    else
      var m := GoRem(now - offset, step);
      var m' := if m < 0 then m + step else m;
      DelayLands(now - offset, step);
      step - m'
  }

  lemma DelayLands(n: int, step: int)
    requires step > 0
    ensures var m := GoRem(n, step);
            var m' := if m < 0 then m + step else m;
            0 <= m' < step && (n + (step - m')) % step == 0
  {
    var m := GoRem(n, step);
    if n >= 0 {
      Multiple(n / step + 1, step);
      assert n + (step - m) == (n / step + 1) * step;
    } else {
      var q, r := (-n) / step, (-n) % step;
      assert -n == q * step + r;
      if r == 0 {
        Multiple(1 - q, step);
        assert n + (step - 0) == (1 - q) * step;
      } else {
        Multiple(-q, step);
        assert n + (step - (step - r)) == -q * step;
      }
    }
  }

  lemma Multiple(k: int, step: int)
    requires step > 0
    ensures (k * step) % step == 0
  {
    assert (k * step) / step == k by { DivMultiple(k, step); }
  }

  lemma DivMultiple(k: int, step: int)
    requires step > 0
    ensures (k * step) / step == k
  {
    var q, r := (k * step) / step, (k * step) % step;
    assert k * step == q * step + r && 0 <= r < step;
    assert (k - q) * step == r;
    MulBounds(k - q, step);
  }

  lemma MulBounds(a: int, step: int)
    requires step > 0
    ensures a >= 1 ==> a * step >= step
    ensures a <= -1 ==> a * step <= -step
  {}

  /** The grid point after now, and the number of grid points up to now. */
  lemma LeastAfterIs(now: int, step: int, p: int)
    requires step > 0
    ensures LeastAfter(now, step, 0, p) <==> p == (now / step + 1) * step
  {
    var q, r, k := now / step, now % step, p / step;
    assert now == q * step + r && 0 <= r < step;
    Multiple(q + 1, step);
    Expand(q, step);
    assert p == k * step + p % step;
    MulLess(q, k, step);
    MulLess(k, q + 2, step);
  }

  lemma Expand(q: int, step: int)
    ensures (q + 1) * step == q * step + step && (q + 2) * step == q * step + step + step
  {}

  lemma MulLess(a: int, b: int, step: int)
    requires step > 0
    ensures a * step < b * step <==> a < b
  {
    MulBounds(b - a, step);
    assert (b - a) * step == b * step - a * step;
  }

  // ---- one tick ----

  datatype Plan = Plan(next: map<string, int>, step: map<string, int>)

  const NO_PLAN := Plan(map[], map[])

  /** The job is new, its cadence changed, or its time has come. */
  predicate Due(p: Plan, j: Job, now: int) {
    || j.name !in p.next
    || (j.name in p.step && p.step[j.name] != j.step)
    || p.next[j.name] <= now
  }

  function Rearmed(p: Plan, j: Job, now: int): Plan {
    Plan(if Due(p, j, now) then p.next[j.name := now + NextDelay(now, j.step, 0)] else p.next, p.step[j.name := j.step])
  }

  function Reconciled(p: Plan, jobs: seq<Job>, now: int): (Plan, seq<Job>)
    decreases |jobs|
  {
    if |jobs| == 0 then (p, [])
    else
      var (q, due) := Reconciled(p, jobs[..|jobs| - 1], now);
      var j := jobs[|jobs| - 1];
      (Rearmed(q, j, now), if Due(q, j, now) then due + [j] else due)
  }

  function Names(jobs: seq<Job>): set<string> { set j | j in jobs :: j.name }

  function Only(m: map<string, int>, names: set<string>): map<string, int> { map n | n in m && n in names :: m[n] }

  function Ticked(p: Plan, jobs: seq<Job>, now: int): (Plan, seq<Job>) {
    var (q, due) := Reconciled(p, jobs, now);
    (Plan(Only(q.next, Names(jobs)), Only(q.step, Names(jobs))), due)
  }

  class Planner {
    var next: map<string, int>
    var step: map<string, int>

    constructor ()
      ensures P() == NO_PLAN
    {
      next, step := map[], map[];
    }

    function P(): Plan
      reads this
    {
      Plan(next, step)
    }

    /** The reconciling loop of Tick. */
    method Reconcile(jobs: seq<Job>, now: int) returns (due: seq<Job>, seen: set<string>)
      modifies this
      ensures (P(), due) == Reconciled(old(P()), jobs, now)
      ensures seen == Names(jobs)
    {
      hide NextDelay;
      due, seen := [], {};
      for i := 0 to |jobs|
        invariant (P(), due) == Reconciled(old(P()), jobs[..i], now)
        invariant seen == Names(jobs[..i])
      {
        var j := jobs[i];
        assert jobs[..i + 1][..i] == jobs[..i];
        NamesNext(jobs, i);
        seen := seen + {j.name};
        var was := next;
        if j.name in step && step[j.name] != j.step {
          next := next - {j.name};
        }
        step := step[j.name := j.step];
        if j.name !in next || next[j.name] <= now {
          due := due + [j];
          next := next[j.name := now + NextDelay(now, j.step, 0)];
          assert next == was[j.name := now + NextDelay(now, j.step, 0)];
        }
      }
      assert jobs[..|jobs|] == jobs;
    }

    /** Tick: the jobs due now, each moved to its next grid point, and how long to sleep. */
    method Tick(jobs: seq<Job>, now: int, maxSleep: int) returns (due: seq<Job>, sleep: int)
      modifies this
      ensures (P(), due) == Ticked(old(P()), jobs, now)
      ensures SleepOk(next, now, maxSleep, sleep)
    {
      hide Reconciled;
      var seen;
      due, seen := Reconcile(jobs, now);
      Forget(seen);
      sleep := SleepToNext(now, maxSleep);
    }

    /** Targets no longer present are forgotten. */
    method Forget(seen: set<string>)
      modifies this
      ensures next == Only(old(next), seen) && step == Only(old(step), seen)
    {
      var todo := next.Keys;
      while todo != {}
        invariant todo <= old(next).Keys && step == old(step)
        invariant next == map n | n in old(next) && (n in seen || n in todo) :: old(next)[n]
      {
        var n :| n in todo;
        todo := todo - {n};
        if n !in seen { next := next - {n}; }
      }
      todo := step.Keys;
      while todo != {}
        invariant todo <= old(step).Keys && next == Only(old(next), seen)
        invariant step == map n | n in old(step) && (n in seen || n in todo) :: old(step)[n]
      {
        var n :| n in todo;
        todo := todo - {n};
        if n !in seen { step := step - {n}; }
      }
    }

    /** SleepToNext: until the earliest firing, at most maxSleep, never negative. */
    method SleepToNext(now: int, maxSleep: int) returns (sleep: int)
      ensures SleepOk(next, now, maxSleep, sleep)
    {
      sleep := maxSleep;
      var todo := next.Keys;
      while todo != {}
        invariant todo <= next.Keys
        invariant sleep <= maxSleep && forall n :: n in next && n !in todo ==> sleep <= next[n] - now
        invariant sleep == maxSleep || exists n :: n in next && sleep == next[n] - now
      {
        var n :| n in todo;
        todo := todo - {n};
        if next[n] - now < sleep { sleep := next[n] - now; }
      }
      if sleep < 0 { sleep := 0; }
    }
  }

  /** The longest sleep within maxSleep that oversleeps no firing. */
  ghost predicate SleepOk(next: map<string, int>, now: int, maxSleep: int, sleep: int) {
    && sleep >= 0
    && (sleep > 0 ==> sleep <= maxSleep && forall n :: n in next ==> now + sleep <= next[n])
    && (sleep < maxSleep ==> exists n :: n in next && next[n] <= now + sleep)
  }

  lemma NamesNext(jobs: seq<Job>, i: nat)
    requires i < |jobs|
    ensures Names(jobs[..i + 1]) == Names(jobs[..i]) + {jobs[i].name}
  {
    assert jobs[..i + 1] == jobs[..i] + [jobs[i]];
  }

  // ---- a tick, seen by one target ----

  predicate DistinctNames(jobs: seq<Job>) { forall i, k :: 0 <= i < k < |jobs| ==> jobs[i].name != jobs[k].name }

  lemma DistinctNamesInit(jobs: seq<Job>)
    requires DistinctNames(jobs) && |jobs| > 0
    ensures DistinctNames(jobs[..|jobs| - 1])
    ensures forall j :: j in jobs[..|jobs| - 1] ==> j.name != jobs[|jobs| - 1].name
  {}

  /** The plan's entries for one name. */
  predicate SameEntry(p: Plan, q: Plan, n: string) {
    && (n in p.next <==> n in q.next) && (n in p.next ==> p.next[n] == q.next[n])
    && (n in p.step <==> n in q.step) && (n in p.step ==> p.step[n] == q.step[n])
  }

  lemma DueByEntry(p: Plan, q: Plan, j: Job, now: int)
    requires SameEntry(p, q, j.name)
    ensures Due(p, j, now) <==> Due(q, j, now)
  {}

  lemma {:induction false} ReconciledOthers(p: Plan, jobs: seq<Job>, now: int, n: string)
    requires forall j :: j in jobs ==> j.name != n
    ensures SameEntry(p, Reconciled(p, jobs, now).0, n)
    ensures forall j :: j in Reconciled(p, jobs, now).1 ==> j.name != n
    decreases |jobs|
  {
    hide Due, NextDelay;
    if |jobs| > 0 {
      ReconciledOthers(p, jobs[..|jobs| - 1], now, n);
    }
  }

  lemma {:induction false} ReconciledJob(p: Plan, jobs: seq<Job>, now: int, j: Job)
    requires DistinctNames(jobs) && j in jobs
    ensures var (q, due) := Reconciled(p, jobs, now);
            (j in due <==> Due(p, j, now)) && SameEntry(q, Rearmed(p, j, now), j.name)
    decreases |jobs|
  {
    hide Due, NextDelay, DistinctNames;
    var init, last := jobs[..|jobs| - 1], jobs[|jobs| - 1];
    DistinctNamesInit(jobs);
    if last == j {
      ReconciledOthers(p, init, now, j.name);
      DueByEntry(p, Reconciled(p, init, now).0, j, now);
    } else {
      assert j in init;
      ReconciledJob(p, init, now, j);
    }
  }

  /** A tick decides about a job from that job's own entry. */
  lemma TickedJob(p: Plan, jobs: seq<Job>, now: int, j: Job)
    requires DistinctNames(jobs) && j in jobs
    ensures var (q, due) := Ticked(p, jobs, now);
            (j in due <==> Due(p, j, now)) && SameEntry(q, Rearmed(p, j, now), j.name)
  {
    hide Reconciled, Rearmed, Due, DistinctNames;
    ReconciledJob(p, jobs, now, j);
    assert j.name in Names(jobs);
  }

  /** The due jobs stand in the order of the jobs, each at its own place in the list. */
  lemma {:induction false} DueInOrder(p: Plan, jobs: seq<Job>, now: int) returns (at: seq<nat>)
    ensures var due := Ticked(p, jobs, now).1;
            && |at| == |due|
            && (forall i :: 0 <= i < |due| ==> at[i] < |jobs| && jobs[at[i]] == due[i])
            && (forall i, k :: 0 <= i < k < |at| ==> at[i] < at[k])
            && (DistinctNames(jobs) ==> forall i, k :: 0 <= i < k < |due| ==> due[i].name != due[k].name)
    decreases |jobs|
  {
    hide Due, NextDelay, Rearmed, DistinctNames;
    at := DuePlaces(p, jobs, now);
    if DistinctNames(jobs) {
      var due := Reconciled(p, jobs, now).1;
      forall i, k | 0 <= i < k < |due|
        ensures due[i].name != due[k].name
      {
        OtherPlaces(jobs, at[i], at[k]);
      }
    }
  }

  lemma OtherPlaces(jobs: seq<Job>, i: nat, k: nat)
    requires DistinctNames(jobs) && i < k < |jobs|
    ensures jobs[i].name != jobs[k].name
  {}

  lemma {:induction false} DuePlaces(p: Plan, jobs: seq<Job>, now: int) returns (at: seq<nat>)
    ensures var due := Reconciled(p, jobs, now).1;
            && |at| == |due|
            && (forall i :: 0 <= i < |due| ==> at[i] < |jobs| && jobs[at[i]] == due[i])
            && (forall i, k :: 0 <= i < k < |at| ==> at[i] < at[k])
    decreases |jobs|
  {
    hide Due, NextDelay, Rearmed;
    if |jobs| == 0 {
      at := [];
    } else {
      var n := |jobs| - 1;
      at := DuePlaces(p, jobs[..n], now);
      if Due(Reconciled(p, jobs[..n], now).0, jobs[n], now) { at := at + [n]; }
    }
  }

  /** A target no longer present is forgotten, so it fires at once when it comes back. */
  lemma TickedGone(p: Plan, jobs: seq<Job>, now: int, n: string)
    requires n !in Names(jobs)
    ensures n !in Ticked(p, jobs, now).0.next && n !in Ticked(p, jobs, now).0.step
  {
    hide Reconciled;
  }

  // ---- runs of ticks ----

  datatype Turn = Turn(jobs: seq<Job>, now: int)

  /** The plan after some ticks. */
  function RunFrom(p: Plan, turns: seq<Turn>): Plan
    decreases |turns|
  {
    if |turns| == 0 then p else Ticked(RunFrom(p, turns[..|turns| - 1]), turns[|turns| - 1].jobs, turns[|turns| - 1].now).0
  }

  /** The target is new to the planner, or its cadence is about to change. */
  predicate Joins(p: Plan, j: Job) { j.name !in p.next || (j.name in p.step && p.step[j.name] != j.step) }

  /** Whatever the planner did before, a target joins unless the tick before already listed it with this
      step. */
  lemma JoinsAfter(before: seq<Turn>, j: Job)
    requires |before| > 0 ==> DistinctNames(before[|before| - 1].jobs) && j !in before[|before| - 1].jobs
    ensures Joins(RunFrom(NO_PLAN, before), j)
  {
    hide Ticked, DistinctNames, NextDelay;
    if |before| > 0 {
      var p, t := RunFrom(NO_PLAN, before[..|before| - 1]), before[|before| - 1];
      if j.name in Names(t.jobs) {
        var other :| other in t.jobs && other.name == j.name;
        TickedJob(p, t.jobs, t.now, other);
      } else {
        TickedGone(p, t.jobs, t.now, j.name);
      }
    }
  }

  /** Present with this step at every one of these ticks, among distinct names, at times that never go
      back. */
  ghost predicate Steady(turns: seq<Turn>, j: Job) {
    && (forall i :: 0 <= i < |turns| ==> DistinctNames(turns[i].jobs) && j in turns[i].jobs)
    && forall i, k :: 0 <= i < k < |turns| ==> turns[i].now <= turns[k].now
  }

  lemma SteadyInit(turns: seq<Turn>, j: Job)
    requires Steady(turns, j) && |turns| > 0
    ensures Steady(turns[..|turns| - 1], j)
    ensures var t := turns[|turns| - 1]; DistinctNames(t.jobs) && j in t.jobs
    ensures |turns| > 1 ==> turns[|turns| - 2].now <= turns[|turns| - 1].now
  {}

  /** The target's entry after a tick at this time. */
  predicate OnGrid(p: Plan, j: Job, now: int)
    requires j.step > 0
  {
    j.name in p.next && LeastAfter(now, j.step, 0, p.next[j.name]) && j.name in p.step && p.step[j.name] == j.step
  }

  /** The grid point after `was` is still ahead at `now` exactly when no grid point was passed. */
  lemma GridPassed(was: int, now: int, step: int, p: int)
    requires step > 0 && was <= now && LeastAfter(was, step, 0, p)
    ensures p <= now <==> now / step > was / step
    ensures p > now ==> LeastAfter(now, step, 0, p)
  {
    hide LeastAfter;
    LeastAfterIs(was, step, p);
    LeastAfterIs(now, step, p);
    DivAtLeast(was / step + 1, now, step);
    DivMonotone(was, now, step);
  }

  /** A grid point lies at or before n exactly if its number is at most n / step. */
  lemma DivAtLeast(a: int, n: int, step: int)
    requires step > 0
    ensures a * step <= n <==> a <= n / step
  {
    var k := n / step;
    DivBounds(n, step);
    MulLess(k + 1, a, step);
    MulLess(a, k + 1, step);
    MulLess(k, a, step);
  }

  lemma DivBounds(n: int, step: int)
    requires step > 0
    ensures n / step * step <= n < (n / step + 1) * step
  {
    assert n == n / step * step + n % step;
    Expand(n / step, step);
  }

  lemma DivMonotone(a: int, b: int, step: int)
    requires step > 0 && a <= b
    ensures a / step <= b / step
  {
    DivBounds(a, step);
    DivAtLeast(a / step, b, step);
  }

  /** From the tick at which a target joins, whatever the planner did before: after every tick its next
      firing is the least grid point strictly after it. */
  lemma {:induction false} PlanOnGrid(p0: Plan, turns: seq<Turn>, j: Job)
    requires Joins(p0, j) && Steady(turns, j) && j.step > 0 && |turns| > 0
    ensures OnGrid(RunFrom(p0, turns), j, turns[|turns| - 1].now)
    decreases |turns|
  {
    hide Ticked, DistinctNames, Steady, NextDelay;
    var n := |turns| - 1;
    SteadyInit(turns, j);
    var p := RunFrom(p0, turns[..n]);
    TickedJob(p, turns[n].jobs, turns[n].now, j);
    if n > 0 {
      PlanOnGrid(p0, turns[..n], j);
      GridPassed(turns[n - 1].now, turns[n].now, j.step, p.next[j.name]);
    }
  }

  /** Whether the job is due at the last tick of a run. */
  predicate DueAtLast(p0: Plan, turns: seq<Turn>, j: Job)
    requires |turns| > 0
  {
    var t := turns[|turns| - 1];
    j in Ticked(RunFrom(p0, turns[..|turns| - 1]), t.jobs, t.now).1
  }

  /** A target present since its first tick with a constant positive step is due exactly at its first
      tick and at every tick that a grid point separates from the one before, whatever plan it joins. */
  lemma DueIffGridPassed(p0: Plan, turns: seq<Turn>, j: Job)
    requires Joins(p0, j) && Steady(turns, j) && j.step > 0 && |turns| > 0
    ensures DueAtLast(p0, turns, j) <==>
            |turns| == 1 || turns[|turns| - 1].now / j.step > turns[|turns| - 2].now / j.step
  {
    hide Ticked, DistinctNames, Steady, NextDelay;
    var n := |turns| - 1;
    SteadyInit(turns, j);
    var p := RunFrom(p0, turns[..n]);
    TickedJob(p, turns[n].jobs, turns[n].now, j);
    if n > 0 {
      PlanOnGrid(p0, turns[..n], j);
      GridPassed(turns[n - 1].now, turns[n].now, j.step, p.next[j.name]);
    }
  }

  /** A changed cadence takes effect at once: the target is due, and the new grid counts from now. */
  lemma ChangedStepRearms(p: Plan, jobs: seq<Job>, now: int, j: Job)
    requires DistinctNames(jobs) && j in jobs && j.step > 0
    requires j.name in p.step && p.step[j.name] != j.step
    ensures j in Ticked(p, jobs, now).1 && OnGrid(Ticked(p, jobs, now).0, j, now)
  {
    hide Ticked, DistinctNames, NextDelay;
    TickedJob(p, jobs, now, j);
  }

  /** A job without a positive step is due at every tick since it joined. */
  lemma {:induction false} NoStepAlwaysDue(p0: Plan, turns: seq<Turn>, j: Job)
    requires Joins(p0, j) && Steady(turns, j) && j.step <= 0 && |turns| > 0
    ensures DueAtLast(p0, turns, j)
    ensures j.name in RunFrom(p0, turns).next && RunFrom(p0, turns).next[j.name] <= turns[|turns| - 1].now
    decreases |turns|
  {
    hide Ticked, DistinctNames, Steady, NextDelay;
    var n := |turns| - 1;
    SteadyInit(turns, j);
    TickedJob(RunFrom(p0, turns[..n]), turns[n].jobs, turns[n].now, j);
    if n > 0 {
      NoStepAlwaysDue(p0, turns[..n], j);
    }
  }

  /** Sleeping as long as SleepToNext says, at any time after a tick, passes no grid point of a steady
      target without stopping at it. */
  lemma SleepPassesNoGridPoint(p0: Plan, turns: seq<Turn>, j: Job, now: int, maxSleep: int, sleep: int, p: int)
    requires Joins(p0, j) && Steady(turns, j) && j.step > 0 && |turns| > 0 && turns[|turns| - 1].now <= now
    requires SleepOk(RunFrom(p0, turns).next, now, maxSleep, sleep)
    requires p % j.step == 0 && now < p
    ensures now + sleep <= p
  {
    hide Ticked, DistinctNames, Steady, RunFrom;
    PlanOnGrid(p0, turns, j);
    var was, next := turns[|turns| - 1].now, RunFrom(p0, turns).next[j.name];
    if sleep > 0 {
      assert now + sleep <= next;
      NextIsFirst(was, j.step, next, p);
    }
  }

  lemma NextIsFirst(was: int, step: int, next: int, p: int)
    requires step > 0 && LeastAfter(was, step, 0, next) && was < p && p % step == 0
    ensures next <= p
  {
    hide LeastAfter;
    LeastAfterIs(was, step, next);
    OnPoint(p, step);
    DivAtLeast(p / step, was, step);
    MulLess(p / step, was / step + 1, step);
  }

  lemma OnPoint(p: int, step: int)
    requires step > 0 && p % step == 0
    ensures p == p / step * step
  {}
}
