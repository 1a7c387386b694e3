/** The dispatcher of the scheduler: due jobs on a shared worker pool, as a protocol over the steps its
    goroutines can take in any order. */
module Dispatching {
  import opened Sequences

  /** Where the goroutine of an accepted job is. */
  datatype Phase = Queued | Probing | Probed | Calling | Called | Done

  /** An accepted job: its dedup key and the Go call that accepted it. Tasks stand in acceptance order. */
  datatype Task = Task(key: string, batch: nat, phase: Phase)

  /** Callbacks: onEach of task i starts and ends, onBatch of batch b is called. */
  datatype Call = Start(i: nat) | End(i: nat) | Report(b: nat)

  datatype State = State(
    workers: nat,
    inflight: set<string>,
    held: nat,            // worker slots taken
    tasks: seq<Task>,
    reported: seq<bool>,  // per batch: onBatch was called
    trace: seq<Call>)     // all callbacks so far, in order

  datatype Step =
    | Go(keys: seq<string>)
    | Acquire(i: nat)
    | Release(i: nat)
    | StartCall(i: nat)
    | EndCall(i: nat)
    | Free(i: nat)
    | ReportBatch(b: nat)

  /** NewDispatcher. */
  function New(workers: int): State { State(if workers <= 0 then 1 else workers, {}, 0, [], [], []) }

  // ---- accepting jobs ----

  /** The jobs of one Go call that are not in flight yet, each key once, in order. */
  function Accepted(inflight: set<string>, keys: seq<string>): (set<string>, seq<string>)
    decreases |keys|
  {
    if |keys| == 0 then (inflight, [])
    else
      var (f, run) := Accepted(inflight, keys[..|keys| - 1]);
      var k := keys[|keys| - 1];
      if k in f then (f, run) else (f + {k}, run + [k])
  }

  lemma {:induction false} AcceptedIs(inflight: set<string>, keys: seq<string>)
    ensures var (f, run) := Accepted(inflight, keys);
            && NoRepeats(run)
            && (forall k :: k in run ==> k !in inflight && k in keys)
            && (forall k :: k in f <==> k in inflight || k in run)
            && (forall k :: k in keys ==> k in f)
    decreases |keys|
  {
    if |keys| > 0 {
      AcceptedIs(inflight, keys[..|keys| - 1]);
      assert forall k :: k in keys ==> k in keys[..|keys| - 1] || k == keys[|keys| - 1];
    }
  }

  /** Accepted key number a stands at i for the first time, with exactly the keys accepted before it in front. */
  predicate FirstAt(inflight: set<string>, keys: seq<string>, run: seq<string>, a: int, i: int) {
    && 0 <= a < |run| && 0 <= i < |keys| && keys[i] == run[a] && run[a] !in keys[..i]
    && forall k :: k in keys[..i] ==> k in inflight || k in run[..a]
  }

  predicate StandsFirst(inflight: set<string>, keys: seq<string>, run: seq<string>, a: int) {
    exists i :: 0 <= i < |keys| && FirstAt(inflight, keys, run, a, i)
  }

  /** The accepted keys come in the order in which the call names them for the first time. */
  lemma {:induction false} AcceptedInOrder(inflight: set<string>, keys: seq<string>)
    ensures var run := Accepted(inflight, keys).1;
            forall a :: 0 <= a < |run| ==> StandsFirst(inflight, keys, run, a)
    decreases |keys|
  {
    if |keys| > 0 {
      var init, k := keys[..|keys| - 1], keys[|keys| - 1];
      var was, run := Accepted(inflight, init).1, Accepted(inflight, keys).1;
      AcceptedInOrder(inflight, init);
      AcceptedIs(inflight, init);
      forall a | 0 <= a < |run|
        ensures StandsFirst(inflight, keys, run, a)
      {
        if a < |was| {
          assert StandsFirst(inflight, init, was, a);
          var i :| 0 <= i < |init| && FirstAt(inflight, init, was, a, i);
          assert keys[..i] == init[..i] && run[..a] == was[..a];
          assert FirstAt(inflight, keys, run, a, i);
        } else {
          assert run[..a] == was;
          assert FirstAt(inflight, keys, run, a, |init|);
        }
      }
    }
  }

  class Dispatcher {
    const workers: nat
    var inflight: set<string>

    constructor (workers: int)
      ensures this.workers == (if workers <= 0 then 1 else workers) && inflight == {}
    {
      this.workers := if workers <= 0 then 1 else workers;
      inflight := {};
    }

    /** The locked part of Go: which of the jobs run. */
    method Accept(keys: seq<string>) returns (run: seq<string>)
      modifies this
      ensures (inflight, run) == Accepted(old(inflight), keys)
    {
      run := [];
      for i := 0 to |keys|
        invariant (inflight, run) == Accepted(old(inflight), keys[..i])
      {
        assert keys[..i + 1][..i] == keys[..i];
        if keys[i] in inflight { continue; }
        inflight := inflight + {keys[i]};
        run := run + [keys[i]];
      }
      assert keys[..|keys|] == keys;
    }

    /** The end of a job's goroutine. */
    method Forget(key: string)
      modifies this
      ensures inflight == old(inflight) - {key}
    {
      inflight := inflight - {key};
    }
  }

  function NewTasks(keys: seq<string>, batch: nat): (ts: seq<Task>)
    ensures |ts| == |keys|
    ensures forall i :: 0 <= i < |keys| ==> ts[i] == Task(keys[i], batch, Queued)
  {
    seq(|keys|, i requires 0 <= i < |keys| => Task(keys[i], batch, Queued))
  }

  // ---- the steps ----

  predicate At(s: State, i: nat, phase: Phase) { i < |s.tasks| && s.tasks[i].phase == phase }

  predicate BatchDone(s: State, b: nat) { forall i :: 0 <= i < |s.tasks| && s.tasks[i].batch == b ==> s.tasks[i].phase == Done }

  predicate CanStep(s: State, step: Step) {
    match step
    case Go(keys) => true
    case Acquire(i) => At(s, i, Queued) && s.held < s.workers
    case Release(i) => At(s, i, Probing)
    case StartCall(i) => At(s, i, Probed)
    case EndCall(i) => At(s, i, Calling)
    case Free(i) => At(s, i, Called)
    case ReportBatch(b) => b < |s.reported| && !s.reported[b] && BatchDone(s, b)
  }

  function Move(s: State, i: nat, phase: Phase): State
    requires i < |s.tasks|
  {
    s.(tasks := s.tasks[i := s.tasks[i].(phase := phase)])
  }

  function After(s: State, step: Step): State
    requires CanStep(s, step)
  {
    match step
    case Go(keys) =>
      var (f, run) := Accepted(s.inflight, keys);
      if run == [] then s
      else s.(inflight := f, tasks := s.tasks + NewTasks(run, |s.reported|), reported := s.reported + [false])
    case Acquire(i) => Move(s, i, Probing).(held := s.held + 1)
    case Release(i) => Move(s, i, Probed).(held := if s.held > 0 then s.held - 1 else 0)
    case StartCall(i) => Move(s, i, Calling).(trace := s.trace + [Start(i)])
    case EndCall(i) => Move(s, i, Called).(trace := s.trace + [End(i)])
    case Free(i) => Move(s, i, Done).(inflight := s.inflight - {s.tasks[i].key})
    case ReportBatch(b) => s.(reported := s.reported[b := true], trace := s.trace + [Report(b)])
  }

  // ---- what every step keeps ----

  function Probes(tasks: seq<Task>): nat
    decreases |tasks|
  {
    if |tasks| == 0 then 0
    else Probes(tasks[..|tasks| - 1]) + if tasks[|tasks| - 1].phase == Probing then 1 else 0
  }

  ghost predicate Alive(s: State, k: string) { exists i :: 0 <= i < |s.tasks| && s.tasks[i].key == k && s.tasks[i].phase != Done }

  /** The in-flight set is the keys of the accepted, unreleased jobs. */
  ghost predicate InflightOk(s: State) { forall k :: k in s.inflight <==> Alive(s, k) }

  /** One unreleased job per key, and that is its newest. */
  predicate OnePerKey(s: State) {
    forall i, j :: 0 <= i < j < |s.tasks| && s.tasks[i].key == s.tasks[j].key ==> s.tasks[i].phase == Done
  }

  /** The probes running hold the slots taken, and these are no more than the workers. */
  predicate SlotsOk(s: State) { s.held == Probes(s.tasks) <= s.workers && s.workers >= 1 }

  predicate BatchesOk(s: State) {
    && (forall i :: 0 <= i < |s.tasks| ==> s.tasks[i].batch < |s.reported|)
    && forall b :: 0 <= b < |s.reported| && s.reported[b] ==> BatchDone(s, b)
  }

  predicate HasStarted(s: State, i: int) {
    0 <= i < |s.tasks| && (s.tasks[i].phase == Calling || s.tasks[i].phase == Called || s.tasks[i].phase == Done)
  }

  predicate HasEnded(s: State, i: int) { 0 <= i < |s.tasks| && (s.tasks[i].phase == Called || s.tasks[i].phase == Done) }

  predicate HasReported(s: State, b: int) { 0 <= b < |s.reported| && s.reported[b] }

  /** The trace holds the callbacks made so far. */
  ghost predicate TraceIs(s: State) {
    && (forall i: nat :: Start(i) in s.trace <==> HasStarted(s, i))
    && (forall i: nat :: End(i) in s.trace <==> HasEnded(s, i))
    && (forall b: nat :: Report(b) in s.trace <==> HasReported(s, b))
  }

  predicate Before(trace: seq<Call>, e: Call, q: int) { 0 <= q <= |trace| && e in trace[..q] }

  function KeyAt(s: State, i: nat): string { if i < |s.tasks| then s.tasks[i].key else "" }

  /** Position q of the trace is in order: the callback of a job starts after those of all earlier jobs
      of the same target ended and before any of a later one started; it ends after it started; a batch
      is reported after all its jobs' callbacks ended. */
  ghost predicate InOrder(s: State, q: nat)
    requires q < |s.trace|
  {
    match s.trace[q]
    case Start(j) =>
      forall i: nat :: i < |s.tasks| && i != j && KeyAt(s, i) == KeyAt(s, j) && Before(s.trace, Start(i), q) ==>
        i < j && Before(s.trace, End(i), q)
    case End(j) => Before(s.trace, Start(j), q)
    case Report(b) =>
      forall i: nat :: i < |s.tasks| && s.tasks[i].batch == b ==> Before(s.trace, End(i), q)
  }

  ghost predicate Ordered(s: State) { forall q :: 0 <= q < |s.trace| ==> InOrder(s, q) }

  ghost predicate Inv(s: State) {
    InflightOk(s) && OnePerKey(s) && SlotsOk(s) && BatchesOk(s) && TraceIs(s) && Ordered(s)
  }

  lemma NewInv(workers: int)
    ensures Inv(New(workers))
  {}

  // ---- moving one task along ----

  lemma {:induction false} ProbesMove(tasks: seq<Task>, i: nat, t: Task)
    requires i < |tasks|
    ensures Probes(tasks[i := t]) ==
            Probes(tasks) - (if tasks[i].phase == Probing then 1 else 0) + (if t.phase == Probing then 1 else 0)
    decreases |tasks|
  {
    var n := |tasks| - 1;
    if i < n {
      ProbesMove(tasks[..n], i, t);
      assert tasks[i := t][..n] == tasks[..n][i := t];
    } else {
      assert tasks[i := t][..n] == tasks[..n];
    }
  }

  lemma {:induction false} ProbesConcat(a: seq<Task>, b: seq<Task>)
    requires forall t :: t in b ==> t.phase != Probing
    ensures Probes(a + b) == Probes(a)
    decreases |b|
  {
    if |b| == 0 {
      assert a + b == a;
    } else {
      var n := |b| - 1;
      ProbesConcat(a, b[..n]);
      assert (a + b)[..|a| + n] == a + b[..n];
      assert (a + b)[|a| + n] == b[n];
    }
  }

  /** A task that stays unreleased and does not touch the trace. */
  lemma MoveKeeps(s: State, i: nat, phase: Phase, held: nat)
    requires Inv(s) && i < |s.tasks|
    requires || (s.tasks[i].phase == Queued && phase == Probing && held == s.held + 1 && s.held < s.workers)
             || (s.tasks[i].phase == Probing && phase == Probed && held == s.held - 1)
    ensures Inv(Move(s, i, phase).(held := held))
  {
    hide Ordered, TraceIs, InflightOk;
    var s' := Move(s, i, phase).(held := held);
    ProbesMove(s.tasks, i, s'.tasks[i]);
    InflightMove(s, s', i);
    TraceMove(s, s', i);
    OrderedMove(s, s', []);
    assert s.trace + [] == s.trace;
  }

  lemma InflightMove(s: State, s': State, i: nat)
    requires InflightOk(s) && i < |s.tasks| && s.tasks[i].phase != Done
    requires s'.inflight == s.inflight && |s'.tasks| == |s.tasks| && s'.tasks[i].phase != Done && s'.tasks[i].key == s.tasks[i].key
    requires forall k :: 0 <= k < |s.tasks| && k != i ==> s'.tasks[k] == s.tasks[k]
    ensures InflightOk(s')
  {
    forall k
      ensures Alive(s', k) <==> Alive(s, k)
    {
      if Alive(s, k) {
        var j :| 0 <= j < |s.tasks| && s.tasks[j].key == k && s.tasks[j].phase != Done;
        assert s'.tasks[j].key == k && s'.tasks[j].phase != Done;
      }
      if Alive(s', k) {
        var j :| 0 <= j < |s'.tasks| && s'.tasks[j].key == k && s'.tasks[j].phase != Done;
        assert s.tasks[j].key == k && s.tasks[j].phase != Done;
      }
    }
  }

  lemma TraceMove(s: State, s': State, i: nat)
    requires TraceIs(s) && i < |s.tasks| == |s'.tasks| && s'.trace == s.trace && s'.reported == s.reported
    requires forall k :: 0 <= k < |s.tasks| && k != i ==> s'.tasks[k] == s.tasks[k]
    requires HasStarted(s, i) == HasStarted(s', i) && HasEnded(s, i) == HasEnded(s', i)
    ensures TraceIs(s')
  {
    forall k
      ensures HasStarted(s', k) == HasStarted(s, k) && HasEnded(s', k) == HasEnded(s, k)
    {
      if k == i {} else {}
    }
  }

  /** The same tasks by key and batch. */
  predicate SameTasks(s: State, s': State) {
    |s'.tasks| == |s.tasks| && forall i :: 0 <= i < |s.tasks| ==> s'.tasks[i].key == s.tasks[i].key && s'.tasks[i].batch == s.tasks[i].batch
  }

  lemma BeforeStable(trace: seq<Call>, more: seq<Call>, e: Call, q: nat)
    requires q <= |trace|
    ensures Before(trace + more, e, q) <==> Before(trace, e, q)
  {
    assert (trace + more)[..q] == trace[..q];
  }

  /** Positions already in order stay so when the trace grows. */
  lemma OrderedMove(s: State, s': State, more: seq<Call>)
    requires Ordered(s) && SameTasks(s, s') && s'.trace == s.trace + more
    ensures forall q :: 0 <= q < |s.trace| ==> InOrder(s', q)
    ensures more == [] ==> Ordered(s')
  {
    forall q | 0 <= q < |s.trace|
      ensures InOrder(s', q)
    {
      assert InOrder(s, q);
      forall e
        ensures Before(s'.trace, e, q) <==> Before(s.trace, e, q)
      {
        BeforeStable(s.trace, more, e, q);
      }
    }
  }

  // ---- callbacks ----

  lemma InTrace(s: State, more: seq<Call>, e: Call)
    ensures e in s.trace + more <==> e in s.trace || e in more
    ensures Before(s.trace + more, e, |s.trace|) <==> e in s.trace
  {
    assert (s.trace + more)[..|s.trace|] == s.trace;
  }

  lemma OrderedGrows(s: State, s': State, e: Call)
    requires Ordered(s) && SameTasks(s, s') && s'.trace == s.trace + [e] && InOrder(s', |s.trace|)
    ensures Ordered(s')
  {
    hide InOrder;
    OrderedMove(s, s', [e]);
  }

  lemma StartCallKeeps(s: State, i: nat)
    requires Inv(s) && CanStep(s, StartCall(i))
    ensures Inv(After(s, StartCall(i)))
  {
    hide Ordered, TraceIs, InflightOk, BatchDone;
    var s' := After(s, StartCall(i));
    ProbesMove(s.tasks, i, s'.tasks[i]);
    InflightMove(s, s', i);
    StartTrace(s, i);
    BatchesMove(s, s', i);
  }

  lemma BatchesMove(s: State, s': State, i: nat)
    requires BatchesOk(s) && i < |s.tasks| && s.tasks[i].phase != Done && SameTasks(s, s') && s'.reported == s.reported
    requires forall k :: 0 <= k < |s.tasks| && k != i ==> s'.tasks[k] == s.tasks[k]
    ensures BatchesOk(s')
  {}

  lemma StartTrace(s: State, i: nat)
    requires Inv(s) && CanStep(s, StartCall(i))
    ensures TraceIs(After(s, StartCall(i))) && Ordered(After(s, StartCall(i)))
  {
    hide Ordered, InflightOk, SlotsOk, BatchesOk;
    var s' := After(s, StartCall(i));
    forall k: nat | k < |s.tasks| && k != i && KeyAt(s, k) == KeyAt(s, i) && Before(s'.trace, Start(k), |s.trace|)
      ensures k < i && Before(s'.trace, End(k), |s.trace|)
    {
      InTrace(s, [Start(i)], Start(k));
      InTrace(s, [Start(i)], End(k));
      assert HasStarted(s, k);
      assert s.tasks[i].key == s.tasks[k].key;
    }
    assert s'.trace[|s.trace|] == Start(i);
    assert InOrder(s', |s.trace|);
    OrderedGrows(s, s', Start(i));
    forall e: Call
      ensures e in s'.trace <==> e in s.trace || e == Start(i)
    {
      InTrace(s, [Start(i)], e);
    }
  }

  lemma EndCallKeeps(s: State, i: nat)
    requires Inv(s) && CanStep(s, EndCall(i))
    ensures Inv(After(s, EndCall(i)))
  {
    hide Ordered, TraceIs, InflightOk, BatchDone;
    var s' := After(s, EndCall(i));
    ProbesMove(s.tasks, i, s'.tasks[i]);
    InflightMove(s, s', i);
    EndTrace(s, i);
    BatchesMove(s, s', i);
  }

  lemma EndTrace(s: State, i: nat)
    requires Inv(s) && CanStep(s, EndCall(i))
    ensures TraceIs(After(s, EndCall(i))) && Ordered(After(s, EndCall(i)))
  {
    hide Ordered, InflightOk, SlotsOk, BatchesOk, OnePerKey;
    var s' := After(s, EndCall(i));
    InTrace(s, [End(i)], Start(i));
    assert HasStarted(s, i);
    assert s'.trace[|s.trace|] == End(i);
    assert InOrder(s', |s.trace|);
    OrderedGrows(s, s', End(i));
    forall e: Call
      ensures e in s'.trace <==> e in s.trace || e == End(i)
    {
      InTrace(s, [End(i)], e);
    }
  }

  lemma ReportKeeps(s: State, b: nat)
    requires Inv(s) && CanStep(s, ReportBatch(b))
    ensures Inv(After(s, ReportBatch(b)))
  {
    hide Ordered, InflightOk, TraceIs, SlotsOk;
    var s' := After(s, ReportBatch(b));
    ReportTrace(s, b);
    InflightSame(s, s');
    SlotsSame(s, s');
  }

  lemma InflightSame(s: State, s': State)
    requires InflightOk(s) && s'.inflight == s.inflight && s'.tasks == s.tasks
    ensures InflightOk(s')
  {
    assert forall k :: Alive(s', k) <==> Alive(s, k);
  }

  lemma SlotsSame(s: State, s': State)
    requires SlotsOk(s) && s'.held == s.held && s'.tasks == s.tasks && s'.workers == s.workers
    ensures SlotsOk(s')
  {}

  lemma ReportTrace(s: State, b: nat)
    requires Inv(s) && CanStep(s, ReportBatch(b))
    ensures TraceIs(After(s, ReportBatch(b))) && Ordered(After(s, ReportBatch(b)))
  {
    hide Ordered, InflightOk, SlotsOk, OnePerKey;
    var s' := After(s, ReportBatch(b));
    forall k: nat | k < |s.tasks| && s.tasks[k].batch == b
      ensures Before(s'.trace, End(k), |s.trace|)
    {
      InTrace(s, [Report(b)], End(k));
      assert HasEnded(s, k);
    }
    assert s'.trace[|s.trace|] == Report(b);
    assert InOrder(s', |s.trace|);
    OrderedGrows(s, s', Report(b));
    forall e: Call
      ensures e in s'.trace <==> e in s.trace || e == Report(b)
    {
      InTrace(s, [Report(b)], e);
    }
  }

  // ---- release and acceptance ----

  lemma FreeKeeps(s: State, i: nat)
    requires Inv(s) && CanStep(s, Free(i))
    ensures Inv(After(s, Free(i)))
  {
    hide Ordered, TraceIs, InflightOk, BatchDone;
    var s' := After(s, Free(i));
    ProbesMove(s.tasks, i, s'.tasks[i]);
    FreeInflight(s, i);
    TraceMove(s, s', i);
    OrderedMove(s, s', []);
    assert s.trace + [] == s.trace;
    BatchesMove(s, s', i);
  }

  lemma FreeInflight(s: State, i: nat)
    requires InflightOk(s) && OnePerKey(s) && CanStep(s, Free(i))
    ensures InflightOk(After(s, Free(i)))
  {
    var s' := After(s, Free(i));
    forall k
      ensures k in s'.inflight <==> Alive(s', k)
    {
      if Alive(s', k) {
        var j :| 0 <= j < |s'.tasks| && s'.tasks[j].key == k && s'.tasks[j].phase != Done;
        assert s.tasks[j].key == k && s.tasks[j].phase != Done;
        assert j != i;
      }
      if k in s'.inflight {
        assert Alive(s, k);
        var j :| 0 <= j < |s.tasks| && s.tasks[j].key == k && s.tasks[j].phase != Done;
        assert s'.tasks[j].key == k && s'.tasks[j].phase != Done;
      }
    }
  }

  lemma GoKeeps(s: State, keys: seq<string>)
    requires Inv(s)
    ensures Inv(After(s, Go(keys)))
  {
    hide Ordered, TraceIs, InflightOk, OnePerKey, BatchesOk, Accepted;
    var (f, run) := Accepted(s.inflight, keys);
    if run != [] {
      var s' := After(s, Go(keys));
      AcceptedIs(s.inflight, keys);
      ProbesConcat(s.tasks, NewTasks(run, |s.reported|));
      GoInflight(s, s', run);
      GoOnePerKey(s, s', run);
      GoBatches(s, s', run);
      GoTrace(s, s', run);
    }
  }

  predicate Extends(s: State, s': State, run: seq<string>) {
    && s'.tasks == s.tasks + NewTasks(run, |s.reported|) && s'.reported == s.reported + [false] && s'.trace == s.trace
  }

  lemma GoInflight(s: State, s': State, run: seq<string>)
    requires InflightOk(s) && Extends(s, s', run)
    requires forall k :: k in s'.inflight <==> k in s.inflight || k in run
    ensures InflightOk(s')
  {
    forall k
      ensures Alive(s', k) <==> Alive(s, k) || k in run
    {
      if Alive(s, k) {
        var j :| 0 <= j < |s.tasks| && s.tasks[j].key == k && s.tasks[j].phase != Done;
        assert s'.tasks[j] == s.tasks[j];
      }
      if k in run {
        var j :| 0 <= j < |run| && run[j] == k;
        assert s'.tasks[|s.tasks| + j].key == k && s'.tasks[|s.tasks| + j].phase != Done;
      }
      if Alive(s', k) {
        var j :| 0 <= j < |s'.tasks| && s'.tasks[j].key == k && s'.tasks[j].phase != Done;
        if j < |s.tasks| { assert s.tasks[j] == s'.tasks[j]; } else { assert run[j - |s.tasks|] == k; }
      }
    }
  }

  lemma GoOnePerKey(s: State, s': State, run: seq<string>)
    requires OnePerKey(s) && InflightOk(s) && Extends(s, s', run) && NoRepeats(run)
    requires forall k :: k in run ==> k !in s.inflight
    ensures OnePerKey(s')
  {
    forall i, j | 0 <= i < j < |s'.tasks| && s'.tasks[i].key == s'.tasks[j].key
      ensures s'.tasks[i].phase == Done
    {
      if j >= |s.tasks| {
        assert run[j - |s.tasks|] == s'.tasks[j].key;
        if i < |s.tasks| {
          assert s'.tasks[i] == s.tasks[i];
          assert !Alive(s, s.tasks[i].key);
        }
      }
    }
  }

  lemma GoBatches(s: State, s': State, run: seq<string>)
    requires BatchesOk(s) && Extends(s, s', run)
    ensures BatchesOk(s')
  {
    forall i | 0 <= i < |s'.tasks|
      ensures s'.tasks[i].batch < |s'.reported|
    {
      if i < |s.tasks| { assert s'.tasks[i] == s.tasks[i]; }
    }
    forall b | 0 <= b < |s'.reported| && s'.reported[b]
      ensures BatchDone(s', b)
    {
      assert s.reported[b] && BatchDone(s, b);
    }
  }

  lemma GoTrace(s: State, s': State, run: seq<string>)
    requires TraceIs(s) && Ordered(s) && BatchesOk(s) && Extends(s, s', run)
    ensures TraceIs(s') && Ordered(s')
  {
    hide Ordered;
    forall i
      ensures HasStarted(s', i) == HasStarted(s, i) && HasEnded(s', i) == HasEnded(s, i)
    {
      if 0 <= i < |s.tasks| { assert s'.tasks[i] == s.tasks[i]; }
    }
    forall b
      ensures HasReported(s', b) == HasReported(s, b)
    {}
    forall q | 0 <= q < |s'.trace|
      ensures InOrder(s', q)
    {
      GoInOrder(s, s', run, q);
    }
    assert Ordered(s') by { OrderedAll(s'); }
  }

  lemma OrderedAll(s: State)
    requires forall q :: 0 <= q < |s.trace| ==> InOrder(s, q)
    ensures Ordered(s)
  {
    hide InOrder;
  }

  lemma GoInOrder(s: State, s': State, run: seq<string>, q: nat)
    requires TraceIs(s) && Ordered(s) && BatchesOk(s) && Extends(s, s', run) && q < |s.trace|
    ensures InOrder(s', q)
  {
    assert InOrder(s, q);
    match s.trace[q] {
      case Start(j) =>
        assert Start(j) in s.trace;
        assert HasStarted(s, j);
        forall i: nat | i < |s'.tasks| && i != j && KeyAt(s', i) == KeyAt(s', j) && Before(s'.trace, Start(i), q)
          ensures i < j && Before(s'.trace, End(i), q)
        {
          assert Start(i) in s.trace;
          assert HasStarted(s, i);
          assert KeyAt(s, i) == KeyAt(s', i) && KeyAt(s, j) == KeyAt(s', j);
        }
      case End(j) =>
      case Report(b) =>
        assert Report(b) in s.trace;
        assert HasReported(s, b);
        forall i: nat | i < |s'.tasks| && s'.tasks[i].batch == b
          ensures Before(s'.trace, End(i), q)
        {
          if i < |s.tasks| { assert s'.tasks[i] == s.tasks[i]; }
        }
    }
  }

  /** Every step of the protocol keeps all of it. */
  lemma StepKeeps(s: State, step: Step)
    requires Inv(s) && CanStep(s, step)
    ensures Inv(After(s, step))
  {
    hide Inv, BatchDone, Accepted;
    match step {
      case Go(keys) => GoKeeps(s, keys);
      case Acquire(i) => MoveKeeps(s, i, Probing, s.held + 1);
      case Release(i) => ReleaseSlot(s, i); MoveKeeps(s, i, Probed, s.held - 1);
      case StartCall(i) => StartCallKeeps(s, i);
      case EndCall(i) => EndCallKeeps(s, i);
      case Free(i) => FreeKeeps(s, i);
      case ReportBatch(b) => ReportKeeps(s, b);
    }
  }

  lemma ReleaseSlot(s: State, i: nat)
    requires Inv(s) && At(s, i, Probing)
    ensures s.held > 0
  {
    hide Ordered, TraceIs, InflightOk, BatchesOk, OnePerKey;
    SomeProbe(s.tasks, i);
  }

  lemma {:induction false} SomeProbe(tasks: seq<Task>, i: nat)
    requires i < |tasks| && tasks[i].phase == Probing
    ensures Probes(tasks) > 0
    decreases |tasks|
  {
    if i < |tasks| - 1 { SomeProbe(tasks[..|tasks| - 1], i); }
  }

  lemma {:induction false} FindProbe(tasks: seq<Task>) returns (i: nat)
    requires Probes(tasks) > 0
    ensures i < |tasks| && tasks[i].phase == Probing
    decreases |tasks|
  {
    var n := |tasks| - 1;
    if tasks[n].phase == Probing { i := n; } else { i := FindProbe(tasks[..n]); }
  }

  // ---- whole runs ----

  ghost predicate Run(s: State, steps: seq<Step>)
    decreases |steps|, 0
  {
    |steps| == 0 || (Run(s, steps[..|steps| - 1]) && CanStep(RunEnd(s, steps[..|steps| - 1]), steps[|steps| - 1]))
  }

  ghost function RunEnd(s: State, steps: seq<Step>): State
    requires Run(s, steps)
    decreases |steps|, 1
  {
    if |steps| == 0 then s else After(RunEnd(s, steps[..|steps| - 1]), steps[|steps| - 1])
  }

  /** In every interleaving: the in-flight set, one job per key, the worker cap, and the order of the
      callbacks. */
  lemma {:induction false} RunKeeps(workers: int, steps: seq<Step>)
    requires Run(New(workers), steps)
    ensures Inv(RunEnd(New(workers), steps))
    decreases |steps|
  {
    hide Inv, CanStep, After;
    if |steps| == 0 {
      NewInv(workers);
    } else {
      RunKeeps(workers, steps[..|steps| - 1]);
      StepKeeps(RunEnd(New(workers), steps[..|steps| - 1]), steps[|steps| - 1]);
    }
  }

  lemma EarlierStarted(s: State, i: nat, j: nat, q: nat)
    requires Inv(s) && i < j < |s.tasks| && s.tasks[i].key == s.tasks[j].key && q < |s.trace| && s.trace[q] == Start(j)
    ensures Start(i) in s.trace
  {
    hide InflightOk, SlotsOk, BatchesOk, Ordered;
    assert HasStarted(s, i);
  }

  lemma OrderedAt(s: State, q: nat)
    requires Ordered(s) && q < |s.trace|
    ensures InOrder(s, q)
  {}

  lemma StartsInOrder(s: State, i: nat, j: nat, p: nat, q: nat)
    requires Ordered(s) && i < j < |s.tasks| && s.tasks[i].key == s.tasks[j].key
    requires p < |s.trace| && s.trace[p] == Start(i) && q < |s.trace| && s.trace[q] == Start(j)
    ensures p < q
  {
    hide Ordered;
    if q < p {
      assert s.trace[..p][q] == Start(j);
      OrderedAt(s, p);
    }
  }

  /** Callbacks of one target never overlap and run in acceptance order: whenever one starts, those of
      all earlier jobs of the target have ended. */
  lemma CallbacksSerial(s: State, i: nat, j: nat, q: nat)
    requires Inv(s) && i < j < |s.tasks| && s.tasks[i].key == s.tasks[j].key
    requires q < |s.trace| && s.trace[q] == Start(j)
    ensures Start(i) in s.trace && Before(s.trace, End(i), q)
  {
    hide InflightOk, SlotsOk, BatchesOk, TraceIs, OnePerKey, Ordered;
    EarlierStarted(s, i, j, q);
    var p: nat :| p < |s.trace| && s.trace[p] == Start(i);
    StartsInOrder(s, i, j, p, q);
    assert s.trace[..q][p] == Start(i);
    OrderedAt(s, q);
  }

  /** onBatch follows the callbacks of all its jobs. */
  lemma BatchAfterCallbacks(s: State, i: nat, q: nat)
    requires Inv(s) && i < |s.tasks| && q < |s.trace| && s.trace[q] == Report(s.tasks[i].batch)
    ensures Before(s.trace, End(i), q)
  {
    hide InflightOk, SlotsOk, BatchesOk, TraceIs, OnePerKey;
    assert InOrder(s, q);
  }

  // ---- progress ----

  predicate Finished(s: State) { (forall t :: t in s.tasks ==> t.phase == Done) && forall r :: r in s.reported ==> r }

  /** Until all accepted work is done and reported, some goroutine can take a step. */
  lemma Progress(s: State) returns (step: Step)
    requires Inv(s) && !Finished(s)
    ensures !step.Go? && CanStep(s, step)
  {
    hide InflightOk, OnePerKey, TraceIs, Ordered;
    if t :| t in s.tasks && t.phase != Done {
      var i: nat :| i < |s.tasks| && s.tasks[i] == t;
      match t.phase {
        case Queued =>
          if s.held < s.workers {
            step := Acquire(i);
          } else {
            var j := FindProbe(s.tasks);
            step := Release(j);
          }
        case Probing => step := Release(i);
        case Probed => step := StartCall(i);
        case Calling => step := EndCall(i);
        case _ => step := Free(i);
      }
    } else {
      var r :| r in s.reported && !r;
      var b: nat :| b < |s.reported| && s.reported[b] == r;
      step := ReportBatch(b);
    }
  }

  function StepsLeft(phase: Phase): nat {
    match phase
    case Queued => 5
    case Probing => 4
    case Probed => 3
    case Calling => 2
    case Called => 1
    case Done => 0
  }

  function TasksLeft(tasks: seq<Task>): nat
    decreases |tasks|
  {
    if |tasks| == 0 then 0 else TasksLeft(tasks[..|tasks| - 1]) + StepsLeft(tasks[|tasks| - 1].phase)
  }

  function ReportsLeft(reported: seq<bool>): nat
    decreases |reported|
  {
    if |reported| == 0 then 0
    else ReportsLeft(reported[..|reported| - 1]) + if reported[|reported| - 1] then 0 else 1
  }

  /** The steps until all accepted work is done. */
  function Left(s: State): nat { TasksLeft(s.tasks) + ReportsLeft(s.reported) }

  lemma {:induction false} TasksLeftMove(tasks: seq<Task>, i: nat, t: Task)
    requires i < |tasks|
    ensures TasksLeft(tasks[i := t]) == TasksLeft(tasks) - StepsLeft(tasks[i].phase) + StepsLeft(t.phase)
    decreases |tasks|
  {
    hide StepsLeft;
    var n := |tasks| - 1;
    if i < n {
      TasksLeftMove(tasks[..n], i, t);
      assert tasks[i := t][..n] == tasks[..n][i := t];
    } else {
      assert tasks[i := t][..n] == tasks[..n];
    }
  }

  lemma {:induction false} ReportsLeftMove(reported: seq<bool>, b: nat)
    requires b < |reported| && !reported[b]
    ensures ReportsLeft(reported[b := true]) == ReportsLeft(reported) - 1
    decreases |reported|
  {
    var n := |reported| - 1;
    if b < n {
      ReportsLeftMove(reported[..n], b);
      assert reported[b := true][..n] == reported[..n][b := true];
    } else {
      assert reported[b := true][..n] == reported[..n];
    }
  }

  /** Every step but Go brings the end of the accepted work exactly one step nearer, so it comes,
      whatever the order. */
  lemma StepNearer(s: State, step: Step)
    requires CanStep(s, step) && !step.Go?
    ensures Left(After(s, step)) == Left(s) - 1
  {
    hide TasksLeft, ReportsLeft, BatchDone;
    var s' := After(s, step);
    match step {
      case ReportBatch(b) => ReportsLeftMove(s.reported, b);
      case Acquire(i) => TasksLeftMove(s.tasks, i, s'.tasks[i]);
      case Release(i) => TasksLeftMove(s.tasks, i, s'.tasks[i]);
      case StartCall(i) => TasksLeftMove(s.tasks, i, s'.tasks[i]);
      case EndCall(i) => TasksLeftMove(s.tasks, i, s'.tasks[i]);
      case Free(i) => TasksLeftMove(s.tasks, i, s'.tasks[i]);
    }
  }

  // ---- waiting ----

  lemma {:induction false} NoneLeft(tasks: seq<Task>)
    ensures TasksLeft(tasks) == 0 <==> forall t :: t in tasks ==> t.phase == Done
    decreases |tasks|
  {
    if |tasks| > 0 {
      var n := |tasks| - 1;
      NoneLeft(tasks[..n]);
      assert forall t :: t in tasks <==> t in tasks[..n] || t == tasks[n];
    }
  }

  lemma {:induction false} AllReported(reported: seq<bool>)
    ensures ReportsLeft(reported) == 0 <==> forall r :: r in reported ==> r
    decreases |reported|
  {
    if |reported| > 0 {
      var n := |reported| - 1;
      AllReported(reported[..n]);
      assert false in reported <==> false in reported[..n] || !reported[n];
    }
  }

  /** The counter of the wait group: the batches whose goroutine has not ended. */
  function Waiting(s: State): nat { ReportsLeft(s.reported) }

  /** A Go that accepts something counts its batch, the end of a batch counts it off, nothing else counts. */
  lemma WaitingIs(s: State, step: Step)
    requires CanStep(s, step)
    ensures Waiting(After(s, step)) ==
            match step
            case Go(keys) => Waiting(s) + if Accepted(s.inflight, keys).1 == [] then 0 else 1
            case ReportBatch(b) => Waiting(s) - 1
            case _ => Waiting(s)
  {
    hide BatchDone, Accepted;
    match step {
      case Go(keys) => assert (s.reported + [false])[..|s.reported|] == s.reported;
      case ReportBatch(b) => ReportsLeftMove(s.reported, b);
      case _ =>
    }
  }

  /** Wait, on every interleaving: its counter is down to zero exactly when all accepted work is done and
      reported. Then nothing is in flight, no slot is taken, and no goroutine is left that could step. */
  lemma WaitReturns(workers: int, steps: seq<Step>)
    requires Run(New(workers), steps)
    ensures var s := RunEnd(New(workers), steps);
            && (Waiting(s) == 0 <==> Finished(s))
            && (Finished(s) ==> s.inflight == {} && s.held == 0 && forall step :: CanStep(s, step) ==> step.Go?)
  {
    hide Run, RunEnd, Inv, Finished;
    RunKeeps(workers, steps);
    var s := RunEnd(New(workers), steps);
    WaitedFor(s);
    if Finished(s) { NothingLeft(s); }
  }

  lemma WaitedFor(s: State)
    requires Inv(s)
    ensures Waiting(s) == 0 <==> Finished(s)
  {
    hide InflightOk, OnePerKey, SlotsOk, TraceIs, Ordered;
    AllReported(s.reported);
    if Waiting(s) == 0 {
      forall t | t in s.tasks
        ensures t.phase == Done
      {
        var i: nat :| i < |s.tasks| && s.tasks[i] == t;
        assert s.reported[t.batch] in s.reported;
      }
    }
  }

  lemma NothingLeft(s: State)
    requires Inv(s) && Finished(s)
    ensures s.inflight == {} && s.held == 0 && forall step :: CanStep(s, step) ==> step.Go?
  {
    hide OnePerKey, TraceIs, Ordered, BatchesOk, Finished, CanStep;
    forall k
      ensures k !in s.inflight
    {
      if Alive(s, k) {
        var i: nat :| i < |s.tasks| && s.tasks[i].key == k && s.tasks[i].phase != Done;
        TaskDone(s, i);
      }
    }
    if s.held > 0 {
      var i := FindProbe(s.tasks);
      TaskDone(s, i);
    }
    forall step | CanStep(s, step)
      ensures step.Go?
    {
      OnlyGo(s, step);
    }
  }

  lemma TaskDone(s: State, i: nat)
    requires Finished(s) && i < |s.tasks|
    ensures s.tasks[i].phase == Done
  {
    assert s.tasks[i] in s.tasks;
  }

  lemma BatchReported(s: State, b: nat)
    requires Finished(s) && b < |s.reported|
    ensures s.reported[b]
  {
    assert s.reported[b] in s.reported;
  }

  lemma OnlyGo(s: State, step: Step)
    requires Finished(s) && CanStep(s, step)
    ensures step.Go?
  {
    hide BatchDone, Finished;
    match step {
      case Go(_) =>
      case ReportBatch(b) => BatchReported(s, b);
      case Acquire(i) => TaskDone(s, i);
      case Release(i) => TaskDone(s, i);
      case StartCall(i) => TaskDone(s, i);
      case EndCall(i) => TaskDone(s, i);
      case Free(i) => TaskDone(s, i);
    }
  }

  /** A run of the goroutines without further Go takes no more steps than are left, and ends all accepted
      work exactly when it takes that many. */
  lemma {:induction false} DrainEnds(s: State, steps: seq<Step>)
    requires Run(s, steps) && forall step :: step in steps ==> !step.Go?
    ensures |steps| <= Left(s)
    ensures Finished(RunEnd(s, steps)) <==> |steps| == Left(s)
    decreases |steps|
  {
    hide CanStep, After, Left;
    DrainLeft(s, steps);
    FinishedLeft(RunEnd(s, steps));
  }

  lemma {:induction false} DrainLeft(s: State, steps: seq<Step>)
    requires Run(s, steps) && forall step :: step in steps ==> !step.Go?
    ensures Left(RunEnd(s, steps)) + |steps| == Left(s)
    decreases |steps|
  {
    hide CanStep, After, Left;
    if |steps| > 0 {
      var n := |steps| - 1;
      DrainLeft(s, steps[..n]);
      assert steps[n] in steps;
      StepNearer(RunEnd(s, steps[..n]), steps[n]);
    }
  }

  lemma FinishedLeft(s: State)
    ensures Finished(s) <==> Left(s) == 0
  {
    hide TasksLeft, ReportsLeft;
    NoneLeft(s.tasks);
    AllReported(s.reported);
  }

  // ---- the worker cap ----

  function ProbingTasks(s: State): set<int> { set i | 0 <= i < |s.tasks| && s.tasks[i].phase == Probing }

  lemma {:induction false} ProbesCount(s: State)
    ensures |ProbingTasks(s)| == Probes(s.tasks)
    decreases |s.tasks|
  {
    if |s.tasks| > 0 {
      var n := |s.tasks| - 1;
      var init := s.(tasks := s.tasks[..n]);
      ProbesCount(init);
      assert ProbingTasks(s) == ProbingTasks(init) + if s.tasks[n].phase == Probing then {n} else {};
    }
  }

  lemma {:induction false} RunWorkers(s: State, steps: seq<Step>)
    requires Run(s, steps)
    ensures RunEnd(s, steps).workers == s.workers
    decreases |steps|
  {
    hide CanStep, Accepted;
    if |steps| > 0 { RunWorkers(s, steps[..|steps| - 1]); }
  }

  /** In every interleaving no more probes run at once than NewDispatcher was asked for, one if that is not
      positive; and while fewer run, every waiting job can start. */
  lemma WorkerBound(workers: int, steps: seq<Step>)
    requires Run(New(workers), steps)
    ensures var s, cap := RunEnd(New(workers), steps), if workers <= 0 then 1 else workers;
            && |ProbingTasks(s)| <= cap
            && (|ProbingTasks(s)| < cap ==> forall i: nat :: i < |s.tasks| && s.tasks[i].phase == Queued ==> CanStep(s, Acquire(i)))
  {
    hide Run, RunEnd, ProbingTasks, InflightOk, OnePerKey, BatchesOk, TraceIs, Ordered;
    RunKeeps(workers, steps);
    RunWorkers(New(workers), steps);
    ProbesCount(RunEnd(New(workers), steps));
  }
}
