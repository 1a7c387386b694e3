/** A config reload: the new runtime's engine is seeded from history, takes over from the running one
    what the reload identity allows, and goes live. */
module AlertReload {
  import opened Wrappers
  import opened Matcher
  import opened AlertEngine
  import opened AlertStreams
  import opened AlertRuntime
  import opened AlertWindows

  // ---- the identity of a reload ----

  function Fingerprint(rt: Runtime, t: string): string { if t in rt.fp then rt.fp[t] else "" }

  /** Known to both runtimes, with one fingerprint. */
  predicate SameMeasurement(was: Runtime, nrt: Runtime, t: string) {
    t in nrt.fp && t in was.fp && was.fp[t] == nrt.fp[t]
  }

  function SetOf(names: seq<string>): map<string, bool> { map n | n in Elements(names) :: true }

  function SameTargets(was: Runtime, nrt: Runtime, ts: set<string>): map<string, bool> {
    map t | t in ts && SameMeasurement(was, nrt, t) :: true
  }

  function ValidTargets(ts: set<string>): map<string, bool> { map t | t in ts :: true }

  function AttachedTargets(nrt: Runtime, ts: set<string>): map<string, map<string, bool>> {
    map t | t in ts :: SetOf(Listed(nrt.attached, t))
  }

  function SameAlertees(was: Runtime, nrt: Runtime, ts: set<string>): map<string, bool> {
    map t | t in ts :: SameStrings(Listed(was.alertee, t), Listed(nrt.alertee, t))
  }

  /** reloadIdentity. */
  function IdentityOf(was: Runtime, nrt: Runtime): ReloadIdentity {
    var ts := nrt.attached.Keys;
    ReloadIdentity(Some(ValidTargets(ts)), Some(SameTargets(was, nrt, nrt.fp.Keys)),
                   Some(AttachedTargets(nrt, ts)), Some(SameAlertees(was, nrt, ts)))
  }

  /** sameTargetIdentity. */
  method BuildSameTargets(was: Runtime, nrt: Runtime) returns (same: map<string, bool>)
    ensures same == SameTargets(was, nrt, nrt.fp.Keys)
  {
    same := map[];
    var todo := nrt.fp.Keys;
    while todo != {}
      invariant todo <= nrt.fp.Keys
      invariant same == SameTargets(was, nrt, nrt.fp.Keys - todo)
    {
      var t :| t in todo;
      todo := todo - {t};
      if t in was.fp && was.fp[t] == nrt.fp[t] {
        same := same[t := true];
      }
    }
    assert nrt.fp.Keys - todo == nrt.fp.Keys;
  }

  method BuildIdentity(was: Runtime, nrt: Runtime) returns (id: ReloadIdentity)
    ensures id == IdentityOf(was, nrt)
  {
    hide SetOf, SameStrings, SameTargets;
    var valid: map<string, bool>, attached: map<string, map<string, bool>>, sameAlertee: map<string, bool> := map[], map[], map[];
    var todo := nrt.attached.Keys;
    while todo != {}
      invariant todo <= nrt.attached.Keys
      invariant valid == ValidTargets(nrt.attached.Keys - todo)
      invariant attached == AttachedTargets(nrt, nrt.attached.Keys - todo)
      invariant sameAlertee == SameAlertees(was, nrt, nrt.attached.Keys - todo)
    {
      var t :| t in todo;
      todo := todo - {t};
      valid := valid[t := true];
      attached := attached[t := SetOf(nrt.attached[t])];
      sameAlertee := sameAlertee[t := SameStrings(Listed(was.alertee, t), Listed(nrt.alertee, t))];
    }
    assert nrt.attached.Keys - todo == nrt.attached.Keys;
    var same := BuildSameTargets(was, nrt);
    id := ReloadIdentity(Some(valid), Some(same), Some(attached), Some(sameAlertee));
  }

  // ---- seeding ----

  /** All targets may be seeded but those whose measurement changed. */
  predicate Seedable(was: Runtime, nrt: Runtime, t: string) { !(t in was.fp && was.fp[t] != Fingerprint(nrt, t)) }

  /** Stored samples of one target and vantage. */
  datatype History = History(t: string, v: string, loss: seq<Sample>, rtt: seq<Sample>)

  function SeedOne(was: Runtime, nrt: Runtime, win: map<WinKey, Window>, h: History): map<WinKey, Window> {
    var names := Listed(nrt.attached, h.t);
    if names == [] || !Seedable(was, nrt, h.t) then win
    else
      var cap := WindowCap(nrt.alerts, names);
      win[(h.v, h.t) := Window(TailCopy(h.loss, cap), TailCopy(h.rtt, cap))]
  }

  function Seeded(was: Runtime, nrt: Runtime, hs: seq<History>): map<WinKey, Window>
    decreases |hs|
  {
    if |hs| == 0 then map[] else SeedOne(was, nrt, Seeded(was, nrt, hs[..|hs| - 1]), hs[|hs| - 1])
  }

  method Seed(e: Engine, was: Runtime, nrt: Runtime, hs: seq<History>)
    requires e.alerts == nrt.alerts && e.win == map[]
    modifies e`win
    ensures e.win == Seeded(was, nrt, hs)
  {
    hide WindowCap, TailCopy, Seedable;
    for i := 0 to |hs|
      invariant e.win == Seeded(was, nrt, hs[..i])
    {
      var h := hs[i];
      assert hs[..i + 1][..i] == hs[..i];
      var names := Listed(nrt.attached, h.t);
      if |names| != 0 && Seedable(was, nrt, h.t) {
        e.SeedWindow(h.t, h.v, names, h.loss, h.rtt);
      }
    }
    assert hs[..|hs|] == hs;
  }

  /** The same with nothing cut off. */
  function SeededFull(was: Runtime, nrt: Runtime, hs: seq<History>): map<WinKey, Window>
    decreases |hs|
  {
    if |hs| == 0 then map[]
    else
      var win, h := SeededFull(was, nrt, hs[..|hs| - 1]), hs[|hs| - 1];
      if Listed(nrt.attached, h.t) == [] || !Seedable(was, nrt, h.t) then win else win[(h.v, h.t) := Window(h.loss, h.rtt)]
  }

  /** An engine with seeded windows stands where one that keeps the whole histories would. At boot nothing is
      known of earlier fingerprints, so `was` is a runtime without any. */
  lemma {:induction false} SeededTrimmed(was: Runtime, nrt: Runtime, hs: seq<History>)
    requires forall h :: h in hs ==> |h.loss| == |h.rtt|
    ensures Trimmed(nrt, Booted(Seeded(was, nrt, hs)), Booted(SeededFull(was, nrt, hs)))
    decreases |hs|
  {
    hide WindowCap, Seedable, TrimmedWindow, TailCopy;
    if |hs| > 0 {
      var n := |hs| - 1;
      SeededTrimmed(was, nrt, hs[..n]);
      assert hs[n] in hs;
      var h, st, full := hs[n], Booted(Seeded(was, nrt, hs[..n])), Booted(SeededFull(was, nrt, hs[..n]));
      CopyTrimmed(h.loss, h.rtt, WindowCap(nrt.alerts, Listed(nrt.attached, h.t)));
      forall v, t
        ensures TrimmedAt(nrt, Booted(Seeded(was, nrt, hs)), Booted(SeededFull(was, nrt, hs)), v, t)
      {
        assert TrimmedAt(nrt, st, full, v, t);
      }
    } else {
      NothingTrimmed(nrt);
    }
  }

  lemma CopyTrimmed(loss: seq<Sample>, rtt: seq<Sample>, cap: int)
    requires cap >= 1 && |loss| == |rtt|
    ensures TrimmedWindow(cap, Window(TailCopy(loss, cap), TailCopy(rtt, cap)), Window(loss, rtt))
  {}

  lemma NothingTrimmed(rt: Runtime)
    ensures Trimmed(rt, Booted(map[]), Booted(map[]))
  {}

  // ---- the swap ----

  /** The state the new engine goes live with. */
  function Swapped(was: Runtime, st: State, nrt: Runtime, hs: seq<History>): State {
    Inherited(nrt.alerts, State(Seeded(was, nrt, hs), map[], map[]), was.alerts, st, IdentityOf(was, nrt))
  }

  /** swapRuntime: seed the new engine, then let it inherit from the running one. */
  method SwapRuntime(was: Runtime, running: Engine, nrt: Runtime, e: Engine, hs: seq<History>)
    requires running != e && running.alerts == was.alerts && e.alerts == nrt.alerts && e.St() == FRESH
    modifies e
    ensures e.St() == Swapped(was, running.St(), nrt, hs)
  {
    hide Inherited, IdentityOf, Seeded;
    Seed(e, was, nrt, hs);
    var id := BuildIdentity(was, nrt);
    e.InheritStateFrom(running, id);
  }

  // ---- what survives ----

  /** The same alert, its recipients perhaps in another order. */
  predicate SameAlert(a: Alert, b: Alert) { a == b.(to := a.to) && SameStrings(a.to, b.to) }

  predicate AgreeOn(alerts: map<string, Alert>, others: map<string, Alert>, names: seq<string>) {
    forall n :: n in names ==> (n in alerts <==> n in others) && (n in alerts ==> SameAlert(alerts[n], others[n]))
  }

  /** The reload leaves this target alone: measured the same way, the same alerts attached with the same
      definitions, the same recipients. */
  predicate Unchanged(was: Runtime, nrt: Runtime, t: string) {
    && t in was.attached && t in nrt.attached && was.attached[t] == nrt.attached[t]
    && SameMeasurement(was, nrt, t)
    && AgreeOn(was.alerts, nrt.alerts, was.attached[t])
    && SameStrings(Listed(was.alertee, t), Listed(nrt.alertee, t))
  }

  /** Two engines remember the same of a target as seen from a vantage. */
  ghost predicate LaneSame(alerts: map<string, Alert>, names: seq<string>, a: State, b: State, v: string, t: string) {
    && WindowOf(a, v, t) == WindowOf(b, v, t)
    && SameBits(alerts, names, a.firing, b.firing, v, t)
    && SameBits(alerts, names, a.visible, b.visible, v, t)
  }

  ghost predicate SameBits(alerts: map<string, Alert>, names: seq<string>, a: map<Key, bool>, b: map<Key, bool>, v: string, t: string) {
    forall n :: n in names && n in alerts ==> Get(a, (v, t, n)) == Get(b, (v, t, n))
  }

  /** What a fresh engine reads after it inherited. */
  lemma InheritedReads(alerts: map<string, Alert>, win: map<WinKey, Window>, was: map<string, Alert>, prev: State, id: ReloadIdentity, key: Key)
    ensures var st := Inherited(alerts, State(win, map[], map[]), was, prev, id);
            && (InheritsState(alerts, was, id, key) ==> Get(st.firing, key) == Get(prev.firing, key))
            && (InheritsVisible(alerts, was, id, key) ==> Get(st.visible, key) == Get(prev.visible, key))
  {
    hide InheritsState, InheritsVisible;
  }

  lemma InheritedWindow(alerts: map<string, Alert>, win: map<WinKey, Window>, was: map<string, Alert>, prev: State, id: ReloadIdentity, v: string, t: string)
    requires InheritsTarget(id, t) && (v, t) in prev.win
    ensures WindowOf(Inherited(alerts, State(win, map[], map[]), was, prev, id), v, t) == WindowOf(prev, v, t)
  {
    hide InheritsTarget;
  }

  lemma UnchangedTarget(was: Runtime, nrt: Runtime, t: string)
    requires Unchanged(was, nrt, t)
    ensures InheritsTarget(IdentityOf(was, nrt), t)
  {
    hide SameStrings, AgreeOn;
  }

  lemma UnchangedAlert(was: Runtime, nrt: Runtime, v: string, t: string, n: string)
    requires Unchanged(was, nrt, t) && n in was.attached[t] && n in was.alerts
    ensures var id := IdentityOf(was, nrt);
            InheritsState(nrt.alerts, was.alerts, id, (v, t, n)) && InheritsVisible(nrt.alerts, was.alerts, id, (v, t, n))
  {
    hide SameStrings;
  }

  /** An unchanged target carries over, for every vantage with a live window. */
  lemma SwapKeepsLane(was: Runtime, st: State, nrt: Runtime, hs: seq<History>, v: string, t: string)
    requires Unchanged(was, nrt, t) && (v, t) in st.win
    ensures LaneSame(was.alerts, Listed(was.attached, t), st, Swapped(was, st, nrt, hs), v, t)
  {
    hide Seeded, Unchanged, Inherited, IdentityOf, InheritsState, InheritsVisible, InheritsTarget, Get, WindowOf;
    var id := IdentityOf(was, nrt);
    UnchangedTarget(was, nrt, t);
    InheritedWindow(nrt.alerts, Seeded(was, nrt, hs), was.alerts, st, id, v, t);
    forall n | n in Listed(was.attached, t) && n in was.alerts
      ensures Get(st.firing, (v, t, n)) == Get(Swapped(was, st, nrt, hs).firing, (v, t, n))
      ensures Get(st.visible, (v, t, n)) == Get(Swapped(was, st, nrt, hs).visible, (v, t, n))
    {
      UnchangedAlert(was, nrt, v, t, n);
      InheritedReads(nrt.alerts, Seeded(was, nrt, hs), was.alerts, st, id, (v, t, n));
    }
  }

  /** A target whose measurement changed starts from nothing, whatever was seeded or inherited. */
  lemma RedefinedStartsEmpty(was: Runtime, st: State, nrt: Runtime, hs: seq<History>, v: string, t: string, n: string)
    requires t in was.fp && was.fp[t] != Fingerprint(nrt, t)
    ensures var new_ := Swapped(was, st, nrt, hs);
            WindowOf(new_, v, t) == Window([], []) && !Get(new_.firing, (v, t, n)) && !Get(new_.visible, (v, t, n))
  {
    hide Seeded;
    NeverSeeded(was, nrt, hs, v, t);
  }

  lemma {:induction false} NeverSeeded(was: Runtime, nrt: Runtime, hs: seq<History>, v: string, t: string)
    requires !Seedable(was, nrt, t)
    ensures (v, t) !in Seeded(was, nrt, hs)
    decreases |hs|
  {
    hide Seedable, WindowCap;
    if |hs| > 0 {
      NeverSeeded(was, nrt, hs[..|hs| - 1], v, t);
    }
  }

  /** No reload makes the recipients' view claim more than the matchers say. */
  lemma SwapKeepsView(was: Runtime, st: State, nrt: Runtime, hs: seq<History>, key: Key)
    requires Get(st.visible, key) ==> Get(st.firing, key)
    ensures Get(Swapped(was, st, nrt, hs).visible, key) ==> Get(Swapped(was, st, nrt, hs).firing, key)
  {
    hide Seeded, InheritsState, IdentityOf;
  }

  /** A detached alert, and one whose recipients changed, is no longer taken for delivered: nobody gets a
      RESOLVED for a FIRING they never saw. */
  lemma RoutingEditClearsView(was: Runtime, st: State, nrt: Runtime, hs: seq<History>, key: Key)
    requires key.2 !in Listed(nrt.attached, key.1)
             || !SameStrings(Listed(was.alertee, key.1), Listed(nrt.alertee, key.1))
             || (key.2 in was.alerts && key.2 in nrt.alerts && !SameStrings(was.alerts[key.2].to, nrt.alerts[key.2].to))
    ensures !Get(Swapped(was, st, nrt, hs).visible, key)
  {
    hide Seeded, SameStrings, SameMeasurement;
  }

  /** The two matchers are of different kinds, or differ in a field, a limit, a count or the text of the
      pattern. */
  predicate Redefined(a: Spec, b: Spec) {
    || a.Threshold? != b.Threshold?
    || a.field != b.field
    || (a.Threshold? && b.Threshold? && (a.limit != b.limit || a.x != b.x))
    || (a.Pattern? && b.Pattern? && a.src != b.src)
  }

  /** An alert whose matcher was redefined, that is missing on either side of the reload, or that is not
      attached any more, is neither firing nor delivered afterwards, for any vantage and target. */
  lemma RedefinedAlertDropped(was: Runtime, st: State, nrt: Runtime, hs: seq<History>, key: Key)
    requires key.2 in was.alerts && key.2 in nrt.alerts && key.2 in Listed(nrt.attached, key.1)
             ==> Redefined(was.alerts[key.2].matcher, nrt.alerts[key.2].matcher)
    ensures !Get(Swapped(was, st, nrt, hs).firing, key) && !Get(Swapped(was, st, nrt, hs).visible, key)
  {
    hide *;
    BitsFrom(was, st, nrt, hs, key);
    if InheritsState(nrt.alerts, was.alerts, IdentityOf(was, nrt), key) {
      KeptAttached(was, nrt, key);
      SameKey(was.alerts[key.2].matcher, nrt.alerts[key.2].matcher);
    }
  }

  /** A bit set after the swap was carried over. */
  lemma BitsFrom(was: Runtime, st: State, nrt: Runtime, hs: seq<History>, key: Key)
    ensures var new_ := Swapped(was, st, nrt, hs);
            Get(new_.firing, key) || Get(new_.visible, key) ==> InheritsState(nrt.alerts, was.alerts, IdentityOf(was, nrt), key)
  {
    hide Seeded, SameStrings, InheritsState, IdentityOf;
  }

  lemma KeptAttached(was: Runtime, nrt: Runtime, key: Key)
    requires InheritsState(nrt.alerts, was.alerts, IdentityOf(was, nrt), key)
    ensures key.2 in was.alerts && key.2 in nrt.alerts && key.2 in Listed(nrt.attached, key.1)
    ensures KeyOf(was.alerts[key.2].matcher) == KeyOf(nrt.alerts[key.2].matcher)
  {
    hide SameStrings, SameMeasurement, KeyOf;
  }

  lemma SameKey(a: Spec, b: Spec)
    ensures KeyOf(a) == KeyOf(b) <==> !Redefined(a, b)
  {}

  /** A target without alerts after the reload starts from nothing. */
  lemma AbsentTargetDropped(was: Runtime, st: State, nrt: Runtime, hs: seq<History>, v: string, t: string, n: string)
    requires t !in nrt.attached
    ensures var new_ := Swapped(was, st, nrt, hs);
            WindowOf(new_, v, t) == Window([], []) && !Get(new_.firing, (v, t, n)) && !Get(new_.visible, (v, t, n))
  {
    hide Seeded, InheritsState, SameStrings, SameMeasurement;
    SeededListed(was, nrt, hs, v, t);
    BitsFrom(was, st, nrt, hs, (v, t, n));
    if InheritsState(nrt.alerts, was.alerts, IdentityOf(was, nrt), (v, t, n)) { KeptAttached(was, nrt, (v, t, n)); }
  }

  lemma {:induction false} SeededListed(was: Runtime, nrt: Runtime, hs: seq<History>, v: string, t: string)
    requires t !in nrt.attached
    ensures (v, t) !in Seeded(was, nrt, hs)
    decreases |hs|
  {
    hide Seedable, WindowCap;
    if |hs| > 0 {
      SeededListed(was, nrt, hs[..|hs| - 1], v, t);
    }
  }

  // ---- a target that a reload leaves alone ----

  /** The first passes of two engines that agree on a target: the same verdicts, and still the same bits. */
  lemma {:induction false} RaiseSame(
    alerts: map<string, Alert>, others: map<string, Alert>, v: string, t: string, w: Window,
    a: map<Key, bool>, b: map<Key, bool>, all: seq<string>, names: seq<string>)
    requires AgreeOn(alerts, others, all) && SameBits(alerts, all, a, b, v, t)
    requires forall n :: n in names ==> n in all
    ensures Raise(alerts, v, t, w, a, names).1 == Raise(others, v, t, w, b, names).1
    ensures SameBits(alerts, all, Raise(alerts, v, t, w, a, names).0, Raise(others, v, t, w, b, names).0, v, t)
    decreases |names|
  {
    hide Test, SameStrings;
    if |names| > 0 {
      RaiseSame(alerts, others, v, t, w, a, b, all, names[..|names| - 1]);
      assert names[|names| - 1] in all;
    }
  }

  lemma {:induction false} TopSame(alerts: map<string, Alert>, others: map<string, Alert>, all: seq<string>, pend: seq<Pend>)
    requires AgreeOn(alerts, others, all) && forall p :: p in pend ==> p.name in all
    ensures Top(alerts, pend) == Top(others, pend)
    decreases |pend|
  {
    hide SameStrings;
    if |pend| > 0 {
      TopSame(alerts, others, all, pend[..|pend| - 1]);
      assert pend[|pend| - 1].name in all;
    }
  }

  lemma {:induction false} EmitSame(
    alerts: map<string, Alert>, others: map<string, Alert>, r: Round, top: int, a: map<Key, bool>, b: map<Key, bool>, all: seq<string>, pend: seq<Pend>)
    requires AgreeOn(alerts, others, all) && SameBits(alerts, all, a, b, r.vantage, r.id) && WellNamed(alerts)
    requires forall p :: p in pend ==> p.name in all && p.name in alerts
    ensures AllKnown(alerts, pend) && AllKnown(others, pend)
    ensures Emit(alerts, r, top, a, pend).1 == Emit(others, r, top, b, pend).1
    ensures SameBits(alerts, all, Emit(alerts, r, top, a, pend).0, Emit(others, r, top, b, pend).0, r.vantage, r.id)
    decreases |pend|
  {
    hide SameStrings;
    if |pend| > 0 {
      var p := pend[|pend| - 1];
      assert p in pend;
      EmitSame(alerts, others, r, top, a, b, all, pend[..|pend| - 1]);
    }
  }

  lemma JudgeSame(
    alerts: map<string, Alert>, others: map<string, Alert>, r: Round, w: Window, a: State, b: State, names: seq<string>)
    requires AgreeOn(alerts, others, names) && WellNamed(alerts)
    requires SameBits(alerts, names, a.firing, b.firing, r.vantage, r.id) && SameBits(alerts, names, a.visible, b.visible, r.vantage, r.id)
    ensures var (f, vis, events) := Judge(alerts, r, w, a.firing, a.visible, names);
            var (f', vis', events') := Judge(others, r, w, b.firing, b.visible, names);
            events == events' && SameBits(alerts, names, f, f', r.vantage, r.id) && SameBits(alerts, names, vis, vis', r.vantage, r.id)
  {
    hide Raise, Emit, Top, AgreeOn, SameBits, AllKnown, WellNamed;
    var v, t := r.vantage, r.id;
    RaiseSame(alerts, others, v, t, w, a.firing, b.firing, names, names);
    RaiseNames(alerts, v, t, w, a.firing, names);
    RaiseKnown(others, v, t, w, b.firing, names);
    RaiseKnown(alerts, v, t, w, a.firing, names);
    var pend := Raise(alerts, v, t, w, a.firing, names).1;
    TopSame(alerts, others, names, pend);
    EmitSame(alerts, others, r, Top(alerts, pend), a.visible, b.visible, names, pend);
  }

  lemma {:induction false} CapSame(alerts: map<string, Alert>, others: map<string, Alert>, all: seq<string>, names: seq<string>)
    requires AgreeOn(alerts, others, all) && forall n :: n in names ==> n in all
    ensures WindowCap(alerts, names) == WindowCap(others, names)
    decreases |names|
  {
    hide Length, SameStrings;
    if |names| > 0 {
      CapSame(alerts, others, all, names[..|names| - 1]);
      assert names[|names| - 1] in all;
    }
  }

  lemma SameElements(x: seq<string>, y: seq<string>)
    requires SameStrings(x, y)
    ensures Elements(x) == Elements(y)
  {
    assert forall e :: e in x <==> e in multiset(x);
    assert forall e :: e in y <==> e in multiset(y);
  }

  predicate EventsNamed(events: seq<Event>, names: seq<string>) { forall e :: e in events ==> e.alert in names }

  lemma {:induction false} EmitNamed(alerts: map<string, Alert>, r: Round, top: int, visible: map<Key, bool>, pend: seq<Pend>, names: seq<string>)
    requires WellNamed(alerts) && AllKnown(alerts, pend) && forall p :: p in pend ==> p.name in names
    ensures EventsNamed(Emit(alerts, r, top, visible, pend).1, names)
    decreases |pend|
  {
    hide Emits;
    if |pend| > 0 {
      EmitNamed(alerts, r, top, visible, pend[..|pend| - 1], names);
      assert pend[|pend| - 1] in pend;
    }
  }

  lemma JudgeNamed(alerts: map<string, Alert>, r: Round, w: Window, st: State, names: seq<string>)
    requires WellNamed(alerts)
    ensures EventsNamed(Judge(alerts, r, w, st.firing, st.visible, names).2, names)
  {
    hide Raise, Emit, Top, AllKnown, EventsNamed, WellNamed;
    RaiseNames(alerts, r.vantage, r.id, w, st.firing, names);
    RaiseKnown(alerts, r.vantage, r.id, w, st.firing, names);
    var pend := Raise(alerts, r.vantage, r.id, w, st.firing, names).1;
    EmitNamed(alerts, r, Top(alerts, pend), st.visible, pend, names);
  }

  lemma {:induction false} DeliverSame(was: Runtime, nrt: Runtime, t: string, events: seq<Event>)
    requires Unchanged(was, nrt, t) && EventsNamed(events, was.attached[t])
    ensures Deliver(was, t, events) == Deliver(nrt, t, events)
    decreases |events|
  {
    hide Unchanged, Recipients;
    if |events| > 0 {
      var e := events[|events| - 1];
      assert e in events;
      DeliverSame(was, nrt, t, events[..|events| - 1]);
      RecipientsSame(was, nrt, t, e.alert);
    }
  }

  lemma RecipientsSame(was: Runtime, nrt: Runtime, t: string, n: string)
    requires Unchanged(was, nrt, t) && n in was.attached[t]
    ensures Recipients(was, t, n) == Recipients(nrt, t, n)
  {
    hide Elements, SameStrings;
    SameElements(Listed(was.alertee, t), Listed(nrt.alertee, t));
    if n in was.alerts {
      SameElements(was.alerts[n].to, nrt.alerts[n].to);
    }
  }

  /** The deliveries for one target as seen from one vantage. */
  function DeliveriesFor(ds: seq<Delivery>, v: string, t: string): seq<Delivery>
    decreases |ds|
  {
    if |ds| == 0 then []
    else
      var d := ds[|ds| - 1];
      DeliveriesFor(ds[..|ds| - 1], v, t) + if d.id == t && d.ev.vantage == v then [d] else []
  }

  lemma {:induction false} DeliveriesConcat(a: seq<Delivery>, b: seq<Delivery>, v: string, t: string)
    ensures DeliveriesFor(a + b, v, t) == DeliveriesFor(a, v, t) + DeliveriesFor(b, v, t)
    decreases |b|
  {
    if |b| == 0 {
      assert a + b == a;
    } else {
      var n := |b| - 1;
      DeliveriesConcat(a, b[..n], v, t);
      assert (a + b)[..|a| + n] == a + b[..n];
    }
  }

  /** A round of another target or vantage: nothing changes here, nothing is delivered here. */
  lemma OtherRound(rt: Runtime, st: State, o: Outcome, v: string, t: string)
    requires WellNamed(rt.alerts) && (o.r.vantage, o.r.id) != (v, t)
    ensures LaneSame(rt.alerts, Listed(rt.attached, t), st, EvalOne(rt, st, o).0, v, t)
    ensures DeliveriesFor(EvalOne(rt, st, o).1, v, t) == []
  {
    hide EvalOne, Get, WellNamed, Stream, RoundRule, Inhibited, Now, DeliveriesFor;
    forall n | n in Listed(rt.attached, t) && n in rt.alerts
      ensures Get(st.firing, (v, t, n)) == Get(EvalOne(rt, st, o).0.firing, (v, t, n))
      ensures Get(st.visible, (v, t, n)) == Get(EvalOne(rt, st, o).0.visible, (v, t, n))
    {
      EvalOneStream(rt, st, o, (v, t, n));
    }
    OtherWindow(rt, st, o, v, t);
  }

  lemma OtherWindow(rt: Runtime, st: State, o: Outcome, v: string, t: string)
    requires (o.r.vantage, o.r.id) != (v, t)
    ensures WindowOf(EvalOne(rt, st, o).0, v, t) == WindowOf(st, v, t)
    ensures DeliveriesFor(EvalOne(rt, st, o).1, v, t) == []
  {
    hide Judge, Push, Deliver, DeliveriesFor;
    if Ignored(rt, o) {
      NothingFor(v, t);
    } else {
      var names, w := Listed(rt.attached, o.r.id), Pushed(rt, st, o.r);
      JudgeFrom(rt.alerts, o.r, w, st.firing, st.visible, names);
      NoneFor(rt, o.r.vantage, o.r.id, Judge(rt.alerts, o.r, w, st.firing, st.visible, names).2, v, t);
    }
  }

  lemma NothingFor(v: string, t: string)
    ensures DeliveriesFor([], v, t) == []
  {}

  lemma {:induction false} NoneFor(rt: Runtime, v: string, t: string, events: seq<Event>, v': string, t': string)
    requires AllFrom(events, v) && (v, t) != (v', t')
    ensures DeliveriesFor(Deliver(rt, t, events), v', t') == []
    decreases |events|
  {
    hide Recipients;
    if |events| > 0 {
      var n := |events| - 1;
      assert events[n] in events;
      NoneFor(rt, v, t, events[..n], v', t');
      assert Deliver(rt, t, events)[..n] == Deliver(rt, t, events[..n]);
    }
  }

  /** A round of the target itself: the two engines deliver the same and still remember the same. */
  lemma OwnRound(was: Runtime, nrt: Runtime, a: State, b: State, o: Outcome, v: string, t: string)
    requires Unchanged(was, nrt, t) && WellNamed(was.alerts) && (o.r.vantage, o.r.id) == (v, t)
    requires LaneSame(was.alerts, Listed(was.attached, t), a, b, v, t)
    ensures EvalOne(was, a, o).1 == EvalOne(nrt, b, o).1
    ensures LaneSame(was.alerts, Listed(was.attached, t), EvalOne(was, a, o).0, EvalOne(nrt, b, o).0, v, t)
  {
    hide Judge, WindowCap, AppendCap, Deliver, SameBits, AgreeOn, WellNamed, Unchanged, EventsNamed;
    UnchangedParts(was, nrt, t, o);
    if !Ignored(was, o) {
      var names := was.attached[t];
      CapSame(was.alerts, nrt.alerts, names, names);
      var w := Pushed(was, a, o.r);
      JudgeSame(was.alerts, nrt.alerts, o.r, w, a, b, names);
      JudgeNamed(was.alerts, o.r, w, a, names);
      DeliverSame(was, nrt, t, Judge(was.alerts, o.r, w, a.firing, a.visible, names).2);
    }
  }

  lemma UnchangedParts(was: Runtime, nrt: Runtime, t: string, o: Outcome)
    requires Unchanged(was, nrt, t)
    ensures t in was.attached && Listed(was.attached, t) == Listed(nrt.attached, t) == was.attached[t]
    ensures AgreeOn(was.alerts, nrt.alerts, was.attached[t])
    ensures o.r.id == t ==> (Ignored(was, o) <==> Ignored(nrt, o))
  {
    hide AgreeOn, SameStrings;
  }

  lemma LaneTransfer(was: Runtime, nrt: Runtime, t: string, v: string, a: State, b: State, a': State, b': State)
    requires Unchanged(was, nrt, t)
    requires LaneSame(was.alerts, Listed(was.attached, t), a, b, v, t)
    requires LaneSame(was.alerts, Listed(was.attached, t), a, a', v, t)
    requires LaneSame(nrt.alerts, Listed(nrt.attached, t), b, b', v, t)
    ensures LaneSame(was.alerts, Listed(was.attached, t), a', b', v, t)
  {
    hide SameStrings, SameAlert;
  }

  lemma {:induction false} LaneRuns(was: Runtime, nrt: Runtime, a: State, b: State, os: seq<Outcome>, v: string, t: string)
    requires WellNamed(was.alerts) && WellNamed(nrt.alerts) && Unchanged(was, nrt, t)
    requires LaneSame(was.alerts, Listed(was.attached, t), a, b, v, t)
    ensures var (a', ds) := EvalAll(was, a, os);
            var (b', ds') := EvalAll(nrt, b, os);
            && DeliveriesFor(ds, v, t) == DeliveriesFor(ds', v, t)
            && LaneSame(was.alerts, Listed(was.attached, t), a', b', v, t)
    decreases |os|
  {
    hide EvalOne, LaneSame, Unchanged, DeliveriesFor, WellNamed;
    if |os| > 0 {
      var n := |os| - 1;
      LaneRuns(was, nrt, a, b, os[..n], v, t);
      var (a1, ds) := EvalAll(was, a, os[..n]);
      var (b1, ds') := EvalAll(nrt, b, os[..n]);
      var o := os[n];
      DeliveriesConcat(ds, EvalOne(was, a1, o).1, v, t);
      DeliveriesConcat(ds', EvalOne(nrt, b1, o).1, v, t);
      if (o.r.vantage, o.r.id) == (v, t) {
        OwnRound(was, nrt, a1, b1, o, v, t);
      } else {
        OtherRound(was, a1, o, v, t);
        OtherRound(nrt, b1, o, v, t);
        LaneTransfer(was, nrt, t, v, a1, b1, EvalOne(was, a1, o).0, EvalOne(nrt, b1, o).0);
      }
    }
  }

  /** Reload transparency. For a target the reload leaves alone, from every vantage with a live window:
      on every later run the new runtime delivers the same events to the same recipients as the old one
      would have, whatever the reload did to other targets and alerts and whatever was seeded first. */
  lemma ReloadTransparent(was: Runtime, st: State, nrt: Runtime, hs: seq<History>, os: seq<Outcome>, v: string, t: string)
    requires WellNamed(was.alerts) && WellNamed(nrt.alerts) && Unchanged(was, nrt, t) && (v, t) in st.win
    ensures DeliveriesFor(EvalAll(was, st, os).1, v, t) == DeliveriesFor(EvalAll(nrt, Swapped(was, st, nrt, hs), os).1, v, t)
  {
    hide EvalAll, LaneSame, Unchanged, DeliveriesFor, WellNamed, Swapped;
    SwapKeepsLane(was, st, nrt, hs, v, t);
    LaneRuns(was, nrt, st, Swapped(was, st, nrt, hs), os, v, t);
  }
}
