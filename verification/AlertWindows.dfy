/** The engine keeps only as many samples as the attached alerts can look at. It emits the same events
    as one that keeps the whole history. */
module AlertWindows {
  import opened Sequences
  import opened Matcher
  import opened AlertEngine
  import opened AlertStreams
  import opened AlertRuntime

  /** The window with nothing cut off. */
  function PushedFull(st: State, r: Round): Window {
    var w := WindowOf(st, r.vantage, r.id);
    Window(w.loss + [r.loss], w.rtt + [r.rtt])
  }

  ghost function EvalOneFull(rt: Runtime, st: State, o: Outcome): (State, seq<Delivery>) {
    if Ignored(rt, o) then (st, [])
    else
      var w := PushedFull(st, o.r);
      var (f, vis, events) := Judge(rt.alerts, o.r, w, st.firing, st.visible, Listed(rt.attached, o.r.id));
      (State(st.win[(o.r.vantage, o.r.id) := w], f, vis), Deliver(rt, o.r.id, events))
  }

  ghost function EvalAllFull(rt: Runtime, st: State, os: seq<Outcome>): (State, seq<Delivery>)
    decreases |os|
  {
    if |os| == 0 then (st, [])
    else
      var (st1, ds) := EvalAllFull(rt, st, os[..|os| - 1]);
      var (st2, more) := EvalOneFull(rt, st1, os[|os| - 1]);
      (st2, ds + more)
  }

  /** Where the newest cap samples start. */
  function Cut(n: nat, cap: int): nat
    requires cap >= 1
  {
    if n > cap then n - cap else 0
  }

  predicate TrimmedWindow(cap: int, w: Window, full: Window)
    requires cap >= 1
  {
    |full.loss| == |full.rtt| && w == Tail(full, Cut(|full.loss|, cap))
  }

  predicate TrimmedAt(rt: Runtime, st: State, full: State, v: string, t: string) {
    TrimmedWindow(WindowCap(rt.alerts, Listed(rt.attached, t)), WindowOf(st, v, t), WindowOf(full, v, t))
  }

  /** Same states, and every window the newest part of the full one. */
  ghost predicate Trimmed(rt: Runtime, st: State, full: State) {
    && st.firing == full.firing && st.visible == full.visible
    && forall v, t :: TrimmedAt(rt, st, full, v, t)
  }

  lemma AppendTrimmed(s: seq<Sample>, x: Sample, cap: int)
    requires cap >= 1
    ensures AppendCap(s[Cut(|s|, cap)..], x, cap) == (s + [x])[Cut(|s| + 1, cap)..]
  {}

  lemma PushTrimmed(cap: int, w: Window, full: Window, loss: Sample, rtt: Sample)
    requires cap >= 1 && TrimmedWindow(cap, w, full)
    ensures TrimmedWindow(cap, Window(AppendCap(w.loss, loss, cap), AppendCap(w.rtt, rtt, cap)), Window(full.loss + [loss], full.rtt + [rtt]))
  {
    hide AppendCap;
    AppendTrimmed(full.loss, loss, cap);
    AppendTrimmed(full.rtt, rtt, cap);
  }

  lemma {:induction false} RaiseTrimmed(
    alerts: map<string, Alert>, v: string, t: string, cap: int, w: Window, full: Window, firing: map<Key, bool>, names: seq<string>)
    requires cap >= 1 && TrimmedWindow(cap, w, full)
    requires forall n :: n in names && n in alerts ==> Length(alerts[n].matcher) <= cap
    ensures Raise(alerts, v, t, w, firing, names) == Raise(alerts, v, t, full, firing, names)
    decreases |names|
  {
    hide Test, Length;
    if |names| > 0 {
      var n := names[|names| - 1];
      RaiseTrimmed(alerts, v, t, cap, w, full, firing, names[..|names| - 1]);
      if n in alerts {
        var f := Raise(alerts, v, t, w, firing, names[..|names| - 1]).0;
        WindowEnough(alerts[n].matcher, full, Cut(|full.loss|, cap), Get(f, (v, t, n)));
      }
    }
  }

  lemma EvalOneTrimmed(rt: Runtime, st: State, full: State, o: Outcome)
    requires Trimmed(rt, st, full)
    ensures Trimmed(rt, EvalOne(rt, st, o).0, EvalOneFull(rt, full, o).0)
    ensures EvalOne(rt, st, o).1 == EvalOneFull(rt, full, o).1
  {
    hide Raise, Emit, Top, Deliver, WindowCap, AppendCap, TrimmedWindow, Ignored;
    if !Ignored(rt, o) {
      var names, r := Listed(rt.attached, o.r.id), o.r;
      var cap := WindowCap(rt.alerts, names);
      var kept, all := WindowOf(st, r.vantage, r.id), WindowOf(full, r.vantage, r.id);
      assert TrimmedAt(rt, st, full, r.vantage, r.id);
      PushTrimmed(cap, kept, all, r.loss, r.rtt);
      RaiseTrimmed(rt.alerts, r.vantage, r.id, cap, Pushed(rt, st, r), PushedFull(full, r), st.firing, names);
      var st', full' := EvalOne(rt, st, o).0, EvalOneFull(rt, full, o).0;
      forall v, t
        ensures TrimmedAt(rt, st', full', v, t)
      {
        assert TrimmedAt(rt, st, full, v, t);
      }
    }
  }

  /** For any attached alerts, hysteresis and patterns alike, and any rounds of any targets, from any state:
      the capped windows lead to the same deliveries, in the same order, and to the same states. */
  lemma {:induction false} CappedIsFull(rt: Runtime, st: State, full: State, os: seq<Outcome>)
    requires Trimmed(rt, st, full)
    ensures EvalAll(rt, st, os).1 == EvalAllFull(rt, full, os).1
    ensures Trimmed(rt, EvalAll(rt, st, os).0, EvalAllFull(rt, full, os).0)
    decreases |os|
  {
    hide EvalOne, EvalOneFull, Trimmed;
    if |os| > 0 {
      var n := |os| - 1;
      CappedIsFull(rt, st, full, os[..n]);
      EvalOneTrimmed(rt, EvalAll(rt, st, os[..n]).0, EvalAllFull(rt, full, os[..n]).0, os[n]);
    }
  }

  // ---- hysteresis in the running engine ----

  /** The samples of one target and vantage: what was there, then those evaluated in a run. */
  function Lane(rt: Runtime, was: Window, os: seq<Outcome>, v: string, t: string): Window
    decreases |os|
  {
    if |os| == 0 then was
    else
      var w, o := Lane(rt, was, os[..|os| - 1], v, t), os[|os| - 1];
      if !Ignored(rt, o) && (o.r.vantage, o.r.id) == (v, t) then Window(w.loss + [o.r.loss], w.rtt + [o.r.rtt]) else w
  }

  lemma {:induction false} FullWindowIsLane(rt: Runtime, full: State, os: seq<Outcome>, v: string, t: string)
    ensures WindowOf(EvalAllFull(rt, full, os).0, v, t) == Lane(rt, WindowOf(full, v, t), os, v, t)
    decreases |os|
  {
    hide Judge, Ignored, Deliver;
    if |os| > 0 {
      FullWindowIsLane(rt, full, os[..|os| - 1], v, t);
    }
  }

  /** The firing state after a round is the matcher's verdict on everything there ever was. */
  lemma FiringOnLane(rt: Runtime, st0: State, full0: State, os: seq<Outcome>, key: Key)
    requires |os| > 0 && SaneFor(rt, key.1) && Concerns(rt, os[|os| - 1], key) && Trimmed(rt, st0, full0)
    ensures var prev := Get(EvalAll(rt, st0, os[..|os| - 1]).0.firing, key);
            Get(EvalAll(rt, st0, os).0.firing, key) ==
            Test(rt.alerts[key.2].matcher, Lane(rt, WindowOf(full0, key.0, key.1), os, key.0, key.1), prev)
  {
    hide Judge, Deliver, WindowCap, Test, WellNamed, NoRepeats, RoundRule, Inhibited, Stream, Length, AppendCap, Lane, EvalAllFull, EvalOneFull;
    var st, o := EvalAll(rt, st0, os[..|os| - 1]).0, os[|os| - 1];
    EvalOneStream(rt, st, o, key);
    CappedIsFull(rt, st0, full0, os);
    FullWindowIsLane(rt, full0, os, key.0, key.1);
    var st', full := EvalAll(rt, st0, os).0, EvalAllFull(rt, full0, os).0;
    assert TrimmedAt(rt, st', full, key.0, key.1);
    assert WindowOf(st', key.0, key.1) == Pushed(rt, st, o.r);
    var cap, lane := WindowCap(rt.alerts, Listed(rt.attached, key.1)), Lane(rt, WindowOf(full0, key.0, key.1), os, key.0, key.1);
    WindowEnough(rt.alerts[key.2].matcher, lane, Cut(|lane.loss|, cap), Get(st.firing, key));
  }

  /** In the running engine, from any state and whatever else it evaluates, a threshold alert fires exactly
      while the last verdict of x consecutive samples of its own target and vantage was bad. The samples may
      begin before the run, in the window; a verdict needs a round of the run. */
  lemma EngineHysteresis(rt: Runtime, st: State, full: State, os: seq<Outcome>, key: Key)
    requires SaneFor(rt, key.1) && key.2 in rt.alerts && key.2 in Listed(rt.attached, key.1) && Trimmed(rt, st, full)
    requires rt.alerts[key.2].matcher.Threshold? && rt.alerts[key.2].matcher.x >= 1
    ensures var m, was := rt.alerts[key.2].matcher, WindowOf(full, key.0, key.1);
            Get(EvalAll(rt, st, os).0.firing, key) <==>
            LastVerdictBad(m.limit, m.x, Series(Lane(rt, was, os, key.0, key.1), m.field), |Series(was, m.field)|, Get(st.firing, key))
  {
    hide LastVerdictBad, EvalAll, Lane, FiringAfter, Trimmed, Get;
    var m, was := rt.alerts[key.2].matcher, WindowOf(full, key.0, key.1);
    EngineFiring(rt, st, full, os, key);
    FiringIff(m.limit, m.x, Series(Lane(rt, was, os, key.0, key.1), m.field), |Series(was, m.field)|, Get(st.firing, key));
  }

  lemma {:induction false} LaneGrows(rt: Runtime, was: Window, os: seq<Outcome>, v: string, t: string, f: Field)
    ensures |Series(was, f)| <= |Series(Lane(rt, was, os, v, t), f)|
    decreases |os|
  {
    hide Ignored;
    if |os| > 0 { LaneGrows(rt, was, os[..|os| - 1], v, t, f); }
  }

  lemma {:induction false} EngineFiring(rt: Runtime, st: State, full: State, os: seq<Outcome>, key: Key)
    requires SaneFor(rt, key.1) && key.2 in rt.alerts && key.2 in Listed(rt.attached, key.1) && Trimmed(rt, st, full)
    requires rt.alerts[key.2].matcher.Threshold?
    ensures var m, was := rt.alerts[key.2].matcher, WindowOf(full, key.0, key.1);
            Get(EvalAll(rt, st, os).0.firing, key) ==
            FiringAfter(m.limit, m.x, Series(Lane(rt, was, os, key.0, key.1), m.field), |Series(was, m.field)|, Get(st.firing, key))
    decreases |os|
  {
    hide EvalOne, Hysteresis, WellNamed, NoRepeats, RoundRule, Inhibited, Stream, Ignored, Now, Pushed, Get, Trimmed;
    if |os| > 0 {
      var m, init, o, was := rt.alerts[key.2].matcher, os[..|os| - 1], os[|os| - 1], WindowOf(full, key.0, key.1);
      EngineFiring(rt, st, full, init, key);
      if Concerns(rt, o, key) {
        FiringOnLane(rt, st, full, os, key);
        LaneGrows(rt, was, init, key.0, key.1, m.field);
        var s := Series(Lane(rt, was, os, key.0, key.1), m.field);
        assert s[..|s| - 1] == Series(Lane(rt, was, init, key.0, key.1), m.field);
      } else {
        EvalOneStream(rt, EvalAll(rt, st, init).0, o, key);
      }
    }
  }
}
