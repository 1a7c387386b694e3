/** Alert evaluation over whole runs of measured rounds, for all targets and vantages at once. */
module AlertRuntime {
  import opened Sequences
  import opened Matcher
  import opened AlertEngine
  import opened AlertStreams

  /** The parts of a runtime that alert evaluation reads: the alerts, and by target id the attached
      alerts, the extra recipients and the measurement fingerprint. */
  datatype Runtime = Runtime(
    alerts: map<string, Alert>, attached: map<string, seq<string>>, alertee: map<string, seq<string>>, fp: map<string, string>)

  /** A measured round and the fingerprint of the definition it was measured under ("" if unstamped). */
  datatype Outcome = Outcome(r: Round, fingerprint: string)

  /** An event on its way to its recipients. */
  datatype Delivery = Delivery(id: string, ev: Event, to: set<string>)

  function Listed(m: map<string, seq<string>>, t: string): seq<string> { if t in m then m[t] else [] }

  function Elements(s: seq<string>): set<string> { set x | x in s }

  /** Dispatch: the alert's notifiers and the target's, each once. */
  function Recipients(rt: Runtime, t: string, n: string): set<string> {
    if n in rt.alerts then Elements(rt.alerts[n].to) + Elements(Listed(rt.alertee, t)) else {}
  }

  /** Nothing attached, or measured under a definition that is no longer the target's. */
  predicate Ignored(rt: Runtime, o: Outcome) {
    || Listed(rt.attached, o.r.id) == []
    || (o.fingerprint != "" && (if o.r.id in rt.fp then rt.fp[o.r.id] else "") != o.fingerprint)
  }

  function Deliver(rt: Runtime, t: string, events: seq<Event>): (ds: seq<Delivery>)
    ensures |ds| == |events|
  {
    if |events| == 0 then []
    else
      var e := events[|events| - 1];
      Deliver(rt, t, events[..|events| - 1]) + [Delivery(t, e, Recipients(rt, t, e.alert))]
  }

  /** runtime.eval on one outcome. */
  ghost function EvalOne(rt: Runtime, st: State, o: Outcome): (State, seq<Delivery>) {
    if Ignored(rt, o) then (st, [])
    else
      var (st', events) := Evaluated(rt.alerts, st, o.r, Listed(rt.attached, o.r.id));
      (st', Deliver(rt, o.r.id, events))
  }

  ghost function EvalAll(rt: Runtime, st: State, os: seq<Outcome>): (State, seq<Delivery>)
    decreases |os|
  {
    if |os| == 0 then (st, [])
    else
      var (st1, ds) := EvalAll(rt, st, os[..|os| - 1]);
      var (st2, more) := EvalOne(rt, st1, os[|os| - 1]);
      (st2, ds + more)
  }

  /** What the recipients of one (vantage, target, alert) see: true for FIRING, false for RESOLVED. */
  function Stream(ds: seq<Delivery>, key: Key): seq<bool>
    decreases |ds|
  {
    if |ds| == 0 then []
    else
      var d := ds[|ds| - 1];
      Stream(ds[..|ds| - 1], key) + if (d.ev.vantage, d.id, d.ev.alert) == key then [d.ev.firing] else []
  }

  /** The alerts are filed under their own names, and this target lists none of them twice. */
  predicate SaneFor(rt: Runtime, t: string) { WellNamed(rt.alerts) && NoRepeats(Listed(rt.attached, t)) }

  // ---- streams of deliveries ----

  lemma {:induction false} StreamConcat(a: seq<Delivery>, b: seq<Delivery>, key: Key)
    ensures Stream(a + b, key) == Stream(a, key) + Stream(b, key)
    decreases |b|
  {
    if |b| == 0 {
      assert a + b == a;
    } else {
      var n := |b| - 1;
      StreamConcat(a, b[..n], key);
      assert (a + b)[..|a| + n] == a + b[..n];
    }
  }

  predicate AllFrom(events: seq<Event>, v: string) { forall e :: e in events ==> e.vantage == v }

  lemma {:induction false} EmitFrom(alerts: map<string, Alert>, r: Round, top: int, visible: map<Key, bool>, pend: seq<Pend>)
    requires AllKnown(alerts, pend)
    ensures AllFrom(Emit(alerts, r, top, visible, pend).1, r.vantage)
    decreases |pend|
  {
    hide Emits;
    if |pend| > 0 {
      EmitFrom(alerts, r, top, visible, pend[..|pend| - 1]);
    }
  }

  lemma {:induction false} StreamDelivered(rt: Runtime, v: string, t: string, events: seq<Event>, key: Key)
    requires AllFrom(events, v)
    ensures Stream(Deliver(rt, t, events), key) == if (key.0, key.1) == (v, t) then StreamOf(events, key.2) else []
    decreases |events|
  {
    hide Recipients;
    if |events| > 0 {
      var n := |events| - 1;
      var init := Deliver(rt, t, events[..n]);
      assert AllFrom(events[..n], v);
      StreamDelivered(rt, v, t, events[..n], key);
      assert events[n] in events;
      assert Deliver(rt, t, events)[..n] == init;
    }
  }

  // ---- one round ----

  /** The window a round is judged on. */
  function Pushed(rt: Runtime, st: State, r: Round): Window {
    Push(rt.alerts, Listed(rt.attached, r.id), WindowOf(st, r.vantage, r.id), r)
  }

  /** The round concerns this stream. */
  predicate Concerns(rt: Runtime, o: Outcome, key: Key) {
    !Ignored(rt, o) && (key.0, key.1) == (o.r.vantage, o.r.id) && key.2 in Listed(rt.attached, key.1) && key.2 in rt.alerts
  }

  /** A round either follows the round rule for a stream or leaves it alone. */
  lemma EvalOneStream(rt: Runtime, st: State, o: Outcome, key: Key)
    requires WellNamed(rt.alerts)
    requires Concerns(rt, o, key) ==> NoRepeats(Listed(rt.attached, key.1))
    ensures var (st', ds) := EvalOne(rt, st, o);
            if Concerns(rt, o, key) then
              var names, w := Listed(rt.attached, key.1), Pushed(rt, st, o.r);
              && Get(st'.firing, key) == Now(rt.alerts, key.0, key.1, w, st.firing, key.2)
              && RoundRule(rt.alerts[key.2].edge, Get(st'.firing, key), Inhibited(rt.alerts, key.0, key.1, w, st.firing, names, key.2),
                           Get(st.visible, key), Get(st'.visible, key), Stream(ds, key))
            else
              && Stream(ds, key) == [] && Get(st'.visible, key) == Get(st.visible, key)
              && (key.2 in rt.alerts ==> Get(st'.firing, key) == Get(st.firing, key))
  {
    hide Push, Judge, Stream, Deliver, Now, Inhibited, RoundRule, Get, WellNamed, NoRepeats;
    if !Ignored(rt, o) {
      var names, w := Listed(rt.attached, o.r.id), Pushed(rt, st, o.r);
      var (f, vis, events) := Judge(rt.alerts, o.r, w, st.firing, st.visible, names);
      JudgeFrom(rt.alerts, o.r, w, st.firing, st.visible, names);
      StreamDelivered(rt, o.r.vantage, o.r.id, events, key);
      if Concerns(rt, o, key) {
        RoundFor(rt.alerts, o.r, w, st.firing, st.visible, names, key.2);
      } else {
        RoundOthers(rt.alerts, o.r, w, st.firing, st.visible, names, key);
      }
    } else {
      EmptyStream(key);
    }
  }

  lemma EmptyStream(key: Key)
    ensures Stream([], key) == []
  {}

  lemma JudgeFrom(alerts: map<string, Alert>, r: Round, w: Window, firing: map<Key, bool>, visible: map<Key, bool>, names: seq<string>)
    ensures AllFrom(Judge(alerts, r, w, firing, visible, names).2, r.vantage)
  {
    hide Raise, Emit, Top, AllKnown;
    RaiseKnown(alerts, r.vantage, r.id, w, firing, names);
    var pend := Raise(alerts, r.vantage, r.id, w, firing, names).1;
    EmitFrom(alerts, r, Top(alerts, pend), visible, pend);
  }

  // ---- whole runs ----

  /** FIRING and RESOLVED in turn, FIRING first. */
  predicate Alternates(s: seq<bool>) { forall i :: 0 <= i < |s| ==> s[i] == (i % 2 == 0) }

  /** No RESOLVED without a FIRING since the last RESOLVED. */
  predicate NoOrphan(s: seq<bool>) { forall i :: 0 <= i < |s| && !s[i] ==> i > 0 && s[i - 1] }

  predicate LastFiring(s: seq<bool>) { |s| > 0 && s[|s| - 1] }

  predicate StreamOk(edge: bool, s: seq<bool>, seen: bool) {
    NoOrphan(s) && seen == LastFiring(s) && (edge ==> Alternates(s))
  }

  lemma StreamGrows(edge: bool, s: seq<bool>, seen: bool, fires: bool, inhibited: bool, seen': bool, more: seq<bool>)
    requires StreamOk(edge, s, seen) && RoundRule(edge, fires, inhibited, seen, seen', more)
    ensures StreamOk(edge, s + more, seen')
  {
    assert s + [] == s;
    if edge && s != [] {
      assert s[|s| - 1] == ((|s| - 1) % 2 == 0);
    }
  }

  /** What the recipients were left with when a run begins: an open FIRING, or nothing. */
  function Open(seen: bool): seq<bool> { if seen then [true] else [] }

  /** On every run from any state, in any mix of targets and vantages: the delivered bit of a stream is set
      exactly if its last event was FIRING; no RESOLVED is an orphan; an edge-triggered stream alternates. A
      FIRING open at the start counts as the first event. */
  lemma {:induction false} RunStreams(rt: Runtime, st0: State, os: seq<Outcome>, key: Key)
    requires SaneFor(rt, key.1) && key.2 in rt.alerts
    ensures var (st, ds) := EvalAll(rt, st0, os);
            StreamOk(rt.alerts[key.2].edge, Open(Get(st0.visible, key)) + Stream(ds, key), Get(st.visible, key))
    decreases |os|
  {
    hide EvalOne, Stream, StreamOk, Concerns, RoundRule, Get, WellNamed, NoRepeats, Now, Inhibited, Pushed, Open;
    var open := Open(Get(st0.visible, key));
    if |os| == 0 {
      OpenStream(rt.alerts[key.2].edge, Get(st0.visible, key), key);
    } else {
      var n := |os| - 1;
      RunStreams(rt, st0, os[..n], key);
      var (st, ds) := EvalAll(rt, st0, os[..n]);
      var (st', more) := EvalOne(rt, st, os[n]);
      EvalOneStream(rt, st, os[n], key);
      StreamConcat(ds, more, key);
      assert open + (Stream(ds, key) + Stream(more, key)) == open + Stream(ds, key) + Stream(more, key);
      var edge, seen, seen' := rt.alerts[key.2].edge, Get(st.visible, key), Get(st'.visible, key);
      if Concerns(rt, os[n], key) {
        var names, w := Listed(rt.attached, key.1), Pushed(rt, st, os[n].r);
        StreamGrows(edge, open + Stream(ds, key), seen, Get(st'.firing, key),
                    Inhibited(rt.alerts, key.0, key.1, w, st.firing, names, key.2), seen', Stream(more, key));
      } else {
        assert Stream(ds, key) + [] == Stream(ds, key);
      }
    }
  }

  lemma OpenStream(edge: bool, seen: bool, key: Key)
    ensures StreamOk(edge, Open(seen) + Stream([], key), seen)
  {
    assert Stream([], key) == [];
  }

  /** An attached alert of strictly higher priority is firing. */
  ghost predicate Overruled(rt: Runtime, st: State, key: Key) {
    && Priority(rt.alerts, key.2) >= 1
    && exists m :: m in Listed(rt.attached, key.1) && m in rt.alerts && Get(st.firing, (key.0, key.1, m))
                   && 1 <= Priority(rt.alerts, m) < Priority(rt.alerts, key.2)
  }

  /** The recipients' view never claims more than the matchers say; and it claims as much unless an
      alert of strictly higher priority fires. */
  ghost predicate ViewOk(rt: Runtime, st: State, key: Key) {
    && (Get(st.visible, key) ==> Get(st.firing, key))
    && (Get(st.firing, key) && !Overruled(rt, st, key) ==> Get(st.visible, key))
  }

  lemma InhibitedAfter(rt: Runtime, st: State, o: Outcome, key: Key)
    requires SaneFor(rt, key.1) && Concerns(rt, o, key)
    ensures Inhibited(rt.alerts, key.0, key.1, Pushed(rt, st, o.r), st.firing, Listed(rt.attached, key.1), key.2) <==>
            Overruled(rt, EvalOne(rt, st, o).0, key)
  {
    hide EvalOne, Get, Now, Pushed, Ignored, Priority, RoundRule;
    var st', w := EvalOne(rt, st, o).0, Pushed(rt, st, o.r);
    forall m | m in Listed(rt.attached, key.1) && m in rt.alerts
      ensures Get(st'.firing, (key.0, key.1, m)) == Now(rt.alerts, key.0, key.1, w, st.firing, m)
    {
      EvalOneStream(rt, st, o, (key.0, key.1, m));
    }
    assert forall m :: Now(rt.alerts, key.0, key.1, w, st.firing, m) ==> m in rt.alerts by { NowKnown(rt.alerts, key.0, key.1, w, st.firing); }
  }

  lemma NowKnown(alerts: map<string, Alert>, v: string, t: string, w: Window, firing: map<Key, bool>)
    ensures forall m :: Now(alerts, v, t, w, firing, m) ==> m in alerts
  {}

  lemma UnconcernedSame(rt: Runtime, st: State, o: Outcome, key: Key)
    requires SaneFor(rt, key.1) && !Concerns(rt, o, key) && key.2 in rt.alerts && key.2 in Listed(rt.attached, key.1)
    ensures Overruled(rt, EvalOne(rt, st, o).0, key) <==> Overruled(rt, st, key)
  {
    hide EvalOne, Get, Now, Pushed, Ignored, Priority, RoundRule, Inhibited;
    forall m | m in Listed(rt.attached, key.1) && m in rt.alerts
      ensures Get(EvalOne(rt, st, o).0.firing, (key.0, key.1, m)) == Get(st.firing, (key.0, key.1, m))
    {
      EvalOneStream(rt, st, o, (key.0, key.1, m));
    }
  }

  /** After every run, for every attached alert: delivered implies firing, and firing without a
      higher-priority alert firing implies delivered. Started from a state where this does not hold, as a
      reload may leave it, it holds from the first round that concerns the alert. */
  lemma {:induction false} RunView(rt: Runtime, st0: State, os: seq<Outcome>, key: Key)
    requires SaneFor(rt, key.1) && key.2 in rt.alerts && key.2 in Listed(rt.attached, key.1)
    requires ViewOk(rt, st0, key) || exists o :: o in os && Concerns(rt, o, key)
    ensures ViewOk(rt, EvalAll(rt, st0, os).0, key)
    decreases |os|
  {
    hide EvalOne, Concerns, Get, WellNamed, NoRepeats, Now, Inhibited, Pushed, Overruled, Stream;
    if |os| > 0 {
      var n := |os| - 1;
      var st := EvalAll(rt, st0, os[..n]).0;
      EvalOneStream(rt, st, os[n], key);
      if Concerns(rt, os[n], key) {
        InhibitedAfter(rt, st, os[n], key);
      } else {
        assert forall o :: o in os ==> o in os[..n] || o == os[n];
        RunView(rt, st0, os[..n], key);
        UnconcernedSame(rt, st, os[n], key);
      }
    }
  }

  /** An engine whose windows are seeded, or empty, as at boot. */
  function Booted(win: map<WinKey, Window>): State { State(win, map[], map[]) }

  lemma BootView(rt: Runtime, win: map<WinKey, Window>, key: Key)
    ensures ViewOk(rt, Booted(win), key) && Open(Get(Booted(win).visible, key)) == []
  {}

  // ---- what reaches whom ----

  /** A round of a target without alerts, or measured under a definition that is not the target's any more,
      changes nothing and reaches nobody. */
  lemma StaleDropped(rt: Runtime, st: State, o: Outcome)
    requires || o.r.id !in rt.attached || rt.attached[o.r.id] == []
             || (o.fingerprint != "" && (o.r.id !in rt.fp || rt.fp[o.r.id] != o.fingerprint))
    ensures EvalOne(rt, st, o) == (st, [])
  {
    hide Evaluated;
  }

  /** Any other round is evaluated: its samples are the newest of its window. */
  lemma CurrentJudged(rt: Runtime, st: State, o: Outcome)
    requires o.r.id in rt.attached && rt.attached[o.r.id] != []
    requires o.fingerprint == "" || (o.r.id in rt.fp && rt.fp[o.r.id] == o.fingerprint)
    ensures var w := WindowOf(EvalOne(rt, st, o).0, o.r.vantage, o.r.id);
            w.loss != [] && w.loss[|w.loss| - 1] == o.r.loss && w.rtt != [] && w.rtt[|w.rtt| - 1] == o.r.rtt
  {
    hide Judge, WindowCap, Deliver;
  }

  /** Every event of a round is sent under the target's id to exactly those its alert names and those the
      target itself names, and tells of the round and of an attached alert. */
  lemma DeliveredTo(rt: Runtime, st: State, o: Outcome)
    requires WellNamed(rt.alerts)
    ensures forall d :: d in EvalOne(rt, st, o).1 ==>
              && d.id == o.r.id && o.r.id in rt.attached && Tells(rt.alerts, o.r, rt.attached[o.r.id], d.ev)
              && d.ev.alert in rt.alerts
              && forall x :: x in d.to <==>
                   x in rt.alerts[d.ev.alert].to || (o.r.id in rt.alertee && x in rt.alertee[o.r.id])
  {
    hide Evaluated, Tells, WellNamed, Deliver, Recipients;
    if !Ignored(rt, o) {
      var events := Evaluated(rt.alerts, st, o.r, Listed(rt.attached, o.r.id)).1;
      EventsTell(rt.alerts, st, o.r, Listed(rt.attached, o.r.id));
      DeliverEach(rt, o.r.id, events);
      forall d | d in EvalOne(rt, st, o).1
        ensures && d.id == o.r.id && Tells(rt.alerts, o.r, rt.attached[o.r.id], d.ev) && d.ev.alert in rt.alerts
                && forall x :: x in d.to <==>
                     x in rt.alerts[d.ev.alert].to || (o.r.id in rt.alertee && x in rt.alertee[o.r.id])
      {
        ToldName(rt.alerts, o.r, rt.attached[o.r.id], d.ev);
        RecipientsAre(rt, o.r.id, d.ev.alert);
      }
    }
  }

  lemma ToldName(alerts: map<string, Alert>, r: Round, names: seq<string>, e: Event)
    requires WellNamed(alerts) && Tells(alerts, r, names, e)
    ensures e.alert in alerts
  {}

  lemma RecipientsAre(rt: Runtime, t: string, n: string)
    requires n in rt.alerts
    ensures forall x :: x in Recipients(rt, t, n) <==> x in rt.alerts[n].to || (t in rt.alertee && x in rt.alertee[t])
  {}

  lemma {:induction false} DeliverEach(rt: Runtime, t: string, events: seq<Event>)
    ensures forall d :: d in Deliver(rt, t, events) ==> d.id == t && d.ev in events && d.to == Recipients(rt, t, d.ev.alert)
    decreases |events|
  {
    hide Recipients;
    if |events| > 0 {
      DeliverEach(rt, t, events[..|events| - 1]);
    }
  }

  function Told(ds: seq<Delivery>): (names: seq<string>)
    ensures |names| == |ds|
  {
    seq(|ds|, i requires 0 <= i < |ds| => ds[i].ev.alert)
  }

  lemma {:induction false} DeliverKeeps(rt: Runtime, t: string, events: seq<Event>)
    ensures forall i :: 0 <= i < |events| ==> Deliver(rt, t, events)[i].ev == events[i]
    decreases |events|
  {
    hide Recipients;
    if |events| > 0 { DeliverKeeps(rt, t, events[..|events| - 1]); }
  }

  /** What a round has to say is sent in the order of the target's alert list, each alert at most as often as it is
      listed. */
  lemma DeliveredInOrder(rt: Runtime, st: State, o: Outcome)
    requires WellNamed(rt.alerts)
    ensures Sublist(Told(EvalOne(rt, st, o).1), Listed(rt.attached, o.r.id))
  {
    hide Evaluated, Deliver, Sublist;
    var names, ds := Listed(rt.attached, o.r.id), EvalOne(rt, st, o).1;
    if Ignored(rt, o) {
      NothingTold(names);
      assert Told(ds) == [];
    } else {
      var events := Evaluated(rt.alerts, st, o.r, names).1;
      EventsInOrder(rt.alerts, st, o.r, names);
      DeliverKeeps(rt, o.r.id, events);
      assert Told(ds) == AlertsOf(events);
    }
  }

  lemma NothingTold(names: seq<string>)
    ensures Sublist([], names)
  {}
}
