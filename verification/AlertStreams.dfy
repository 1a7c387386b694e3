/** What one evaluation round does to each alert's stream of events, and what whole runs of rounds look
    like to a recipient. */
module AlertStreams {
  import opened Sequences
  import opened Matcher
  import opened AlertEngine

  /** The alerts are filed under their own names. */
  predicate WellNamed(alerts: map<string, Alert>) { forall n :: n in alerts ==> alerts[n].name == n }

  /** The matcher's verdict on the window, given the state before the round. */
  ghost predicate Now(alerts: map<string, Alert>, v: string, t: string, w: Window, firing: map<Key, bool>, n: string) {
    n in alerts && Test(alerts[n].matcher, w, Get(firing, (v, t, n)))
  }

  // ---- the first pass ----

  ghost function Pends(alerts: map<string, Alert>, v: string, t: string, w: Window, firing: map<Key, bool>, names: seq<string>): seq<Pend>
    decreases |names|
  {
    if |names| == 0 then []
    else
      var n := names[|names| - 1];
      Pends(alerts, v, t, w, firing, names[..|names| - 1])
      + if n in alerts then [Pend(n, Now(alerts, v, t, w, firing, n))] else []
  }

  lemma {:induction false} RaiseOthers(
    alerts: map<string, Alert>, v: string, t: string, w: Window, firing: map<Key, bool>, names: seq<string>, key: Key)
    requires (key.0, key.1) != (v, t) || key.2 !in names
    ensures Get(Raise(alerts, v, t, w, firing, names).0, key) == Get(firing, key)
    decreases |names|
  {
    hide Test;
    if |names| > 0 {
      RaiseOthers(alerts, v, t, w, firing, names[..|names| - 1], key);
    }
  }

  lemma NoRepeatsInit(names: seq<string>)
    requires NoRepeats(names) && |names| > 0
    ensures NoRepeats(names[..|names| - 1]) && names[|names| - 1] !in names[..|names| - 1]
  {}

  /** With no name twice, every alert is judged on its own state before the round. */
  lemma {:induction false} RaiseIs(
    alerts: map<string, Alert>, v: string, t: string, w: Window, firing: map<Key, bool>, names: seq<string>)
    requires NoRepeats(names)
    ensures Raise(alerts, v, t, w, firing, names).1 == Pends(alerts, v, t, w, firing, names)
    ensures forall n :: n in names && n in alerts ==>
              Get(Raise(alerts, v, t, w, firing, names).0, (v, t, n)) == Now(alerts, v, t, w, firing, n)
    decreases |names|
  {
    hide Test, NoRepeats;
    if |names| > 0 {
      var init, last := names[..|names| - 1], names[|names| - 1];
      NoRepeatsInit(names);
      RaiseIs(alerts, v, t, w, firing, init);
      RaiseOthers(alerts, v, t, w, firing, init, (v, t, last));
      assert forall n :: n in names ==> n in init || n == last;
    }
  }

  /** The pending verdicts are those of the attached alerts, each once. */
  lemma {:induction false} PendsAre(
    alerts: map<string, Alert>, v: string, t: string, w: Window, firing: map<Key, bool>, names: seq<string>)
    requires NoRepeats(names)
    ensures var pend := Pends(alerts, v, t, w, firing, names);
            && (forall p :: p in pend ==> p.name in names && p.name in alerts && p.firing == Now(alerts, v, t, w, firing, p.name))
            && (forall n :: n in names && n in alerts ==> Pend(n, Now(alerts, v, t, w, firing, n)) in pend)
            && forall i, j :: 0 <= i < j < |pend| ==> pend[i].name != pend[j].name
    decreases |names|
  {
    hide Now, NoRepeats;
    if |names| > 0 {
      var init, last := names[..|names| - 1], names[|names| - 1];
      NoRepeatsInit(names);
      PendsAre(alerts, v, t, w, firing, init);
      var pend := Pends(alerts, v, t, w, firing, init);
      assert forall n :: n in names ==> n in init || n == last;
      assert forall i :: 0 <= i < |pend| ==> pend[i] in pend;
    }
  }

  // ---- inhibition ----

  /** p fires and outranks priority pr. */
  predicate Outranks(alerts: map<string, Alert>, p: Pend, pr: int) {
    p.firing && 1 <= Priority(alerts, p.name) < pr
  }

  lemma {:induction false} TopOutranks(alerts: map<string, Alert>, pend: seq<Pend>, pr: int)
    ensures Top(alerts, pend) >= 0
    ensures (Top(alerts, pend) != 0 && Top(alerts, pend) < pr) <==> exists p :: p in pend && Outranks(alerts, p, pr)
    decreases |pend|
  {
    hide Priority;
    if |pend| > 0 {
      var init, last := pend[..|pend| - 1], pend[|pend| - 1];
      TopOutranks(alerts, init, pr);
      assert last in pend;
      if p :| p in init && Outranks(alerts, p, pr) {
        assert p in pend;
      }
      if p :| p in pend && Outranks(alerts, p, pr) {
        assert p in init || p == last;
      }
      assert Outranks(alerts, last, pr) <==> last.firing && 1 <= Priority(alerts, last.name) < pr;
    }
  }

  /** An alert is suppressed exactly while an alert of strictly higher priority fires. */
  lemma SuppressedIff(alerts: map<string, Alert>, pend: seq<Pend>, n: string)
    ensures Suppressed(alerts, Top(alerts, pend), n) <==>
            Priority(alerts, n) >= 1 && exists p :: p in pend && Outranks(alerts, p, Priority(alerts, n))
  {
    hide Priority, Outranks, Top;
    TopOutranks(alerts, pend, Priority(alerts, n));
  }

  /** An attached alert of strictly higher priority fires in this round. */
  ghost predicate Inhibited(
    alerts: map<string, Alert>, v: string, t: string, w: Window, firing: map<Key, bool>, names: seq<string>, n: string)
  {
    && Priority(alerts, n) >= 1
    && exists m :: m in names && Now(alerts, v, t, w, firing, m) && 1 <= Priority(alerts, m) < Priority(alerts, n)
  }

  lemma InhibitedIff(
    alerts: map<string, Alert>, v: string, t: string, w: Window, firing: map<Key, bool>, names: seq<string>, n: string)
    requires NoRepeats(names)
    ensures Suppressed(alerts, Top(alerts, Pends(alerts, v, t, w, firing, names)), n) <==>
            Inhibited(alerts, v, t, w, firing, names, n)
  {
    hide Priority, Pends, Top, Suppressed, Test, NoRepeats;
    var pend := Pends(alerts, v, t, w, firing, names);
    PendsAre(alerts, v, t, w, firing, names);
    SuppressedIff(alerts, pend, n);
    var pr := Priority(alerts, n);
    if m: string :| m in names && Now(alerts, v, t, w, firing, m) && 1 <= Priority(alerts, m) < pr {
      assert Pend(m, true) in pend && Outranks(alerts, Pend(m, true), pr);
    }
  }

  // ---- the second pass, seen by one recipient ----

  /** The statuses emitted for one alert. */
  function StreamOf(events: seq<Event>, n: string): seq<bool>
    decreases |events|
  {
    if |events| == 0 then []
    else
      var e := events[|events| - 1];
      StreamOf(events[..|events| - 1], n) + if e.alert == n then [e.firing] else []
  }

  lemma StreamSnoc(events: seq<Event>, e: Event, n: string)
    ensures StreamOf(events + [e], n) == StreamOf(events, n) + if e.alert == n then [e.firing] else []
  {
    assert (events + [e])[..|events|] == events;
  }

  lemma {:induction false} EmitOthers(
    alerts: map<string, Alert>, r: Round, top: int, visible: map<Key, bool>, pend: seq<Pend>, key: Key)
    requires WellNamed(alerts) && AllKnown(alerts, pend)
    requires (key.0, key.1) != (r.vantage, r.id) || forall p :: p in pend ==> p.name != key.2
    ensures var (vis, events) := Emit(alerts, r, top, visible, pend);
            && Get(vis, key) == Get(visible, key)
            && ((forall p :: p in pend ==> p.name != key.2) ==> StreamOf(events, key.2) == [])
    decreases |pend|
  {
    hide Emits, StreamOf;
    if |pend| > 0 {
      var init, last := pend[..|pend| - 1], pend[|pend| - 1];
      EmitOthers(alerts, r, top, visible, init, key);
      StreamSnoc(Emit(alerts, r, top, visible, init).1, EventOf(alerts, r, last), key.2);
    } else {
      NoStream(key.2);
    }
  }

  lemma NoStream(n: string)
    ensures StreamOf([], n) == []
  {}

  /** One alert's part in the second pass. */
  lemma {:induction false} EmitAt(
    alerts: map<string, Alert>, r: Round, top: int, visible: map<Key, bool>, pend: seq<Pend>, p: Pend)
    requires WellNamed(alerts) && AllKnown(alerts, pend) && p in pend
    requires forall i, j :: 0 <= i < j < |pend| ==> pend[i].name != pend[j].name
    ensures var (vis, events) := Emit(alerts, r, top, visible, pend);
            var key := (r.vantage, r.id, p.name);
            var emits := Emits(alerts, top, Get(visible, key), p);
            && StreamOf(events, p.name) == (if emits then [p.firing] else [])
            && Get(vis, key) == if emits then p.firing else Get(visible, key)
    decreases |pend|
  {
    hide Emits, StreamOf;
    var init, last := pend[..|pend| - 1], pend[|pend| - 1];
    var key := (r.vantage, r.id, p.name);
    StreamSnoc(Emit(alerts, r, top, visible, init).1, EventOf(alerts, r, last), p.name);
    if last == p {
      forall q | q in init
        ensures q.name != p.name
      {}
      EmitOthers(alerts, r, top, visible, init, key);
    } else {
      EmitAt(alerts, r, top, visible, init, p);
    }
  }

  // ---- one round ----

  /** What a round does to the alert's delivered bit (`seen` before) and to its stream. */
  predicate RoundRule(edge: bool, fires: bool, inhibited: bool, seen: bool, seen': bool, stream: seq<bool>) {
    if fires then
      if inhibited then stream == [] && seen' == seen
      else seen' && stream == if edge && seen then [] else [true]
    else !seen' && stream == if seen then [false] else []
  }

  /** One round, for one attached alert: it emits FIRING when it fires uninhibited (an edge alert only
      if none is open), RESOLVED when it stopped firing and a FIRING is open, and nothing else. */
  lemma RoundFor(alerts: map<string, Alert>, r: Round, w: Window, firing: map<Key, bool>, visible: map<Key, bool>, names: seq<string>, n: string)
    requires WellNamed(alerts) && NoRepeats(names) && n in names && n in alerts
    ensures var (f, vis, events) := Judge(alerts, r, w, firing, visible, names);
            var key := (r.vantage, r.id, n);
            && Get(f, key) == Now(alerts, r.vantage, r.id, w, firing, n)
            && RoundRule(alerts[n].edge, Get(f, key), Inhibited(alerts, r.vantage, r.id, w, firing, names, n),
                         Get(visible, key), Get(vis, key), StreamOf(events, n))
  {
    hide Raise, Pends, Top, Emit, StreamOf, Inhibited, Now, Suppressed, NoRepeats, WellNamed;
    var v, t := r.vantage, r.id;
    RaiseIs(alerts, v, t, w, firing, names);
    RaiseKnown(alerts, v, t, w, firing, names);
    PendsAre(alerts, v, t, w, firing, names);
    InhibitedIff(alerts, v, t, w, firing, names, n);
    var pend := Pends(alerts, v, t, w, firing, names);
    EmitAt(alerts, r, Top(alerts, pend), visible, pend, Pend(n, Now(alerts, v, t, w, firing, n)));
  }

  /** One round leaves every other stream alone, however its own list of alerts looks. */
  lemma RoundOthers(alerts: map<string, Alert>, r: Round, w: Window, firing: map<Key, bool>, visible: map<Key, bool>, names: seq<string>, key: Key)
    requires WellNamed(alerts)
    requires (key.0, key.1) != (r.vantage, r.id) || key.2 !in names || key.2 !in alerts
    ensures var (f, vis, events) := Judge(alerts, r, w, firing, visible, names);
            && Get(vis, key) == Get(visible, key)
            && ((key.0, key.1) != (r.vantage, r.id) || key.2 !in names ==> Get(f, key) == Get(firing, key))
            && ((key.0, key.1) == (r.vantage, r.id) ==> StreamOf(events, key.2) == [])
  {
    hide Raise, Top, Emit, StreamOf, WellNamed, AllKnown;
    var v, t := r.vantage, r.id;
    RaiseKnown(alerts, v, t, w, firing, names);
    RaiseNames(alerts, v, t, w, firing, names);
    if (key.0, key.1) != (v, t) || key.2 !in names {
      RaiseOthers(alerts, v, t, w, firing, names, key);
    }
    var pend := Raise(alerts, v, t, w, firing, names).1;
    EmitOthers(alerts, r, Top(alerts, pend), visible, pend, key);
  }
}
