/** The alert engine: one evaluation round, runs of rounds, and the streams of events they emit. */
module AlertEngine {
  import opened Wrappers
  import opened Matcher

  datatype Alert = Alert(name: string, matcher: Spec, edge: bool, comment: string, to: seq<string>, priority: int)

  /** (vantage, target) and (vantage, target, alert): the state keys. */
  type WinKey = (string, string)
  type Key = (string, string, string)

  datatype Event = Event(
    target: string, vantage: string, alert: string, comment: string, firing: bool, loss: Sample, rttMs: Sample, when: int)

  /** One measured round: what Evaluate gets besides the names of the attached alerts. rtt is in seconds. */
  datatype Round = Round(vantage: string, id: string, display: string, loss: Sample, rtt: Sample, when: int)

  /** What the engine remembers. `visible` is the recipients' view: a FIRING was emitted and is open. */
  datatype State = State(win: map<WinKey, Window>, firing: map<Key, bool>, visible: map<Key, bool>)

  const FRESH := State(map[], map[], map[])

  /** A Go map of booleans: false where absent. */
  predicate Get(m: map<Key, bool>, k: Key) { k in m && m[k] }

  function WindowOf(st: State, v: string, t: string): Window {
    if (v, t) in st.win then st.win[(v, t)] else Window([], [])
  }

  // ---- the sample window ----

  function AppendCap(s: seq<Sample>, v: Sample, cap: int): seq<Sample>
    requires cap >= 1
  {
    var t := s + [v];
    if |t| > cap then t[|t| - cap..] else t
  }

  /** The deepest window any of the attached alerts needs. */
  function WindowCap(alerts: map<string, Alert>, names: seq<string>): (cap: int)
    ensures cap >= 1
    ensures forall n :: n in names && n in alerts ==> Length(alerts[n].matcher) <= cap
    decreases |names|
  {
    if |names| == 0 then 1
    else
      var cap := WindowCap(alerts, names[..|names| - 1]);
      var n := names[|names| - 1];
      if n in alerts && Length(alerts[n].matcher) > cap then Length(alerts[n].matcher) else cap
  }

  function Push(alerts: map<string, Alert>, names: seq<string>, w: Window, r: Round): Window {
    var cap := WindowCap(alerts, names);
    Window(AppendCap(w.loss, r.loss, cap), AppendCap(w.rtt, r.rtt, cap))
  }

  // ---- the two passes ----

  datatype Pend = Pend(name: string, firing: bool)

  /** First pass: every attached alert's matcher state. */
  ghost function Raise(alerts: map<string, Alert>, v: string, t: string, w: Window, firing: map<Key, bool>, names: seq<string>)
    : (map<Key, bool>, seq<Pend>)
    decreases |names|
  {
    if |names| == 0 then (firing, [])
    else
      var (f, pend) := Raise(alerts, v, t, w, firing, names[..|names| - 1]);
      var n := names[|names| - 1];
      if n !in alerts then (f, pend)
      else
        var now := Test(alerts[n].matcher, w, Get(f, (v, t, n)));
        (f[(v, t, n) := now], pend + [Pend(n, now)])
  }

  function Priority(alerts: map<string, Alert>, n: string): int {
    if n in alerts then alerts[n].priority else 0
  }

  /** The highest priority among the firing alerts, 0 for none. */
  function Top(alerts: map<string, Alert>, pend: seq<Pend>): int
    decreases |pend|
  {
    if |pend| == 0 then 0
    else
      var top, p := Top(alerts, pend[..|pend| - 1]), pend[|pend| - 1];
      var pr := Priority(alerts, p.name);
      if p.firing && pr >= 1 && (top == 0 || pr < top) then pr else top
  }

  predicate Suppressed(alerts: map<string, Alert>, top: int, n: string) {
    Priority(alerts, n) >= 1 && top != 0 && Priority(alerts, n) > top
  }

  /** Seconds as milliseconds; what is unknown stays so. */
  function Millis(s: Sample): Sample { if s.Known? then Known(s.v * 1000.0) else Unknown }

  function EventOf(alerts: map<string, Alert>, r: Round, p: Pend): Event
    requires p.name in alerts
  {
    Event(if r.display == "" then r.id else r.display, r.vantage, alerts[p.name].name, alerts[p.name].comment,
          p.firing, r.loss, Millis(r.rtt), r.when)
  }

  /** Second pass for one alert: whether it emits, and its delivered bit afterwards. */
  predicate Emits(alerts: map<string, Alert>, top: int, visible: bool, p: Pend)
    requires p.name in alerts
  {
    if p.firing then !Suppressed(alerts, top, p.name) && !(alerts[p.name].edge && visible) else visible
  }

  predicate AllKnown(alerts: map<string, Alert>, pend: seq<Pend>) { forall p :: p in pend ==> p.name in alerts }

  /** Second pass: what the recipients see. */
  function Emit(alerts: map<string, Alert>, r: Round, top: int, visible: map<Key, bool>, pend: seq<Pend>)
    : (map<Key, bool>, seq<Event>)
    requires AllKnown(alerts, pend)
    decreases |pend|
  {
    if |pend| == 0 then (visible, [])
    else
      var (vis, events) := Emit(alerts, r, top, visible, pend[..|pend| - 1]);
      var p := pend[|pend| - 1];
      var key := (r.vantage, r.id, alerts[p.name].name);
      if Emits(alerts, top, Get(vis, key), p) then (vis[key := p.firing], events + [EventOf(alerts, r, p)])
      else (vis, events)
  }

  lemma {:induction false} RaiseKnown(
    alerts: map<string, Alert>, v: string, t: string, w: Window, firing: map<Key, bool>, names: seq<string>)
    ensures AllKnown(alerts, Raise(alerts, v, t, w, firing, names).1)
    decreases |names|
  {
    hide Test;
    if |names| > 0 {
      RaiseKnown(alerts, v, t, w, firing, names[..|names| - 1]);
    }
  }

  /** Only attached alerts that exist get a verdict. */
  lemma {:induction false} RaiseNames(
    alerts: map<string, Alert>, v: string, t: string, w: Window, firing: map<Key, bool>, names: seq<string>)
    ensures forall p :: p in Raise(alerts, v, t, w, firing, names).1 ==> p.name in names && p.name in alerts
    decreases |names|
  {
    hide Test;
    if |names| > 0 {
      RaiseNames(alerts, v, t, w, firing, names[..|names| - 1]);
    }
  }

  /** What an event says about its round and its alert. */
  predicate Tells(alerts: map<string, Alert>, r: Round, names: seq<string>, e: Event) {
    && e.vantage == r.vantage && e.loss == r.loss && e.when == r.when
    && e.target == (if r.display != "" then r.display else r.id)
    && (match r.rtt case Known(v) => e.rttMs == Known(v * 1000.0) case Unknown => e.rttMs == Unknown)
    && exists n :: n in names && n in alerts && e.alert == alerts[n].name && e.comment == alerts[n].comment
  }

  lemma {:induction false} EmitTells(
    alerts: map<string, Alert>, r: Round, top: int, visible: map<Key, bool>, pend: seq<Pend>, names: seq<string>)
    requires AllKnown(alerts, pend) && forall p :: p in pend ==> p.name in names
    ensures forall e :: e in Emit(alerts, r, top, visible, pend).1 ==> Tells(alerts, r, names, e)
    decreases |pend|
  {
    hide Emits, Tells;
    if |pend| > 0 {
      var init, last := pend[..|pend| - 1], pend[|pend| - 1];
      EmitTells(alerts, r, top, visible, init, names);
      EventTells(alerts, r, last, names);
    }
  }

  lemma EventTells(alerts: map<string, Alert>, r: Round, p: Pend, names: seq<string>)
    requires p.name in alerts && p.name in names
    ensures Tells(alerts, r, names, EventOf(alerts, r, p))
  {}

  /** Every event of a round carries the round's vantage, loss, time and rtt in milliseconds, the display
      name or else the id, and name and comment of an attached alert. */
  lemma EventsTell(alerts: map<string, Alert>, st: State, r: Round, names: seq<string>)
    ensures forall e :: e in Evaluated(alerts, st, r, names).1 ==> Tells(alerts, r, names, e)
  {
    hide Raise, Emit, Top, Push, Tells, AllKnown;
    var w := Push(alerts, names, WindowOf(st, r.vantage, r.id), r);
    RaiseKnown(alerts, r.vantage, r.id, w, st.firing, names);
    RaiseNames(alerts, r.vantage, r.id, w, st.firing, names);
    var pend := Raise(alerts, r.vantage, r.id, w, st.firing, names).1;
    EmitTells(alerts, r, Top(alerts, pend), st.visible, pend, names);
  }

  /** Both passes on a given window. */
  ghost function Judge(alerts: map<string, Alert>, r: Round, w: Window, firing: map<Key, bool>, visible: map<Key, bool>, names: seq<string>)
    : (map<Key, bool>, map<Key, bool>, seq<Event>)
  {
    var (f, pend) := Raise(alerts, r.vantage, r.id, w, firing, names);
    RaiseKnown(alerts, r.vantage, r.id, w, firing, names);
    var (vis, events) := Emit(alerts, r, Top(alerts, pend), visible, pend);
    (f, vis, events)
  }

  /** Evaluate: the new state and the events of the round. */
  ghost function Evaluated(alerts: map<string, Alert>, st: State, r: Round, names: seq<string>): (State, seq<Event>) {
    var w := Push(alerts, names, WindowOf(st, r.vantage, r.id), r);
    var (f, vis, events) := Judge(alerts, r, w, st.firing, st.visible, names);
    (State(st.win[(r.vantage, r.id) := w], f, vis), events)
  }

  // ---- the engine object ----

  class Engine {
    const alerts: map<string, Alert>
    var win: map<WinKey, Window>
    var firing: map<Key, bool>
    var visible: map<Key, bool>

    constructor (alerts: map<string, Alert>)
      ensures this.alerts == alerts && St() == FRESH
    {
      this.alerts, win, firing, visible := alerts, map[], map[], map[];
    }

    function St(): State
      reads this
    {
      State(win, firing, visible)
    }

    method CapFor(names: seq<string>) returns (cap: int)
      ensures cap == WindowCap(alerts, names)
    {
      hide Length;
      cap := 1;
      for i := 0 to |names|
        invariant cap == WindowCap(alerts, names[..i])
      {
        assert names[..i + 1][..i] == names[..i];
        if names[i] in alerts {
          var l := RunLength(alerts[names[i]].matcher);
          if l > cap { cap := l; }
        }
      }
      assert names[..|names|] == names;
    }

    /** The first loop of Evaluate. */
    method FirstPass(v: string, t: string, w: Window, names: seq<string>) returns (pend: seq<Pend>, top: int)
      modifies this`firing
      ensures (firing, pend) == Raise(alerts, v, t, w, old(firing), names)
      ensures top == Top(alerts, pend)
    {
      hide Test, Suppressed;
      pend, top := [], 0;
      for i := 0 to |names|
        invariant (firing, pend) == Raise(alerts, v, t, w, old(firing), names[..i])
        invariant top == Top(alerts, pend)
      {
        var n := names[i];
        assert names[..i + 1][..i] == names[..i];
        if n in alerts {
          var prev := (v, t, n) in firing && firing[(v, t, n)];
          var now := RunTest(alerts[n].matcher, w, prev);
          firing := firing[(v, t, n) := now];
          assert (pend + [Pend(n, now)])[..|pend|] == pend;
          pend := pend + [Pend(n, now)];
          var pr := alerts[n].priority;
          if now && pr >= 1 && (top == 0 || pr < top) { top := pr; }
        }
      }
      assert names[..|names|] == names;
    }

    /** The second loop of Evaluate. */
    method SecondPass(r: Round, pend: seq<Pend>, top: int) returns (events: seq<Event>)
      requires AllKnown(alerts, pend)
      modifies this`visible
      ensures (visible, events) == Emit(alerts, r, top, old(visible), pend)
    {
      hide EventOf, Suppressed;
      events := [];
      for i := 0 to |pend|
        invariant (visible, events) == Emit(alerts, r, top, old(visible), pend[..i])
      {
        var p := pend[i];
        assert pend[..i + 1][..i] == pend[..i];
        var key := (r.vantage, r.id, alerts[p.name].name);
        var seen := key in visible && visible[key];
        if p.firing {
          if Suppressed(alerts, top, p.name) { continue; }
          if alerts[p.name].edge && seen { continue; }
          visible := visible[key := true];
        } else {
          if !seen { continue; }
          visible := visible[key := false];
        }
        events := events + [EventOf(alerts, r, p)];
      }
      assert pend[..|pend|] == pend;
    }

    method Evaluate(r: Round, names: seq<string>) returns (events: seq<Event>)
      modifies this
      ensures (St(), events) == Evaluated(alerts, old(St()), r, names)
      ensures forall e :: e in events ==> Tells(alerts, r, names, e)
    {
      hide Raise, Emit, Top, WindowCap, AppendCap, AllKnown, Tells;
      EventsTell(alerts, St(), r, names);
      var cap := CapFor(names);
      var wk := (r.vantage, r.id);
      var w := if wk in win then win[wk] else Window([], []);
      w := Window(AppendCap(w.loss, r.loss, cap), AppendCap(w.rtt, r.rtt, cap));
      win := win[wk := w];
      RaiseKnown(alerts, r.vantage, r.id, w, firing, names);
      var pend, top := FirstPass(r.vantage, r.id, w, names);
      events := SecondPass(r, pend, top);
    }

    /** SeedWindow: history in place of the window, cut to what the attached alerts look at. */
    method SeedWindow(t: string, v: string, names: seq<string>, loss: seq<Sample>, rtt: seq<Sample>)
      modifies this`win
      ensures win == old(win)[(v, t) := Window(TailCopy(loss, WindowCap(alerts, names)), TailCopy(rtt, WindowCap(alerts, names)))]
    {
      var cap := CapFor(names);
      win := win[(v, t) := Window(TailCopy(loss, cap), TailCopy(rtt, cap))];
    }

    /** The windows of targets still measured the same way. */
    method InheritWindows(prev: Engine, id: ReloadIdentity)
      requires prev != this
      modifies this`win
      ensures win == old(win) + KeptWindows(prev.win, id)
    {
      hide InheritsTarget;
      var todo := prev.win.Keys;
      while todo != {}
        invariant todo <= prev.win.Keys
        invariant win == old(win) + map k | k in prev.win && k !in todo && InheritsTarget(id, k.1) :: prev.win[k]
      {
        var k :| k in todo;
        todo := todo - {k};
        if InheritsTarget(id, k.1) {
          win := win[k := prev.win[k]];
        }
      }
      assert (map k | k in prev.win && k !in todo && InheritsTarget(id, k.1) :: prev.win[k]) == KeptWindows(prev.win, id);
    }

    /** The firing states of alerts still attached and defined the same way. */
    method InheritFiring(prev: Engine, id: ReloadIdentity)
      requires prev != this
      modifies this`firing
      ensures firing == old(firing) + KeptFiring(alerts, prev.alerts, prev.firing, id)
    {
      hide InheritsState;
      var todo := prev.firing.Keys;
      while todo != {}
        invariant todo <= prev.firing.Keys
        invariant firing == old(firing) + map k | k in prev.firing && k !in todo && InheritsState(alerts, prev.alerts, id, k) :: prev.firing[k]
      {
        var k :| k in todo;
        todo := todo - {k};
        if InheritsState(alerts, prev.alerts, id, k) {
          firing := firing[k := prev.firing[k]];
        }
      }
      assert (map k | k in prev.firing && k !in todo && InheritsState(alerts, prev.alerts, id, k) :: prev.firing[k])
          == KeptFiring(alerts, prev.alerts, prev.firing, id);
    }

    /** The delivered bits, where the recipients are the same too. */
    method InheritVisible(prev: Engine, id: ReloadIdentity)
      requires prev != this
      modifies this`visible
      ensures visible == old(visible) + KeptVisible(alerts, prev.alerts, prev.visible, id)
    {
      hide InheritsVisible;
      var todo := prev.visible.Keys;
      while todo != {}
        invariant todo <= prev.visible.Keys
        invariant visible == old(visible) + map k | k in prev.visible && k !in todo && InheritsVisible(alerts, prev.alerts, id, k) :: prev.visible[k]
      {
        var k :| k in todo;
        todo := todo - {k};
        if InheritsVisible(alerts, prev.alerts, id, k) {
          visible := visible[k := prev.visible[k]];
        }
      }
      assert (map k | k in prev.visible && k !in todo && InheritsVisible(alerts, prev.alerts, id, k) :: prev.visible[k])
          == KeptVisible(alerts, prev.alerts, prev.visible, id);
    }

    /** InheritStateFrom: take over from the previous engine what the reload identity allows. */
    method InheritStateFrom(prev: Engine, id: ReloadIdentity)
      requires prev != this
      modifies this
      ensures St() == Inherited(alerts, old(St()), prev.alerts, prev.St(), id)
    {
      hide KeptWindows, KeptFiring, KeptVisible;
      InheritWindows(prev, id);
      InheritFiring(prev, id);
      InheritVisible(prev, id);
    }
  }

  function TailCopy(s: seq<Sample>, n: int): seq<Sample>
    requires n >= 1
  {
    if |s| > n then s[|s| - n..] else s
  }

  // ---- what a reload may carry over ----

  /** Per-target and per-alert identity of a reload; None where the caller does not distinguish. */
  datatype ReloadIdentity = ReloadIdentity(
    validTarget: Option<map<string, bool>>,
    sameTarget: Option<map<string, bool>>,
    attached: Option<map<string, map<string, bool>>>,
    sameAlertee: Option<map<string, bool>>)

  /** A Go map of booleans, keyed by target. */
  predicate Flag(m: map<string, bool>, t: string) { t in m && m[t] }

  predicate Allows(m: Option<map<string, bool>>, t: string) { m.None? || Flag(m.value, t) }

  /** The target is still there, measured the same way. */
  predicate InheritsTarget(id: ReloadIdentity, t: string) { Allows(id.validTarget, t) && Allows(id.sameTarget, t) }

  predicate AttachedNow(id: ReloadIdentity, t: string, n: string) {
    id.attached.None? || (t in id.attached.value && Flag(id.attached.value[t], n))
  }

  /** Defined in both engines with the same matcher, as its key tells. */
  predicate SameMatcher(alerts: map<string, Alert>, was: map<string, Alert>, n: string) {
    n in alerts && n in was && KeyOf(alerts[n].matcher) == KeyOf(was[n].matcher)
  }

  predicate InheritsState(alerts: map<string, Alert>, was: map<string, Alert>, id: ReloadIdentity, k: Key) {
    InheritsTarget(id, k.1) && AttachedNow(id, k.1, k.2) && SameMatcher(alerts, was, k.2)
  }

  /** The same strings, in any order. */
  predicate SameStrings(x: seq<string>, y: seq<string>) { multiset(x) == multiset(y) }

  predicate InheritsVisible(alerts: map<string, Alert>, was: map<string, Alert>, id: ReloadIdentity, k: Key) {
    InheritsState(alerts, was, id, k) && Allows(id.sameAlertee, k.1) && SameStrings(was[k.2].to, alerts[k.2].to)
  }

  function KeptWindows(win: map<WinKey, Window>, id: ReloadIdentity): map<WinKey, Window> {
    map k | k in win && InheritsTarget(id, k.1) :: win[k]
  }

  function KeptFiring(alerts: map<string, Alert>, was: map<string, Alert>, m: map<Key, bool>, id: ReloadIdentity): map<Key, bool> {
    map k | k in m && InheritsState(alerts, was, id, k) :: m[k]
  }

  function KeptVisible(alerts: map<string, Alert>, was: map<string, Alert>, m: map<Key, bool>, id: ReloadIdentity): map<Key, bool> {
    map k | k in m && InheritsVisible(alerts, was, id, k) :: m[k]
  }

  /** The new engine's state after it inherited from the previous one. */
  function Inherited(alerts: map<string, Alert>, st: State, was: map<string, Alert>, prev: State, id: ReloadIdentity): State {
    State(st.win + KeptWindows(prev.win, id),
          st.firing + KeptFiring(alerts, was, prev.firing, id),
          st.visible + KeptVisible(alerts, was, prev.visible, id))
  }

  // ---- the state keys as strings ----

  const NUL := '\0'

  function JoinKey(v: string, t: string, n: string): string { v + [NUL] + t + [NUL] + n }

  /** Up to the first NUL and behind it. */
  function CutNul(s: string): Option<(string, string)> {
    if s == [] then None
    else if s[0] == NUL then Some(([], s[1..]))
    else
      match CutNul(s[1..])
      case None => None
      case Some((a, b)) => Some(([s[0]] + a, b))
  }

  /** splitStateKey: target and alert name of a state key. */
  function SplitKey(s: string): Option<(string, string)> {
    match CutNul(s)
    case None => None
    case Some((_, rest)) => CutNul(rest)
  }

  lemma {:induction false} CutNulIs(a: string, b: string)
    ensures CutNul(a + [NUL] + b).Some?
    ensures var (x, y) := CutNul(a + [NUL] + b).value;
            && |x| <= |a| && |x| + |y| == |a| + |b| && (|x| == |a| <==> NUL !in a) && (NUL !in a ==> x == a && y == b)
            && x + [NUL] + y == a + [NUL] + b
  {
    var s := a + [NUL] + b;
    if a == [] {
      assert s[1..] == b;
    } else {
      CutNulIs(a[1..], b);
      assert s[1..] == a[1..] + [NUL] + b;
      assert s == [a[0]] + (a[1..] + [NUL] + b);
      if a[0] != NUL {
        var (x, y) := CutNul(s[1..]).value;
        assert [a[0]] + x + [NUL] + y == [a[0]] + (x + [NUL] + y);
      } else {
        assert [] + [NUL] + s[1..] == s;
      }
    }
  }

  /** A state key gives its target and alert back exactly when neither vantage nor target holds a NUL. */
  lemma SplitKeyIff(v: string, t: string, n: string)
    ensures SplitKey(JoinKey(v, t, n)) == Some((t, n)) <==> NUL !in v && NUL !in t
  {
    hide CutNul;
    var tn := t + [NUL] + n;
    CutNulIs(v, tn);
    CutNulIs(t, n);
    assert JoinKey(v, t, n) == v + [NUL] + tn;
    var (x, rest) := CutNul(v + [NUL] + tn).value;
    assert SplitKey(JoinKey(v, t, n)) == CutNul(rest) && |tn| == |t| + 1 + |n|;
    if NUL !in v {
      assert rest == tn;
      var (x2, y2) := CutNul(t + [NUL] + n).value;
      assert CutNul(rest) == Some((x2, y2));
    } else if CutNul(rest) == Some((t, n)) {
      SplitLonger(rest, t, n);
    }
  }

  lemma {:induction false} SplitLonger(rest: string, t: string, n: string)
    requires CutNul(rest) == Some((t, n))
    ensures |rest| == |t| + 1 + |n|
    decreases |rest|
  {
    if rest[0] != NUL {
      SplitLonger(rest[1..], t[1..], n);
    }
  }

  // ---- how deep the windows are ----

  /** The windows are no deeper than some attached alert needs. */
  lemma {:induction false} CapIsNeeded(alerts: map<string, Alert>, names: seq<string>)
    ensures WindowCap(alerts, names) == 1
            || exists n :: n in names && n in alerts && WindowCap(alerts, names) == Length(alerts[n].matcher)
    decreases |names|
  {
    hide Length;
    if |names| > 0 {
      var init, last := names[..|names| - 1], names[|names| - 1];
      CapIsNeeded(alerts, init);
      assert last in names && forall n :: n in init ==> n in names;
    }
  }

  // ---- the order of the events ----

  /** xs is ys with some names left out. */
  predicate Sublist(xs: seq<string>, ys: seq<string>)
    decreases |ys|
  {
    || |xs| == 0
    || (|ys| > 0 && Sublist(xs, ys[..|ys| - 1]))
    || (|ys| > 0 && xs[|xs| - 1] == ys[|ys| - 1] && Sublist(xs[..|xs| - 1], ys[..|ys| - 1]))
  }

  function AlertsOf(events: seq<Event>): (names: seq<string>)
    ensures |names| == |events|
  {
    seq(|events|, i requires 0 <= i < |events| => events[i].alert)
  }

  function Verdicts(pend: seq<Pend>): (names: seq<string>)
    ensures |names| == |pend|
  {
    seq(|pend|, i requires 0 <= i < |pend| => pend[i].name)
  }

  lemma {:induction false} RaiseOrder(
    alerts: map<string, Alert>, v: string, t: string, w: Window, firing: map<Key, bool>, names: seq<string>)
    ensures Sublist(Verdicts(Raise(alerts, v, t, w, firing, names).1), names)
    decreases |names|
  {
    hide Test;
    if |names| > 0 {
      var init := names[..|names| - 1];
      RaiseOrder(alerts, v, t, w, firing, init);
      var pend, all := Raise(alerts, v, t, w, firing, init).1, Raise(alerts, v, t, w, firing, names).1;
      if all != pend {
        assert Verdicts(all)[..|all| - 1] == Verdicts(pend);
      }
    }
  }

  lemma {:induction false} EmitOrder(
    alerts: map<string, Alert>, r: Round, top: int, visible: map<Key, bool>, pend: seq<Pend>, names: seq<string>)
    requires AllKnown(alerts, pend) && forall n :: n in alerts ==> alerts[n].name == n
    requires Sublist(Verdicts(pend), names)
    ensures Sublist(AlertsOf(Emit(alerts, r, top, visible, pend).1), names)
    decreases |names|
  {
    hide Emits;
    if |pend| > 0 {
      var init, last := pend[..|pend| - 1], pend[|pend| - 1];
      if Sublist(Verdicts(pend), names[..|names| - 1]) {
        EmitOrder(alerts, r, top, visible, pend, names[..|names| - 1]);
      } else {
        assert Verdicts(pend)[..|pend| - 1] == Verdicts(init);
        EmitOrder(alerts, r, top, visible, init, names[..|names| - 1]);
        EmitLast(alerts, r, top, visible, pend);
      }
    }
  }

  lemma EmitLast(alerts: map<string, Alert>, r: Round, top: int, visible: map<Key, bool>, pend: seq<Pend>)
    requires AllKnown(alerts, pend) && |pend| > 0 && forall n :: n in alerts ==> alerts[n].name == n
    ensures var before, after := Emit(alerts, r, top, visible, pend[..|pend| - 1]).1, Emit(alerts, r, top, visible, pend).1;
            || after == before
            || (|after| > 0 && AlertsOf(after)[|after| - 1] == pend[|pend| - 1].name
                && AlertsOf(after)[..|after| - 1] == AlertsOf(before))
  {
    hide Emits;
  }

  /** The events of a round come in the order of the target's alert list. */
  lemma EventsInOrder(alerts: map<string, Alert>, st: State, r: Round, names: seq<string>)
    requires forall n :: n in alerts ==> alerts[n].name == n
    ensures Sublist(AlertsOf(Evaluated(alerts, st, r, names).1), names)
  {
    hide Raise, Emit, Top, Push, AllKnown, Sublist, AlertsOf, Verdicts;
    var w := Push(alerts, names, WindowOf(st, r.vantage, r.id), r);
    RaiseKnown(alerts, r.vantage, r.id, w, st.firing, names);
    RaiseOrder(alerts, r.vantage, r.id, w, st.firing, names);
    var pend := Raise(alerts, r.vantage, r.id, w, st.firing, names).1;
    EmitOrder(alerts, r, Top(alerts, pend), st.visible, pend, names);
  }
}
