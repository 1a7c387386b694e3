/** The dashboard's graph cache, the whole grid: each refresh reads only rounds newer than a watermark that
    all panels share. Client and server read the same clock. */
module GraphGrid {
  import opened Wrappers
  import opened GraphCache

  /** One vantage's grid: per target the rounds the server shows, the cached panel, and whether the panel
      has held data ever since a read of the whole window filled it; whether a bulk read ever answered;
      the last cutoff. */
  datatype Grid = Grid(server: seq<seq<Bucket>>, panels: seq<Option<Series>>, held: seq<bool>, loaded: bool, cut: int)

  datatype Step =
    | Arrive(k: nat, b: Bucket)                                  // a round of target k becomes visible
    | Refresh(cut: int, answered: bool, backfilled: set<nat>)    // a refresh; which backfills succeeded

  predicate Shaped(g: Grid) { |g.panels| == |g.server| == |g.held| }

  predicate CanStep(g: Grid, step: Step) {
    Shaped(g) && match step
                 case Arrive(k, b) => k < |g.server| && Increasing(g.server[k] + [b])
                 case Refresh(cut, _, _) => g.cut <= cut
  }

  /** The server's effective cutoff: the window's, or the watermark if that is newer. */
  function From(g: Grid, cut: int): int {
    var since := if g.loaded then Since(g.panels) else None;
    if since.Some? && since.value > cut then since.value else cut
  }

  /** What a bulk read brings for one target. */
  function Raw(g: Grid, k: nat, cut: int): seq<Bucket>
    requires k < |g.server|
  {
    Newer(g.server[k], From(g, cut))
  }

  /** Whether a panel without a bulk answer is read on its own. */
  predicate Backfills(g: Grid, k: nat, backfilled: set<nat>)
    requires k < |g.panels|
  {
    (!g.loaded || g.panels[k].None?) && k in backfilled
  }

  /** What a refresh brings for one target. */
  function Incoming(g: Grid, k: nat, cut: int, answered: bool, backfilled: set<nat>): Option<Series>
    requires Shaped(g) && k < |g.server|
  {
    if answered && |Raw(g, k, cut)| > 0 then Some(SeriesOf(Raw(g, k, cut)))
    else if Backfills(g, k, backfilled) then Some(SeriesOf(Backfilled(g.server[k], cut)))
    else None
  }

  function NextPanel(g: Grid, k: nat, cut: int, answered: bool, backfilled: set<nat>): Option<Series>
    requires Shaped(g) && k < |g.server|
  {
    NextSeries(g.panels[k], Incoming(g, k, cut, answered, backfilled), answered, Some(cut))
  }

  /** The panel holds data, and has done so ever since it was filled from the whole window: by a read that
      the watermark did not cut off, or by a backfill. */
  predicate Holds(g: Grid, k: nat, cut: int, answered: bool, now: Option<Series>)
    requires Shaped(g) && k < |g.server|
  {
    && |Buckets(now)| > 0
    && if |Buckets(g.panels[k])| > 0 then g.held[k] else !answered || From(g, cut) == cut || |Raw(g, k, cut)| == 0
  }

  function After(g: Grid, step: Step): Grid
    requires CanStep(g, step)
  {
    match step
    case Arrive(k, b) => g.(server := g.server[k := g.server[k] + [b]])
    case Refresh(cut, answered, backfilled) =>
      var n := |g.panels|;
      var panels := seq(n, k requires 0 <= k < n => NextPanel(g, k, cut, answered, backfilled));
      Grid(g.server, panels, seq(n, k requires 0 <= k < n => Holds(g, k, cut, answered, panels[k])), g.loaded || answered, cut)
  }

  ghost predicate PanelOk(g: Grid, k: nat)
    requires Shaped(g) && k < |g.server|
  {
    && Increasing(g.server[k])
    && CacheOk(Buckets(g.panels[k]), g.server[k])
    && (g.held[k] ==> |Buckets(g.panels[k])| > 0 && NoGap(Buckets(g.panels[k]), g.server[k], g.cut))
    && (!g.loaded ==> NoGap(Buckets(g.panels[k]), g.server[k], g.cut - 1))
  }

  /** Every panel is a contiguous stretch of its target's rounds; one that is held misses none of the
      window, and before the first bulk answer none that lies on the cutoff either. */
  ghost predicate GridOk(g: Grid) { Shaped(g) && forall k :: 0 <= k < |g.server| ==> PanelOk(g, k) }

  lemma ArriveKeeps(cache: seq<Bucket>, rounds: seq<Bucket>, cut: int, b: Bucket)
    requires CacheOk(cache, rounds) && Increasing(rounds + [b])
    ensures CacheOk(cache, rounds + [b])
    ensures NoGap(cache, rounds, cut) ==> NoGap(cache, rounds + [b], cut)
  {
    if |cache| > 0 {
      var i: nat, m: nat :| Stretch(cache, rounds, i, m);
      assert (rounds + [b])[i..m] == rounds[i..m];
      assert Stretch(cache, rounds + [b], i, m);
      assert cache[0] == (rounds + [b])[i] && b == (rounds + [b])[|rounds|];
    }
  }

  /** The server's cutoff passes no panel that holds data. */
  lemma FromBehind(g: Grid, k: nat, cut: int)
    requires k < |g.panels|
    ensures cut <= From(g, cut)
    ensures !g.loaded ==> From(g, cut) == cut
    ensures |Buckets(g.panels[k])| > 0 ==>
              From(g, cut) == cut || cut < From(g, cut) <= Buckets(g.panels[k])[|Buckets(g.panels[k])| - 1].t
  {
    if g.loaded && |Buckets(g.panels[k])| > 0 { SinceIsOldest(g.panels, k); }
  }

  /** The refresh reads the panel alone. */
  predicate ReadAlone(g: Grid, k: nat, cut: int, answered: bool, backfilled: set<nat>)
    requires Shaped(g) && k < |g.server|
  {
    Backfills(g, k, backfilled) && (!answered || |Raw(g, k, cut)| == 0)
  }

  /** What makes a panel equal to a full read of the window after an answered bulk read. */
  predicate Whole(g: Grid, k: nat, cut: int, backfilled: set<nat>)
    requires Shaped(g) && k < |g.server|
  {
    var cache, rounds := Buckets(g.panels[k]), g.server[k];
    if ReadAlone(g, k, cut, true, backfilled) then NoneAt(rounds, cut)
    else if |cache| > 0 then NoneAt(cache, cut) && NoGap(cache, rounds, cut)
    else (g.panels[k].Some? || |Raw(g, k, cut)| > 0) && NoneBetween(rounds, cut, From(g, cut))
  }

  /** A panel that is read alone shows exactly what that read brings. */
  lemma AlonePanel(g: Grid, k: nat, cut: int, answered: bool, backfilled: set<nat>)
    requires GridOk(g) && k < |g.server| && g.cut <= cut && ReadAlone(g, k, cut, answered, backfilled)
    ensures var now, rounds := NextPanel(g, k, cut, answered, backfilled), g.server[k];
            && now == Some(SeriesOf(Backfilled(rounds, cut)))
            && CacheOk(Buckets(now), rounds) && NoGap(Buckets(now), rounds, cut - 1) && NoGap(Buckets(now), rounds, cut)
            && (now == Some(SeriesOf(Refetched(rounds, cut))) <==> NoneAt(rounds, cut))
  {
    hide Newer, CacheOk, Increasing, From, MaxPings, Fresh, NoGap, NoneAt, Merged;
    var rounds, cache := g.server[k], Buckets(g.panels[k]);
    assert PanelOk(g, k);
    FirstFill(None, rounds, cut, cut - 1);
    FloorRises(Backfilled(rounds, cut), rounds, cut - 1, cut);
    BackfilledIff(rounds, cut);
    if |cache| > 0 {
      FloorRises(cache, rounds, g.cut - 1, cut - 1);
      BackfillMerged(cache, rounds, cut, g.panels[k].value.n);
    } else {
      FirstFill(g.panels[k], rounds, cut, cut - 1);
    }
  }

  /** A panel that holds data, read in bulk. */
  lemma FullPanel(g: Grid, k: nat, cut: int, backfilled: set<nat>)
    requires GridOk(g) && k < |g.server| && |Buckets(g.panels[k])| > 0 && !ReadAlone(g, k, cut, true, backfilled)
    ensures var now, cache, rounds := NextPanel(g, k, cut, true, backfilled), Buckets(g.panels[k]), g.server[k];
            && now.Some? && CacheOk(Buckets(now), rounds)
            && (NoGap(cache, rounds, cut) ==> NoGap(Buckets(now), rounds, cut))
            && (now == Some(SeriesOf(Refetched(rounds, cut))) <==> NoneAt(cache, cut) && NoGap(cache, rounds, cut))
  {
    hide Newer, CacheOk, Increasing, From, MaxPings, AtLeast, Fresh, NoGap, NoneAt;
    var rounds, cache := g.server[k], Buckets(g.panels[k]);
    assert PanelOk(g, k);
    var incoming := Incoming(g, k, cut, true, backfilled);
    FromBehind(g, k, cut);
    RefreshIsRefetch(cache, rounds, cut, From(g, cut), incoming, g.panels[k].value.n);
  }

  /** A panel without data, read in bulk. */
  lemma BarePanel(g: Grid, k: nat, cut: int, backfilled: set<nat>)
    requires GridOk(g) && k < |g.server| && |Buckets(g.panels[k])| == 0 && !ReadAlone(g, k, cut, true, backfilled)
    ensures var now, rounds := NextPanel(g, k, cut, true, backfilled), g.server[k];
            && CacheOk(Buckets(now), rounds)
            && (Holds(g, k, cut, true, now) ==> NoGap(Buckets(now), rounds, cut))
            && (now == Some(SeriesOf(Refetched(rounds, cut))) <==> Whole(g, k, cut, backfilled))
  {
    hide Newer, CacheOk, Increasing, From, MaxPings, AtLeast, Fresh, NoGap, NoneAt, NoneBetween, Merged;
    var rounds, prev := g.server[k], g.panels[k];
    assert PanelOk(g, k);
    FromBehind(g, k, cut);
    FirstFill(prev, rounds, cut, From(g, cut));
    SkippedIff(rounds, cut, From(g, cut));
    AgesToNothing(prev, cut);
  }

  /** One panel over one refresh of the grid. */
  lemma PanelStep(g: Grid, k: nat, cut: int, answered: bool, backfilled: set<nat>)
    requires GridOk(g) && k < |g.server| && g.cut <= cut
    ensures var now := NextPanel(g, k, cut, answered, backfilled);
            && CacheOk(Buckets(now), g.server[k])
            && (Holds(g, k, cut, answered, now) ==> NoGap(Buckets(now), g.server[k], cut))
            && (!g.loaded && !answered ==> NoGap(Buckets(now), g.server[k], cut - 1))
  {
    hide Newer, CacheOk, Increasing, From, MaxPings, AtLeast, Fresh, NoGap, Merged, Whole;
    assert PanelOk(g, k);
    var cache := Buckets(g.panels[k]);
    if g.held[k] { FloorRises(cache, g.server[k], g.cut, cut); }
    if !g.loaded { FloorRises(cache, g.server[k], g.cut - 1, cut - 1); }
    if ReadAlone(g, k, cut, answered, backfilled) {
      AlonePanel(g, k, cut, answered, backfilled);
    } else if answered {
      if |cache| > 0 { FullPanel(g, k, cut, backfilled); } else { BarePanel(g, k, cut, backfilled); }
    }
  }

  lemma StepKeeps(g: Grid, step: Step)
    requires GridOk(g) && CanStep(g, step)
    ensures GridOk(After(g, step))
  {
    hide CacheOk, Increasing, NextPanel, Newer, From, NoGap;
    var g' := After(g, step);
    forall k: nat | k < |g'.server|
      ensures PanelOk(g', k)
    {
      assert PanelOk(g, k);
      match step {
        case Arrive(j, b) =>
          if j == k {
            ArriveKeeps(Buckets(g.panels[k]), g.server[k], g.cut, b);
            ArriveKeeps(Buckets(g.panels[k]), g.server[k], g.cut - 1, b);
          }
        case Refresh(cut, answered, backfilled) =>
          PanelStep(g, k, cut, answered, backfilled);
      }
    }
  }

  ghost predicate Run(g: Grid, steps: seq<Step>)
    decreases |steps|
  {
    |steps| == 0 || (CanStep(g, steps[0]) && Run(After(g, steps[0]), steps[1..]))
  }

  ghost function RunEnd(g: Grid, steps: seq<Step>): Grid
    requires Run(g, steps)
    decreases |steps|
  {
    if |steps| == 0 then g else RunEnd(After(g, steps[0]), steps[1..])
  }

  lemma {:induction false} RunKeeps(g: Grid, steps: seq<Step>)
    requires GridOk(g) && Run(g, steps)
    ensures GridOk(RunEnd(g, steps))
    decreases |steps|
  {
    hide GridOk, CanStep, After;
    if |steps| > 0 {
      StepKeeps(g, steps[0]);
      RunKeeps(After(g, steps[0]), steps[1..]);
    }
  }

  /** Before anything was read. */
  predicate Empty(g: Grid) {
    Shaped(g) && !g.loaded && forall k :: 0 <= k < |g.server| ==> g.panels[k] == None && !g.held[k] && Increasing(g.server[k])
  }

  lemma EmptyOk(g: Grid)
    requires Empty(g)
    ensures GridOk(g)
  {
    hide Increasing;
    forall k: nat | k < |g.server|
      ensures PanelOk(g, k)
    {}
  }

  lemma RunOk(g: Grid, steps: seq<Step>)
    requires Empty(g) && Run(g, steps)
    ensures GridOk(RunEnd(g, steps))
  {
    hide Empty, GridOk, Run, RunEnd;
    EmptyOk(g);
    RunKeeps(g, steps);
  }

  /** After any mix of failed and successful refreshes, and any rounds that arrived: a panel equals, after a
      bulk read that answered, a full read of the window, exactly under `Whole`. */
  lemma RefreshWholeIff(g: Grid, steps: seq<Step>, cut: int, backfilled: set<nat>, k: nat)
    requires Empty(g) && Run(g, steps) && CanStep(RunEnd(g, steps), Refresh(cut, true, backfilled))
    requires k < |RunEnd(g, steps).server|
    ensures var e := RunEnd(g, steps);
            After(e, Refresh(cut, true, backfilled)).panels[k] == Some(SeriesOf(Refetched(e.server[k], cut))) <==>
            Whole(e, k, cut, backfilled)
  {
    hide Empty, GridOk, Run, RunEnd;
    RunOk(g, steps);
    WholeIff(RunEnd(g, steps), k, cut, backfilled);
  }

  lemma WholeIff(g: Grid, k: nat, cut: int, backfilled: set<nat>)
    requires GridOk(g) && k < |g.server| && g.cut <= cut
    ensures NextPanel(g, k, cut, true, backfilled) == Some(SeriesOf(Refetched(g.server[k], cut))) <==>
            Whole(g, k, cut, backfilled)
  {
    hide PanelOk, NextPanel, Newer, From, NoGap, NoneAt, NoneBetween, ReadAlone;
    if ReadAlone(g, k, cut, true, backfilled) {
      AlonePanel(g, k, cut, true, backfilled);
    } else if |Buckets(g.panels[k])| > 0 {
      FullPanel(g, k, cut, backfilled);
    } else {
      BarePanel(g, k, cut, backfilled);
    }
  }

  /** A panel that held data ever since a whole read filled it misses nothing: it differs from a full read
      exactly if a round on the cutoff itself is in its cache, or comes with a read of the panel alone. */
  lemma RefreshEqualsRefetch(g: Grid, steps: seq<Step>, cut: int, backfilled: set<nat>, k: nat)
    requires Empty(g) && Run(g, steps) && CanStep(RunEnd(g, steps), Refresh(cut, true, backfilled))
    requires k < |RunEnd(g, steps).server| && RunEnd(g, steps).held[k]
    ensures var e := RunEnd(g, steps);
            After(e, Refresh(cut, true, backfilled)).panels[k] == Some(SeriesOf(Refetched(e.server[k], cut))) <==>
            NoneAt(if ReadAlone(e, k, cut, true, backfilled) then e.server[k] else Buckets(e.panels[k]), cut)
  {
    hide Empty, Run, RunEnd, NextPanel, NoneAt, NoGap, CacheOk, Increasing;
    RefreshWholeIff(g, steps, cut, backfilled, k);
    RunOk(g, steps);
    var e := RunEnd(g, steps);
    assert PanelOk(e, k);
    FloorRises(Buckets(e.panels[k]), e.server[k], e.cut, cut);
  }

  /** After a failed bulk read a panel changes only by a backfill that answered, before any bulk read did or
      because the panel was never filled. It then shows exactly what that read brings: the window and the
      round on the cutoff, if there is one. */
  lemma FailedReadBackfillsOnly(g: Grid, steps: seq<Step>, cut: int, backfilled: set<nat>, k: nat)
    requires Empty(g) && Run(g, steps) && CanStep(RunEnd(g, steps), Refresh(cut, false, backfilled))
    requires k < |RunEnd(g, steps).server|
    ensures var e := RunEnd(g, steps);
            var rounds, now := e.server[k], After(e, Refresh(cut, false, backfilled)).panels[k];
            && now == (if Backfills(e, k, backfilled) then Some(SeriesOf(Backfilled(rounds, cut))) else e.panels[k])
            && (Backfills(e, k, backfilled) ==> (now == Some(SeriesOf(Refetched(rounds, cut))) <==> NoneAt(rounds, cut)))
  {
    hide Empty, GridOk, Run, RunEnd, Backfills, Newer, From, NoGap, NoneAt, MaxPings, Merged, AtLeast;
    RunOk(g, steps);
    var e := RunEnd(g, steps);
    if Backfills(e, k, backfilled) {
      AlonePanel(e, k, cut, false, backfilled);
    }
  }

  // ---- where the cache falls short ----

  function At(t: int): Bucket { Bucket(t, 0, "") }

  /** Two targets, nothing read yet. */
  function Two(a: seq<Bucket>, b: seq<Bucket>): Grid {
    Grid([a, b], [None, None], [false, false], false, 0)
  }

  lemma RunOne(g: Grid, a: Step)
    requires CanStep(g, a)
    ensures Run(g, [a]) && RunEnd(g, [a]) == After(g, a)
  {
    hide CanStep, After;
    assert [a][1..] == [];
  }

  lemma RunThree(g: Grid, a: Step, b: Step, c: Step)
    requires CanStep(g, a) && CanStep(After(g, a), b) && CanStep(After(After(g, a), b), c)
    ensures Run(g, [a, b, c]) && RunEnd(g, [a, b, c]) == After(After(After(g, a), b), c)
  {
    hide CanStep, After;
    assert [a, b, c][1..] == [b, c] && [b, c][1..] == [c];
    RunOne(After(After(g, a), b), c);
  }

  lemma NewerOne(t: int, x: int)
    ensures Newer([At(t)], x) == if t > x then [At(t)] else []
  {
    assert [At(t)][..0] == [];
  }

  lemma NewerTwo(t: int, u: int, x: int)
    ensures Newer([At(t), At(u)], x) == Newer([At(t)], x) + if u > x then [At(u)] else []
  {
    assert [At(t), At(u)][..1] == [At(t)];
  }

  lemma SinceOfTwo(t: int, b: Option<Series>)
    ensures Since([Some(SeriesOf([At(t)])), b]) == if LastOf(b).Some? && LastOf(b).value < t then LastOf(b) else Some(t)
  {
    hide MaxPings;
    var a := Some(SeriesOf([At(t)]));
    assert [a, b][..1] == [a] && [a][..0] == [];
    assert Since([]) == None;
    assert Since([a]) == LastOf(a);
  }

  /** The first answered refresh shows what is there. */
  lemma FirstRefresh(a: seq<Bucket>, b: seq<Bucket>, k: nat)
    requires Increasing(a) && Increasing(b) && k < 2
    ensures Empty(Two(a, b)) && CanStep(Two(a, b), Refresh(0, true, {}))
    ensures var rounds := Two(a, b).server[k];
            After(Two(a, b), Refresh(0, true, {})).panels[k] ==
            if |Newer(rounds, 0)| > 0 then Some(SeriesOf(Newer(rounds, 0))) else None
  {
    hide Newer, MaxPings, Merged, Increasing, Since;
    FirstFill(None, Two(a, b).server[k], 0, 0);
  }

  /** What a read with data makes of a panel without any. */
  lemma BareRefresh(g: Grid, k: nat, cut: int)
    requires Shaped(g) && k < |g.server| && Increasing(g.server[k]) && |Buckets(g.panels[k])| == 0 && g.panels[k].Some?
    requires |Raw(g, k, cut)| == 0 && g.loaded
    ensures NextPanel(g, k, cut, true, {}) == Some(SeriesOf([]))
  {
    hide Newer, MaxPings, Merged, From;
    AgesToNothing(g.panels[k], cut);
  }

  lemma BareFill(g: Grid, k: nat, cut: int)
    requires Shaped(g) && k < |g.server| && Increasing(g.server[k]) && |Buckets(g.panels[k])| == 0
    requires |Raw(g, k, cut)| > 0
    ensures NextPanel(g, k, cut, true, {}) == Some(SeriesOf(Raw(g, k, cut)))
  {
    hide Newer, MaxPings, Merged, From;
    FromBehind(g, k, cut);
    FirstFill(g.panels[k], g.server[k], cut, From(g, cut));
  }

  /** A panel of one round that the read repeats or does not mention. */
  lemma OneRefresh(g: Grid, k: nat, cut: int, t: int)
    requires Shaped(g) && k < |g.server| && g.panels[k] == Some(SeriesOf([At(t)])) && g.server[k] == [At(t)]
    ensures NextPanel(g, k, cut, true, {}) == Some(SeriesOf(if t >= cut then [At(t)] else []))
  {
    hide Newer, MaxPings, From;
    NewerOne(t, From(g, cut));
    NewerOne(t, t);
    NewerOne(t, cut - 1);
    assert Newer([], t) == [] by { NewerIsTail([], t, 0); }
    var none: seq<Bucket> := [];
    assert [At(t)] + none == [At(t)];
  }

  /** A panel that comes late, with an older round than the other's frontier, never gets that round. */
  lemma LatePanelMissesRounds()
    ensures var g, steps := Two([At(100)], []), [Refresh(0, true, {}), Arrive(1, At(50)), Arrive(1, At(110))];
            && Empty(g) && Run(g, steps) && CanStep(RunEnd(g, steps), Refresh(0, true, {}))
            && After(RunEnd(g, steps), Refresh(0, true, {})).panels[1] == Some(SeriesOf([At(110)]))
            && Refetched(RunEnd(g, steps).server[1], 0) == [At(50), At(110)]
  {
    hide Newer, MaxPings, NextPanel, Since, LastOf, Holds, Run, RunEnd;
    var g := Two([At(100)], []);
    FirstRefresh([At(100)], [], 0);
    FirstRefresh([At(100)], [], 1);
    NewerOne(100, 0);
    NewerIsTail([], 0, 0);
    var g1 := After(g, Refresh(0, true, {}));
    assert g1.panels == [Some(SeriesOf([At(100)])), None];
    var g2 := After(g1, Arrive(1, At(50)));
    var e := After(g2, Arrive(1, At(110)));
    assert e.server[1] == [At(50), At(110)] && e.panels == g1.panels;
    assert LastOf(None) == None by { NoLast(None); }
    SinceOfTwo(100, None);
    NewerOne(50, 100);
    NewerTwo(50, 110, 100);
    assert Raw(e, 1, 0) == [At(110)];
    BareFill(e, 1, 0);
    NewerOne(50, 0);
    NewerTwo(50, 110, 0);
    RunThree(g, Refresh(0, true, {}), Arrive(1, At(50)), Arrive(1, At(110)));
  }

  lemma NoLast(s: Option<Series>)
    requires |Buckets(s)| == 0
    ensures LastOf(s) == None
  {}

  /** A panel that ran empty no longer holds the watermark back, so a late round of its target is never
      shown. */
  lemma EmptiedPanelMissesRounds()
    ensures var g, steps := Two([At(100)], [At(10)]), [Refresh(0, true, {}), Refresh(20, true, {}), Arrive(1, At(90))];
            && Empty(g) && Run(g, steps) && CanStep(RunEnd(g, steps), Refresh(20, true, {}))
            && After(RunEnd(g, steps), Refresh(20, true, {})).panels[1] == Some(SeriesOf([]))
            && Refetched(RunEnd(g, steps).server[1], 20) == [At(90)]
  {
    hide Newer, MaxPings, NextPanel, Since, LastOf, Holds, Run, RunEnd;
    var g := Two([At(100)], [At(10)]);
    FirstRefresh([At(100)], [At(10)], 0);
    FirstRefresh([At(100)], [At(10)], 1);
    NewerOne(100, 0);
    NewerOne(10, 0);
    var g1 := After(g, Refresh(0, true, {}));
    assert g1.panels == [Some(SeriesOf([At(100)])), Some(SeriesOf([At(10)]))];
    OneRefresh(g1, 0, 20, 100);
    OneRefresh(g1, 1, 20, 10);
    var g2 := After(g1, Refresh(20, true, {}));
    assert g2.panels == [Some(SeriesOf([At(100)])), Some(SeriesOf([]))];
    var e := After(g2, Arrive(1, At(90)));
    assert e.server[1] == [At(10), At(90)] && e.panels == g2.panels;
    NoLast(Some(SeriesOf([])));
    SinceOfTwo(100, Some(SeriesOf([])));
    NewerOne(10, 100);
    NewerTwo(10, 90, 100);
    BareRefresh(e, 1, 20);
    NewerOne(10, 20);
    NewerTwo(10, 90, 20);
    RunThree(g, Refresh(0, true, {}), Refresh(20, true, {}), Arrive(1, At(90)));
  }

  /** A cached round that lies on the cutoff stays, and a full read would not bring it. */
  lemma CutoffRoundStays()
    ensures var g, steps := Two([At(10)], []), [Refresh(0, true, {})];
            && Empty(g) && Run(g, steps) && CanStep(RunEnd(g, steps), Refresh(10, true, {}))
            && After(RunEnd(g, steps), Refresh(10, true, {})).panels[0] == Some(SeriesOf([At(10)]))
            && Refetched(RunEnd(g, steps).server[0], 10) == []
  {
    hide Newer, MaxPings, NextPanel, Since, LastOf, Holds, Run, RunEnd;
    FirstRefresh([At(10)], [], 0);
    NewerOne(10, 0);
    OneRefresh(After(Two([At(10)], []), Refresh(0, true, {})), 0, 10, 10);
    NewerOne(10, 10);
    RunOne(Two([At(10)], []), Refresh(0, true, {}));
  }

  /** A read of the panel alone brings the round on the cutoff, a bulk read would not. */
  lemma BackfillBringsCutoffRound()
    ensures var g := Two([At(5)], []);
            && Empty(g) && CanStep(g, Refresh(5, true, {0, 1}))
            && After(g, Refresh(5, true, {0, 1})).panels[0] == Some(SeriesOf([At(5)]))
            && Refetched(g.server[0], 5) == []
  {
    hide Newer, MaxPings, NextPanel, Since, Holds;
    var g := Two([At(5)], []);
    NewerOne(5, 5);
    NewerOne(5, 4);
    EmptyOk(g);
    AlonePanel(g, 0, 5, true, {0, 1});
  }
}
