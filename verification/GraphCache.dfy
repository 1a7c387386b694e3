/** The dashboard's graph cache, one panel: a refresh merges the rounds newer than a watermark into the
    cached series and drops what left the window. Times are whole milliseconds. */
module GraphCache {
  import opened Wrappers

  datatype Bucket = Bucket(t: int, pings: nat, data: string)

  /** A panel's series: its rounds, oldest first, and the largest number of pings in a round. */
  datatype Series = Series(buckets: seq<Bucket>, n: nat)

  // ---- filters ----

  function Newer(s: seq<Bucket>, x: int): seq<Bucket>
    decreases |s|
  {
    if |s| == 0 then []
    else Newer(s[..|s| - 1], x) + if s[|s| - 1].t > x then [s[|s| - 1]] else []
  }

  function AtLeast(s: seq<Bucket>, x: int): seq<Bucket> { Newer(s, x - 1) }

  function MaxPings(s: seq<Bucket>): nat
    decreases |s|
  {
    if |s| == 0 then 0
    else
      var n := MaxPings(s[..|s| - 1]);
      if s[|s| - 1].pings > n then s[|s| - 1].pings else n
  }

  lemma {:induction false} MaxPingsIs(s: seq<Bucket>)
    ensures forall b :: b in s ==> b.pings <= MaxPings(s)
    ensures MaxPings(s) == 0 || exists b :: b in s && b.pings == MaxPings(s)
    decreases |s|
  {
    if |s| > 0 {
      MaxPingsIs(s[..|s| - 1]);
      assert s[|s| - 1] in s;
      assert forall b :: b in s ==> b in s[..|s| - 1] || b == s[|s| - 1];
    }
  }

  /** Rounds of one target, in strictly increasing time. */
  predicate Increasing(s: seq<Bucket>) { forall i, j :: 0 <= i < j < |s| ==> s[i].t < s[j].t }

  predicate SplitAt(s: seq<Bucket>, x: int, k: nat) {
    && k <= |s|
    && (forall i :: 0 <= i < k ==> s[i].t <= x)
    && forall i :: k <= i < |s| ==> s[i].t > x
  }

  lemma {:induction false} FindSplit(s: seq<Bucket>, x: int) returns (k: nat)
    requires Increasing(s)
    ensures SplitAt(s, x, k)
    decreases |s|
  {
    if |s| == 0 || s[|s| - 1].t <= x {
      k := |s|;
    } else {
      k := FindSplit(s[..|s| - 1], x);
    }
  }

  /** What is newer than x is a tail of the list. */
  lemma {:induction false} NewerIsTail(s: seq<Bucket>, x: int, k: nat)
    requires SplitAt(s, x, k)
    ensures Newer(s, x) == s[k..]
    decreases |s|
  {
    if |s| > 0 {
      var n := |s| - 1;
      if k <= n {
        NewerIsTail(s[..n], x, k);
        assert s[k..] == s[..n][k..] + [s[n]];
      } else {
        NewerIsTail(s[..n], x, n);
      }
    }
  }

  // ---- the merge ----

  function Buckets(s: Option<Series>): seq<Bucket> { if s.Some? then s.value.buckets else [] }

  function SeriesOf(s: seq<Bucket>): Series { Series(s, MaxPings(s)) }

  /** The incoming rounds newer than the newest cached one. */
  function Fresh(prev: seq<Bucket>, incoming: seq<Bucket>): seq<Bucket> {
    if |prev| == 0 then incoming else Newer(incoming, prev[|prev| - 1].t)
  }

  /** Without a cutoff nothing is dropped. */
  function Merged(prev: Option<Series>, incoming: Option<Series>, cutoff: Option<int>): Series {
    var all := Buckets(prev) + Fresh(Buckets(prev), Buckets(incoming));
    SeriesOf(if cutoff.Some? then AtLeast(all, cutoff.value) else all)
  }

  method Filter(s: seq<Bucket>, x: int) returns (newer: seq<Bucket>)
    ensures newer == Newer(s, x)
  {
    newer := [];
    for i := 0 to |s|
      invariant newer == Newer(s[..i], x)
    {
      assert s[..i + 1][..i] == s[..i];
      if s[i].t > x { newer := newer + [s[i]]; }
    }
    assert s[..|s|] == s;
  }

  /** The largest number of pings in a round. */
  method CountPings(s: seq<Bucket>) returns (n: nat)
    ensures n == MaxPings(s)
  {
    n := 0;
    for i := 0 to |s|
      invariant n == MaxPings(s[..i])
    {
      assert s[..i + 1][..i] == s[..i];
      if s[i].pings > n { n := s[i].pings; }
    }
    assert s[..|s|] == s;
  }

  /** mergeSeries. */
  method MergeSeries(prev: Option<Series>, incoming: Option<Series>, cutoff: Option<int>) returns (r: Series)
    ensures r == Merged(prev, incoming, cutoff)
  {
    hide Newer, MaxPings;
    var cached := Buckets(prev);
    var added := Buckets(incoming);
    if |cached| > 0 { added := Filter(added, cached[|cached| - 1].t); }
    var buckets := cached + added;
    if cutoff.Some? { buckets := Filter(buckets, cutoff.value - 1); }
    var n := CountPings(buckets);
    r := Series(buckets, n);
  }

  /** nextGridSeries: new rounds are merged; an answer without any ages the cache; a failed read leaves
      it alone. */
  function NextSeries(prev: Option<Series>, incoming: Option<Series>, bulkOk: bool, cutoff: Option<int>): Option<Series> {
    if incoming.Some? || (bulkOk && prev.Some?) then Some(Merged(prev, incoming, cutoff)) else prev
  }

  // ---- the shared watermark ----

  function LastOf(s: Option<Series>): Option<int> {
    if |Buckets(s)| == 0 then None else Some(Buckets(s)[|Buckets(s)| - 1].t)
  }

  /** The oldest frontier among the panels that hold data. */
  function Since(panels: seq<Option<Series>>): Option<int>
    decreases |panels|
  {
    if |panels| == 0 then None
    else
      var min, last := Since(panels[..|panels| - 1]), LastOf(panels[|panels| - 1]);
      if last.Some? && (min.None? || last.value < min.value) then last else min
  }

  /** gridSince. */
  method GridSince(panels: seq<Option<Series>>) returns (min: Option<int>)
    ensures min == Since(panels)
  {
    min := None;
    for i := 0 to |panels|
      invariant min == Since(panels[..i])
    {
      assert panels[..i + 1][..i] == panels[..i];
      var last := LastOf(panels[i]);
      if last.None? { continue; }
      if min.None? || last.value < min.value { min := last; }
    }
    assert panels[..|panels|] == panels;
  }

  /** The watermark never runs ahead of a panel that holds data, and it is some panel's frontier. */
  lemma {:induction false} SinceIsOldest(panels: seq<Option<Series>>, k: nat)
    requires k < |panels| && LastOf(panels[k]).Some?
    ensures Since(panels).Some? && Since(panels).value <= LastOf(panels[k]).value
    ensures exists j :: 0 <= j < |panels| && LastOf(panels[j]) == Since(panels)
    decreases |panels|
  {
    hide LastOf;
    var n := |panels| - 1;
    if k < n {
      SinceIsOldest(panels[..n], k);
      var j :| 0 <= j < n && LastOf(panels[..n][j]) == Since(panels[..n]);
      assert LastOf(panels[j]) == Since(panels[..n]);
    } else if Since(panels[..n]).Some? {
      SomeFrontier(panels[..n]);
      var j :| 0 <= j < n && LastOf(panels[..n][j]) == Since(panels[..n]);
      assert LastOf(panels[j]) == Since(panels[..n]);
    }
    assert LastOf(panels[n]) == LastOf(panels[n]);
  }

  lemma {:induction false} SomeFrontier(panels: seq<Option<Series>>)
    requires Since(panels).Some?
    ensures exists j :: 0 <= j < |panels| && LastOf(panels[j]) == Since(panels)
    decreases |panels|
  {
    hide LastOf;
    var n := |panels| - 1;
    if LastOf(panels[n]) != Since(panels) {
      SomeFrontier(panels[..n]);
      var j :| 0 <= j < n && LastOf(panels[..n][j]) == Since(panels[..n]);
      assert LastOf(panels[j]) == Since(panels);
    }
  }

  // ---- one panel over one refresh ----

  /** The cache is the stretch [i, m) of the target's rounds. */
  predicate Stretch(cache: seq<Bucket>, rounds: seq<Bucket>, i: nat, m: nat) {
    i < m <= |rounds| && cache == rounds[i..m]
  }

  ghost predicate CacheOk(cache: seq<Bucket>, rounds: seq<Bucket>) {
    |cache| > 0 ==> exists i, m :: Stretch(cache, rounds, i, m)
  }

  /** No round of the window is older than the cache. */
  predicate NoGap(cache: seq<Bucket>, rounds: seq<Bucket>, cut: int) {
    |cache| > 0 ==> forall b :: b in rounds ==> !(cut < b.t < cache[0].t)
  }

  predicate NoneAt(cache: seq<Bucket>, cut: int) { forall b :: b in cache ==> b.t != cut }

  predicate NoneBetween(rounds: seq<Bucket>, cut: int, from: int) { forall b :: b in rounds ==> !(cut < b.t <= from) }

  /** A full bulk read of the window: everything strictly newer than the cutoff. */
  function Refetched(rounds: seq<Bucket>, cut: int): seq<Bucket> { Newer(rounds, cut) }

  /** A read of one panel alone: everything at or after the cutoff. */
  function Backfilled(rounds: seq<Bucket>, cut: int): seq<Bucket> { AtLeast(rounds, cut) }

  lemma NewerOfTail(rounds: seq<Bucket>, x: int, k: nat, i: nat)
    requires SplitAt(rounds, x, k) && i <= |rounds|
    ensures Newer(rounds[i..], x) == rounds[if i < k then k else i..]
  {
    if i < k {
      NewerIsTail(rounds[i..], x, k - i);
    } else {
      NewerIsTail(rounds[i..], x, 0);
    }
  }

  /** The incoming rounds that the cache does not have yet. */
  lemma FreshIsTail(cache: seq<Bucket>, rounds: seq<Bucket>, i: nat, m: nat, x: int, k: nat)
    requires Increasing(rounds) && Stretch(cache, rounds, i, m) && SplitAt(rounds, x, k)
    ensures Fresh(cache, Newer(rounds, x)) == rounds[if k < m then m else k..]
  {
    hide Newer;
    NewerIsTail(rounds, x, k);
    assert cache[|cache| - 1] == rounds[m - 1];
    NewerOfTail(rounds, rounds[m - 1].t, m, k);
  }

  lemma SplitOrder(s: seq<Bucket>, x: int, k: nat, y: int, l: nat)
    requires SplitAt(s, x, k) && SplitAt(s, y, l) && x <= y
    ensures k <= l && (x == y ==> k == l)
  {
    if l < k { OneRound(s, x, k, y, l, l); }
    if k < l { OneRound(s, x, k, y, l, k); }
  }

  lemma OneRound(s: seq<Bucket>, x: int, k: nat, y: int, l: nat, j: nat)
    requires SplitAt(s, x, k) && SplitAt(s, y, l) && j < |s|
    ensures j < k <==> s[j].t <= x
    ensures j < l <==> s[j].t <= y
  {}

  /** The watermark is no newer than the cache, so only rounds that left the window can be skipped. */
  lemma SkipsOnlyOld(cache: seq<Bucket>, rounds: seq<Bucket>, i: nat, m: nat, cut: int, from: int, k: nat)
    requires Increasing(rounds) && Stretch(cache, rounds, i, m) && SplitAt(rounds, from, k) && m < k
    requires from == cut || cut < from <= cache[|cache| - 1].t
    ensures from == cut
  {
    assert cache[|cache| - 1] == rounds[m - 1];
    assert rounds[m].t <= from;
  }

  /** Nothing of the window is older than the cache exactly if the cache starts at or before it. */
  lemma GapAt(cache: seq<Bucket>, rounds: seq<Bucket>, i: nat, m: nat, cut: int, b: nat)
    requires Increasing(rounds) && Stretch(cache, rounds, i, m) && SplitAt(rounds, cut, b)
    ensures NoGap(cache, rounds, cut) <==> i <= b
  {
    assert cache[0] == rounds[i];
    if b < i {
      assert rounds[b] in rounds;
    } else {
      forall x | x in rounds
        ensures !(cut < x.t < cache[0].t)
      {
        var y :| 0 <= y < |rounds| && rounds[y] == x;
      }
    }
  }

  /** The answer reaches back to the cache: the panel starts at the window or at the cache. */
  lemma MergedTail(cache: seq<Bucket>, rounds: seq<Bucket>, i: nat, m: nat, cut: int, from: int, k: nat, a: nat, b: nat)
    requires Increasing(rounds) && Stretch(cache, rounds, i, m) && SplitAt(rounds, from, k)
    requires SplitAt(rounds, cut - 1, a) && SplitAt(rounds, cut, b) && b <= k <= m
    ensures var start := if i < a then a else i;
            && AtLeast(cache + Fresh(cache, Newer(rounds, from)), cut) == rounds[start..]
            && (rounds[start..] == rounds[b..] <==> NoneAt(cache, cut) && i <= b)
            && (i <= b ==> start <= b)
  {
    hide Newer, Fresh, NoneAt, SplitAt, Increasing;
    FreshIsTail(cache, rounds, i, m, from, k);
    SplitOrder(rounds, cut - 1, a, cut, b);
    assert cache + rounds[m..] == rounds[i..];
    NewerOfTail(rounds, cut - 1, a, i);
    AtBoundary(cache, rounds, i, m, cut, a, b);
  }

  /** Where a merged panel's rounds start. */
  lemma MergedIs(cache: seq<Bucket>, rounds: seq<Bucket>, i: nat, m: nat, cut: int, from: int) returns (start: nat)
    requires Increasing(rounds) && Stretch(cache, rounds, i, m)
    requires from == cut || cut < from <= cache[|cache| - 1].t
    ensures start <= |rounds| && AtLeast(cache + Fresh(cache, Newer(rounds, from)), cut) == rounds[start..]
    ensures rounds[start..] == Newer(rounds, cut) <==> NoneAt(cache, cut) && NoGap(cache, rounds, cut)
    ensures NoGap(cache, rounds, cut) ==> NoGap(rounds[start..], rounds, cut)
  {
    hide Newer, Fresh, NoGap, NoneAt, SplitAt, Increasing, AtLeast;
    var b := FindSplit(rounds, cut);
    var k := FindSplit(rounds, from);
    NewerIsTail(rounds, cut, b);
    SplitOrder(rounds, cut, b, from, k);
    GapAt(cache, rounds, i, m, cut, b);
    if k <= m {
      var a := FindSplit(rounds, cut - 1);
      MergedTail(cache, rounds, i, m, cut, from, k, a, b);
      start := if i < a then a else i;
    } else {
      FreshIsTail(cache, rounds, i, m, from, k);
      SkipsOnlyOld(cache, rounds, i, m, cut, from, k);
      AllLeft(cache, rounds, i, m, cut, cut, k);
      start := b;
    }
    TailGap(rounds, start, cut, b);
  }

  lemma TailGap(rounds: seq<Bucket>, start: nat, cut: int, b: nat)
    requires Increasing(rounds) && start <= |rounds| && SplitAt(rounds, cut, b)
    ensures start <= b ==> NoGap(rounds[start..], rounds, cut)
  {
    hide NoGap, Increasing, SplitAt;
    if start < |rounds| {
      GapAt(rounds[start..], rounds, start, |rounds|, cut, b);
    } else {
      NothingGap(rounds[start..], rounds, cut);
    }
  }

  lemma NothingGap(cache: seq<Bucket>, rounds: seq<Bucket>, cut: int)
    requires |cache| == 0
    ensures NoGap(cache, rounds, cut)
  {}

  /** The one round that may lie exactly on the cutoff. */
  lemma AtBoundary(cache: seq<Bucket>, rounds: seq<Bucket>, i: nat, m: nat, cut: int, a: nat, b: nat)
    requires Increasing(rounds) && Stretch(cache, rounds, i, m)
    requires SplitAt(rounds, cut - 1, a) && SplitAt(rounds, cut, b) && a <= b <= m
    ensures var start := if i < a then a else i;
            && (rounds[start..] == rounds[b..] <==> NoneAt(cache, cut) && i <= b)
            && (i <= b ==> start <= b)
  {
    var start := if i < a then a else i;
    if start < b {
      assert rounds[start].t == cut;
      assert cache[start - i] == rounds[start];
      assert |rounds[start..]| != |rounds[b..]|;
    } else if b < start {
      assert |rounds[start..]| != |rounds[b..]|;
    } else {
      forall x | x in cache
        ensures x.t != cut
      {
        var y :| 0 <= y < |cache| && cache[y] == x;
        assert rounds[i + y] == x;
      }
    }
  }

  /** If the answer skips rounds that already left the window, everything cached has left it too. */
  lemma AllLeft(cache: seq<Bucket>, rounds: seq<Bucket>, i: nat, m: nat, cut: int, x: int, k: nat)
    requires Increasing(rounds) && Stretch(cache, rounds, i, m) && SplitAt(rounds, x, k) && m < k && cut - 1 <= x <= cut
    ensures AtLeast(cache + rounds[k..], cut) == rounds[k..]
    ensures NoneAt(cache, cut)
  {
    hide Newer;
    assert rounds[m].t <= x;
    forall b | b in cache
      ensures b.t < x
    {
      var y :| 0 <= y < |cache| && cache[y] == b;
      assert rounds[i + y] == b && rounds[i + y].t < rounds[m].t;
    }
    var all := cache + rounds[k..];
    forall j | 0 <= j < |cache|
      ensures all[j].t <= cut - 1
    {
      assert all[j] == cache[j] && cache[j] in cache;
    }
    forall j | |cache| <= j < |all|
      ensures all[j].t > cut - 1
    {
      assert all[j] == rounds[k + (j - |cache|)];
    }
    NewerIsTail(all, cut - 1, |cache|);
    assert all[|cache|..] == rounds[k..];
  }

  lemma TailOk(rounds: seq<Bucket>, k: nat)
    requires k <= |rounds|
    ensures CacheOk(rounds[k..], rounds)
  {
    if k < |rounds| { assert Stretch(rounds[k..], rounds, k, |rounds|); }
  }

  /** Any panel that holds rounds equals, after a bulk read, a full read of the window, exactly if the cache
      holds no round on the cutoff itself and the window no round older than the cache: the cache keeps the
      one, a bulk read would not bring it; the other is never read again. */
  lemma RefreshIsRefetch(cache: seq<Bucket>, rounds: seq<Bucket>, cut: int, from: int, incoming: Option<Series>, n: nat)
    requires Increasing(rounds) && CacheOk(cache, rounds)
    requires |cache| > 0 && (from == cut || cut < from <= cache[|cache| - 1].t)
    requires Buckets(incoming) == Newer(rounds, from)
    ensures var r := NextSeries(Some(Series(cache, n)), incoming, true, Some(cut));
            && r.Some?
            && (r.value == SeriesOf(Refetched(rounds, cut)) <==> NoneAt(cache, cut) && NoGap(cache, rounds, cut))
            && CacheOk(r.value.buckets, rounds)
            && (NoGap(cache, rounds, cut) ==> NoGap(r.value.buckets, rounds, cut))
  {
    hide Newer, Fresh, NoGap, NoneAt, MaxPings;
    var i: nat, m: nat :| Stretch(cache, rounds, i, m);
    var start := MergedIs(cache, rounds, i, m, cut, from);
    TailOk(rounds, start);
  }

  /** The merge of a read of the panel alone, into a cache that misses nothing of the window, is that read. */
  lemma BackfillMerged(cache: seq<Bucket>, rounds: seq<Bucket>, cut: int, n: nat)
    requires Increasing(rounds) && CacheOk(cache, rounds) && |cache| > 0 && NoGap(cache, rounds, cut - 1)
    ensures Merged(Some(Series(cache, n)), Some(SeriesOf(Backfilled(rounds, cut))), Some(cut)) == SeriesOf(Backfilled(rounds, cut))
  {
    hide Newer, Fresh, NoGap, NoneAt, MaxPings, SplitAt, Increasing, AtLeast;
    var i: nat, m: nat :| Stretch(cache, rounds, i, m);
    var a := FindSplit(rounds, cut - 1);
    GapAt(cache, rounds, i, m, cut - 1, a);
    AtLeastIs(rounds, cut, a);
    FreshIsTail(cache, rounds, i, m, cut - 1, a);
    if a <= m {
      assert cache + rounds[m..] == rounds[i..];
      AtLeastOfTail(rounds, cut, a, i);
    } else {
      AllLeft(cache, rounds, i, m, cut, cut - 1, a);
    }
  }

  lemma AtLeastIs(rounds: seq<Bucket>, cut: int, a: nat)
    requires SplitAt(rounds, cut - 1, a)
    ensures AtLeast(rounds, cut) == Newer(rounds, cut - 1) == rounds[a..]
  {
    NewerIsTail(rounds, cut - 1, a);
  }

  lemma AtLeastOfTail(rounds: seq<Bucket>, cut: int, a: nat, i: nat)
    requires SplitAt(rounds, cut - 1, a) && i <= a
    ensures AtLeast(rounds[i..], cut) == rounds[a..]
  {
    NewerOfTail(rounds, cut - 1, a, i);
  }

  /** The merge into an empty panel keeps all that came. */
  lemma FirstFill(prev: Option<Series>, rounds: seq<Bucket>, cut: int, from: int)
    requires Increasing(rounds) && cut - 1 <= from && |Buckets(prev)| == 0
    ensures Merged(prev, Some(SeriesOf(Newer(rounds, from))), Some(cut)) == SeriesOf(Newer(rounds, from))
    ensures CacheOk(Newer(rounds, from), rounds) && NoGap(Newer(rounds, from), rounds, from)
  {
    hide Newer, MaxPings, Increasing, NoGap, CacheOk;
    var k := FindSplit(rounds, from);
    var a := FindSplit(rounds, cut - 1);
    NewerIsTail(rounds, from, k);
    SplitOrder(rounds, cut - 1, a, from, k);
    NewerOfTail(rounds, cut - 1, a, k);
    TailOk(rounds, k);
    TailGap(rounds, k, from, k);
    hide SplitAt;
    assert Buckets(prev) + rounds[k..] == rounds[k..];
  }

  lemma FloorRises(cache: seq<Bucket>, rounds: seq<Bucket>, floor: int, cut: int)
    requires NoGap(cache, rounds, floor) && floor <= cut
    ensures NoGap(cache, rounds, cut)
  {}

  lemma AgesToNothing(prev: Option<Series>, cut: int)
    requires |Buckets(prev)| == 0
    ensures Merged(prev, None, Some(cut)) == SeriesOf([])
  {
    assert Buckets(prev) + Fresh(Buckets(prev), []) == [];
  }

  /** What a cut-off read leaves out. */
  lemma SkippedIff(rounds: seq<Bucket>, cut: int, from: int)
    requires Increasing(rounds) && cut <= from
    ensures Newer(rounds, from) == Newer(rounds, cut) <==> NoneBetween(rounds, cut, from)
  {
    hide Newer, NoneBetween, Increasing;
    var i := FindSplit(rounds, cut);
    var j := FindSplit(rounds, from);
    NewerIsTail(rounds, cut, i);
    NewerIsTail(rounds, from, j);
    SplitOrder(rounds, cut, i, from, j);
    SplitGap(rounds, cut, i, from, j);
  }

  lemma SplitGap(rounds: seq<Bucket>, cut: int, i: nat, from: int, j: nat)
    requires SplitAt(rounds, cut, i) && SplitAt(rounds, from, j) && i <= j
    ensures rounds[i..] == rounds[j..] <==> NoneBetween(rounds, cut, from)
  {
    if i < j {
      assert |rounds[i..]| != |rounds[j..]|;
      assert rounds[i] in rounds;
    } else {
      forall b | b in rounds
        ensures !(cut < b.t <= from)
      {
        var x :| 0 <= x < |rounds| && rounds[x] == b;
      }
    }
  }

  /** The two full reads differ by the round on the cutoff. */
  lemma BackfilledIff(rounds: seq<Bucket>, cut: int)
    requires Increasing(rounds)
    ensures Backfilled(rounds, cut) == Refetched(rounds, cut) <==> NoneAt(rounds, cut)
  {
    hide Newer, Increasing;
    SkippedIff(rounds, cut - 1, cut);
    assert NoneBetween(rounds, cut - 1, cut) <==> NoneAt(rounds, cut);
  }

  /** What a merge makes of two series, round by round: the cached rounds and the incoming ones newer than
      the newest cached, but for those older than the cutoff; n is the largest ping count among them. */
  lemma MergedRounds(prev: Option<Series>, incoming: Option<Series>, cutoff: Option<int>, b: Bucket)
    ensures var r, cached := Merged(prev, incoming, cutoff), Buckets(prev);
            && (b in r.buckets <==>
                  && (b in cached || (b in Buckets(incoming) && (|cached| > 0 ==> b.t > cached[|cached| - 1].t)))
                  && (cutoff.Some? ==> b.t >= cutoff.value))
            && (forall x :: x in r.buckets ==> x.pings <= r.n)
            && (r.n == 0 || exists x :: x in r.buckets && x.pings == r.n)
  {
    hide Newer, MaxPings;
    var cached, added := Buckets(prev), Fresh(Buckets(prev), Buckets(incoming));
    if |cached| > 0 { NewerMembers(Buckets(incoming), cached[|cached| - 1].t); }
    if cutoff.Some? { NewerMembers(cached + added, cutoff.value - 1); }
    MaxPingsIs(Merged(prev, incoming, cutoff).buckets);
  }

  lemma {:induction false} NewerMembers(s: seq<Bucket>, x: int)
    ensures forall b :: b in Newer(s, x) <==> b in s && b.t > x
    decreases |s|
  {
    if |s| > 0 {
      var n := |s| - 1;
      NewerMembers(s[..n], x);
      assert forall b :: b in s <==> b in s[..n] || b == s[n];
    }
  }
}
