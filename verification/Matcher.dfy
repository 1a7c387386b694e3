/** The alert matchers: hysteresis over a threshold, and right-anchored patterns with bounded skips. */
module Matcher {

  /** One sample of a series; Unknown is the missing median of a lost round. */
  datatype Sample = Unknown | Known(v: real)

  // ---- hysteresis ----

  predicate Bad(limit: real, s: Sample) { s.Known? && s.v >= limit }

  predicate Good(limit: real, s: Sample) { s.Known? && !(s.v >= limit) }

  /** The x samples that end before position k are all known and bad (all known and good). */
  predicate BadRun(limit: real, x: int, s: seq<Sample>, k: int) {
    0 <= k - x && k <= |s| && forall i :: k - x <= i < k ==> Bad(limit, s[i])
  }

  predicate GoodRun(limit: real, x: int, s: seq<Sample>, k: int) {
    0 <= k - x && k <= |s| && forall i :: k - x <= i < k ==> Good(limit, s[i])
  }

  /** The new firing state. */
  predicate Hysteresis(limit: real, x: int, s: seq<Sample>, prev: bool) {
    if x <= 0 || |s| < x then prev
    else if exists i :: |s| - x <= i < |s| && s[i].Unknown? then prev
    else if !prev then BadRun(limit, x, s, |s|)
    else !GoodRun(limit, x, s, |s|)
  }

  /** hysteresis: the tail is looked at sample by sample. */
  method TestHysteresis(limit: real, x: int, s: seq<Sample>, prev: bool) returns (firing: bool)
    ensures firing == Hysteresis(limit, x, s, prev)
  {
    if x <= 0 || |s| < x { return prev; }
    var start := |s| - x;
    var tail := s[start..];
    for i := 0 to x
      invariant forall j :: start <= j < start + i ==> s[j].Known?
    {
      assert tail[i] == s[start + i];
      if tail[i].Unknown? { return prev; }
    }
    if !prev {
      for i := 0 to x
        invariant forall j :: start <= j < start + i ==> Bad(limit, s[j])
      {
        assert tail[i] == s[start + i];
        if !(tail[i].v >= limit) { return false; }
      }
      return true;
    }
    for i := 0 to x
      invariant forall j :: start <= j < start + i ==> Good(limit, s[j])
    {
      assert tail[i] == s[start + i];
      if tail[i].v >= limit { return true; }
    }
    return false;
  }

  /** The state after a whole history, of which the first `from` samples were in the window already when the
      state was `was`. */
  predicate FiringAfter(limit: real, x: int, s: seq<Sample>, from: nat, was: bool)
    decreases |s|
  {
    if |s| <= from then was else Hysteresis(limit, x, s, FiringAfter(limit, x, s[..|s| - 1], from, was))
  }

  /** No x samples in a row that end after position k are all known and good. */
  predicate NoneGoodAfter(limit: real, x: int, s: seq<Sample>, k: int) { forall j :: k < j <= |s| ==> !GoodRun(limit, x, s, j) }

  /** Some x samples in a row were bad when the last of them was judged, or the alert was firing before, and
      no later x in a row were all known and good. */
  ghost predicate LastVerdictBad(limit: real, x: int, s: seq<Sample>, from: nat, was: bool) {
    || (was && NoneGoodAfter(limit, x, s, from))
    || exists k :: from < k && BadRun(limit, x, s, k) && NoneGoodAfter(limit, x, s, k)
  }

  lemma RunPrefix(limit: real, x: int, s: seq<Sample>, n: nat)
    requires n <= |s|
    ensures forall k :: k <= n ==> BadRun(limit, x, s[..n], k) == BadRun(limit, x, s, k)
    ensures forall k :: k <= n ==> GoodRun(limit, x, s[..n], k) == GoodRun(limit, x, s, k)
  {}

  /** A good run leaves no room for a bad run that ends inside it. */
  lemma NotBoth(limit: real, x: int, s: seq<Sample>, j: int, k: int)
    requires x >= 1 && GoodRun(limit, x, s, j) && j - x < k <= j
    ensures !BadRun(limit, x, s, k)
  {
    assert Good(limit, s[k - 1]);
  }

  /** One round: a bad run raises, a good run clears, anything else holds. */
  lemma OneRound(limit: real, x: int, s: seq<Sample>, from: nat, was: bool)
    requires x >= 1 && |s| > from
    ensures FiringAfter(limit, x, s, from, was) ==
            (BadRun(limit, x, s, |s|) || (FiringAfter(limit, x, s[..|s| - 1], from, was) && !GoodRun(limit, x, s, |s|)))
  {
    if |s| >= x {
      if BadRun(limit, x, s, |s|) {
        assert Bad(limit, s[|s| - 1]);
      }
      if exists i :: |s| - x <= i < |s| && s[i].Unknown? {
        var i :| |s| - x <= i < |s| && s[i].Unknown?;
        assert !Bad(limit, s[i]) && !Good(limit, s[i]);
      }
    }
  }

  /** From any state and any window: a hysteresis alert is firing exactly when some x consecutive samples
      were bad as the last of them came, or it was firing before, and no later x consecutive ones were all
      known and good. */
  lemma {:induction false} FiringIff(limit: real, x: int, s: seq<Sample>, from: nat, was: bool)
    requires x >= 1
    ensures FiringAfter(limit, x, s, from, was) <==> LastVerdictBad(limit, x, s, from, was)
    decreases |s|
  {
    hide FiringAfter, Hysteresis, BadRun, GoodRun;
    if |s| <= from {
      NotJudged(limit, x, s, from, was);
    } else {
      var n, t := |s|, s[..|s| - 1];
      FiringIff(limit, x, t, from, was);
      RunPrefix(limit, x, s, n - 1);
      OneRound(limit, x, s, from, was);
      RunInside(limit, x, s);
      RunInside(limit, x, t);
      GoodPrefix(limit, x, s);
      if BadRun(limit, x, s, n) { assert NoneGoodAfter(limit, x, s, n); }
      if k :| from < k && BadRun(limit, x, s, k) && NoneGoodAfter(limit, x, s, k) {
        if k < n { assert BadRun(limit, x, t, k) && NoneGoodAfter(limit, x, t, k); }
      }
      if k :| from < k && BadRun(limit, x, t, k) && NoneGoodAfter(limit, x, t, k) {
        if !GoodRun(limit, x, s, n) { assert BadRun(limit, x, s, k) && NoneGoodAfter(limit, x, s, k); }
      }
    }
  }

  lemma GoodPrefix(limit: real, x: int, s: seq<Sample>)
    requires s != []
    ensures forall k :: k < |s| ==>
              (NoneGoodAfter(limit, x, s, k) <==> NoneGoodAfter(limit, x, s[..|s| - 1], k) && !GoodRun(limit, x, s, |s|))
  {
    hide GoodRun, BadRun;
    RunPrefix(limit, x, s, |s| - 1);
  }

  lemma NotJudged(limit: real, x: int, s: seq<Sample>, from: nat, was: bool)
    requires |s| <= from
    ensures FiringAfter(limit, x, s, from, was) == LastVerdictBad(limit, x, s, from, was) == was
  {}

  lemma RunInside(limit: real, x: int, s: seq<Sample>)
    ensures forall k :: BadRun(limit, x, s, k) ==> k <= |s|
  {}

  /** An unknown sample never changes the state. */
  lemma UnknownHolds(limit: real, x: int, s: seq<Sample>, from: nat, was: bool)
    requires x >= 1 && from <= |s|
    ensures FiringAfter(limit, x, s + [Unknown], from, was) == FiringAfter(limit, x, s, from, was)
  {
    hide FiringAfter, Hysteresis;
    var t := s + [Unknown];
    OneRound(limit, x, t, from, was);
    assert t[..|t| - 1] == s;
    assert t[|s|] == Unknown;
    assert !Bad(limit, t[|s|]) && !Good(limit, t[|s|]);
  }

  predicate RaisedAt(limit: real, x: int, s: seq<Sample>, from: nat, was: bool, k: int) {
    from < k <= |s| && !FiringAfter(limit, x, s[..k - 1], from, was) && FiringAfter(limit, x, s[..k], from, was)
  }

  predicate ClearedAt(limit: real, x: int, s: seq<Sample>, from: nat, was: bool, k: int) {
    from < k <= |s| && FiringAfter(limit, x, s[..k - 1], from, was) && !FiringAfter(limit, x, s[..k], from, was)
  }

  /** A clear comes at least x rounds after any raise before it. */
  lemma ClearTakesX(limit: real, x: int, s: seq<Sample>, from: nat, was: bool, k: int, j: int)
    requires x >= 1 && RaisedAt(limit, x, s, from, was, k) && ClearedAt(limit, x, s, from, was, j) && k < j
    ensures k + x <= j
  {
    hide FiringAfter, Hysteresis, BadRun, GoodRun;
    assert s[..k][..k - 1] == s[..k - 1] && s[..j][..j - 1] == s[..j - 1];
    OneRound(limit, x, s[..k], from, was);
    OneRound(limit, x, s[..j], from, was);
    RunPrefix(limit, x, s, k);
    RunPrefix(limit, x, s, j);
    if j - x < k { NotBoth(limit, x, s, j, k); }
  }

  // ---- patterns ----

  datatype Op = Gt | Lt | Ge | Le | Eq | Ne

  /** One compiled token. */
  datatype Step =
    | Cmp(op: Op, val: real)
    | IsUnknown(eq: bool) // ==U or !=U
    | Any
    | Skip(max: nat)

  predicate Compare(a: real, op: Op, b: real) {
    match op
    case Gt => a > b
    case Lt => a < b
    case Ge => a >= b
    case Le => a <= b
    case Eq => a == b
    case Ne => a != b
  }

  /** Whether a slot that takes exactly one sample takes this one. */
  predicate Accepts(st: Step, s: Sample) {
    match st
    case Cmp(op, val) => s.Known? && Compare(s.v, op, val)
    case IsUnknown(eq) => eq == s.Unknown?
    case Any => true
    case Skip(_) => false
  }

  /** The token covers the samples in [a, b). */
  predicate Covers(st: Step, series: seq<Sample>, a: int, b: int) {
    && 0 <= a <= b <= |series|
    && if st.Skip? then b - a <= st.max else b == a + 1 && Accepts(st, series[a])
  }

  /** The tokens cover adjoining stretches of samples, token i those in [cuts[i], cuts[i + 1]), and the
      last stretch ends at `end`. */
  ghost predicate Aligned(steps: seq<Step>, cuts: seq<int>, series: seq<Sample>, end: int) {
    && |cuts| == |steps| + 1
    && 0 <= cuts[0] && cuts[|steps|] == end <= |series|
    && forall i :: 0 <= i < |steps| ==> Covers(steps[i], series, cuts[i], cuts[i + 1])
  }

  function Newest(steps: seq<Step>): Step
    requires steps != []
  {
    steps[|steps| - 1]
  }

  function Older(steps: seq<Step>): (older: seq<Step>)
    requires steps != []
    ensures |older| == |steps| - 1
  {
    steps[..|steps| - 1]
  }

  /** The skip lengths can be chosen so that the tokens line up with the samples before `end`. */
  ghost predicate Matches(steps: seq<Step>, series: seq<Sample>, end: int) {
    exists cuts :: Aligned(steps, cuts, series, end)
  }

  lemma AlignedSnoc(steps: seq<Step>, cuts: seq<int>, series: seq<Sample>, e: int, end: int)
    requires steps != [] && |cuts| == |steps| + 1 && cuts[|steps|] == end && cuts[|steps| - 1] == e
    ensures Aligned(steps, cuts, series, end) <==>
            Aligned(Older(steps), cuts[..|steps|], series, e) && Covers(Newest(steps), series, e, end)
  {
    hide Covers;
    var n := |steps| - 1;
    if Aligned(steps[..n], cuts[..n + 1], series, e) && Covers(steps[n], series, e, end) {
      forall i | 0 <= i < |steps|
        ensures Covers(steps[i], series, cuts[i], cuts[i + 1])
      {
        if i < n {
          assert Covers(steps[..n][i], series, cuts[..n + 1][i], cuts[..n + 1][i + 1]);
        }
      }
      CoversInside(steps[n], series, e, end);
    }
    if Aligned(steps, cuts, series, end) {
      assert Covers(steps[n], series, cuts[n], cuts[n + 1]);
      CoversInside(steps[n], series, e, end);
    }
  }

  lemma CoversInside(st: Step, series: seq<Sample>, a: int, b: int)
    requires Covers(st, series, a, b)
    ensures 0 <= a <= b <= |series|
  {}

  lemma AlignedLen(steps: seq<Step>, cuts: seq<int>, series: seq<Sample>, end: int)
    requires Aligned(steps, cuts, series, end)
    ensures |cuts| == |steps| + 1 && cuts[|steps|] == end
  {}

  lemma MatchesNothing(series: seq<Sample>, end: int)
    ensures Matches([], series, end) <==> 0 <= end <= |series|
  {
    if 0 <= end <= |series| {
      assert Aligned([], [end], series, end);
    }
  }

  lemma MatchOn(steps: seq<Step>, series: seq<Sample>, e: int, end: int)
    requires steps != [] && Covers(Newest(steps), series, e, end) && Matches(Older(steps), series, e)
    ensures Matches(steps, series, end)
  {
    hide Covers, Aligned;
    var cuts :| Aligned(Older(steps), cuts, series, e);
    AlignedLen(Older(steps), cuts, series, e);
    assert (cuts + [end])[..|steps|] == cuts;
    AlignedSnoc(steps, cuts + [end], series, e, end);
  }

  /** The newest token takes some stretch and the older tokens match before it. */
  lemma MatchStep(steps: seq<Step>, series: seq<Sample>, end: int)
    requires steps != []
    ensures Matches(steps, series, end) <==>
            exists e :: Covers(Newest(steps), series, e, end) && Matches(Older(steps), series, e)
  {
    hide Covers, Aligned;
    if Matches(steps, series, end) {
      var cuts :| Aligned(steps, cuts, series, end);
      AlignedLen(steps, cuts, series, end);
      var e := cuts[|steps| - 1];
      AlignedSnoc(steps, cuts, series, e, end);
      assert Covers(Newest(steps), series, e, end) && Matches(Older(steps), series, e);
    }
    if e :| Covers(Newest(steps), series, e, end) && Matches(Older(steps), series, e) {
      MatchOn(steps, series, e, end);
    }
  }

  /** One token of the list, seen from position pos: the samples up to pos. */
  lemma MatchAt(steps: seq<Step>, series: seq<Sample>, si: nat, pos: int)
    requires si < |steps|
    ensures Matches(steps[..si + 1], series, pos + 1) <==>
            exists e :: Covers(steps[si], series, e, pos + 1) && Matches(steps[..si], series, e)
  {
    hide Matches, Covers;
    MatchStep(steps[..si + 1], series, pos + 1);
    assert Older(steps[..si + 1]) == steps[..si] && Newest(steps[..si + 1]) == steps[si];
  }

  /** No position in (lo, hi] ends a match. */
  ghost predicate NoneIn(steps: seq<Step>, series: seq<Sample>, lo: int, hi: int) {
    forall e :: lo < e <= hi ==> !Matches(steps, series, e)
  }

  lemma SkipFails(steps: seq<Step>, series: seq<Sample>, si: nat, pos: int, k: nat)
    requires si < |steps| && steps[si].Skip? && (k > steps[si].max || pos - k < -1)
    requires NoneIn(steps[..si], series, pos + 1 - k, pos + 1)
    ensures !Matches(steps[..si + 1], series, pos + 1)
  {
    hide Matches;
    MatchAt(steps, series, si, pos);
  }

  lemma SkipMatches(steps: seq<Step>, series: seq<Sample>, si: nat, pos: int, k: nat)
    requires si < |steps| && steps[si].Skip? && k <= steps[si].max && -1 <= pos - k && pos < |series|
    requires Matches(steps[..si], series, pos - k + 1)
    ensures Matches(steps[..si + 1], series, pos + 1)
  {
    hide Matches;
    MatchAt(steps, series, si, pos);
    assert Covers(steps[si], series, pos - k + 1, pos + 1);
  }

  lemma SlotIff(steps: seq<Step>, series: seq<Sample>, si: nat, pos: int)
    requires si < |steps| && !steps[si].Skip? && -1 <= pos < |series|
    ensures Matches(steps[..si + 1], series, pos + 1) <==>
            pos >= 0 && Accepts(steps[si], series[pos]) && Matches(steps[..si], series, pos)
  {
    hide Matches;
    MatchAt(steps, series, si, pos);
    if pos >= 0 && Accepts(steps[si], series[pos]) {
      assert Covers(steps[si], series, pos, pos + 1);
    }
  }

  // ---- the memo ----

  predicate IsKey(steps: seq<Step>, series: seq<Sample>, key: (int, int)) {
    0 <= key.0 < |steps| && -1 <= key.1 < |series|
  }

  /** The memo holds only calls that cannot match; no call got past its check twice. */
  ghost predicate Memo(steps: seq<Step>, series: seq<Sample>, failed: set<(int, int)>, explored: set<(int, int)>, calls: nat) {
    && (forall key :: key in failed ==> IsKey(steps, series, key) && !Matches(steps[..key.0 + 1], series, key.1 + 1))
    && (forall key :: key in explored ==> IsKey(steps, series, key))
    && calls == |explored|
  }

  /** Every explored call about token si or an older one is known to fail. */
  ghost predicate Settled(failed: set<(int, int)>, explored: set<(int, int)>, si: int) {
    forall key :: key in explored && key.0 <= si ==> key in failed
  }

  lemma MemoEnter(steps: seq<Step>, series: seq<Sample>, failed: set<(int, int)>, explored: set<(int, int)>, calls: nat, si: int, pos: int)
    requires Memo(steps, series, failed, explored, calls) && Settled(failed, explored, si)
    requires IsKey(steps, series, (si, pos)) && (si, pos) !in failed
    ensures Memo(steps, series, failed, explored + {(si, pos)}, calls + 1)
    ensures Settled(failed, explored + {(si, pos)}, si - 1)
    ensures Settled(failed + {(si, pos)}, explored + {(si, pos)}, si)
  {
    hide Matches;
    assert (si, pos) !in explored;
  }

  lemma MemoFail(steps: seq<Step>, series: seq<Sample>, failed: set<(int, int)>, explored: set<(int, int)>, calls: nat, si: int, pos: int)
    requires Memo(steps, series, failed, explored, calls)
    requires IsKey(steps, series, (si, pos)) && !Matches(steps[..si + 1], series, pos + 1)
    ensures Memo(steps, series, failed + {(si, pos)}, explored, calls)
  {
    hide Matches;
  }

  lemma MemoKnows(steps: seq<Step>, series: seq<Sample>, failed: set<(int, int)>, explored: set<(int, int)>, calls: nat, si: int, pos: int)
    requires Memo(steps, series, failed, explored, calls) && (si, pos) in failed
    ensures 0 <= si < |steps| && !Matches(steps[..si + 1], series, pos + 1)
  {
    hide Matches;
  }

  /** Since `failed0` and `explored0`: nothing forgotten, and whatever was explored since has failed. */
  ghost predicate Exhausted(failed0: set<(int, int)>, explored0: set<(int, int)>, failed: set<(int, int)>, explored: set<(int, int)>) {
    && failed0 <= failed
    && forall key :: key in explored && key !in explored0 ==> key in failed
  }

  lemma ExhaustedNothing(failed: set<(int, int)>, explored: set<(int, int)>)
    ensures Exhausted(failed, explored, failed, explored)
  {}

  lemma ExhaustedOn(
    f0: set<(int, int)>, e0: set<(int, int)>, f1: set<(int, int)>, e1: set<(int, int)>, f2: set<(int, int)>, e2: set<(int, int)>, si: int)
    requires Exhausted(f0, e0, f1, e1) && Exhausted(f1, e1, f2, e2)
    ensures Exhausted(f0, e0, f2, e2)
    ensures Settled(f1, e1, si) ==> Settled(f2, e2, si)
  {}

  lemma ExhaustedFail(f0: set<(int, int)>, e0: set<(int, int)>, f: set<(int, int)>, e: set<(int, int)>, key: (int, int))
    requires Exhausted(f0, e0 + {key}, f, e)
    ensures Exhausted(f0, e0, f + {key}, e)
  {}

  lemma NoneYet(steps: seq<Step>, series: seq<Sample>, hi: int)
    ensures NoneIn(steps, series, hi, hi)
  {}

  lemma NoneOne(steps: seq<Step>, series: seq<Sample>, lo: int, hi: int)
    requires NoneIn(steps, series, lo, hi) && !Matches(steps, series, lo)
    ensures NoneIn(steps, series, lo - 1, hi)
  {
    hide Matches;
  }

  lemma KeyIs(steps: seq<Step>, series: seq<Sample>, si: int, pos: int)
    requires 0 <= si < |steps| && -1 <= pos < |series|
    ensures IsKey(steps, series, (si, pos))
  {}

  /** The matcher and its memo. */
  class PatternMatcher {
    const steps: seq<Step>
    const series: seq<Sample>
    var failed: set<(int, int)>
    ghost var explored: set<(int, int)> // the calls that got past the memo check
    ghost var calls: nat                // how many they were

    constructor (steps: seq<Step>, series: seq<Sample>)
      ensures this.steps == steps && this.series == series && failed == {} && explored == {} && calls == 0
    {
      this.steps, this.series, failed, explored, calls := steps, series, {}, {}, 0;
    }

    ghost predicate Valid()
      reads this
    {
      Memo(steps, series, failed, explored, calls)
    }

    lemma ValidIs()
      requires Memo(steps, series, failed, explored, calls)
      ensures Valid()
    {}

    lemma MemoIs()
      requires Valid()
      ensures Memo(steps, series, failed, explored, calls)
    {}

    /** matchSteps: tokens 0 to si against the samples up to pos. */
    method MatchSteps(si: int, pos: int) returns (matched: bool)
      requires Valid() && -1 <= si < |steps| && -1 <= pos < |series| && Settled(failed, explored, si)
      modifies this
      ensures Valid() && matched == Matches(steps[..si + 1], series, pos + 1)
      ensures !matched ==> Exhausted(old(failed), old(explored), failed, explored)
      decreases si, 1
    {
      hide *;
      MemoIs();
      if si < 0 {
        MatchesNothing(series, pos + 1);
        assert steps[..0] == [];
        return true;
      }
      if (si, pos) in failed {
        MemoKnows(steps, series, failed, explored, calls, si, pos);
        ExhaustedNothing(failed, explored);
        return false;
      }
      KeyIs(steps, series, si, pos);
      MemoEnter(steps, series, failed, explored, calls, si, pos);
      explored := explored + {(si, pos)};
      calls := calls + 1;
      ValidIs();
      if steps[si].Skip? {
        matched := TrySkips(si, pos);
      } else {
        matched := TrySlot(si, pos);
      }
      if matched { return; }
      MemoIs();
      MemoFail(steps, series, failed, explored, calls, si, pos);
      ExhaustedFail(old(failed), old(explored), failed, explored, (si, pos));
      failed := failed + {(si, pos)};
      ValidIs();
    }

    /** A skip: every allowance, from 0 up. */
    method TrySkips(si: int, pos: int) returns (matched: bool)
      requires Valid() && 0 <= si < |steps| && steps[si].Skip? && -1 <= pos < |series| && Settled(failed, explored, si - 1)
      modifies this
      ensures Valid() && matched == Matches(steps[..si + 1], series, pos + 1)
      ensures !matched ==> Exhausted(old(failed), old(explored), failed, explored)
      decreases si, 0
    {
      hide *;
      ghost var f, e := failed, explored;
      ExhaustedNothing(f, e);
      NoneYet(steps[..si], series, pos + 1);
      var k := 0;
      while k <= steps[si].max
        invariant 0 <= k && pos - k >= -2
        invariant Valid() && Settled(failed, explored, si - 1) && Exhausted(f, e, failed, explored)
        invariant NoneIn(steps[..si], series, pos + 1 - k, pos + 1)
        modifies this
      {
        if pos - k < -1 { break; }
        ghost var f1, e1 := failed, explored;
        matched := MatchSteps(si - 1, pos - k);
        assert steps[..si - 1 + 1] == steps[..si];
        if matched {
          SkipMatches(steps, series, si, pos, k);
          return;
        }
        ExhaustedOn(f, e, f1, e1, failed, explored, si - 1);
        NoneOne(steps[..si], series, pos + 1 - k, pos + 1);
        k := k + 1;
      }
      SkipFails(steps, series, si, pos, k);
      return false;
    }

    /** A token that takes exactly one sample. */
    method TrySlot(si: int, pos: int) returns (matched: bool)
      requires Valid() && 0 <= si < |steps| && !steps[si].Skip? && -1 <= pos < |series| && Settled(failed, explored, si - 1)
      modifies this
      ensures Valid() && matched == Matches(steps[..si + 1], series, pos + 1)
      ensures !matched ==> Exhausted(old(failed), old(explored), failed, explored)
      decreases si, 0
    {
      hide *;
      ExhaustedNothing(failed, explored);
      SlotIff(steps, series, si, pos);
      if pos < 0 || !Accepts(steps[si], series[pos]) {
        return false;
      }
      matched := MatchSteps(si - 1, pos - 1);
      assert steps[..si - 1 + 1] == steps[..si];
    }
  }

  function Keys(steps: nat, series: nat): set<(int, int)> {
    set si, pos | 0 <= si < steps && -1 <= pos < series :: (si, pos)
  }

  lemma {:induction false} KeysSize(steps: nat, series: nat)
    ensures |Keys(steps, series)| == steps * (series + 1)
    decreases steps
  {
    if steps == 0 {
      assert Keys(0, series) == {};
    } else {
      hide Keys, Row;
      KeysSize(steps - 1, series);
      RowSize(steps - 1, series);
      KeysRow(steps - 1, series);
      OneMore(steps - 1, series + 1);
    }
  }

  lemma OneMore(n: nat, k: nat)
    ensures (n + 1) * k == n * k + k
  {}

  lemma KeysRow(n: nat, series: nat)
    ensures Keys(n + 1, series) == Keys(n, series) + Row(n, series)
    ensures Keys(n, series) !! Row(n, series)
  {}

  function Row(si: int, series: nat): set<(int, int)> {
    set pos | -1 <= pos < series :: (si, pos)
  }

  lemma {:induction false} RowSize(si: int, series: nat)
    ensures |Row(si, series)| == series + 1
    decreases series
  {
    if series == 0 {
      assert Row(si, 0) == {(si, -1)};
    } else {
      RowSize(si, series - 1);
      assert Row(si, series) == Row(si, series - 1) + {(si, series - 1)};
    }
  }

  /** No call got past the check twice, so they were no more than there are keys. */
  lemma FewCalls(steps: seq<Step>, series: seq<Sample>, failed: set<(int, int)>, explored: set<(int, int)>, calls: nat)
    requires Memo(steps, series, failed, explored, calls)
    ensures calls <= |steps| * (|series| + 1)
  {
    hide Matches;
    KeysSize(|steps|, |series|);
    assert explored <= Keys(|steps|, |series|);
    SubsetSize(explored, Keys(|steps|, |series|));
  }

  lemma {:induction false} SubsetSize<T>(a: set<T>, b: set<T>)
    requires a <= b
    ensures |a| <= |b|
    decreases |a|
  {
    if a != {} {
      var x :| x in a;
      SubsetSize(a - {x}, b - {x});
    }
  }

  lemma MemoEmpty(steps: seq<Step>, series: seq<Sample>, si: int)
    ensures Memo(steps, series, {}, {}, 0) && Settled({}, {}, si)
  {}

  /** Pattern.Test on a series: it holds exactly when some choice of skip lengths lines the tokens up
      with the newest end, and the work stays within tokens times positions. */
  method TestPattern(steps: seq<Step>, series: seq<Sample>) returns (matched: bool, ghost calls: nat)
    ensures matched <==> steps != [] && Matches(steps, series, |series|)
    ensures calls <= |steps| * (|series| + 1)
  {
    hide *;
    calls := 0;
    FewCallsNone(|steps|, |series|);
    if |steps| == 0 { return false, 0; }
    var m := new PatternMatcher(steps, series);
    MemoEmpty(steps, series, |steps| - 1);
    m.ValidIs();
    matched := m.MatchSteps(|steps| - 1, |series| - 1);
    assert steps[..|steps|] == steps;
    m.MemoIs();
    FewCalls(steps, series, m.failed, m.explored, m.calls);
    calls := m.calls;
  }

  lemma FewCallsNone(a: nat, b: nat)
    ensures 0 <= a * (b + 1)
  {}

  // ---- both kinds of matcher over a window ----

  datatype Field = Loss | Rtt

  /** The recent samples of one target, oldest first. */
  datatype Window = Window(loss: seq<Sample>, rtt: seq<Sample>)

  datatype Spec =
    | Threshold(field: Field, limit: real, x: int)
    | Pattern(field: Field, steps: seq<Step>, src: string) // src: the text the steps were compiled from

  /** Key: the identity of a matcher; patterns are known by their text. */
  datatype MatcherKey = ThresholdKey(field: Field, limit: real, x: int) | PatternKey(field: Field, src: string)

  function KeyOf(m: Spec): MatcherKey {
    match m
    case Threshold(f, limit, x) => ThresholdKey(f, limit, x)
    case Pattern(f, _, src) => PatternKey(f, src)
  }

  function Series(w: Window, f: Field): seq<Sample> { if f == Loss then w.loss else w.rtt }

  /** The samples that the tokens can cover at most. */
  function Reach(steps: seq<Step>): nat
    decreases |steps|
  {
    if |steps| == 0 then 0
    else Reach(Older(steps)) + if Newest(steps).Skip? then Newest(steps).max else 1
  }

  /** Pattern.Length. */
  method PatternLength(steps: seq<Step>) returns (n: int)
    ensures n == if Reach(steps) < 1 then 1 else Reach(steps)
  {
    n := 0;
    for i := 0 to |steps|
      invariant n == Reach(steps[..i])
    {
      assert Older(steps[..i + 1]) == steps[..i];
      match steps[i] {
        case Skip(max) => n := n + max;
        case _ => n := n + 1;
      }
    }
    assert steps[..|steps|] == steps;
    if n < 1 { n := 1; }
  }

  /** How many samples the matcher looks at. */
  function Length(m: Spec): int {
    match m
    case Threshold(_, _, x) => x
    case Pattern(_, steps, _) => if Reach(steps) < 1 then 1 else Reach(steps)
  }

  ghost predicate Test(m: Spec, w: Window, prev: bool) {
    match m
    case Threshold(f, limit, x) => Hysteresis(limit, x, Series(w, f), prev)
    case Pattern(f, steps, _) => steps != [] && Matches(steps, Series(w, f), |Series(w, f)|)
  }

  method RunTest(m: Spec, w: Window, prev: bool) returns (firing: bool)
    ensures firing == Test(m, w, prev)
  {
    match m {
      case Threshold(f, limit, x) =>
        firing := TestHysteresis(limit, x, Series(w, f), prev);
      case Pattern(f, steps, _) =>
        ghost var calls;
        firing, calls := TestPattern(steps, Series(w, f));
    }
  }

  method RunLength(m: Spec) returns (n: int)
    ensures n == Length(m)
  {
    match m {
      case Threshold(_, _, x) => n := x;
      case Pattern(_, steps, _) => n := PatternLength(steps);
    }
  }

  lemma CoversTail(st: Step, series: seq<Sample>, d: nat, e: int, end: int)
    requires d <= |series| && d <= e
    ensures Covers(st, series, e, end) <==> Covers(st, series[d..], e - d, end - d)
  {}

  /** Samples older than the reach of the tokens do not matter. */
  lemma {:induction false} OldSamplesIrrelevant(steps: seq<Step>, series: seq<Sample>, d: nat, end: int)
    requires d <= |series| && d + Reach(steps) <= end
    ensures Matches(steps, series, end) <==> Matches(steps, series[d..], end - d)
    decreases |steps|
  {
    hide Matches, Covers, Reach, Older, Newest;
    if |steps| == 0 {
      MatchesNothing(series, end);
      MatchesNothing(series[d..], end - d);
    } else {
      MatchStep(steps, series, end);
      MatchStep(steps, series[d..], end - d);
      ReachStep(steps);
      var older, newest := Older(steps), Newest(steps);
      if Matches(steps, series, end) {
        var e :| Covers(newest, series, e, end) && Matches(older, series, e);
        CoversReach(newest, series, e, end);
        CoversTail(newest, series, d, e, end);
        OldSamplesIrrelevant(older, series, d, e);
        assert Covers(newest, series[d..], e - d, end - d) && Matches(older, series[d..], e - d);
      }
      if Matches(steps, series[d..], end - d) {
        var e :| Covers(newest, series[d..], e, end - d) && Matches(older, series[d..], e);
        CoversReach(newest, series[d..], e, end - d);
        CoversTail(newest, series, d, e + d, end);
        OldSamplesIrrelevant(older, series, d, e + d);
        assert Covers(newest, series, e + d, end) && Matches(older, series, e + d);
      }
    }
  }

  lemma ReachStep(steps: seq<Step>)
    requires |steps| > 0
    ensures Reach(steps) == Reach(Older(steps)) + if Newest(steps).Skip? then Newest(steps).max else 1
  {}

  lemma CoversReach(st: Step, series: seq<Sample>, e: int, end: int)
    requires Covers(st, series, e, end)
    ensures 0 <= e && end - e <= if st.Skip? then st.max else 1
  {}

  function Tail(w: Window, d: nat): Window
    requires d <= |w.loss| && d <= |w.rtt|
  {
    Window(w.loss[d..], w.rtt[d..])
  }

  /** A matcher cannot tell a window from its newest Length samples. */
  lemma WindowEnough(m: Spec, w: Window, d: nat, prev: bool)
    requires d <= |w.loss| == |w.rtt| && (d == 0 || |w.loss| - d >= Length(m))
    ensures Test(m, Tail(w, d), prev) == Test(m, w, prev)
  {
    hide Matches, Reach, Hysteresis;
    if d == 0 {
      assert w.loss[0..] == w.loss && w.rtt[0..] == w.rtt;
    } else {
      match m {
        case Threshold(f, limit, x) =>
          TailHysteresis(limit, x, Series(w, f), d, prev);
        case Pattern(f, steps, _) =>
          OldSamplesIrrelevant(steps, Series(w, f), d, |Series(w, f)|);
      }
    }
  }

  lemma TailHysteresis(limit: real, x: int, s: seq<Sample>, d: nat, prev: bool)
    requires d <= |s| && |s| - d >= x
    ensures Hysteresis(limit, x, s[d..], prev) == Hysteresis(limit, x, s, prev)
  {
    if x > 0 {
      var t := s[d..];
      forall i | |t| - x <= i < |t|
        ensures t[i] == s[i + d]
      {}
      forall i | |s| - x <= i < |s|
        ensures s[i] == t[i - d]
      {}
    }
  }

  // ---- what the tokens and the matchers mean ----

  /** The operators are those of the numbers: each is fixed by its value at the threshold, below and above. */
  lemma CompareLaws(a: real, val: real)
    ensures Compare(val, Ge, val) && Compare(val, Le, val) && Compare(val, Eq, val)
    ensures !Compare(val, Gt, val) && !Compare(val, Lt, val) && !Compare(val, Ne, val)
    ensures a > val ==> Compare(a, Gt, val) && Compare(a, Ge, val) && Compare(a, Ne, val)
    ensures a > val ==> !Compare(a, Lt, val) && !Compare(a, Le, val) && !Compare(a, Eq, val)
    ensures a < val ==> Compare(a, Lt, val) && Compare(a, Le, val) && Compare(a, Ne, val)
    ensures a < val ==> !Compare(a, Gt, val) && !Compare(a, Ge, val) && !Compare(a, Eq, val)
  {}

  /** An unknown sample meets no comparison, only ==U and the wildcard. */
  lemma UnknownAccepted(st: Step)
    ensures Accepts(st, Unknown) <==> st.Any? || st == IsUnknown(true)
  {}

  /** A matcher on loss does not look at rtt, nor the other way round. */
  lemma FieldOnly(m: Spec, w: Window, other: Window, prev: bool)
    requires if m.field == Loss then w.loss == other.loss else w.rtt == other.rtt
    ensures Test(m, w, prev) == Test(m, other, prev)
  {
    hide Hysteresis, Matches;
  }

  /** A threshold matcher on its own samples: it raises exactly when the newest x are known and at or above
      the limit, clears exactly when they are known and below it. */
  lemma ThresholdIs(f: Field, limit: real, x: int, w: Window, prev: bool)
    requires x >= 1
    ensures var s := if f == Loss then w.loss else w.rtt;
            var now := Test(Threshold(f, limit, x), w, prev);
            && (!prev ==> (now <==> |s| >= x && forall i :: |s| - x <= i < |s| ==> s[i].Known? && s[i].v >= limit))
            && (prev ==> (!now <==> |s| >= x && forall i :: |s| - x <= i < |s| ==> s[i].Known? && s[i].v < limit))
  {}

  /** A sample the token accepts, if it takes one. */
  function Witness(st: Step): Sample {
    match st
    case Cmp(Gt, val) => Known(val + 1.0)
    case Cmp(Lt, val) => Known(val - 1.0)
    case Cmp(Ne, val) => Known(val + 1.0)
    case Cmp(_, val) => Known(val)
    case IsUnknown(eq) => if eq then Unknown else Known(0.0)
    case _ => Unknown
  }

  /** Some series is covered by the tokens over all of their reach. */
  lemma {:induction false} ReachCovered(steps: seq<Step>) returns (series: seq<Sample>, cuts: seq<int>)
    ensures |series| == Reach(steps) && Aligned(steps, cuts, series, |series|) && cuts[0] == 0
    decreases |steps|
  {
    hide Covers;
    if |steps| == 0 {
      series, cuts := [], [0];
    } else {
      var n, st := |steps| - 1, steps[|steps| - 1];
      var old_, c := ReachCovered(steps[..n]);
      var more := if st.Skip? then seq(st.max, _ => Unknown) else [Witness(st)];
      series, cuts := old_ + more, c + [|old_| + |more|];
      forall i | 0 <= i < |steps|
        ensures Covers(steps[i], series, cuts[i], cuts[i + 1])
      {
        if i < n {
          assert Covers(steps[..n][i], old_, c[i], c[i + 1]);
          CoversLonger(steps[i], old_, more, c[i], c[i + 1]);
        } else {
          WitnessCovers(st, old_, more);
        }
      }
    }
  }

  lemma CoversLonger(st: Step, s: seq<Sample>, more: seq<Sample>, a: int, b: int)
    requires Covers(st, s, a, b)
    ensures Covers(st, s + more, a, b)
  {}

  lemma WitnessCovers(st: Step, s: seq<Sample>, more: seq<Sample>)
    requires if st.Skip? then |more| == st.max else more == [Witness(st)]
    ensures Covers(st, s + more, |s|, |s| + |more|)
  {}

  /** No choice of skip lengths covers more samples than the reach. */
  lemma {:induction false} ReachBound(steps: seq<Step>, cuts: seq<int>, series: seq<Sample>, end: int)
    requires Aligned(steps, cuts, series, end)
    ensures |cuts| == |steps| + 1 && end - cuts[0] <= Reach(steps)
    decreases |steps|
  {
    hide Covers;
    if |steps| > 0 {
      var n := |steps| - 1;
      AlignedSnoc(steps, cuts, series, cuts[n], end);
      ReachBound(steps[..n], cuts[..n + 1], series, cuts[n]);
      CoversReach(steps[n], series, cuts[n], end);
    }
  }
}
