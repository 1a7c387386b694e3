/** The overflow policy shared by the running buffer, its reload and the spool's recovery: a list of
    rounds bounded by a count and by a byte budget, oldest rounds evicted first. */
module Overflow {

  /** The two bounds and the estimated size of a round. */
  datatype Budget<!R> = Budget(capRounds: int, maxBytes: int, size: R -> nat)

  function Total<R>(size: R -> nat, q: seq<R>): nat {
    if q == [] then 0 else size(q[0]) + Total(size, q[1..])
  }

  /** The oldest round has to go before a round of size sz fits; a lone round is never refused. */
  predicate MustEvict<R>(b: Budget<R>, q: seq<R>, sz: nat) {
    |q| > 0 && (|q| >= b.capRounds || Total(b.size, q) + sz > b.maxBytes)
  }

  /** How many of the oldest rounds are evicted: the least number that makes room. */
  function Evictions<R>(b: Budget<R>, q: seq<R>, sz: nat): (k: nat)
    ensures k <= |q|
    ensures !MustEvict(b, q[k..], sz)
    ensures forall j: nat :: j < k ==> MustEvict(b, q[j..], sz)
  {
    if MustEvict(b, q, sz) then
      var k := Evictions(b, q[1..], sz);
      assert forall j: nat :: 1 <= j <= |q| ==> q[j..] == q[1..][j - 1..];
      k + 1
    else 0
  }

  /** One arriving round: make room, then append. */
  function Admit<R>(b: Budget<R>, q: seq<R>, r: R): seq<R> {
    q[Evictions(b, q, b.size(r))..] + [r]
  }

  /** Rounds arriving one after another. */
  function AdmitAll<R>(b: Budget<R>, q: seq<R>, rs: seq<R>): (kept: seq<R>)
    ensures |kept| <= |q| + |rs|
    decreases |rs|
  {
    if rs == [] then q else AdmitAll(b, Admit(b, q, rs[0]), rs[1..])
  }

  /** A list that needs no eviction: within both bounds, or a single oversized round. */
  predicate Within<R>(b: Budget<R>, q: seq<R>) {
    |q| <= 1 || (|q| <= b.capRounds && Total(b.size, q) <= b.maxBytes)
  }

  // ---- sums ----

  lemma {:induction false} TotalConcat<R>(size: R -> nat, a: seq<R>, c: seq<R>)
    ensures Total(size, a + c) == Total(size, a) + Total(size, c)
  {
    if a == [] {
      assert a + c == c;
    } else {
      assert (a + c)[1..] == a[1..] + c;
      TotalConcat(size, a[1..], c);
    }
  }

  lemma TotalSnoc<R>(size: R -> nat, q: seq<R>, r: R)
    ensures Total(size, q + [r]) == Total(size, q) + size(r)
  {
    TotalConcat(size, q, [r]);
    assert Total(size, [r]) == size(r) + Total(size, []);
  }

  // ---- the policy keeps the longest suffix that fits ----

  /** Start of the suffix kept out of a non-empty list: the longest suffix that is Within the budget. */
  ghost predicate LongestWithin<R>(b: Budget<R>, q: seq<R>, start: nat) {
    && start <= |q|
    && (q != [] ==> start < |q|)
    && Within(b, q[start..])
    && forall i: nat :: i < start ==> !Within(b, q[i..])
  }

  lemma StartInside<R>(b: Budget<R>, q: seq<R>, start: nat)
    requires LongestWithin(b, q, start)
    ensures start <= |q|
  {}

  /** The bounds determine what is kept. */
  lemma LongestWithinUnique<R>(b: Budget<R>, q: seq<R>, s: nat, t: nat)
    requires LongestWithin(b, q, s) && LongestWithin(b, q, t)
    ensures s == t
  {}

  /** Making room for one round is needed exactly when the longer list would not be Within. */
  lemma RoomIffWithin<R>(b: Budget<R>, q: seq<R>, r: R)
    requires b.capRounds >= 1
    ensures !MustEvict(b, q, b.size(r)) <==> Within(b, q + [r])
  {
    TotalSnoc(b.size, q, r);
  }

  lemma EvictedBefore<R>(b: Budget<R>, q: seq<R>, sz: nat, j: nat)
    requires j < Evictions(b, q, sz)
    ensures MustEvict(b, q[j..], sz)
  {
    hide MustEvict;
  }

  lemma WithinInit<R>(b: Budget<R>, q: seq<R>, r: R)
    requires Within(b, q + [r])
    ensures Within(b, q)
  {
    TotalSnoc(b.size, q, r);
  }

  /** What starts earlier than the rounds kept is too much with one more round. */
  lemma EarlierTooMuch<R>(b: Budget<R>, q: seq<R>, start: nat, r: R, i: nat)
    requires b.capRounds >= 1 && LongestWithin(b, q, start)
    requires i < start + Evictions(b, q[start..], b.size(r))
    ensures !Within(b, (q + [r])[i..])
  {
    hide Within, MustEvict, Evictions;
    if i < start {
      assert (q + [r])[i..] == q[i..] + [r];
      if Within(b, q[i..] + [r]) { WithinInit(b, q[i..], r); }
    } else {
      var live := q[start..];
      assert live[i - start..] == q[i..];
      assert (q + [r])[i..] == live[i - start..] + [r];
      EvictedBefore(b, live, b.size(r), i - start);
      RoomIffWithin(b, live[i - start..], r);
    }
  }

  /** If the rounds kept so far are the longest suffix Within the budget, they still are after one
      more round. */
  lemma AdmitKeepsLongest<R>(b: Budget<R>, q: seq<R>, start: nat, r: R)
    requires b.capRounds >= 1
    requires LongestWithin(b, q, start)
    ensures LongestWithin(b, q + [r], start + Evictions(b, q[start..], b.size(r)))
    ensures Admit(b, q[start..], r) == (q + [r])[start + Evictions(b, q[start..], b.size(r))..]
  {
    hide Within, MustEvict, Evictions;
    var live := q[start..];
    var k := Evictions(b, live, b.size(r));
    assert (q + [r])[start + k..] == live[k..] + [r];
    RoomIffWithin(b, live[k..], r);
    forall i: nat | i < start + k
      ensures !Within(b, (q + [r])[i..])
    {
      EarlierTooMuch(b, q, start, r, i);
    }
  }

  /** Rounds arriving one after another into an empty buffer leave exactly the longest suffix that is
      within both bounds, or the newest round alone if that one is oversized. */
  lemma {:induction false} AdmitAllKeepsLongest<R>(b: Budget<R>, q: seq<R>, start: nat, rs: seq<R>)
    returns (final: nat)
    requires b.capRounds >= 1
    requires LongestWithin(b, q, start)
    ensures LongestWithin(b, q + rs, final)
    ensures AdmitAll(b, q[start..], rs) == (q + rs)[final..]
    decreases |rs|
  {
    hide LongestWithin, Within, MustEvict, Evictions, Admit;
    if rs == [] {
      final := start;
      assert q + rs == q;
    } else {
      StartInside(b, q, start);
      AdmitKeepsLongest(b, q, start, rs[0]);
      var start' := start + Evictions(b, q[start..], b.size(rs[0]));
      final := AdmitAllKeepsLongest(b, q + [rs[0]], start', rs[1..]);
      assert q + [rs[0]] + rs[1..] == q + rs;
    }
  }

  lemma EmptyIsLongest<R>(b: Budget<R>)
    ensures LongestWithin<R>(b, [], 0)
  {}

  /** A list already Within the budget is admitted whole, without one eviction. */
  lemma {:induction false} AdmitAllWithin<R>(b: Budget<R>, q: seq<R>, rs: seq<R>)
    requires b.capRounds >= 1
    requires Within(b, q + rs)
    ensures AdmitAll(b, q, rs) == q + rs
    decreases |rs|
  {
    if rs == [] {
      assert q + rs == q;
    } else {
      assert q + rs == (q + [rs[0]]) + rs[1..];
      WithinPrefix(b, q + [rs[0]], rs[1..]);
      RoomIffWithin(b, q, rs[0]);
      assert q[0..] == q;
      AdmitAllWithin(b, q + [rs[0]], rs[1..]);
    }
  }

  lemma WithinPrefix<R>(b: Budget<R>, q: seq<R>, rs: seq<R>)
    requires Within(b, q + rs)
    ensures Within(b, q)
  {
    TotalConcat(b.size, q, rs);
  }

  /** Only the oldest rounds ever go: what is left is a suffix of what came in. */
  lemma {:induction false} AdmitAllIsSuffix<R>(b: Budget<R>, q: seq<R>, rs: seq<R>)
    ensures AdmitAll(b, q, rs) == (q + rs)[|q| + |rs| - |AdmitAll(b, q, rs)|..]
    decreases |rs|
  {
    hide Evictions, MustEvict;
    if rs == [] {
      assert (q + rs)[0..] == q;
    } else {
      var k := Evictions(b, q, b.size(rs[0]));
      var q' := Admit(b, q, rs[0]);
      AdmitAllIsSuffix(b, q', rs[1..]);
      assert (q + rs)[k..] == q' + rs[1..];
    }
  }

  lemma {:induction false} TinyCapEvictsAll<R>(b: Budget<R>, q: seq<R>, sz: nat)
    requires b.capRounds < 1
    ensures Evictions(b, q, sz) == |q|
    decreases |q|
  {
    if q != [] {
      TinyCapEvictsAll(b, q[1..], sz);
    }
  }

  lemma {:induction false} TinyCapKeepsOne<R>(b: Budget<R>, q: seq<R>, rs: seq<R>)
    requires b.capRounds < 1 && |q| <= 1
    ensures |AdmitAll(b, q, rs)| <= 1
    decreases |rs|
  {
    if rs != [] {
      TinyCapEvictsAll(b, q, b.size(rs[0]));
      TinyCapKeepsOne(b, Admit(b, q, rs[0]), rs[1..]);
    }
  }

  /** Reloading what the policy kept evicts nothing, whatever the budget. */
  lemma ReloadKeepsAll<R>(b: Budget<R>, rs: seq<R>)
    ensures AdmitAll(b, [], AdmitAll(b, [], rs)) == AdmitAll(b, [], rs)
  {
    hide AdmitAll, MustEvict, Evictions, Admit;
    var kept := AdmitAll(b, [], rs);
    if b.capRounds >= 1 {
      EmptyIsLongest(b);
      var empty: seq<R> := [];
      var start := AdmitAllKeepsLongest(b, empty, 0, rs);
      assert empty[0..] == empty && empty + rs == rs && empty + kept == kept;
      AdmitAllWithin(b, [], kept);
    } else {
      TinyCapKeepsOne(b, [], rs);
      AdmitAtMostOne(b, kept);
    }
  }

  lemma AdmitAtMostOne<R>(b: Budget<R>, q: seq<R>)
    requires |q| <= 1
    ensures AdmitAll(b, [], q) == q
  {
    if q != [] {
      assert q[1..] == [];
    }
  }
}
