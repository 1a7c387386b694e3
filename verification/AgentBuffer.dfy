/** The agent's buffer: a bounded FIFO of rounds keyed by sequence number, mirrored to a spool. */
module AgentBuffer {
  import opened Wrappers
  import opened Overflow
  import opened SpoolDisk
  import opened SpoolRecovery
  import opened SpoolSteps
  import opened SpoolObject
  import opened StoreForward

  /** What a peek takes: at least one round if there is one, then as many of the oldest as stay
      within both limits, and no fewer. */
  ghost predicate Packed<R>(size: R -> nat, rounds: seq<R>, maxRounds: int, maxBytes: int, take: nat) {
    && take <= |rounds| && (take > 0 ==> take <= maxRounds)
    && (rounds != [] && maxRounds >= 1 ==> take >= 1)
    && (take > 1 ==> Total(size, rounds[..take]) <= maxBytes)
    && (take < |rounds| && take < maxRounds ==> Total(size, rounds[..take + 1]) > maxBytes)
  }

  lemma TotalPrefix<R>(size: R -> nat, q: seq<R>, i: nat, j: nat)
    requires i <= j <= |q|
    ensures Total(size, q[..i]) <= Total(size, q[..j])
  {
    assert q[..j] == q[..i] + q[i..j];
    TotalConcat(size, q[..i], q[i..j]);
  }

  /** The limits determine the batch. */
  lemma PackedUnique<R>(size: R -> nat, rounds: seq<R>, maxRounds: int, maxBytes: int, s: nat, t: nat)
    requires Packed(size, rounds, maxRounds, maxBytes, s) && Packed(size, rounds, maxRounds, maxBytes, t)
    ensures s == t
  {
    hide Total;
    if s < t {
      TotalPrefix(size, rounds, s + 1, t);
    } else if t < s {
      TotalPrefix(size, rounds, t + 1, s);
    }
  }

  class Buffer<R(!new)> {
    const budget: Budget<R>
    var rounds: seq<R>
    var headSeq: int
    var curBytes: int
    var dropCnt: nat
    var rejCnt: nat
    var p: Spool?<R> // the durable mirror; null: memory only

    ghost predicate Valid()
      reads this
    {
      curBytes == Total(budget.size, rounds)
    }

    constructor (b: Budget<R>)
      ensures Valid() && rounds == [] && headSeq == 0 && dropCnt == 0 && rejCnt == 0 && p == null
      ensures budget == if b.capRounds <= 0 then b.(capRounds := 100_000) else b
    {
      budget := if b.capRounds <= 0 then b.(capRounds := 100_000) else b;
      rounds, headSeq, curBytes, dropCnt, rejCnt, p := [], 0, 0, 0, 0, null;
    }

    method SetPersister(sp: Spool?<R>)
      modifies this`p
      ensures p == sp
    {
      p := sp;
    }

    /** evictToFitLocked: the oldest rounds go until sz more bytes fit both bounds. */
    method EvictToFit(sz: nat) returns (evicted: bool)
      requires Valid()
      modifies this`rounds, this`headSeq, this`curBytes, this`dropCnt
      ensures Valid()
      ensures var k := Evictions(budget, old(rounds), sz);
              && rounds == old(rounds)[k..]
              && headSeq == old(headSeq) + k && dropCnt == old(dropCnt) + k
              && (evicted <==> k > 0)
    {
      evicted := false;
      ghost var k := 0;
      while |rounds| > 0 && (|rounds| >= budget.capRounds || curBytes + sz > budget.maxBytes)
        invariant Valid() && 0 <= k <= |old(rounds)| && rounds == old(rounds)[k..]
        invariant headSeq == old(headSeq) + k && dropCnt == old(dropCnt) + k
        invariant evicted <==> k > 0
        invariant Evictions(budget, old(rounds), sz) == k + Evictions(budget, rounds, sz)
        decreases |rounds|
      {
        curBytes := curBytes - budget.size(rounds[0]);
        rounds := rounds[1..];
        headSeq := headSeq + 1;
        dropCnt := dropCnt + 1;
        evicted := true;
        k := k + 1;
      }
    }

    /** add: make room, append, mirror both to the spool. */
    method Add(r: R)
      requires Valid() && 0 <= headSeq + |rounds| < MAX_SEQ
      modifies this, p
      ensures Valid() && p == old(p) && rejCnt == old(rejCnt)
      ensures rounds == Admit(budget, old(rounds), r)
      ensures var k := Evictions(budget, old(rounds), budget.size(r));
              && headSeq == old(headSeq) + k && dropCnt == old(dropCnt) + k
              && (p != null ==>
                    && p.disk == old(p.disk)
                    && p.M() == Stage(AfterEvict(old(p.M()), k, headSeq), old(headSeq + |rounds|), r))
    {
      hide Evictions, Total, Admit;
      var sz := budget.size(r);
      var evicted := EvictToFit(sz);
      if evicted && p != null {
        p.AdvanceHead(headSeq);
      }
      TotalSnoc(budget.size, rounds, r);
      AdmitIs(budget, old(rounds), r);
      rounds := rounds + [r];
      curBytes := curBytes + sz;
      if p != null {
        p.Append(headSeq + |rounds| - 1, r);
      }
    }

    /** peekBatch: a copy of the oldest rounds within both limits. */
    method PeekBatch(maxRounds: int, maxBytes: int) returns (batch: seq<R>, upto: int)
      requires Valid()
      ensures Packed(budget.size, rounds, maxRounds, maxBytes, |batch|)
      ensures batch == rounds[..|batch|] && upto == headSeq + |batch| - 1
    {
      hide Total;
      var n := if |rounds| > maxRounds then maxRounds else |rounds|;
      var bytes, take: nat := 0, 0;
      NothingTotal(budget.size, rounds);
      while take < n
        invariant take <= |rounds| && (take > 0 ==> take <= n)
        invariant bytes == Total(budget.size, rounds[..take])
        invariant take > 1 ==> bytes <= maxBytes
      {
        var sz := budget.size(rounds[take]);
        NextTotal(budget.size, rounds, take);
        if take > 0 && bytes + sz > maxBytes {
          break;
        }
        bytes := bytes + sz;
        take := take + 1;
      }
      batch, upto := rounds[..take], headSeq + take - 1;
    }

    /** commit: whatever of the batch is still there goes. */
    method Commit(upto: int)
      requires Valid()
      modifies this, p
      ensures Valid() && p == old(p) && dropCnt == old(dropCnt) && rejCnt == old(rejCnt)
      ensures var k := Removed(|old(rounds)|, old(headSeq), upto);
              && rounds == old(rounds)[k..] && headSeq == old(headSeq) + k
              && (p != null ==> p.disk == old(p.disk))
              && (p != null ==> p.M() == if upto >= old(headSeq) then AdvanceHead(old(p.M()), headSeq) else old(p.M()))
    {
      hide Total;
      var remove := upto - headSeq + 1;
      if remove <= 0 { return; }
      if remove > |rounds| {
        remove := |rounds|;
      }
      ghost var was := rounds;
      var i := 0;
      NothingTotal(budget.size, rounds);
      while i < remove
        invariant 0 <= i <= remove <= |rounds| && rounds == was
        invariant curBytes == Total(budget.size, rounds) - Total(budget.size, rounds[..i])
        invariant headSeq == old(headSeq)
        modifies this`curBytes
      {
        NextTotal(budget.size, rounds, i);
        curBytes := curBytes - budget.size(rounds[i]);
        i := i + 1;
      }
      TotalSplit(budget.size, rounds, remove);
      rounds := rounds[remove..];
      headSeq := headSeq + remove;
      if p != null {
        p.AdvanceHead(headSeq);
      }
    }

    /** reload: adopt what recovery found; trim it if the bounds have shrunk since. */
    method Reload(head: int, live: seq<R>)
      modifies this, p
      ensures Valid() && p == old(p) && rejCnt == old(rejCnt)
      ensures rounds == AdmitAll(budget, [], live) && headSeq + |rounds| == head + |live|
      ensures dropCnt == old(dropCnt) + |live| - |rounds|
      ensures p != null ==> p.disk == old(p.disk)
      ensures p != null && |rounds| == |live| ==> p.M() == old(p.M())
    {
      hide Total, AdmitAll, Evictions, Admit;
      headSeq, rounds, curBytes := head, [], 0;
      NothingTotal(budget.size, live);
      ghost var was := dropCnt;
      var i := 0;
      assert live[0..] == live && live[..0] == [];
      while i < |live|
        invariant 0 <= i <= |live| && Valid() && p == old(p) && rejCnt == old(rejCnt)
        invariant AdmitAll(budget, [], live) == AdmitAll(budget, rounds, live[i..])
        invariant headSeq + |rounds| == head + i && dropCnt + |rounds| == was + i && head <= headSeq
        invariant p != null ==> p.disk == old(p.disk)
        invariant p != null && headSeq == head ==> p.M() == old(p.M())
        modifies this, p
      {
        ghost var q := rounds;
        AdmitNext(budget, q, live, i);
        AdmitIs(budget, q, live[i]);
        var sz := budget.size(live[i]);
        var evicted := EvictToFit(sz);
        if evicted && p != null {
          p.AdvanceHead(headSeq);
        }
        TotalSnoc(budget.size, rounds, live[i]);
        rounds := rounds + [live[i]];
        curBytes := curBytes + sz;
        i := i + 1;
      }
      AdmitDone(budget, rounds, live);
    }

    method Reject(n: nat)
      modifies this`rejCnt
      ensures rejCnt == old(rejCnt) + n
    {
      rejCnt := rejCnt + n;
    }
  }

  /** The spool after k evictions left the head at headSeq. */
  function AfterEvict<R>(m: Mem<R>, k: nat, headSeq: int): Mem<R> {
    if k > 0 then AdvanceHead(m, headSeq) else m
  }

  lemma AdmitIs<R>(b: Budget<R>, q: seq<R>, r: R)
    ensures Admit(b, q, r) == q[Evictions(b, q, b.size(r))..] + [r]
  {}

  lemma AdmitNext<R>(b: Budget<R>, q: seq<R>, rs: seq<R>, i: nat)
    requires i < |rs|
    ensures AdmitAll(b, q, rs[i..]) == AdmitAll(b, Admit(b, q, rs[i]), rs[i + 1..])
  {
    hide Admit;
    assert rs[i..][1..] == rs[i + 1..];
  }

  lemma AdmitDone<R>(b: Budget<R>, q: seq<R>, rs: seq<R>)
    ensures AdmitAll(b, q, rs[|rs|..]) == q
  {}

  lemma NothingTotal<R>(size: R -> nat, q: seq<R>)
    ensures Total(size, q[..0]) == 0 && Total(size, []) == 0
  {}

  lemma NextTotal<R>(size: R -> nat, q: seq<R>, i: nat)
    requires i < |q|
    ensures Total(size, q[..i + 1]) == Total(size, q[..i]) + size(q[i])
  {
    TotalSnoc(size, q[..i], q[i]);
    assert q[..i] + [q[i]] == q[..i + 1];
  }

  lemma TotalSplit<R>(size: R -> nat, q: seq<R>, i: nat)
    requires i <= |q|
    ensures Total(size, q) == Total(size, q[..i]) + Total(size, q[i..])
  {
    TotalConcat(size, q[..i], q[i..]);
    assert q[..i] + q[i..] == q;
  }

  /** A commit removes exactly the buffered rounds numbered at most upto. */
  lemma RemovedIff(rounds: nat, headSeq: int, upto: int, i: int)
    requires headSeq <= i < headSeq + rounds
    ensures i - headSeq < Removed(rounds, headSeq, upto) <==> i <= upto
  {}
}
