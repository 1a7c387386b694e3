/** Pushing a batch to the hub, with the recursive split on a size rejection. */
module Delivery {

  /** How the hub answers one post: 200, 413, 400, or anything that is worth a retry. */
  datatype Response = Accepted | TooLarge | Malformed | Transient

  /** A hub: its answer to the t-th post. */
  type Hub<!R> = (nat, seq<R>) -> Response

  /** One post: positions [lo, hi) of the batch. */
  datatype Post = Post(lo: nat, hi: nat, resp: Response)

  datatype Sent = Sent(sent: nat, dropped: nat, failed: bool, posts: seq<Post>)

  /** Where a batch of n rounds is split. */
  function Half(n: nat): (mid: nat)
    ensures n > 1 ==> 1 <= mid < n
    ensures n - 1 <= 2 * mid <= n
  {
    n / 2
  }

  /** sendBatch on the piece of a batch that starts at position lo, t being the number of posts so far. */
  function SendBatch<R>(hub: Hub<R>, t: nat, rounds: seq<R>, lo: nat): (s: Sent)
    decreases |rounds|
  {
    var n := |rounds|;
    if n == 0 then Sent(0, 0, false, [])
    else
      var resp := hub(t, rounds);
      var post := Post(lo, lo + n, resp);
      if resp == Accepted then Sent(n, 0, false, [post])
      else if resp == Transient then Sent(0, 0, true, [post])
      else if resp == TooLarge && n > 1 then
        var mid := Half(n);
        var a := SendBatch(hub, t + 1, rounds[..mid], lo);
        if a.failed then Sent(0, 0, true, [post] + a.posts)
        else
          var z := SendBatch(hub, t + 1 + |a.posts|, rounds[mid..], lo + mid);
          if z.failed then Sent(0, 0, true, [post] + a.posts + z.posts)
          else Sent(a.sent + z.sent, a.dropped + z.dropped, false, [post] + a.posts + z.posts)
      else Sent(0, n, false, [post])
  }

  /** The hub acknowledged the round at position i. */
  predicate AckedAt(posts: seq<Post>, i: int) {
    exists k :: 0 <= k < |posts| && posts[k].lo <= i < posts[k].hi && posts[k].resp == Accepted
  }

  predicate Final(p: Post) { p.resp == Malformed || (p.resp == TooLarge && p.hi == p.lo + 1) }

  /** The hub permanently refused the round at position i: in a malformed batch, or alone and oversized. */
  predicate RefusedAt(posts: seq<Post>, i: int) {
    exists k :: 0 <= k < |posts| && posts[k].lo <= i < posts[k].hi && Final(posts[k])
  }

  /** The rounds acknowledged, in the order they were posted. */
  function Delivered<R>(batch: seq<R>, posts: seq<Post>): seq<R> {
    if posts == [] then []
    else
      var p := posts[0];
      (if p.resp == Accepted && p.lo <= p.hi <= |batch| then batch[p.lo..p.hi] else []) + Delivered(batch, posts[1..])
  }

  // ---- one level of the recursion ----

  predicate Splits<R>(hub: Hub<R>, t: nat, rounds: seq<R>) { |rounds| > 1 && hub(t, rounds) == TooLarge }

  lemma SendNothing<R>(hub: Hub<R>, t: nat, lo: nat)
    ensures SendBatch(hub, t, [], lo) == Sent(0, 0, false, [])
  {}

  lemma SendUnsplit<R>(hub: Hub<R>, t: nat, rounds: seq<R>, lo: nat)
    requires |rounds| > 0 && !Splits(hub, t, rounds)
    ensures var p := Post(lo, lo + |rounds|, hub(t, rounds));
            SendBatch(hub, t, rounds, lo) ==
            Sent(if p.resp == Accepted then |rounds| else 0,
                 if p.resp == Accepted || p.resp == Transient then 0 else |rounds|,
                 p.resp == Transient, [p])
    ensures hub(t, rounds) == TooLarge ==> |rounds| == 1
  {}

  lemma SendSplit<R>(hub: Hub<R>, t: nat, rounds: seq<R>, lo: nat)
    requires Splits(hub, t, rounds)
    ensures |rounds| > 1
    ensures var p, mid := Post(lo, lo + |rounds|, TooLarge), Half(|rounds|);
            var a := SendBatch(hub, t + 1, rounds[..mid], lo);
            var z := SendBatch(hub, t + 1 + |a.posts|, rounds[mid..], lo + mid);
            SendBatch(hub, t, rounds, lo) ==
            if a.failed then Sent(0, 0, true, [p] + a.posts)
            else if z.failed then Sent(0, 0, true, [p] + a.posts + z.posts)
            else Sent(a.sent + z.sent, a.dropped + z.dropped, false, [p] + a.posts + z.posts)
  {}

  // ---- every hub ----

  /** All posts lie in positions [lo, hi). */
  ghost predicate Inside(posts: seq<Post>, lo: nat, hi: nat) {
    forall p :: p in posts ==> lo <= p.lo < p.hi <= hi
  }

  lemma InsideSplit(p: Post, a: seq<Post>, z: seq<Post>, lo: nat, mid: nat, hi: nat)
    requires lo <= mid <= hi && p.lo == lo && p.hi == hi && lo < hi
    requires Inside(a, lo, mid) && Inside(z, mid, hi)
    ensures Inside([p] + a, lo, hi) && Inside([p] + a + z, lo, hi)
  {}

  lemma {:induction false} PostsInside<R>(hub: Hub<R>, t: nat, rounds: seq<R>, lo: nat)
    ensures Inside(SendBatch(hub, t, rounds, lo).posts, lo, lo + |rounds|)
    decreases |rounds|
  {
    hide *;
    if |rounds| == 0 {
      SendNothing(hub, t, lo);
      InsideNothing(lo);
    } else if Splits(hub, t, rounds) {
      SendSplit(hub, t, rounds, lo);
      var mid := Half(|rounds|);
      var a := SendBatch(hub, t + 1, rounds[..mid], lo);
      var z := SendBatch(hub, t + 1 + |a.posts|, rounds[mid..], lo + mid);
      PostsInside(hub, t + 1, rounds[..mid], lo);
      PostsInside(hub, t + 1 + |a.posts|, rounds[mid..], lo + mid);
      InsideSplit(Post(lo, lo + |rounds|, TooLarge), a.posts, z.posts, lo, lo + mid, lo + |rounds|);
    } else {
      SendUnsplit(hub, t, rounds, lo);
      InsideOne(Post(lo, lo + |rounds|, hub(t, rounds)));
    }
  }

  lemma InsideNothing(lo: nat)
    ensures Inside([], lo, lo)
  {}

  lemma InsideOne(p: Post)
    requires p.lo < p.hi
    ensures Inside([p], p.lo, p.hi)
  {}

  /** At most 2n-1 posts for n rounds: the call ends, whatever the hub answers. */
  lemma {:induction false} PostBound<R>(hub: Hub<R>, t: nat, rounds: seq<R>, lo: nat)
    requires rounds != []
    ensures 1 <= |SendBatch(hub, t, rounds, lo).posts| <= 2 * |rounds| - 1
    decreases |rounds|
  {
    hide *;
    if Splits(hub, t, rounds) {
      SendSplit(hub, t, rounds, lo);
      var mid := Half(|rounds|);
      PostBound(hub, t + 1, rounds[..mid], lo);
      PostBound(hub, t + 1 + |SendBatch(hub, t + 1, rounds[..mid], lo).posts|, rounds[mid..], lo + mid);
    } else {
      SendUnsplit(hub, t, rounds, lo);
    }
  }

  // ---- transient failures ----

  /** Some post got an answer that is worth a retry. */
  predicate GotTransient(posts: seq<Post>) { exists k :: 0 <= k < |posts| && posts[k].resp == Transient }

  lemma TransientConcat(a: seq<Post>, b: seq<Post>)
    ensures GotTransient(a + b) <==> GotTransient(a) || GotTransient(b)
  {
    if k :| 0 <= k < |a| && a[k].resp == Transient { assert (a + b)[k] == a[k]; }
    if k :| 0 <= k < |b| && b[k].resp == Transient { assert (a + b)[|a| + k] == b[k]; }
  }

  lemma TransientOne(p: Post)
    ensures GotTransient([p]) <==> p.resp == Transient
  {
    assert [p][0] == p;
  }

  lemma TransientNone()
    ensures !GotTransient([])
  {}

  /** A send fails exactly if some post got such an answer, and that was its last post. */
  lemma {:induction false} SendFailsIff<R>(hub: Hub<R>, t: nat, rounds: seq<R>, lo: nat)
    ensures var s := SendBatch(hub, t, rounds, lo);
            && (s.failed <==> GotTransient(s.posts))
            && (s.failed ==> s.posts != [] && !GotTransient(s.posts[..|s.posts| - 1]))
    decreases |rounds|
  {
    hide *;
    TransientNone();
    if |rounds| == 0 {
      SendNothing(hub, t, lo);
    } else if Splits(hub, t, rounds) {
      SendSplit(hub, t, rounds, lo);
      var mid, p := Half(|rounds|), Post(lo, lo + |rounds|, TooLarge);
      var a := SendBatch(hub, t + 1, rounds[..mid], lo);
      var z := SendBatch(hub, t + 1 + |a.posts|, rounds[mid..], lo + mid);
      SendFailsIff(hub, t + 1, rounds[..mid], lo);
      SendFailsIff(hub, t + 1 + |a.posts|, rounds[mid..], lo + mid);
      TransientOne(p);
      TransientConcat([p], a.posts);
      TransientConcat([p] + a.posts, z.posts);
      if a.failed {
        assert ([p] + a.posts)[..|[p] + a.posts| - 1] == [p] + a.posts[..|a.posts| - 1];
        TransientConcat([p], a.posts[..|a.posts| - 1]);
      } else if z.failed {
        assert ([p] + a.posts + z.posts)[..|[p] + a.posts + z.posts| - 1] == [p] + a.posts + z.posts[..|z.posts| - 1];
        TransientConcat([p] + a.posts, z.posts[..|z.posts| - 1]);
      }
    } else {
      SendUnsplit(hub, t, rounds, lo);
      var p := Post(lo, lo + |rounds|, hub(t, rounds));
      TransientOne(p);
      assert [p][..0] == [];
    }
  }

  ghost predicate NeverTransient<R(!new)>(hub: Hub<R>) { forall t: nat, b: seq<R> :: hub(t, b) != Transient }

  lemma {:induction false} SendNeverFails<R(!new)>(hub: Hub<R>, t: nat, rounds: seq<R>, lo: nat)
    requires NeverTransient(hub)
    ensures !SendBatch(hub, t, rounds, lo).failed
    decreases |rounds|
  {
    hide Half, SendBatch;
    if |rounds| == 0 {
      SendNothing(hub, t, lo);
    } else if Splits(hub, t, rounds) {
      SendSplit(hub, t, rounds, lo);
      var mid := Half(|rounds|);
      SendNeverFails(hub, t + 1, rounds[..mid], lo);
      SendNeverFails(hub, t + 1 + |SendBatch(hub, t + 1, rounds[..mid], lo).posts|, rounds[mid..], lo + mid);
    } else {
      SendUnsplit(hub, t, rounds, lo);
    }
  }

  lemma AckedConcat(a: seq<Post>, b: seq<Post>, i: int)
    ensures AckedAt(a + b, i) <==> AckedAt(a, i) || AckedAt(b, i)
  {
    if AckedAt(b, i) {
      var k :| 0 <= k < |b| && b[k].lo <= i < b[k].hi && b[k].resp == Accepted;
      assert (a + b)[|a| + k] == b[k];
    }
    if AckedAt(a, i) {
      var k :| 0 <= k < |a| && a[k].lo <= i < a[k].hi && a[k].resp == Accepted;
      assert (a + b)[k] == a[k];
    }
  }

  lemma RefusedConcat(a: seq<Post>, b: seq<Post>, i: int)
    ensures RefusedAt(a + b, i) <==> RefusedAt(a, i) || RefusedAt(b, i)
  {
    if RefusedAt(b, i) {
      var k :| 0 <= k < |b| && b[k].lo <= i < b[k].hi && Final(b[k]);
      assert (a + b)[|a| + k] == b[k];
    }
    if RefusedAt(a, i) {
      var k :| 0 <= k < |a| && a[k].lo <= i < a[k].hi && Final(a[k]);
      assert (a + b)[k] == a[k];
    }
  }

  /** Every round of the piece got exactly one verdict. */
  ghost predicate Settled(posts: seq<Post>, lo: nat, hi: nat) {
    forall i :: lo <= i < hi ==> (AckedAt(posts, i) <==> !RefusedAt(posts, i))
  }

  lemma OnePost(p: Post, i: int)
    ensures AckedAt([p], i) <==> p.lo <= i < p.hi && p.resp == Accepted
    ensures RefusedAt([p], i) <==> p.lo <= i < p.hi && Final(p)
  {
    assert [p][0] == p;
  }

  lemma NoVerdictOutside(posts: seq<Post>, lo: nat, hi: nat, i: int)
    requires Inside(posts, lo, hi)
    requires i < lo || hi <= i
    ensures !AckedAt(posts, i) && !RefusedAt(posts, i)
  {}

  /** When sendBatch reports no error, every round of the batch was either acknowledged or
      permanently refused, and not both. */
  lemma {:induction false} SendSettles<R>(hub: Hub<R>, t: nat, rounds: seq<R>, lo: nat)
    requires !SendBatch(hub, t, rounds, lo).failed
    ensures Settled(SendBatch(hub, t, rounds, lo).posts, lo, lo + |rounds|)
    decreases |rounds|
  {
    hide *;
    if |rounds| == 0 {
      NothingSettles(SendBatch(hub, t, rounds, lo).posts, lo);
    } else if Splits(hub, t, rounds) {
      SendSplit(hub, t, rounds, lo);
      var mid := Half(|rounds|);
      var a := SendBatch(hub, t + 1, rounds[..mid], lo);
      var z := SendBatch(hub, t + 1 + |a.posts|, rounds[mid..], lo + mid);
      SendSettles(hub, t + 1, rounds[..mid], lo);
      SendSettles(hub, t + 1 + |a.posts|, rounds[mid..], lo + mid);
      PostsInside(hub, t + 1, rounds[..mid], lo);
      PostsInside(hub, t + 1 + |a.posts|, rounds[mid..], lo + mid);
      SplitSettles(Post(lo, lo + |rounds|, TooLarge), a.posts, z.posts, lo, lo + mid, lo + |rounds|);
    } else {
      SendUnsplit(hub, t, rounds, lo);
      OneSettles(Post(lo, lo + |rounds|, hub(t, rounds)));
    }
  }

  lemma NothingSettles(posts: seq<Post>, lo: nat)
    ensures Settled(posts, lo, lo)
  {}

  lemma OneSettles(p: Post)
    requires p.resp == Accepted || p.resp == Malformed || (p.resp == TooLarge && p.hi == p.lo + 1)
    ensures Settled([p], p.lo, p.hi)
  {
    hide AckedAt, RefusedAt;
    forall i | p.lo <= i < p.hi
      ensures AckedAt([p], i) <==> !RefusedAt([p], i)
    {
      OnePost(p, i);
    }
  }

  lemma SplitSettles(post: Post, a: seq<Post>, z: seq<Post>, lo: nat, mid: nat, hi: nat)
    requires lo < mid < hi
    requires post == Post(lo, hi, TooLarge) && lo + 1 < hi
    requires Inside(a, lo, mid) && Inside(z, mid, hi)
    requires Settled(a, lo, mid) && Settled(z, mid, hi)
    ensures Settled([post] + a + z, lo, hi)
  {
    hide AckedAt, RefusedAt, Inside;
    forall i | lo <= i < hi
      ensures AckedAt([post] + a + z, i) <==> !RefusedAt([post] + a + z, i)
    {
      OnePost(post, i);
      AckedConcat([post], a, i);
      AckedConcat([post] + a, z, i);
      RefusedConcat([post], a, i);
      RefusedConcat([post] + a, z, i);
      if i < mid { NoVerdictOutside(z, mid, hi, i); } else { NoVerdictOutside(a, lo, mid, i); }
    }
  }

  lemma {:induction false} DeliveredConcat<R>(batch: seq<R>, a: seq<Post>, b: seq<Post>)
    ensures Delivered(batch, a + b) == Delivered(batch, a) + Delivered(batch, b)
    decreases |a|
  {
    if a == [] {
      assert a + b == b;
    } else {
      assert (a + b)[1..] == a[1..] + b;
      DeliveredConcat(batch, a[1..], b);
    }
  }

  lemma DeliveredOne<R>(batch: seq<R>, p: Post)
    ensures Delivered(batch, [p]) == if p.resp == Accepted && p.lo <= p.hi <= |batch| then batch[p.lo..p.hi] else []
  {
    assert [p][1..] == [];
    assert Delivered(batch, []) == [];
  }

  /** `rounds` is the piece of the batch that starts at position lo. */
  predicate Piece<R(==)>(batch: seq<R>, lo: nat, rounds: seq<R>) {
    lo + |rounds| <= |batch| && batch[lo..lo + |rounds|] == rounds
  }

  /** The counts returned are exact: sent is the number of rounds acknowledged, each once, and
      sent + dropped is the size of the batch; after any transient failure both are zero. */
  lemma {:induction false} SendCounts<R>(hub: Hub<R>, t: nat, rounds: seq<R>, lo: nat, batch: seq<R>)
    requires Piece(batch, lo, rounds)
    ensures var s := SendBatch(hub, t, rounds, lo);
            if s.failed then s.sent == 0 && s.dropped == 0
            else s.sent == |Delivered(batch, s.posts)| && s.sent + s.dropped == |rounds|
    decreases |rounds|
  {
    hide *;
    if |rounds| == 0 {
      SendNothing(hub, t, lo);
      DeliveredNothing(batch);
    } else if Splits(hub, t, rounds) {
      SendSplit(hub, t, rounds, lo);
      var mid := Half(|rounds|);
      var a := SendBatch(hub, t + 1, rounds[..mid], lo);
      var z := SendBatch(hub, t + 1 + |a.posts|, rounds[mid..], lo + mid);
      SubBatches(rounds, lo, batch, mid);
      SendCounts(hub, t + 1, rounds[..mid], lo, batch);
      SendCounts(hub, t + 1 + |a.posts|, rounds[mid..], lo + mid, batch);
      DeliveredSplit(batch, Post(lo, lo + |rounds|, TooLarge), a.posts, z.posts);
    } else {
      SendUnsplit(hub, t, rounds, lo);
      OneCounts(batch, rounds, Post(lo, lo + |rounds|, hub(t, rounds)));
    }
  }

  lemma OneCounts<R>(batch: seq<R>, rounds: seq<R>, p: Post)
    requires p.hi == p.lo + |rounds| && Piece(batch, p.lo, rounds)
    ensures |Delivered(batch, [p])| == if p.resp == Accepted then |rounds| else 0
  {
    DeliveredOne(batch, p);
  }

  lemma DeliveredNothing<R>(batch: seq<R>)
    ensures Delivered(batch, []) == []
  {}

  lemma SubBatches<R>(rounds: seq<R>, lo: nat, batch: seq<R>, mid: nat)
    requires Piece(batch, lo, rounds) && mid <= |rounds|
    ensures Piece(batch, lo, rounds[..mid]) && Piece(batch, lo + mid, rounds[mid..])
  {}

  lemma DeliveredSplit<R>(batch: seq<R>, p: Post, a: seq<Post>, z: seq<Post>)
    requires p.resp == TooLarge
    ensures Delivered(batch, [p] + a + z) == Delivered(batch, a) + Delivered(batch, z)
  {
    hide Delivered;
    DeliveredOne(batch, p);
    DeliveredConcat(batch, [p], a);
    DeliveredConcat(batch, [p] + a, z);
  }

  // ---- a hub that only checks the size ----

  /** A hub that answers 413 exactly when the batch is larger than its cap. */
  ghost predicate SizeChecking<R(!new)>(hub: Hub<R>, size: seq<R> -> nat, cap: nat) {
    forall t: nat, b: seq<R> :: hub(t, b) == if size(b) > cap then TooLarge else Accepted
  }

  /** A piece of a batch is no larger than the batch. */
  ghost predicate Monotone<R(!new)>(size: seq<R> -> nat) {
    forall b: seq<R>, i: nat, j: nat :: i <= j <= |b| ==> size(b[i..j]) <= size(b)
  }

  function FitAlone<R>(size: seq<R> -> nat, cap: nat, rounds: seq<R>): seq<R> {
    if rounds == [] then []
    else (if size([rounds[0]]) <= cap then [rounds[0]] else []) + FitAlone(size, cap, rounds[1..])
  }

  lemma {:induction false} FitAloneConcat<R>(size: seq<R> -> nat, cap: nat, a: seq<R>, b: seq<R>)
    ensures FitAlone(size, cap, a + b) == FitAlone(size, cap, a) + FitAlone(size, cap, b)
    decreases |a|
  {
    if a == [] {
      assert a + b == b;
    } else {
      FitAloneConcat(size, cap, a[1..], b);
      FitAloneCons(size, cap, a[0], a[1..]);
      FitAloneCons(size, cap, a[0], a[1..] + b);
      hide FitAlone;
      assert a + b == [a[0]] + (a[1..] + b) && a == [a[0]] + a[1..];
    }
  }

  lemma FitAloneCons<R>(size: seq<R> -> nat, cap: nat, r: R, rest: seq<R>)
    ensures FitAlone(size, cap, [r] + rest) == (if size([r]) <= cap then [r] else []) + FitAlone(size, cap, rest)
  {
    assert ([r] + rest)[1..] == rest;
  }

  /** In a batch that fits, every round fits alone. */
  lemma {:induction false} AllFitAlone<R(!new)>(size: seq<R> -> nat, cap: nat, rounds: seq<R>)
    requires Monotone(size) && size(rounds) <= cap
    ensures FitAlone(size, cap, rounds) == rounds
    decreases |rounds|
  {
    if rounds != [] {
      PieceFits(size, cap, rounds);
      AllFitAlone(size, cap, rounds[1..]);
      FitAloneCons(size, cap, rounds[0], rounds[1..]);
      hide FitAlone, Monotone;
      assert rounds == [rounds[0]] + rounds[1..];
    }
  }

  lemma PieceFits<R(!new)>(size: seq<R> -> nat, cap: nat, rounds: seq<R>)
    requires Monotone(size) && size(rounds) <= cap && rounds != []
    ensures size([rounds[0]]) <= cap && size(rounds[1..]) <= cap
  {
    assert rounds[0..1] == [rounds[0]];
    assert rounds[1..|rounds|] == rounds[1..];
  }

  /** The send delivered, in order, exactly the rounds that fit the cap alone, and dropped exactly
      the others. */
  ghost predicate DeliversWhatFits<R>(size: seq<R> -> nat, cap: nat, batch: seq<R>, rounds: seq<R>, s: Sent) {
    && !s.failed
    && Delivered(batch, s.posts) == FitAlone(size, cap, rounds)
    && s.sent == |FitAlone(size, cap, rounds)|
    && s.sent + s.dropped == |rounds|
  }

  /** Against a hub that only checks the size, splitting never fails, and it delivers what fits. */
  lemma {:induction false} SplitDeliversWhatFits<R(!new)>(
    hub: Hub<R>, size: seq<R> -> nat, cap: nat, t: nat, rounds: seq<R>, lo: nat, batch: seq<R>)
    requires SizeChecking(hub, size, cap) && Monotone(size)
    requires Piece(batch, lo, rounds)
    ensures DeliversWhatFits(size, cap, batch, rounds, SendBatch(hub, t, rounds, lo))
    decreases |rounds|
  {
    hide *;
    HubAnswer(hub, size, cap, t, rounds);
    if |rounds| == 0 {
      SendNothing(hub, t, lo);
      NothingFits(size, cap, batch);
    } else if Splits(hub, t, rounds) {
      SendSplit(hub, t, rounds, lo);
      var mid := Half(|rounds|);
      var a := SendBatch(hub, t + 1, rounds[..mid], lo);
      var z := SendBatch(hub, t + 1 + |a.posts|, rounds[mid..], lo + mid);
      SubBatches(rounds, lo, batch, mid);
      SplitDeliversWhatFits(hub, size, cap, t + 1, rounds[..mid], lo, batch);
      SplitDeliversWhatFits(hub, size, cap, t + 1 + |a.posts|, rounds[mid..], lo + mid, batch);
      HalvesFit(size, cap, batch, rounds, mid, Post(lo, lo + |rounds|, TooLarge), a, z);
    } else {
      SendUnsplit(hub, t, rounds, lo);
      if size(rounds) <= cap {
        WholeFits(size, cap, batch, rounds, Post(lo, lo + |rounds|, Accepted));
      } else {
        NoneFits(size, cap, batch, rounds, Post(lo, lo + |rounds|, TooLarge));
      }
    }
  }

  lemma HubAnswer<R(!new)>(hub: Hub<R>, size: seq<R> -> nat, cap: nat, t: nat, rounds: seq<R>)
    requires SizeChecking(hub, size, cap)
    ensures hub(t, rounds) == if size(rounds) > cap then TooLarge else Accepted
  {}

  lemma NothingFits<R>(size: seq<R> -> nat, cap: nat, batch: seq<R>)
    ensures DeliversWhatFits(size, cap, batch, [], Sent(0, 0, false, []))
  {}

  lemma WholeFits<R(!new)>(size: seq<R> -> nat, cap: nat, batch: seq<R>, rounds: seq<R>, p: Post)
    requires Monotone(size) && size(rounds) <= cap
    requires p.resp == Accepted && p.hi == p.lo + |rounds| && Piece(batch, p.lo, rounds)
    ensures DeliversWhatFits(size, cap, batch, rounds, Sent(|rounds|, 0, false, [p]))
  {
    hide Delivered, FitAlone, Monotone;
    DeliveredOne(batch, p);
    AllFitAlone(size, cap, rounds);
  }

  lemma NoneFits<R>(size: seq<R> -> nat, cap: nat, batch: seq<R>, rounds: seq<R>, p: Post)
    requires |rounds| == 1 && size(rounds) > cap && p.resp == TooLarge
    ensures DeliversWhatFits(size, cap, batch, rounds, Sent(0, |rounds|, false, [p]))
  {
    hide Delivered, FitAlone;
    DeliveredOne(batch, p);
    assert rounds == [rounds[0]] + [] && rounds == [rounds[0]];
    FitAloneCons(size, cap, rounds[0], []);
    FitAloneNone(size, cap);
  }

  lemma HalvesFit<R>(size: seq<R> -> nat, cap: nat, batch: seq<R>, rounds: seq<R>, mid: nat, p: Post, a: Sent, z: Sent)
    requires mid <= |rounds| && p.resp == TooLarge
    requires DeliversWhatFits(size, cap, batch, rounds[..mid], a)
    requires DeliversWhatFits(size, cap, batch, rounds[mid..], z)
    ensures !a.failed && !z.failed
    ensures DeliversWhatFits(size, cap, batch, rounds, Sent(a.sent + z.sent, a.dropped + z.dropped, false, [p] + a.posts + z.posts))
  {
    hide Delivered, FitAlone;
    DeliveredSplit(batch, p, a.posts, z.posts);
    assert rounds == rounds[..mid] + rounds[mid..];
    FitAloneConcat(size, cap, rounds[..mid], rounds[mid..]);
  }

  lemma FitAloneNone<R>(size: seq<R> -> nat, cap: nat)
    ensures FitAlone<R>(size, cap, []) == []
  {}
}
