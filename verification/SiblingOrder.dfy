/** The visible order of siblings: by weight, then by name. */
module SiblingOrder {
  import opened Sequences

  /** Where a character stands among all: by UTF-16 code units a surrogate pair comes before U+E000. */
  function Rank(c: char): int { if 0xE000 <= c as int <= 0xFFFF then c as int + 0x110000 else c as int }

  /** JavaScript's < on strings, which compares UTF-16 code units. */
  predicate StrLess(a: string, b: string) {
    b != [] && (a == [] || Rank(a[0]) < Rank(b[0]) || (a[0] == b[0] && StrLess(a[1..], b[1..])))
  }

  lemma {:induction false} StrLessTotal(a: string, b: string)
    ensures a == b || StrLess(a, b) || StrLess(b, a)
    ensures !(StrLess(a, b) && StrLess(b, a)) && !StrLess(a, a)
    decreases |a|
  {
    if a != [] {
      StrLessTotal(a[1..], a[1..]);
      if b != [] {
        StrLessTotal(a[1..], b[1..]);
        if a[0] == b[0] && a[1..] == b[1..] {
          assert a == [a[0]] + a[1..] && b == [b[0]] + b[1..];
        }
      }
    }
  }

  lemma {:induction false} StrLessTransitive(a: string, b: string, c: string)
    requires StrLess(a, b) && StrLess(b, c)
    ensures StrLess(a, c)
    decreases |a|
  {
    if a != [] && a[0] == b[0] == c[0] {
      StrLessTransitive(a[1..], b[1..], c[1..]);
    }
  }

  /** The weights of the siblings. */
  type Weights = map<string, int>

  predicate Less(w: Weights, a: string, b: string) {
    a in w && b in w && (w[a] < w[b] || (w[a] == w[b] && StrLess(a, b)))
  }

  lemma LessTotal(w: Weights, a: string, b: string)
    requires a in w && b in w
    ensures a == b || Less(w, a, b) || Less(w, b, a)
    ensures !(Less(w, a, b) && Less(w, b, a)) && !Less(w, a, a)
  {
    hide StrLess;
    StrLessTotal(a, b);
    StrLessTotal(a, a);
  }

  lemma LessTransitive(w: Weights, a: string, b: string, c: string)
    requires Less(w, a, b) && Less(w, b, c)
    ensures Less(w, a, c)
  {
    hide StrLess;
    if w[a] == w[b] == w[c] { StrLessTransitive(a, b, c); }
  }

  /** `order` lists the siblings in ascending order. */
  ghost predicate Sorted(w: Weights, order: seq<string>) {
    && (forall k :: k in order <==> k in w)
    && forall i, j :: 0 <= i < j < |order| ==> Less(w, order[i], order[j])
  }

  /** The least sibling of all. */
  predicate IsFirst(w: Weights, k: string) { k in w && forall x :: x in w && x != k ==> Less(w, k, x) }

  lemma {:induction false} SomeFirst(w: Weights) returns (k: string)
    requires w != map[]
    ensures IsFirst(w, k)
    decreases |w|
  {
    hide StrLess;
    var x :| x in w;
    var rest := w - {x};
    if rest == map[] {
      k := x;
      assert forall y :: y in w && y != x ==> y in rest;
    } else {
      var m := SomeFirst(rest);
      LessTotal(w, m, x);
      if Less(w, m, x) {
        k := m;
        forall y | y in w && y != m
          ensures Less(w, m, y)
        {
          if y != x { assert y in rest && Less(rest, m, y); }
        }
      } else {
        k := x;
        forall y | y in w && y != x
          ensures Less(w, x, y)
        {
          assert y in rest;
          if y != m {
            assert Less(rest, m, y);
            LessTransitive(w, x, m, y);
          }
        }
      }
    }
  }

  lemma FirstOfSorted(w: Weights, order: seq<string>, k: string)
    requires Sorted(w, order) && IsFirst(w, k)
    ensures |order| > 0 && order[0] == k
    ensures Sorted(w - {k}, order[1..])
  {
    hide StrLess;
    assert k in order;
    var i :| 0 <= i < |order| && order[i] == k;
    if i > 0 {
      assert order[0] in w;
      LessTotal(w, order[0], k);
    }
    forall j | 0 < j < |order|
      ensures order[j] != k
    {
      LessTotal(w, k, k);
    }
    var rest := order[1..];
    forall x
      ensures x in rest <==> x in w - {k}
    {
      if x in rest {
        var j :| 0 <= j < |rest| && rest[j] == x;
        assert order[j + 1] == x;
      }
      if x in w && x != k {
        assert x in order;
        var j :| 0 <= j < |order| && order[j] == x;
        assert rest[j - 1] == x;
      }
    }
    forall a, b | 0 <= a < b < |rest|
      ensures Less(w - {k}, rest[a], rest[b])
    {
      assert Less(w, order[a + 1], order[b + 1]);
    }
  }

  /** There is only one sorted order. */
  lemma {:induction false} SortedUnique(w: Weights, a: seq<string>, b: seq<string>)
    requires Sorted(w, a) && Sorted(w, b)
    ensures a == b
    decreases |w|
  {
    hide Sorted, IsFirst;
    if w == map[] {
      SortedNothing(a);
      SortedNothing(b);
    } else {
      var k := SomeFirst(w);
      FirstOfSorted(w, a, k);
      FirstOfSorted(w, b, k);
      FirstIn(w, k);
      SortedUnique(w - {k}, a[1..], b[1..]);
      assert a == [a[0]] + a[1..] && b == [b[0]] + b[1..];
    }
  }

  lemma FirstIn(w: Weights, k: string)
    requires IsFirst(w, k)
    ensures k in w && |w - {k}| < |w|
  {
    assert (w - {k})[k := w[k]] == w;
  }

  lemma SortedNothing(order: seq<string>)
    requires Sorted(map[], order)
    ensures order == []
  {
    if |order| > 0 { SomeName(order); }
  }

  lemma SomeName(order: seq<string>)
    requires |order| > 0
    ensures exists k :: k in order
  {
    assert order[0] in order;
  }

  lemma PrependFirst(w: Weights, k: string, order: seq<string>)
    requires IsFirst(w, k) && Sorted(w - {k}, order)
    ensures Sorted(w, [k] + order)
  {
    hide StrLess;
    var all := [k] + order;
    forall x
      ensures x in all <==> x in w
    {
      if x in w && x != k { assert x in order; }
    }
    forall i, j | 0 <= i < j < |all|
      ensures Less(w, all[i], all[j])
    {
      assert order[j - 1] in order;
      if i > 0 { assert Less(w - {k}, order[i - 1], order[j - 1]); }
    }
  }

  lemma {:induction false} SortedExists(w: Weights) returns (order: seq<string>)
    ensures Sorted(w, order)
    decreases |w|
  {
    hide Sorted, IsFirst;
    if w == map[] {
      order := [];
      NothingSorted();
    } else {
      var k := SomeFirst(w);
      FirstIn(w, k);
      var rest := SortedExists(w - {k});
      PrependFirst(w, k, rest);
      order := [k] + rest;
    }
  }

  lemma NothingSorted()
    ensures Sorted(map[], [])
  {}

  lemma OrderExists(w: Weights)
    ensures exists order :: Sorted(w, order)
  {
    hide Sorted;
    var order := SortedExists(w);
  }

  /** cfgSortSiblings: the sorted order. */
  ghost function Order(w: Weights): (order: seq<string>)
    ensures Sorted(w, order)
  {
    OrderExists(w);
    var order :| Sorted(w, order);
    order
  }

  lemma OrderIs(w: Weights, order: seq<string>)
    requires Sorted(w, order)
    ensures Order(w) == order
  {
    hide Sorted;
    SortedUnique(w, Order(w), order);
  }

  /** reweightSiblings: weight i for the i-th name. */
  function Sequence(order: seq<string>): Weights { map k | k in order :: IndexOf(order, k) }

  function IndexOf(order: seq<string>, k: string): (i: nat)
    requires k in order
    ensures i < |order| && order[i] == k
  {
    if order[0] == k then 0 else 1 + IndexOf(order[1..], k)
  }

  lemma SortedNoRepeats(w: Weights, order: seq<string>)
    requires Sorted(w, order)
    ensures NoRepeats(order)
  {
    hide StrLess;
    forall i, j | 0 <= i < j < |order|
      ensures order[i] != order[j]
    {
      assert Less(w, order[i], order[j]);
      LessTotal(w, order[i], order[i]);
    }
  }

  /** Sequential weights make any order of the siblings the visible one. */
  lemma SequenceSorts(order: seq<string>)
    requires NoRepeats(order)
    ensures Sorted(Sequence(order), order)
  {
    hide StrLess;
    forall i, j | 0 <= i < j < |order|
      ensures Less(Sequence(order), order[i], order[j])
    {
      assert order[i] in order && order[j] in order;
      assert IndexOf(order, order[i]) == i && IndexOf(order, order[j]) == j;
    }
  }

  /** The names that are still there. */
  function Still(order: seq<string>, keys: set<string>): seq<string>
    decreases |order|
  {
    if |order| == 0 then []
    else Still(order[..|order| - 1], keys) + if order[|order| - 1] in keys then [order[|order| - 1]] else []
  }

  lemma {:induction false} StillIs(order: seq<string>, keys: set<string>)
    ensures forall k :: k in Still(order, keys) <==> k in order && k in keys
    decreases |order|
  {
    if |order| > 0 {
      StillIs(order[..|order| - 1], keys);
      assert forall k :: k in order <==> k in order[..|order| - 1] || k == order[|order| - 1];
    }
  }

  lemma {:induction false} StillSorted(w: Weights, order: seq<string>, v: Weights)
    requires forall i, j :: 0 <= i < j < |order| ==> Less(w, order[i], order[j])
    requires forall k :: k in v ==> k in w && v[k] == w[k]
    ensures forall i, j :: 0 <= i < j < |Still(order, v.Keys)| ==> Less(v, Still(order, v.Keys)[i], Still(order, v.Keys)[j])
    decreases |order|
  {
    hide StrLess;
    if |order| > 0 {
      var n := |order| - 1;
      StillSorted(w, order[..n], v);
      var init, all := Still(order[..n], v.Keys), Still(order, v.Keys);
      StillIs(order[..n], v.Keys);
      forall i, j | 0 <= i < j < |all|
        ensures Less(v, all[i], all[j])
      {
        if j == |init| {
          assert all[i] == init[i] && init[i] in init;
          var x :| 0 <= x < n && order[x] == init[i];
          assert Less(w, order[x], order[n]);
        }
      }
    }
  }

  /** Losing some siblings does not disturb the others. */
  lemma FewerSorted(w: Weights, order: seq<string>, v: Weights)
    requires Sorted(w, order) && forall k :: k in v ==> k in w && v[k] == w[k]
    ensures Sorted(v, Still(order, v.Keys))
  {
    hide Less;
    StillSorted(w, order, v);
    StillIs(order, v.Keys);
  }

  lemma OrderNext(w: Weights, k: string)
    requires IsFirst(w, k)
    ensures Order(w) == [k] + Order(w - {k})
  {
    hide Sorted, IsFirst;
    PrependFirst(w, k, Order(w - {k}));
    OrderIs(w, [k] + Order(w - {k}));
  }

  lemma OrderNothing()
    ensures Order(map[]) == []
  {
    hide Sorted;
    NothingSorted();
    OrderIs(map[], []);
  }

  /** A least sibling, found by comparing them all. */
  method FindFirst(w: Weights) returns (k: string)
    requires w != map[]
    ensures IsFirst(w, k)
  {
    hide StrLess;
    k :| k in w;
    var todo := w.Keys - {k};
    while todo != {}
      invariant k in w && k !in todo && todo <= w.Keys
      invariant forall x :: x in w && x !in todo && x != k ==> Less(w, k, x)
    {
      var x :| x in todo;
      todo := todo - {x};
      LessTotal(w, k, x);
      if Less(w, x, k) {
        forall y | y in w && y !in todo && y != x
          ensures Less(w, x, y)
        {
          if y != k { LessTransitive(w, x, k, y); }
        }
        k := x;
      }
    }
  }

  /** cfgSortSiblings: the siblings in their visible order. */
  method SortSiblings(w: Weights) returns (order: seq<string>)
    ensures order == Order(w)
  {
    hide *;
    order := [];
    var rest := w;
    while rest != map[]
      invariant rest.Keys <= w.Keys
      invariant Order(w) == order + Order(rest)
      decreases |rest|
    {
      var k := FindFirst(rest);
      FirstIn(rest, k);
      OrderNext(rest, k);
      order := order + [k];
      rest := rest - {k};
    }
    OrderNothing();
  }

  // ---- the order in terms of UTF-16 ----

  /** The code units of a character. */
  function Units(c: char): seq<int> {
    if c as int < 0x10000 then [c as int]
    else [0xD800 + (c as int - 0x10000) / 0x400, 0xDC00 + (c as int - 0x10000) % 0x400]
  }

  function Utf16(s: string): seq<int> { if s == [] then [] else Units(s[0]) + Utf16(s[1..]) }

  /** u is a proper prefix of v, or has the smaller unit at the first difference. */
  ghost predicate Before(u: seq<int>, v: seq<int>) {
    exists n :: 0 <= n <= |u| && n <= |v| && u[..n] == v[..n] && if n == |u| then n < |v| else n < |v| && u[n] < v[n]
  }

  lemma BeforeEmpty(u: seq<int>)
    ensures !Before(u, [])
    ensures Before([], u) <==> u != []
  {
    if u != [] { assert [][..0] == u[..0]; }
  }

  lemma BeforeCons(x: int, u: seq<int>, y: int, v: seq<int>)
    ensures Before([x] + u, [y] + v) <==> x < y || (x == y && Before(u, v))
  {
    var a, b := [x] + u, [y] + v;
    if x < y { assert a[..0] == b[..0]; }
    if x == y && Before(u, v) {
      var n :| 0 <= n <= |u| && n <= |v| && u[..n] == v[..n] && if n == |u| then n < |v| else n < |v| && u[n] < v[n];
      assert a[..n + 1] == [x] + u[..n] && b[..n + 1] == [y] + v[..n];
    }
    if Before(a, b) {
      var n :| 0 <= n <= |a| && n <= |b| && a[..n] == b[..n] && if n == |a| then n < |b| else n < |b| && a[n] < b[n];
      if n > 0 {
        assert a[..n][0] == b[..n][0];
        assert u[..n - 1] == a[..n][1..] && v[..n - 1] == b[..n][1..];
      }
    }
  }

  lemma UnitsCons(c: char, u: seq<int>)
    ensures var e := c as int - 0x10000;
            Units(c) + u == if e < 0 then [c as int] + u else [0xD800 + e / 0x400] + ([0xDC00 + e % 0x400] + u)
  {}

  /** Two different characters are ordered by their code units, whatever follows. */
  lemma UnitsBefore(c: char, u: seq<int>, d: char, v: seq<int>)
    requires c != d
    ensures Before(Units(c) + u, Units(d) + v) <==> Rank(c) < Rank(d)
  {
    hide Before, Units;
    UnitsCons(c, u);
    UnitsCons(d, v);
    var e, f := c as int - 0x10000, d as int - 0x10000;
    if e < 0 && f < 0 {
      BeforeCons(c as int, u, d as int, v);
    } else if e < 0 {
      BeforeCons(c as int, u, 0xD800 + f / 0x400, [0xDC00 + f % 0x400] + v);
    } else if f < 0 {
      BeforeCons(0xD800 + e / 0x400, [0xDC00 + e % 0x400] + u, d as int, v);
    } else {
      BeforeCons(0xD800 + e / 0x400, [0xDC00 + e % 0x400] + u, 0xD800 + f / 0x400, [0xDC00 + f % 0x400] + v);
      BeforeCons(0xDC00 + e % 0x400, u, 0xDC00 + f % 0x400, v);
    }
  }

  lemma SameUnits(c: char, u: seq<int>, v: seq<int>)
    ensures Before(Units(c) + u, Units(c) + v) <==> Before(u, v)
  {
    hide Before, Units;
    UnitsCons(c, u);
    UnitsCons(c, v);
    var e := c as int - 0x10000;
    if e < 0 {
      BeforeCons(c as int, u, c as int, v);
    } else {
      BeforeCons(0xD800 + e / 0x400, [0xDC00 + e % 0x400] + u, 0xD800 + e / 0x400, [0xDC00 + e % 0x400] + v);
      BeforeCons(0xDC00 + e % 0x400, u, 0xDC00 + e % 0x400, v);
    }
  }

  /** Strings compare as their UTF-16 code units do. */
  lemma {:induction false} StrLessIs(a: string, b: string)
    ensures StrLess(a, b) <==> Before(Utf16(a), Utf16(b))
    decreases |a|
  {
    hide Before, Units, Rank;
    if b == [] {
      BeforeEmpty(Utf16(a));
    } else if a == [] {
      BeforeEmpty(Utf16(b));
      UnitsCons(b[0], Utf16(b[1..]));
    } else if a[0] == b[0] {
      SameUnits(a[0], Utf16(a[1..]), Utf16(b[1..]));
      StrLessIs(a[1..], b[1..]);
    } else {
      UnitsBefore(a[0], Utf16(a[1..]), b[0], Utf16(b[1..]));
    }
  }

  /** The order lists every sibling once: lighter ones first, those of one weight by their names as UTF-16. */
  lemma OrderByWeight(w: Weights, i: nat, j: nat)
    requires i < j < |Order(w)|
    ensures (forall k :: k in Order(w) <==> k in w) && NoRepeats(Order(w))
    ensures var a, b := Order(w)[i], Order(w)[j];
            a in w && b in w && w[a] <= w[b] && (w[a] == w[b] ==> Before(Utf16(a), Utf16(b)))
  {
    hide StrLess, Before, Utf16;
    assert Sorted(w, Order(w));
    SortedNoRepeats(w, Order(w));
    StrLessIs(Order(w)[i], Order(w)[j]);
    assert Less(w, Order(w)[i], Order(w)[j]);
  }
}
