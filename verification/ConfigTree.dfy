/** The config tree the editors work on: nested maps of named nodes, addressed by paths. */
module ConfigTree {
  import opened Wrappers
  import opened SiblingOrder

  /** `folder` says whether the node carries a children map; `info` stands for its settings. */
  datatype Node = Node(host: string, id: string, info: string, weight: int, folder: bool, children: map<string, Node>)

  type Path = seq<string>

  function Kids(n: Node): map<string, Node> { if n.folder then n.children else map[] }

  /** The node at a path, from n down. */
  function Lookup(n: Node, p: Path): Option<Node>
    decreases |p|
  {
    if |p| == 0 then Some(n)
    else if p[0] in Kids(n) then Lookup(Kids(n)[p[0]], p[1..])
    else None
  }

  predicate Has(n: Node, p: Path) { Lookup(n, p).Some? }

  function KidsAt(n: Node, p: Path): map<string, Node>
    requires Has(n, p)
  {
    Kids(Lookup(n, p).value)
  }

  /** The node at p gets this children map. */
  function SetKids(n: Node, p: Path, kids: map<string, Node>): Node
    requires Has(n, p)
    decreases |p|
  {
    if |p| == 0 then n.(folder := true, children := kids)
    else n.(children := n.children[p[0] := SetKids(Kids(n)[p[0]], p[1..], kids)])
  }

  /** What a node has of its own, a target or a group. */
  datatype Own = Own(host: string, id: string, info: string, weight: int)

  function OwnOf(n: Node): Own { Own(n.host, n.id, n.info, n.weight) }

  function OwnAt(n: Node, p: Path): Option<Own> {
    match Lookup(n, p)
    case None => None
    case Some(m) => Some(OwnOf(m))
  }

  /** The same without its place among its siblings. */
  datatype Settings = Settings(host: string, id: string, info: string)

  function Bare(o: Option<Own>): Option<Settings> {
    match o
    case None => None
    case Some(own) => Some(Settings(own.host, own.id, own.info))
  }

  function SettingsAt(n: Node, p: Path): Option<Settings> { Bare(OwnAt(n, p)) }

  /** A node with a host is a target. */
  function Hosted(s: Option<Settings>): Option<Settings> { if s.Some? && s.value.host == "" then None else s }

  function TargetAt(n: Node, p: Path): Option<Settings> { Hosted(SettingsAt(n, p)) }

  /** What is at path p inside a children map. */
  function OwnIn(kids: map<string, Node>, p: Path): Option<Own> {
    if |p| > 0 && p[0] in kids then OwnAt(kids[p[0]], p[1..]) else None
  }

  /** p leads to a place strictly below a. */
  predicate Below(p: Path, a: Path) { |a| < |p| && a == p[..|a|] }

  predicate AtOrBelow(p: Path, a: Path) { |a| <= |p| && a == p[..|a|] }

  // ---- lookups ----

  lemma LookupStep(n: Node, k: string, p: Path)
    ensures Lookup(n, [k] + p) == if k in Kids(n) then Lookup(Kids(n)[k], p) else None
  {
    assert ([k] + p)[1..] == p;
  }

  lemma {:induction false} LookupConcat(n: Node, a: Path, b: Path)
    ensures Lookup(n, a + b) == if Has(n, a) then Lookup(Lookup(n, a).value, b) else None
    decreases |a|
  {
    if |a| == 0 {
      assert a + b == b;
    } else {
      assert (a + b)[1..] == a[1..] + b;
      if a[0] in Kids(n) {
        LookupConcat(Kids(n)[a[0]], a[1..], b);
      }
    }
  }

  lemma OwnBelow(n: Node, a: Path, b: Path)
    requires Has(n, a) && |b| > 0
    ensures OwnAt(n, a + b) == OwnIn(KidsAt(n, a), b)
  {
    hide Lookup;
    LookupConcat(n, a, b);
    assert b == [b[0]] + b[1..];
    LookupStep(Lookup(n, a).value, b[0], b[1..]);
  }

  // ---- replacing the children of one node ----

  lemma {:induction false} SetKidsHas(n: Node, p: Path, kids: map<string, Node>)
    requires Has(n, p)
    ensures Has(SetKids(n, p, kids), p) && KidsAt(SetKids(n, p, kids), p) == kids
    ensures Lookup(SetKids(n, p, kids), p).value == Lookup(n, p).value.(folder := true, children := kids)
    decreases |p|
  {
    if |p| > 0 {
      SetKidsHas(Kids(n)[p[0]], p[1..], kids);
    }
  }

  lemma SetKidsSelf(n: Node, p: Path, kids: map<string, Node>)
    requires Has(n, p)
    ensures var m := SetKids(n, p, kids); m.host == n.host && m.id == n.id && m.info == n.info && m.weight == n.weight
  {}

  lemma SetKidsFolder(n: Node, p: Path, kids: map<string, Node>)
    requires Has(n, p) && n.folder
    ensures SetKids(n, p, kids).folder
  {}

  /** Only what lies strictly below p changes. */
  lemma {:induction false} SetKidsOwn(n: Node, p: Path, kids: map<string, Node>, q: Path)
    requires Has(n, p)
    ensures OwnAt(SetKids(n, p, kids), q) == if Below(q, p) then OwnIn(kids, q[|p|..]) else OwnAt(n, q)
    decreases |p|
  {
    var m := SetKids(n, p, kids);
    if |p| == 0 {
      if |q| > 0 {
        LookupStep(m, q[0], q[1..]);
        assert q == [q[0]] + q[1..] && q[0..] == q;
      }
    } else if |q| == 0 {
      SetKidsSelf(n, p, kids);
    } else {
      assert q == [q[0]] + q[1..];
      LookupStep(m, q[0], q[1..]);
      LookupStep(n, q[0], q[1..]);
      if q[0] == p[0] {
        SetKidsOwn(Kids(n)[p[0]], p[1..], kids, q[1..]);
        BelowStep(q, p);
      }
    }
  }

  lemma BelowStep(q: Path, p: Path)
    requires |q| > 0 && |p| > 0 && q[0] == p[0]
    ensures Below(q, p) <==> Below(q[1..], p[1..])
    ensures Below(q, p) ==> q[1..][|p[1..]|..] == q[|p|..]
  {
    if Below(q[1..], p[1..]) {
      assert q[..|p|] == [q[0]] + q[1..][..|p| - 1] && p == [p[0]] + p[1..];
    }
    if Below(q, p) {
      assert q[1..][..|p| - 1] == q[..|p|][1..];
    }
  }

  /** A node elsewhere still resolves. */
  lemma {:induction false} SetKidsOther(n: Node, p: Path, kids: map<string, Node>, q: Path)
    requires Has(n, p) && !Below(q, p)
    ensures Has(SetKids(n, p, kids), q) <==> Has(n, q)
    ensures Has(n, q) && q != p && !Below(p, q) ==> Lookup(SetKids(n, p, kids), q) == Lookup(n, q)
    decreases |p|
  {
    var m := SetKids(n, p, kids);
    if |p| > 0 && |q| > 0 {
      assert q == [q[0]] + q[1..];
      LookupStep(m, q[0], q[1..]);
      LookupStep(n, q[0], q[1..]);
      if q[0] == p[0] {
        BelowStep(q, p);
        BelowStep(p, q);
        SetKidsOther(Kids(n)[p[0]], p[1..], kids, q[1..]);
        assert p == [p[0]] + p[1..];
      }
    }
  }

  // ---- changes to a children map that targets do not see ----

  function WeightsOf(kids: map<string, Node>): Weights { map k | k in kids :: kids[k].weight }

  /** The siblings with new weights; those w does not mention keep theirs. */
  function Reweighted(kids: map<string, Node>, w: Weights): map<string, Node> {
    map k | k in kids :: if k in w then kids[k].(weight := w[k]) else kids[k]
  }

  lemma ReweightedSettings(kids: map<string, Node>, w: Weights, p: Path)
    ensures Bare(OwnIn(Reweighted(kids, w), p)) == Bare(OwnIn(kids, p))
  {
    if |p| > 0 && p[0] in kids {
      SameBelow(kids[p[0]], Reweighted(kids, w)[p[0]], p[1..]);
    }
  }

  lemma SameBelow(a: Node, b: Node, p: Path)
    requires a == b.(weight := a.weight)
    ensures SettingsAt(a, p) == SettingsAt(b, p)
  {}

  // ---- pruning ----

  /** cfgPruneEmptyGroups on one node: folders without a host that hold nothing any more disappear. */
  function Pruned(n: Node): Node
    decreases n
  {
    if !n.folder then n
    else n.(children := map k | k in n.children && !Vanishes(n.children[k]) :: Pruned(n.children[k]))
  }

  predicate Vanishes(n: Node)
    decreases n, 0
  {
    n.folder && n.host == "" && forall k :: k in n.children ==> Vanishes(n.children[k])
  }

  /** cfgPruneEmptyGroups on the children of a folder: below every child first, then the child itself. */
  method PruneEmptyGroups(n: Node) returns (left: map<string, Node>)
    requires n.folder
    ensures left == Pruned(n).children
    decreases n
  {
    left := map[];
    var todo := n.children.Keys;
    while todo != {}
      invariant todo <= n.children.Keys
      invariant left == map k | k in n.children && k !in todo && !Vanishes(n.children[k]) :: Pruned(n.children[k])
    {
      var k :| k in todo;
      todo := todo - {k};
      var child := n.children[k];
      if child.folder {
        var below := PruneEmptyGroups(n.children[k]);
        PrunedSelf(n.children[k]);
        EmptiedIff(n.children[k]);
        child := child.(children := below);
      }
      if !(child.folder && child.host == "" && child.children == map[]) {
        left := left[k := child];
      }
    }
  }

  lemma EmptiedIff(n: Node)
    requires n.folder
    ensures Vanishes(n) <==> n.host == "" && Pruned(n).children == map[]
  {
    if Pruned(n).children == map[] {
      forall k | k in n.children
        ensures Vanishes(n.children[k])
      {
        assert k !in Pruned(n).children;
      }
    }
  }

  /** A vanishing group holds no target. */
  lemma {:induction false} VanishesHoldsNone(n: Node, p: Path)
    requires Vanishes(n)
    ensures TargetAt(n, p) == None
    decreases |p|
  {
    if |p| > 0 && p[0] in Kids(n) {
      VanishesHoldsNone(Kids(n)[p[0]], p[1..]);
    }
  }

  /** Pruning touches no target, and nothing of a group that stays. */
  lemma {:induction false} PrunedTargets(n: Node, p: Path)
    ensures TargetAt(Pruned(n), p) == TargetAt(n, p)
    ensures Has(Pruned(n), p) ==> OwnAt(Pruned(n), p) == OwnAt(n, p)
    decreases |p|
  {
    if |p| > 0 && p[0] in Kids(n) {
      if Vanishes(Kids(n)[p[0]]) {
        VanishesHoldsNone(Kids(n)[p[0]], p[1..]);
      } else {
        PrunedTargets(Kids(n)[p[0]], p[1..]);
      }
    }
  }

  /** At and below n there are only folders without a host. */
  ghost predicate OnlyGroups(n: Node) { forall p :: Has(n, p) ==> Lookup(n, p).value.folder && Lookup(n, p).value.host == "" }

  /** No place below n is only groups. */
  ghost predicate NoneEmpty(n: Node) { forall p :: |p| > 0 && Has(n, p) ==> !OnlyGroups(Lookup(n, p).value) }

  lemma OnlyGroupsBelow(n: Node, k: string, p: Path)
    requires OnlyGroups(n) && k in Kids(n) && Has(Kids(n)[k], p)
    ensures Lookup(Kids(n)[k], p).value.folder && Lookup(Kids(n)[k], p).value.host == ""
  {
    LookupStep(n, k, p);
    assert Has(n, [k] + p);
  }

  lemma {:induction false} VanishesIff(n: Node)
    ensures Vanishes(n) <==> OnlyGroups(n)
    decreases n
  {
    if OnlyGroups(n) {
      assert Has(n, []);
      forall k | k in n.children
        ensures Vanishes(n.children[k])
      {
        forall p | Has(n.children[k], p)
          ensures Lookup(n.children[k], p).value.folder && Lookup(n.children[k], p).value.host == ""
        {
          OnlyGroupsBelow(n, k, p);
        }
        VanishesIff(n.children[k]);
      }
    }
    if Vanishes(n) {
      forall p | Has(n, p)
        ensures Lookup(n, p).value.folder && Lookup(n, p).value.host == ""
      {
        VanishesAt(n, p);
      }
    }
  }

  lemma {:induction false} VanishesAt(n: Node, p: Path)
    requires Vanishes(n) && Has(n, p)
    ensures Lookup(n, p).value.folder && Lookup(n, p).value.host == ""
    decreases |p|
  {
    if |p| > 0 { VanishesAt(n.children[p[0]], p[1..]); }
  }

  /** A node below the root is pruned exactly if it is a group and everything below it is. */
  lemma {:induction false} PrunedHas(n: Node, p: Path)
    requires |p| > 0
    ensures Has(Pruned(n), p) <==> Has(n, p) && !OnlyGroups(Lookup(n, p).value)
    ensures Has(Pruned(n), p) ==> Lookup(Pruned(n), p).value == Pruned(Lookup(n, p).value)
    decreases |p|
  {
    hide OnlyGroups;
    if p[0] in Kids(n) {
      var m := Kids(n)[p[0]];
      VanishesIff(m);
      if |p| == 1 {
        assert Lookup(n, p) == Some(m);
        assert m.folder ==> Pruned(n).children.Keys <= n.children.Keys;
        assert !Vanishes(m) ==> Lookup(Pruned(n), p) == Some(Pruned(m));
      } else {
        PrunedHas(m, p[1..]);
        if OnlyGroups(m) && Has(m, p[1..]) { OnlyGroupsAll(m, p[1..]); }
      }
    }
  }

  lemma OnlyGroupsAll(n: Node, p: Path)
    requires OnlyGroups(n) && Has(n, p)
    ensures OnlyGroups(Lookup(n, p).value)
  {
    hide Lookup;
    var m := Lookup(n, p).value;
    forall q | Has(m, q)
      ensures Lookup(m, q).value.folder && Lookup(m, q).value.host == ""
    {
      LookupConcat(n, p, q);
    }
  }

  /** What pruning leaves of a node is only groups if the node was. */
  lemma {:induction false} StillVanishes(n: Node)
    requires Vanishes(Pruned(n))
    ensures Vanishes(n)
    decreases n
  {
    forall k | k in n.children
      ensures Vanishes(n.children[k])
    {
      if !Vanishes(n.children[k]) {
        assert k in Pruned(n).children;
        StillVanishes(n.children[k]);
      }
    }
  }

  /** Pruning leaves no empty group. */
  lemma PrunedNoneEmpty(n: Node)
    ensures NoneEmpty(Pruned(n))
  {
    hide Vanishes, OnlyGroups, Lookup, Pruned;
    forall p | |p| > 0 && Has(Pruned(n), p)
      ensures !OnlyGroups(Lookup(Pruned(n), p).value)
    {
      PrunedHas(n, p);
      var m := Lookup(n, p).value;
      VanishesIff(m);
      VanishesIff(Pruned(m));
      if Vanishes(Pruned(m)) { StillVanishes(m); }
    }
  }

  /** Some of the siblings, with the weights they had. */
  ghost predicate SomeOf(fewer: map<string, Node>, kids: map<string, Node>) {
    forall k :: k in fewer ==> k in kids && fewer[k].weight == kids[k].weight
  }

  /** What is left of the siblings keeps its weight. */
  lemma {:induction false} PrunedKids(n: Node, p: Path)
    requires Has(Pruned(n), p)
    ensures Has(n, p) && SomeOf(KidsAt(Pruned(n), p), KidsAt(n, p))
    decreases |p|
  {
    hide SomeOf, Vanishes;
    if |p| > 0 {
      var m := Kids(n)[p[0]];
      PrunedKids(m, p[1..]);
      assert KidsAt(Pruned(n), p) == KidsAt(Pruned(m), p[1..]) && KidsAt(n, p) == KidsAt(m, p[1..]);
    } else {
      PrunedHere(n);
    }
  }

  lemma PrunedHere(n: Node)
    ensures SomeOf(Kids(Pruned(n)), Kids(n))
  {
    forall k | k in Kids(Pruned(n))
      ensures k in Kids(n) && Kids(Pruned(n))[k].weight == Kids(n)[k].weight
    {
      PrunedSelf(Kids(n)[k]);
    }
  }

  lemma PrunedSelf(n: Node)
    ensures Pruned(n) == n.(children := Pruned(n).children)
  {}

  // ---- the sibling weights at a path ----

  /** The weights of the children at a path; None where the path leads nowhere. */
  function View(n: Node, p: Path): Option<Weights> {
    match Lookup(n, p)
    case None => None
    case Some(m) => Some(WeightsOf(Kids(m)))
  }

  function ViewIn(kids: map<string, Node>, p: Path): Option<Weights> {
    if |p| > 0 && p[0] in kids then View(kids[p[0]], p[1..]) else None
  }

  lemma ViewBelow(n: Node, a: Path, b: Path)
    requires Has(n, a) && |b| > 0
    ensures View(n, a + b) == ViewIn(KidsAt(n, a), b)
  {
    hide Lookup;
    LookupConcat(n, a, b);
    assert b == [b[0]] + b[1..];
    LookupStep(Lookup(n, a).value, b[0], b[1..]);
  }

  lemma {:induction false} SetKidsView(n: Node, p: Path, kids: map<string, Node>, q: Path)
    requires Has(n, p)
    ensures View(SetKids(n, p, kids), q) ==
            if q == p then Some(WeightsOf(kids)) else if Below(q, p) then ViewIn(kids, q[|p|..]) else View(n, q)
    decreases |p|
  {
    hide WeightsOf;
    var m := SetKids(n, p, kids);
    if |p| == 0 {
      if |q| > 0 {
        LookupStep(m, q[0], q[1..]);
        assert q == [q[0]] + q[1..] && q[0..] == q;
      }
    } else if |q| == 0 {
      SetKidsRootView(n, p, kids);
    } else {
      assert q == [q[0]] + q[1..] && p == [p[0]] + p[1..];
      LookupStep(m, q[0], q[1..]);
      LookupStep(n, q[0], q[1..]);
      if q[0] == p[0] {
        SetKidsView(Kids(n)[p[0]], p[1..], kids, q[1..]);
        BelowStep(q, p);
      }
    }
  }

  lemma SetKidsRootView(n: Node, p: Path, kids: map<string, Node>)
    requires Has(n, p) && |p| > 0
    ensures View(SetKids(n, p, kids), []) == View(n, [])
  {
    SetKidsSelf(Kids(n)[p[0]], p[1..], kids);
    assert WeightsOf(Kids(SetKids(n, p, kids))) == WeightsOf(Kids(n));
  }

  lemma ReweightedView(kids: map<string, Node>, w: Weights, p: Path)
    ensures ViewIn(Reweighted(kids, w), p) == ViewIn(kids, p)
  {
    if |p| > 0 && p[0] in kids {
      SameView(kids[p[0]], Reweighted(kids, w)[p[0]], p[1..]);
    }
  }

  lemma SameView(a: Node, b: Node, p: Path)
    requires a == b.(weight := a.weight)
    ensures View(a, p) == View(b, p)
  {}
}
