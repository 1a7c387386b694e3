/** The staged edit of one target: find it by id or path, change its settings, move or rename it, prune.
    In this tree every node can hold children, so each is a folder. */
module ConfigStage {
  import opened Wrappers
  import opened SiblingOrder
  import opened ConfigTree
  import opened ConfigMoves

  // ---- findNode ----

  /** A target with this id lives at p. */
  predicate IdAt(n: Node, p: Path, id: string) {
    |p| > 0 && Has(n, p) && Lookup(n, p).value.host != "" && Lookup(n, p).value.id == id
  }

  lemma IdStep(n: Node, k: string, p: Path, id: string)
    ensures IdAt(n, [k] + p, id) <==>
            k in Kids(n) && if |p| == 0 then Kids(n)[k].host != "" && Kids(n)[k].id == id else IdAt(Kids(n)[k], p, id)
  {
    LookupStep(n, k, p);
    LookupHere(n, p);
  }

  lemma IdStart(n: Node, id: string)
    ensures forall p :: IdAt(n, p, id) ==> |p| > 0 && p[0] in Kids(n)
  {}

  lemma IdLong(n: Node, p: Path, id: string)
    requires IdAt(n, p, id)
    ensures |p| > 0
  {}

  /** The search by id, in any order of the children. */
  method FindById(n: Node, id: string) returns (found: Option<Path>)
    ensures found.Some? ==> IdAt(n, found.value, id)
    ensures found.None? ==> forall p :: !IdAt(n, p, id)
    decreases n
  {
    hide IdAt, Lookup;
    var todo := Kids(n).Keys;
    IdStart(n, id);
    while todo != {}
      invariant todo <= Kids(n).Keys
      invariant forall p :: IdAt(n, p, id) ==> |p| > 0 && p[0] in todo
    {
      var k :| k in todo;
      todo := todo - {k};
      var child := Kids(n)[k];
      IdStep(n, k, [], id);
      if child.host != "" && child.id == id {
        assert [k] + [] == [k];
        return Some([k]);
      }
      var below := FindById(child, id);
      if below.Some? {
        IdStep(n, k, below.value, id);
        IdLong(child, below.value, id);
        return Some([k] + below.value);
      }
      forall p | IdAt(n, p, id)
        ensures p[0] in todo
      {
        assert p == [p[0]] + p[1..];
        IdStep(n, p[0], p[1..], id);
      }
    }
    return None;
  }

  /** findNode: a target by its id, or else the node at a path. */
  method FindNode(root: Node, id: string, path: Path) returns (found: Option<Path>)
    ensures found.Some? ==> |found.value| > 0 && Has(root, found.value)
    ensures (exists p :: IdAt(root, p, id)) ==> found.Some? && IdAt(root, found.value, id)
    ensures !(exists p :: IdAt(root, p, id)) ==> found == if |path| > 0 && Has(root, path) then Some(path) else None
  {
    hide Lookup;
    found := FindById(root, id);
    if found.Some? { return; }
    if |path| > 0 && Has(root, path) { return Some(path); }
    return None;
  }

  // ---- ensureGroup ----

  const EMPTY_GROUP := Node("", "", "", 0, true, map[])

  /** The tree with every group along the path, new ones where there was none. */
  function EnsureGroup(n: Node, p: Path): Node
    decreases |p|
  {
    if |p| == 0 then n
    else
      var kid := if p[0] in Kids(n) then Kids(n)[p[0]] else EMPTY_GROUP;
      n.(folder := true, children := Kids(n)[p[0] := EnsureGroup(kid, p[1..])])
  }

  /** What a new group has: no host, no settings, no weight. */
  const NO_OWN := Own("", "", "", 0)

  lemma EmptyGroupHolds(q: Path)
    ensures OwnAt(EMPTY_GROUP, q) == if |q| == 0 then Some(NO_OWN) else None
    ensures Has(EMPTY_GROUP, q) <==> |q| == 0
  {}

  /** Making groups changes no target and no settings; the path then leads somewhere, so does any that did, and a
      node that was not there is a group on the way, without settings. */
  lemma {:induction false} EnsureGroupIs(n: Node, p: Path, q: Path)
    ensures OwnAt(EnsureGroup(n, p), q) ==
            if Has(n, q) then OwnAt(n, q) else if AtOrBelow(p, q) then Some(NO_OWN) else None
    ensures Has(EnsureGroup(n, p), p)
    ensures Has(n, q) ==> Has(EnsureGroup(n, p), q)
    ensures Has(EnsureGroup(n, p), q) ==> Has(n, q) || AtOrBelow(p, q)
    decreases |p|
  {
    if |p| > 0 {
      var kid := if p[0] in Kids(n) then Kids(n)[p[0]] else EMPTY_GROUP;
      assert p == [p[0]] + p[1..];
      LookupStep(EnsureGroup(n, p), p[0], p[1..]);
      EnsureGroupIs(kid, p[1..], q);
      if |q| > 0 {
        assert q == [q[0]] + q[1..];
        LookupStep(EnsureGroup(n, p), q[0], q[1..]);
        LookupStep(n, q[0], q[1..]);
        EnsureGroupIs(kid, p[1..], q[1..]);
        EmptyGroupHolds(q[1..]);
        if q[0] == p[0] && AtOrBelow(p[1..], q[1..]) {
          assert p[..|q|] == [p[0]] + p[1..][..|q| - 1];
        }
      }
    }
  }

  // ---- editing one node ----

  /** The node at p with other settings. */
  function Edited(n: Node, p: Path, host: string, info: string): Node
    requires Has(n, p)
    decreases |p|
  {
    if |p| == 0 then n.(host := host, info := info)
    else n.(children := n.children[p[0] := Edited(Kids(n)[p[0]], p[1..], host, info)])
  }

  lemma {:induction false} EditedIs(n: Node, p: Path, host: string, info: string, q: Path)
    requires Has(n, p)
    ensures Has(Edited(n, p, host, info), q) <==> Has(n, q)
    ensures OwnAt(Edited(n, p, host, info), q) ==
            if q == p then Some(Own(host, Lookup(n, p).value.id, info, Lookup(n, p).value.weight)) else OwnAt(n, q)
    decreases |p|
  {
    if |p| > 0 && |q| > 0 {
      var m := Edited(n, p, host, info);
      assert q == [q[0]] + q[1..] && p == [p[0]] + p[1..];
      LookupStep(m, q[0], q[1..]);
      LookupStep(n, q[0], q[1..]);
      if q[0] == p[0] {
        EditedIs(Kids(n)[p[0]], p[1..], host, info, q[1..]);
      }
    }
  }

  // ---- stageEditTarget ----

  datatype Outcome = Staged(root: Node) | NotFound | IntoSubtree | BadStep | SlotOccupied

  /** What an edit asks for; None leaves it. A step, if one is given, may not parse. */
  datatype Edit = Edit(
    host: Option<string>, info: Option<string>, stepParses: bool, newName: Option<string>, newGroup: Option<Path>)

  function Or(o: Option<string>, d: string): string { if o.Some? then o.value else d }

  /** Where the target is to end up. */
  function Slot(p: Path, e: Edit): Path
    requires |p| > 0
  {
    Group(p, e) + [Or(e.newName, Name(p))]
  }

  /** What the edited document shows at a path: the edited target in its slot with everything below it,
      everything else where it was, and nothing in the groups made on the way. */
  function EditedOwn(root: Node, p: Path, e: Edit, q: Path): Option<Own>
    requires |p| > 0 && Has(root, p)
  {
    var node := Lookup(root, p).value;
    match Origin(p, Slot(p, e), q)
    case None => None
    case Some(o) =>
      if o == p then Some(Own(Or(e.host, node.host), node.id, Or(e.info, node.info), node.weight))
      else if Has(root, o) then OwnAt(root, o)
      else if e.newGroup.Some? && AtOrBelow(Group(p, e), o) then Some(NO_OWN)
      else None
  }

  /** The document shows at q the target the edit asks for, if any, and no group but one as it was, or made on the
      way. */
  predicate Shows(t: Node, root: Node, p: Path, e: Edit, q: Path)
    requires |p| > 0 && Has(root, p)
  {
    && TargetAt(t, q) == Hosted(Bare(EditedOwn(root, p, e, q)))
    && (Has(t, q) ==> OwnAt(t, q) == EditedOwn(root, p, e, q))
  }

  /** The target put under its new name into its group, from where it was. */
  function Reattached(root: Node, p: Path, group: Path, name: string): Node
    requires |p| > 0 && Has(root, p) && Has(root, Parent(p)) && Has(Detached(root, p), group)
  {
    var d := Detached(root, p);
    SetKids(d, group, KidsAt(d, group)[name := Lookup(root, p).value])
  }

  lemma GroupStays(root: Node, p: Path, group: Path)
    requires |p| > 0 && Has(root, p) && Has(root, group) && !AtOrBelow(group, p)
    ensures Has(root, Parent(p)) && Has(Detached(root, p), group)
  {
    hide View, Lookup, SetKids, KidsAt, Detached;
    ParentHas(root, p);
    DetachedViews(root, p, group);
    HasView(Detached(root, p), group);
    HasView(root, group);
  }

  lemma ReattachedOwn(root: Node, p: Path, group: Path, name: string, q: Path)
    requires |p| > 0 && Has(root, p) && Has(root, group) && !AtOrBelow(group, p)
    requires Has(root, Parent(p)) && Has(Detached(root, p), group)
    ensures OwnAt(Reattached(root, p, group, name), q) ==
            match Origin(p, group + [name], q) case None => None case Some(o) => OwnAt(root, o)
  {
    hide OwnAt, SetKids, Lookup, OwnIn, Detached, KidsAt;
    var d, node, slot := Detached(root, p), Lookup(root, p).value, group + [name];
    var kids := KidsAt(d, group);
    SetKidsOwn(d, group, kids[name := node], q);
    DetachedViews(root, p, q);
    assert Parent(slot) == group && Name(slot) == name;
    if Below(q, group) {
      var r := q[|group|..];
      assert q == group + r && r[1..] == q[|slot|..];
      MoreKids(kids, name, node, r);
      OwnBelow(d, group, r);
      BelowSource(q, slot);
      NodeOwn(root, p, r[1..]);
    }
  }

  /** The document with the settings changed and the destination group made. */
  function Prepared(root: Node, p: Path, e: Edit): Node
    requires Has(root, p)
  {
    var node := Lookup(root, p).value;
    var d := Edited(root, p, Or(e.host, node.host), Or(e.info, node.info));
    if e.newGroup.Some? then EnsureGroup(d, e.newGroup.value) else d
  }

  function Group(p: Path, e: Edit): Path
    requires |p| > 0
  {
    if e.newGroup.Some? then e.newGroup.value else Parent(p)
  }

  lemma PreparedOwn(root: Node, p: Path, e: Edit, q: Path)
    requires |p| > 0 && Has(root, p)
    ensures var d, node := Prepared(root, p, e), Lookup(root, p).value;
            && OwnAt(d, q) ==
               (if q == p then Some(Own(Or(e.host, node.host), node.id, Or(e.info, node.info), node.weight))
                else if Has(root, q) then OwnAt(root, q)
                else if e.newGroup.Some? && AtOrBelow(Group(p, e), q) then Some(NO_OWN)
                else None)
            && Has(d, p) && Has(d, Group(p, e))
            && (Has(root, q) ==> Has(d, q)) && (Has(d, q) ==> Has(root, q) || AtOrBelow(Group(p, e), q))
  {
    hide OwnAt, Lookup, Edited, EnsureGroup;
    var node := Lookup(root, p).value;
    var d := Edited(root, p, Or(e.host, node.host), Or(e.info, node.info));
    EditedIs(root, p, Or(e.host, node.host), Or(e.info, node.info), q);
    EditedIs(root, p, Or(e.host, node.host), Or(e.info, node.info), p);
    EditedIs(root, p, Or(e.host, node.host), Or(e.info, node.info), Parent(p));
    ParentHas(root, p);
    HasOwn(root, q);
    EnsureGroupIs(d, Group(p, e), q);
    EnsureGroupIs(d, Group(p, e), p);
  }

  lemma PreparedFolder(root: Node, p: Path, e: Edit)
    requires Has(root, p) && root.folder
    ensures Prepared(root, p, e).folder
  {}

  lemma SlotParts(group: Path, name: string)
    ensures Parent(group + [name]) == group && Name(group + [name]) == name
    ensures !AtOrBelow(group, group + [name])
  {}

  /** The whole document after a move or rename. */
  lemma StagedTargets(root: Node, p: Path, e: Edit, d: Node, t: Node)
    requires |p| > 0 && Has(root, p)
    requires && d == Prepared(root, p, e) && Has(d, p) && Has(d, Group(p, e)) && !AtOrBelow(Group(p, e), p)
             && Has(d, Parent(p)) && Has(Detached(d, p), Group(p, e))
             && t == Pruned(Reattached(d, p, Group(p, e), Or(e.newName, Name(p))))
    ensures forall q :: Shows(t, root, p, e, q)
  {
    hide OwnAt, Lookup, Prepared, Detached, Reattached, Pruned, Origin;
    var group, name := Group(p, e), Or(e.newName, Name(p));
    forall q
      ensures Shows(t, root, p, e, q)
    {
      HasOwn(t, q);
      PrunedTargets(Reattached(d, p, group, name), q);
      ReattachedOwn(d, p, group, name, q);
      if Origin(p, group + [name], q).Some? {
        PreparedOwn(root, p, e, Origin(p, group + [name], q).value);
      }
    }
  }

  /** The whole document after an edit in place. */
  lemma EditedInPlace(root: Node, p: Path, e: Edit)
    requires |p| > 0 && Has(root, p) && e.newName.None? && e.newGroup.None?
    ensures forall q :: Shows(Pruned(Prepared(root, p, e)), root, p, e, q)
  {
    hide OwnAt, Lookup, Prepared, Pruned;
    assert Slot(p, e) == p;
    forall q
      ensures Shows(Pruned(Prepared(root, p, e)), root, p, e, q)
    {
      HasOwn(Pruned(Prepared(root, p, e)), q);
      PrunedTargets(Prepared(root, p, e), q);
      PreparedOwn(root, p, e, q);
      if AtOrBelow(q, p) { assert p + q[|p|..] == q; }
    }
  }

  /** The target may be edited, and is not to be moved into its own subtree. */
  predicate MayEdit(root: Node, p: Path, e: Edit)
    requires Has(root, p)
  {
    Lookup(root, p).value.host != "" && !(e.newGroup.Some? && AtOrBelow(e.newGroup.value, p))
  }

  /** stageEditTarget on the node found at p. A destination in the target's own subtree, a malformed step
      and a slot that holds another node are refused, in this order; otherwise every target is exactly once
      where the edit puts it. */
  method StageEdit(root: Node, p: Path, e: Edit) returns (r: Outcome)
    requires |p| > 0 && Has(root, p) && root.folder
    requires e.host.Some? ==> e.host.value != ""
    ensures r == NotFound <==> Lookup(root, p).value.host == ""
    ensures r == IntoSubtree <==> Lookup(root, p).value.host != "" && !MayEdit(root, p, e)
    ensures r == BadStep <==> MayEdit(root, p, e) && !e.stepParses
    ensures r == SlotOccupied <==> MayEdit(root, p, e) && e.stepParses && Slot(p, e) != p && Has(root, Slot(p, e))
    ensures r.Staged? ==> NoneEmpty(r.root) && forall q :: Shows(r.root, root, p, e, q)
  {
    hide Shows, NoneEmpty, Lookup, Edited, EnsureGroup, Detached, Reattached, Pruned, Origin, EditedOwn, KidsAt, SetKids, Prepared;
    var node := Lookup(root, p).value;
    if node.host == "" { return NotFound; }
    if e.newGroup.Some? && AtOrBelow(e.newGroup.value, p) { return IntoSubtree; }
    if !e.stepParses { return BadStep; }
    var group, name := Group(p, e), Or(e.newName, Name(p));
    var d := Edited(root, p, Or(e.host, node.host), Or(e.info, node.info));
    PreparedIs(root, p, e);
    PreparedFolder(root, p, e);
    var t;
    if e.newName.Some? || e.newGroup.Some? {
      if e.newGroup.Some? { d := EnsureGroup(d, group); }
      PreparedOwn(root, p, e, Slot(p, e));
      SlotParts(group, name);
      SlotTaken(d, group, name);
      if name in KidsAt(d, group) && group + [name] != p { return SlotOccupied; }
      GroupStays(d, p, group);
      t := Detached(d, p);
      t := SetKids(t, group, KidsAt(t, group)[name := Lookup(d, p).value]);
      ReattachedIs(d, p, group, name);
      ReattachedFolder(d, p, group, name);
      StagedTargets(root, p, e, d, Pruned(t));
    } else {
      t := d;
      EditedInPlace(root, p, e);
      assert Slot(p, e) == p;
    }
    var kids := PruneEmptyGroups(t);
    PrunedSelf(t);
    PrunedNoneEmpty(t);
    return Staged(t.(children := kids));
  }

  lemma PreparedIs(root: Node, p: Path, e: Edit)
    requires Has(root, p)
    ensures var node := Lookup(root, p).value;
            var d := Edited(root, p, Or(e.host, node.host), Or(e.info, node.info));
            Prepared(root, p, e) == if e.newGroup.Some? then EnsureGroup(d, e.newGroup.value) else d
  {}

  lemma ReattachedIs(root: Node, p: Path, group: Path, name: string)
    requires |p| > 0 && Has(root, p) && Has(root, Parent(p)) && Has(Detached(root, p), group)
    ensures Reattached(root, p, group, name) ==
            SetKids(Detached(root, p), group, KidsAt(Detached(root, p), group)[name := Lookup(root, p).value])
  {}

  lemma ReattachedFolder(root: Node, p: Path, group: Path, name: string)
    requires |p| > 0 && Has(root, p) && Has(root, Parent(p)) && Has(Detached(root, p), group) && root.folder
    ensures Reattached(root, p, group, name).folder
  {
    hide SetKids, Lookup;
    SetKidsFolder(root, Parent(p), KidsAt(root, Parent(p)) - {Name(p)});
    var d := Detached(root, p);
    SetKidsFolder(d, group, KidsAt(d, group)[name := Lookup(root, p).value]);
  }
}
