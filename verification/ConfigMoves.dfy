/** Moving and renaming nodes of the config tree. */
module ConfigMoves {
  import opened Wrappers
  import opened Sequences
  import opened SiblingOrder
  import opened ConfigTree

  datatype Refusal = IntoItself | NoFolder | Occupied

  datatype Moved = Moved(doc: Node) | Refused(why: Refusal)

  function Parent(p: Path): Path
    requires |p| > 0
  {
    p[..|p| - 1]
  }

  function Name(p: Path): string
    requires |p| > 0
  {
    p[|p| - 1]
  }

  /** The name in the requested slot; the index is clamped, None appends. */
  function Splice(order: seq<string>, index: Option<int>, name: string): seq<string> {
    var at := Clamped(|order|, index);
    order[..at] + [name] + order[at..]
  }

  /** Where a requested index puts the name: clamped into the list, None at its end. */
  function Clamped(n: nat, index: Option<int>): (at: nat)
    ensures at <= n
  {
    match index
    case None => n
    case Some(i) => if i < 0 then 0 else if i > n then n else i
  }

  /** The document without the node at src. */
  function Detached(doc: Node, src: Path): Node
    requires |src| > 0 && Has(doc, Parent(src))
  {
    SetKids(doc, Parent(src), KidsAt(doc, Parent(src)) - {Name(src)})
  }

  /** The order the destination group is to have. */
  ghost function Requested(doc: Node, src: Path, dest: Path, index: Option<int>): seq<string>
    requires |src| > 0 && Has(doc, dest)
  {
    Splice(Order(WeightsOf(KidsAt(doc, dest)) - {Name(src)}), index, Name(src))
  }

  /** The node under its name in the destination, all siblings numbered in the requested order. */
  ghost function Attached(doc: Node, dest: Path, name: string, node: Node, order: seq<string>): Node
    requires Has(doc, dest)
  {
    SetKids(doc, dest, Reweighted(KidsAt(doc, dest)[name := node], Sequence(order)))
  }

  /** The siblings at p numbered in the order they have. */
  ghost function Resequenced(doc: Node, p: Path): Node
    requires Has(doc, p)
  {
    SetKids(doc, p, Reweighted(KidsAt(doc, p), Sequence(Order(WeightsOf(KidsAt(doc, p))))))
  }

  /** Where moveNode finds the source and a free slot in the destination. */
  predicate CanMove(doc: Node, src: Path, dest: Path) {
    && |src| > 0 && !AtOrBelow(dest, src) && Has(doc, src) && Has(doc, dest)
    && (dest == Parent(src) || Name(src) !in KidsAt(doc, dest))
  }

  lemma ParentHas(doc: Node, src: Path)
    requires |src| > 0 && Has(doc, src)
    ensures Has(doc, Parent(src)) && Name(src) in KidsAt(doc, Parent(src))
    ensures Lookup(doc, src) == Some(KidsAt(doc, Parent(src))[Name(src)])
  {
    hide Lookup;
    assert src == Parent(src) + [Name(src)];
    LookupConcat(doc, Parent(src), [Name(src)]);
    if Has(doc, Parent(src)) {
      LookupStep(Lookup(doc, Parent(src)).value, Name(src), []);
      assert [Name(src)] + [] == [Name(src)];
      LookupHere(doc, src);
    }
  }

  lemma LookupHere(doc: Node, src: Path)
    ensures forall n: Node :: Lookup(n, []) == Some(n)
  {}

  /** After the node is detached: nothing at or below src, one sibling fewer, everything else as it was. */
  lemma DetachedViews(doc: Node, src: Path, q: Path)
    requires |src| > 0 && Has(doc, Parent(src))
    ensures View(Detached(doc, src), q) ==
            if q == Parent(src) then Some(WeightsOf(KidsAt(doc, Parent(src))) - {Name(src)})
            else if AtOrBelow(q, src) then None
            else View(doc, q)
    ensures OwnAt(Detached(doc, src), q) == if AtOrBelow(q, src) then None else OwnAt(doc, q)
  {
    hide View, OwnAt, SetKids, Lookup, ViewIn, OwnIn;
    var sp := Parent(src);
    var kids := KidsAt(doc, sp);
    SetKidsView(doc, sp, kids - {Name(src)}, q);
    SetKidsOwn(doc, sp, kids - {Name(src)}, q);
    assert WeightsOf(kids - {Name(src)}) == WeightsOf(kids) - {Name(src)};
    if Below(q, sp) {
      var r := q[|sp|..];
      assert q == sp + r;
      ViewBelow(doc, sp, r);
      OwnBelow(doc, sp, r);
      FewerKids(kids, Name(src), r);
      BelowSource(q, src);
    }
  }

  lemma BelowSource(q: Path, src: Path)
    requires |src| > 0 && Below(q, Parent(src))
    ensures AtOrBelow(q, src) <==> q[|src| - 1] == Name(src)
  {
    assert q[..|src|] == q[..|src| - 1] + [q[|src| - 1]];
    assert src == Parent(src) + [Name(src)];
  }

  lemma FewerKids(kids: map<string, Node>, name: string, r: Path)
    requires |r| > 0
    ensures ViewIn(kids - {name}, r) == if r[0] == name then None else ViewIn(kids, r)
    ensures OwnIn(kids - {name}, r) == if r[0] == name then None else OwnIn(kids, r)
  {}

  lemma MoreKids(kids: map<string, Node>, name: string, node: Node, r: Path)
    requires |r| > 0
    ensures ViewIn(kids[name := node], r) == if r[0] == name then View(node, r[1..]) else ViewIn(kids, r)
    ensures OwnIn(kids[name := node], r) == if r[0] == name then OwnAt(node, r[1..]) else OwnIn(kids, r)
  {}

  /** After the node is attached: its subtree under its new path, everything else as it was. */
  lemma AttachedViews(doc: Node, dest: Path, name: string, node: Node, order: seq<string>, q: Path)
    requires Has(doc, dest)
    ensures SettingsAt(Attached(doc, dest, name, node, order), q) ==
            if AtOrBelow(q, dest + [name]) then SettingsAt(node, q[|dest| + 1..]) else SettingsAt(doc, q)
    ensures q != dest ==>
              View(Attached(doc, dest, name, node, order), q) ==
              if AtOrBelow(q, dest + [name]) then View(node, q[|dest| + 1..]) else View(doc, q)
  {
    hide View, OwnAt, SetKids, Lookup, ViewIn, OwnIn, Reweighted, Sequence;
    var kids := KidsAt(doc, dest);
    var all := kids[name := node];
    SetKidsView(doc, dest, Reweighted(all, Sequence(order)), q);
    SetKidsOwn(doc, dest, Reweighted(all, Sequence(order)), q);
    if Below(q, dest) {
      var r := q[|dest|..];
      assert q == dest + r && r[1..] == q[|dest| + 1..];
      ReweightedView(all, Sequence(order), r);
      ReweightedSettings(all, Sequence(order), r);
      MoreKids(kids, name, node, r);
      ViewBelow(doc, dest, r);
      OwnBelow(doc, dest, r);
      assert Parent(dest + [name]) == dest;
      BelowSource(q, dest + [name]);
    }
  }

  /** The weights of the destination's children are the sequence of the requested order. */
  lemma AttachedWeights(doc: Node, dest: Path, name: string, node: Node, order: seq<string>)
    requires Has(doc, dest)
    requires forall k :: k in order <==> k in KidsAt(doc, dest) || k == name
    ensures View(Attached(doc, dest, name, node, order), dest) == Some(Sequence(order))
  {
    hide View, SetKids, Lookup;
    var all := KidsAt(doc, dest)[name := node];
    SetKidsView(doc, dest, Reweighted(all, Sequence(order)), dest);
    assert WeightsOf(Reweighted(all, Sequence(order))) == Sequence(order);
  }

  /** Renumbering the siblings changes no target and no other group. */
  lemma ResequencedViews(doc: Node, p: Path, q: Path)
    requires Has(doc, p)
    ensures SettingsAt(Resequenced(doc, p), q) == SettingsAt(doc, q)
    ensures q != p ==> View(Resequenced(doc, p), q) == View(doc, q)
  {
    hide View, OwnAt, SetKids, Lookup, ViewIn, OwnIn, Reweighted, Sequence;
    var kids, w := KidsAt(doc, p), Sequence(Order(WeightsOf(KidsAt(doc, p))));
    SetKidsView(doc, p, Reweighted(kids, w), q);
    SetKidsOwn(doc, p, Reweighted(kids, w), q);
    if Below(q, p) {
      var r := q[|p|..];
      assert q == p + r;
      ReweightedView(kids, w, r);
      ReweightedSettings(kids, w, r);
      ViewBelow(doc, p, r);
      OwnBelow(doc, p, r);
    }
  }

  lemma HasView(doc: Node, p: Path)
    ensures Has(doc, p) <==> View(doc, p).Some?
    ensures Has(doc, p) ==> View(doc, p) == Some(WeightsOf(KidsAt(doc, p)))
  {}

  /** The destination is still there once the node is detached. */
  lemma DestinationStays(doc: Node, src: Path, dest: Path)
    requires CanMove(doc, src, dest)
    ensures Has(doc, Parent(src)) && Has(Detached(doc, src), dest)
    ensures WeightsOf(KidsAt(Detached(doc, src), dest)) == WeightsOf(KidsAt(doc, dest)) - {Name(src)}
    ensures Name(src) !in KidsAt(Detached(doc, src), dest)
  {
    hide View, Lookup, SetKids, KidsAt, Detached;
    ParentHas(doc, src);
    var d := Detached(doc, src);
    DetachedViews(doc, src, dest);
    HasView(d, dest);
    HasView(doc, dest);
    var w, kids := WeightsOf(KidsAt(d, dest)), KidsAt(doc, dest);
    if dest != Parent(src) {
      assert WeightsOf(kids) - {Name(src)} == WeightsOf(kids);
    }
    assert forall k :: k in w <==> k in KidsAt(d, dest);
  }

  /** What is left of the source group is still there after the node is attached elsewhere. */
  lemma SourceStays(doc: Node, src: Path, dest: Path, node: Node, order: seq<string>)
    requires CanMove(doc, src, dest) && dest != Parent(src)
    ensures Has(doc, Parent(src)) && Has(Detached(doc, src), dest)
    ensures var d := Attached(Detached(doc, src), dest, Name(src), node, order);
            View(d, Parent(src)) == Some(WeightsOf(KidsAt(doc, Parent(src))) - {Name(src)}) && Has(d, Parent(src))
  {
    hide View, Lookup, SetKids, Attached, Detached, KidsAt;
    ParentHas(doc, src);
    DestinationStays(doc, src, dest);
    var sp, d := Parent(src), Detached(doc, src);
    DetachedViews(doc, src, sp);
    if AtOrBelow(sp, dest + [Name(src)]) {
      NotThroughSlot(doc, src, dest);
    }
    AttachedViews(d, dest, Name(src), node, order, sp);
    HasView(Attached(d, dest, Name(src), node, order), sp);
  }

  /** Whatever lies at or below a path passes through it. */
  lemma PassesThrough(doc: Node, p: Path, slot: Path)
    requires |slot| > 0 && Has(doc, p) && AtOrBelow(p, slot)
    ensures Has(doc, Parent(slot)) && Name(slot) in KidsAt(doc, Parent(slot))
  {
    hide Lookup;
    assert p == slot + p[|slot|..];
    LookupConcat(doc, slot, p[|slot|..]);
    ParentHas(doc, slot);
  }

  /** A free slot is not on the way to the source. */
  lemma NotThroughSlot(doc: Node, src: Path, dest: Path)
    requires CanMove(doc, src, dest) && dest != Parent(src)
    ensures !AtOrBelow(Parent(src), dest + [Name(src)])
  {
    hide Lookup;
    var slot := dest + [Name(src)];
    assert Parent(slot) == dest && Name(slot) == Name(src);
    ParentHas(doc, src);
    if AtOrBelow(Parent(src), slot) {
      PassesThrough(doc, Parent(src), slot);
    }
  }

  /** moveNode: refused into its own subtree, into no folder, onto another node; a stale source changes
      nothing; otherwise detach, attach in the requested slot, renumber both groups, prune. */
  ghost function MoveNode(doc: Node, src: Path, dest: Path, index: Option<int>): Moved
    requires |src| > 0
  {
    if AtOrBelow(dest, src) then Refused(IntoItself)
    else if !Has(doc, src) then Moved(doc)
    else if !Has(doc, dest) then Refused(NoFolder)
    else if dest != Parent(src) && Name(src) in KidsAt(doc, dest) then Refused(Occupied)
    else
      ParentHas(doc, src);
      DestinationStays(doc, src, dest);
      var node := Lookup(doc, src).value;
      var order := Requested(doc, src, dest, index);
      var d := Attached(Detached(doc, src), dest, Name(src), node, order);
      if dest == Parent(src) then Moved(Pruned(d))
      else
        SourceStays(doc, src, dest, node, order);
        Moved(Pruned(Resequenced(d, Parent(src))))
  }

  // ---- every target, exactly once ----

  /** Where the target seen at q after a move from src to slot was before. */
  function Origin(src: Path, slot: Path, q: Path): Option<Path> {
    if AtOrBelow(q, slot) then Some(src + q[|slot|..]) else if AtOrBelow(q, src) then None else Some(q)
  }

  /** Where the target at p is after the move. */
  function Rebase(src: Path, slot: Path, p: Path): Path {
    if AtOrBelow(p, src) then slot + p[|src|..] else p
  }

  lemma RebaseOrigin(src: Path, slot: Path, p: Path)
    requires AtOrBelow(p, src) || !AtOrBelow(p, slot)
    ensures Origin(src, slot, Rebase(src, slot, p)) == Some(p)
  {
    if AtOrBelow(p, src) {
      var q := slot + p[|src|..];
      assert q[..|slot|] == slot && q[|slot|..] == p[|src|..];
      assert p == src + p[|src|..];
    }
  }

  lemma OriginRebase(src: Path, slot: Path, q: Path)
    requires Origin(src, slot, q).Some?
    ensures Rebase(src, slot, Origin(src, slot, q).value) == q
  {
    if AtOrBelow(q, slot) {
      var p := src + q[|slot|..];
      assert p[..|src|] == src && p[|src|..] == q[|slot|..];
      assert q == slot + q[|slot|..];
    }
  }

  lemma NodeOwn(doc: Node, src: Path, r: Path)
    requires Has(doc, src)
    ensures OwnAt(Lookup(doc, src).value, r) == OwnAt(doc, src + r)
  {
    LookupConcat(doc, src, r);
  }

  /** A move shows at every path exactly the target that was at its origin, and every group it keeps has the
      settings it had there. */
  lemma MoveTargets(doc: Node, src: Path, dest: Path, index: Option<int>, q: Path)
    requires CanMove(doc, src, dest)
    ensures MoveNode(doc, src, dest, index).Moved?
    ensures var new_, o := MoveNode(doc, src, dest, index).doc, Origin(src, dest + [Name(src)], q);
            && TargetAt(new_, q) == (if o.Some? then TargetAt(doc, o.value) else None)
            && (Has(new_, q) ==> o.Some? && SettingsAt(new_, q) == SettingsAt(doc, o.value))
  {
    hide OwnAt, Lookup, Attached, Detached, Resequenced, Requested, Pruned, KidsAt;
    ParentHas(doc, src);
    DestinationStays(doc, src, dest);
    var node, order, slot := Lookup(doc, src).value, Requested(doc, src, dest, index), dest + [Name(src)];
    var d1 := Detached(doc, src);
    var d2 := Attached(d1, dest, Name(src), node, order);
    AttachedViews(d1, dest, Name(src), node, order, q);
    DetachedViews(doc, src, q);
    if AtOrBelow(q, slot) {
      NodeOwn(doc, src, q[|slot|..]);
    }
    HasOwn(MoveNode(doc, src, dest, index).doc, q);
    if dest == Parent(src) {
      PrunedTargets(d2, q);
    } else {
      SourceStays(doc, src, dest, node, order);
      ResequencedViews(d2, Parent(src), q);
      PrunedTargets(Resequenced(d2, Parent(src)), q);
    }
  }

  lemma MoveLeavesNoneEmpty(doc: Node, src: Path, dest: Path, index: Option<int>)
    requires CanMove(doc, src, dest) && MoveNode(doc, src, dest, index).Moved?
    ensures NoneEmpty(MoveNode(doc, src, dest, index).doc)
  {
    hide Lookup, Attached, Detached, Resequenced, Requested, Pruned, KidsAt, NoneEmpty;
    ParentHas(doc, src);
    DestinationStays(doc, src, dest);
    var node, order := Lookup(doc, src).value, Requested(doc, src, dest, index);
    var d := Attached(Detached(doc, src), dest, Name(src), node, order);
    if dest == Parent(src) {
      PrunedNoneEmpty(d);
    } else {
      SourceStays(doc, src, dest, node, order);
      PrunedNoneEmpty(Resequenced(d, Parent(src)));
    }
  }

  lemma HasOwn(n: Node, p: Path)
    ensures Has(n, p) <==> OwnAt(n, p).Some?
  {}

  lemma SlotFree(doc: Node, src: Path, dest: Path, p: Path)
    requires CanMove(doc, src, dest) && Has(doc, p)
    ensures AtOrBelow(p, src) || !AtOrBelow(p, dest + [Name(src)])
  {
    hide Lookup;
    var slot := dest + [Name(src)];
    assert Parent(slot) == dest && Name(slot) == Name(src);
    assert src == Parent(src) + [Name(src)];
    if dest != Parent(src) && AtOrBelow(p, slot) {
      PassesThrough(doc, p, slot);
    }
  }

  /** Every target is still there exactly once, with its id and settings: at its rebased path, which
      differs from its old one only at and below the moved node; every target or group there was there
      before, with the settings it has; and no empty group is left. */
  lemma MoveKeepsTargets(doc: Node, src: Path, dest: Path, index: Option<int>)
    requires CanMove(doc, src, dest)
    ensures MoveNode(doc, src, dest, index).Moved?
    ensures var new_, slot := MoveNode(doc, src, dest, index).doc, dest + [Name(src)];
            && (forall p :: TargetAt(doc, p).Some? ==> TargetAt(new_, Rebase(src, slot, p)) == TargetAt(doc, p))
            && (forall q :: Has(new_, q) ==>
                  Origin(src, slot, q).Some?
                  && SettingsAt(doc, Origin(src, slot, q).value) == SettingsAt(new_, q)
                  && Rebase(src, slot, Origin(src, slot, q).value) == q)
            && NoneEmpty(new_)
  {
    hide OwnAt, MoveNode, Rebase, Origin, Lookup, NoneEmpty;
    var slot := dest + [Name(src)];
    MoveTargets(doc, src, dest, index, src);
    MoveLeavesNoneEmpty(doc, src, dest, index);
    forall p | TargetAt(doc, p).Some?
      ensures TargetAt(MoveNode(doc, src, dest, index).doc, Rebase(src, slot, p)) == TargetAt(doc, p)
    {
      HasOwn(doc, p);
      SlotFree(doc, src, dest, p);
      RebaseOrigin(src, slot, p);
      MoveTargets(doc, src, dest, index, Rebase(src, slot, p));
    }
    forall q | Has(MoveNode(doc, src, dest, index).doc, q)
      ensures Origin(src, slot, q).Some?
      ensures SettingsAt(doc, Origin(src, slot, q).value) == SettingsAt(MoveNode(doc, src, dest, index).doc, q)
      ensures Rebase(src, slot, Origin(src, slot, q).value) == q
    {
      MoveTargets(doc, src, dest, index, q);
      OriginRebase(src, slot, q);
    }
  }

  // ---- the visible order ----

  lemma SpliceIs(order: seq<string>, index: Option<int>, name: string)
    requires NoRepeats(order) && name !in order
    ensures NoRepeats(Splice(order, index, name))
    ensures forall k :: k in Splice(order, index, name) <==> k in order || k == name
  {
    hide NoRepeats;
    var at := Clamped(|order|, index);
    SpliceAt(order, at, name);
    SpliceMembers(order, at, name);
  }

  /** The name stands at the requested index, at the front for one below the list, at the end for one beyond it and for
      none; the others keep their order. */
  lemma SplicePlaces(order: seq<string>, index: Option<int>, name: string)
    ensures var all, last := Splice(order, index, name), |order|;
            exists at :: 0 <= at < |all| && all[at] == name && all[..at] + all[at + 1..] == order
              && (index.None? ==> at == last)
              && (index.Some? ==> at == (if index.value < 0 then 0 else if index.value < last then index.value else last))
  {
    var at, all := Clamped(|order|, index), Splice(order, index, name);
    assert order == order[..at] + order[at..];
    assert all[at] == name && all[..at] + all[at + 1..] == order;
  }

  lemma SpliceAt(order: seq<string>, at: nat, name: string)
    requires at <= |order| && NoRepeats(order) && name !in order
    ensures NoRepeats(order[..at] + [name] + order[at..])
  {}

  lemma SpliceMembers(order: seq<string>, at: nat, name: string)
    requires at <= |order|
    ensures forall k :: k in order[..at] + [name] + order[at..] <==> k in order || k == name
  {
    assert order == order[..at] + order[at..];
  }

  lemma OrderKeys(w: Weights)
    ensures NoRepeats(Order(w)) && forall k :: k in Order(w) <==> k in w
  {
    hide Less, NoRepeats;
    SortedNoRepeats(w, Order(w));
  }

  /** Pruning takes siblings away and leaves the others in order. */
  lemma PrunedOrder(doc: Node, p: Path, w: Weights, order: seq<string>)
    requires View(doc, p) == Some(w) && Sorted(w, order) && Has(Pruned(doc), p)
    ensures Order(WeightsOf(KidsAt(Pruned(doc), p))) == Still(order, KidsAt(Pruned(doc), p).Keys)
    ensures forall k :: k in KidsAt(Pruned(doc), p) ==> k in w && KidsAt(Pruned(doc), p)[k].weight == w[k]
  {
    hide Sorted, Lookup, Pruned, View, Still;
    PrunedKids(doc, p);
    HasView(doc, p);
    var v := WeightsOf(KidsAt(Pruned(doc), p));
    FewerSorted(w, order, v);
    assert v.Keys == KidsAt(Pruned(doc), p).Keys;
    OrderIs(v, Still(order, v.Keys));
  }

  /** After a move the (weight, name) order of the destination is the requested splice, up to groups
      that were pruned, and each weight is the place in the requested order. */
  lemma MoveOrder(doc: Node, src: Path, dest: Path, index: Option<int>)
    requires CanMove(doc, src, dest) && MoveNode(doc, src, dest, index).Moved?
    requires Has(MoveNode(doc, src, dest, index).doc, dest)
    ensures var kids := KidsAt(MoveNode(doc, src, dest, index).doc, dest);
            && Order(WeightsOf(kids)) == Still(Requested(doc, src, dest, index), kids.Keys)
            && (forall k :: k in kids ==> k in Requested(doc, src, dest, index))
            && forall k :: k in kids ==> kids[k].weight == IndexOf(Requested(doc, src, dest, index), k)
  {
    hide Lookup, Attached, Detached, Resequenced, Pruned, KidsAt, View, Sequence, Sorted, Still, WeightsOf, NoRepeats;
    ParentHas(doc, src);
    DestinationStays(doc, src, dest);
    var node, order := Lookup(doc, src).value, Requested(doc, src, dest, index);
    var d1 := Detached(doc, src);
    var d2 := Attached(d1, dest, Name(src), node, order);
    RequestedIs(doc, src, dest, index);
    SequenceIs(order);
    AttachedWeights(d1, dest, Name(src), node, order);
    SequenceSorts(order);
    if dest == Parent(src) {
      PrunedOrder(d2, dest, Sequence(order), order);
    } else {
      SourceStays(doc, src, dest, node, order);
      ResequencedViews(d2, Parent(src), dest);
      PrunedOrder(Resequenced(d2, Parent(src)), dest, Sequence(order), order);
    }
  }

  lemma RequestedIs(doc: Node, src: Path, dest: Path, index: Option<int>)
    requires CanMove(doc, src, dest) && Has(doc, Parent(src)) && Has(Detached(doc, src), dest)
    ensures NoRepeats(Requested(doc, src, dest, index))
    ensures forall k :: k in Requested(doc, src, dest, index) <==> k in KidsAt(Detached(doc, src), dest) || k == Name(src)
  {
    hide Lookup, Detached, KidsAt, NoRepeats, Splice, Sorted;
    DestinationStays(doc, src, dest);
    var w := WeightsOf(KidsAt(doc, dest)) - {Name(src)};
    OrderKeys(w);
    SpliceIs(Order(w), index, Name(src));
    assert w == WeightsOf(KidsAt(Detached(doc, src), dest));
  }

  lemma SequenceIs(order: seq<string>)
    ensures forall k :: k in Sequence(order) <==> k in order
    ensures forall k :: k in order ==> Sequence(order)[k] == IndexOf(order, k)
  {}

  /** What is left of the source group keeps its order, up to groups that were pruned, and each weight is the place
      in it. */
  lemma MoveSourceOrder(doc: Node, src: Path, dest: Path, index: Option<int>)
    requires CanMove(doc, src, dest) && dest != Parent(src)
    requires MoveNode(doc, src, dest, index).Moved? && Has(MoveNode(doc, src, dest, index).doc, Parent(src))
    ensures Has(doc, Parent(src))
    ensures var kids := KidsAt(MoveNode(doc, src, dest, index).doc, Parent(src));
            var order := Order(WeightsOf(KidsAt(doc, Parent(src))) - {Name(src)});
            && Order(WeightsOf(kids)) == Still(order, kids.Keys)
            && (forall k :: k in kids ==> k in order)
            && forall k :: k in kids ==> kids[k].weight == IndexOf(order, k)
  {
    hide Lookup, Attached, Detached, Resequenced, Pruned, KidsAt, View, Sequence, Sorted, Still, WeightsOf, NoRepeats, Requested;
    ParentHas(doc, src);
    DestinationStays(doc, src, dest);
    var sp := Parent(src);
    var node, order := Lookup(doc, src).value, Requested(doc, src, dest, index);
    var d := Attached(Detached(doc, src), dest, Name(src), node, order);
    SourceStays(doc, src, dest, node, order);
    HasView(d, sp);
    var w := WeightsOf(KidsAt(doc, sp)) - {Name(src)};
    OrderKeys(w);
    SequenceSorts(Order(w));
    SequenceIs(Order(w));
    ResequencedWeights(d, sp);
    PrunedOrder(Resequenced(d, sp), sp, Sequence(Order(w)), Order(w));
  }

  lemma ResequencedWeights(doc: Node, p: Path)
    requires Has(doc, p)
    ensures View(Resequenced(doc, p), p) == Some(Sequence(Order(WeightsOf(KidsAt(doc, p)))))
  {
    hide View, SetKids, Lookup, Sorted;
    var kids := KidsAt(doc, p);
    var w := Sequence(Order(WeightsOf(kids)));
    SetKidsView(doc, p, Reweighted(kids, w), p);
    OrderKeys(WeightsOf(kids));
    assert WeightsOf(Reweighted(kids, w)) == w;
  }

  /** A name is taken in a group exactly if its path leads somewhere. */
  lemma SlotTaken(d: Node, group: Path, name: string)
    requires Has(d, group)
    ensures name in KidsAt(d, group) <==> Has(d, group + [name])
  {
    hide Lookup;
    LookupConcat(d, group, [name]);
    LookupStep(Lookup(d, group).value, name, []);
    assert [name] + [] == [name];
    if name in KidsAt(d, group) { LookupHere(d, []); EmptyPath(KidsAt(d, group)[name]); }
  }

  lemma EmptyPath(n: Node)
    ensures Has(n, [])
  {}

  lemma SlotIsSource(src: Path, dest: Path)
    requires |src| > 0
    ensures dest + [Name(src)] == src <==> dest == Parent(src)
  {
    assert src == Parent(src) + [Name(src)];
    if dest + [Name(src)] == src { assert Parent(dest + [Name(src)]) == dest; }
  }

  /** A present node is refused exactly at or below itself, where there is no group, and where its name leads to
      another node; a stale source changes nothing unless the destination lies at or below it. */
  lemma MoveRefusedIff(doc: Node, src: Path, dest: Path, index: Option<int>)
    requires |src| > 0
    ensures var r, below, slot := MoveNode(doc, src, dest, index), |src| <= |dest| && src == dest[..|src|], dest + [Name(src)];
            && (r == Refused(IntoItself) <==> below)
            && (!below && !Has(doc, src) ==> r == Moved(doc))
            && (r == Refused(NoFolder) <==> !below && Has(doc, src) && !Has(doc, dest))
            && (r == Refused(Occupied) <==> !below && Has(doc, src) && Has(doc, dest) && slot != src && Has(doc, slot))
            && (Has(doc, src) ==> (r.Moved? <==> CanMove(doc, src, dest)))
  {
    hide Lookup, Pruned, Resequenced, Attached, Detached, Requested, KidsAt;
    if Has(doc, dest) { SlotTaken(doc, dest, Name(src)); }
    SlotIsSource(src, dest);
  }
}
