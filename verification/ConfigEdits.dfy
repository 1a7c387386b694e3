/** The editors' operations step by step: moveNode and renameNodeAtPath of the dashboard. */
module ConfigEdits {
  import opened Wrappers
  import opened Sequences
  import opened SiblingOrder
  import opened ConfigTree
  import opened ConfigMoves

  // ---- moveNode ----

  /** Gives each listed sibling its place in the list as its weight. */
  method Reweight(kids: map<string, Node>, order: seq<string>) returns (weighted: map<string, Node>)
    requires NoRepeats(order)
    ensures weighted == Reweighted(kids, Sequence(order))
  {
    weighted := kids;
    for i := 0 to |order|
      invariant weighted.Keys == kids.Keys
      invariant forall k :: k in kids ==>
                  weighted[k] == if k in order[..i] then kids[k].(weight := IndexOf(order, k)) else kids[k]
    {
      assert order[..i + 1] == order[..i] + [order[i]];
      assert IndexOf(order, order[i]) == i;
      if order[i] in weighted {
        weighted := weighted[order[i] := weighted[order[i]].(weight := i)];
      }
    }
    assert order[..|order|] == order;
  }

  lemma RequestedOrder(doc: Node, src: Path, dest: Path, index: Option<int>)
    requires CanMove(doc, src, dest)
    ensures Has(doc, Parent(src)) && Has(Detached(doc, src), dest)
    ensures Requested(doc, src, dest, index) == Splice(Order(WeightsOf(KidsAt(Detached(doc, src), dest))), index, Name(src))
    ensures NoRepeats(Requested(doc, src, dest, index))
  {
    hide Order, Lookup, KidsAt, WeightsOf, Splice, NoRepeats, Detached;
    ParentHas(doc, src);
    DestinationStays(doc, src, dest);
    RequestedIs(doc, src, dest, index);
  }

  /** moveNode. */
  method Move(doc: Node, src: Path, dest: Path, index: Option<int>) returns (r: Moved)
    requires |src| > 0 && doc.folder
    ensures r == MoveNode(doc, src, dest, index)
  {
    hide Order, Lookup, SetKids, WeightsOf, Splice, NoRepeats, Pruned, Sequence, Reweighted, Kids;
    if AtOrBelow(dest, src) { return Refused(IntoItself); }
    if !Has(doc, src) { return Moved(doc); }
    if !Has(doc, dest) { return Refused(NoFolder); }
    ParentHas(doc, src);
    var sp, name := Parent(src), Name(src);
    if dest != sp && name in KidsAt(doc, dest) { return Refused(Occupied); }
    ghost var wanted := Requested(doc, src, dest, index);
    RequestedOrder(doc, src, dest, index);
    var node := Lookup(doc, src).value;
    var d := SetKids(doc, sp, KidsAt(doc, sp) - {name});
    SetKidsFolder(doc, sp, KidsAt(doc, sp) - {name});
    var order := SortSiblings(WeightsOf(KidsAt(d, dest)));
    order := Splice(order, index, name);
    var kids := Reweight(KidsAt(d, dest)[name := node], order);
    SetKidsFolder(d, dest, kids);
    d := SetKids(d, dest, kids);
    if dest != sp {
      SourceStays(doc, src, dest, node, wanted);
      order := SortSiblings(WeightsOf(KidsAt(d, sp)));
      OrderKeys(WeightsOf(KidsAt(d, sp)));
      kids := Reweight(KidsAt(d, sp), order);
      SetKidsFolder(d, sp, kids);
      d := SetKids(d, sp, kids);
    }
    kids := PruneEmptyGroups(d);
    PrunedSelf(d);
    return Moved(d.(children := kids));
  }

  // ---- renameNodeAtPath ----

  /** The list with one name replaced. */
  function Renamed(order: seq<string>, name: string, newName: string): (renamed: seq<string>)
    ensures |renamed| == |order|
    ensures forall i :: 0 <= i < |order| ==> renamed[i] == if order[i] == name then newName else order[i]
  {
    seq(|order|, i requires 0 <= i < |order| => if order[i] == name then newName else order[i])
  }

  function Rekeyed(kids: map<string, Node>, name: string, newName: string): map<string, Node>
    requires name in kids
  {
    (kids - {name})[newName := kids[name]]
  }

  /** The children after the rename: renumbered only if the new name would sort elsewhere. */
  ghost function RenamedKids(kids: map<string, Node>, name: string, newName: string): map<string, Node>
    requires name in kids
  {
    var order := Renamed(Order(WeightsOf(kids)), name, newName);
    var rekeyed := Rekeyed(kids, name, newName);
    if Order(WeightsOf(rekeyed)) == order then rekeyed else Reweighted(rekeyed, Sequence(order))
  }

  /** renameNodeAtPath: a stale path and the same name change nothing; a taken name is refused. */
  ghost function RenameNode(doc: Node, path: Path, newName: string): Moved
    requires |path| > 0
  {
    if !Has(doc, path) || newName == Name(path) then Moved(doc)
    else
      ParentHas(doc, path);
      if newName in KidsAt(doc, Parent(path)) then Refused(Occupied)
      else Moved(SetKids(doc, Parent(path), RenamedKids(KidsAt(doc, Parent(path)), Name(path), newName)))
  }

  method Rename(doc: Node, path: Path, newName: string) returns (r: Moved)
    requires |path| > 0
    ensures r == RenameNode(doc, path, newName)
  {
    hide Order, Lookup, SetKids, WeightsOf, NoRepeats, Sequence, Reweighted, Kids, Rekeyed;
    if !Has(doc, path) || newName == Name(path) { return Moved(doc); }
    ParentHas(doc, path);
    var kids := KidsAt(doc, Parent(path));
    if newName in kids { return Refused(Occupied); }
    var order := SortSiblings(WeightsOf(kids));
    order := Renamed(order, Name(path), newName);
    RenamedOrderKeys(kids, Name(path), newName);
    kids := Rekeyed(kids, Name(path), newName);
    var now := SortSiblings(WeightsOf(kids));
    if now != order {
      kids := Reweight(kids, order);
    }
    return Moved(SetKids(doc, Parent(path), kids));
  }

  lemma RenamedOrderKeys(kids: map<string, Node>, name: string, newName: string)
    requires name in kids && newName !in kids
    ensures var order := Renamed(Order(WeightsOf(kids)), name, newName);
            NoRepeats(order) && forall k :: k in order <==> k in Rekeyed(kids, name, newName)
  {
    hide Order, Sorted;
    var w := WeightsOf(kids);
    OrderKeys(w);
    RenamedMembers(Order(w), name, newName);
    assert forall k :: k in Order(w) <==> k in kids;
  }

  lemma RenamedMembers(order: seq<string>, name: string, newName: string)
    requires NoRepeats(order) && name in order && newName !in order
    ensures NoRepeats(Renamed(order, name, newName))
    ensures forall k :: k in Renamed(order, name, newName) <==> (k in order && k != name) || k == newName
  {
    var renamed := Renamed(order, name, newName);
    forall k
      ensures k in renamed <==> (k in order && k != name) || k == newName
    {
      if k in order && k != name {
        var i :| 0 <= i < |order| && order[i] == k;
        assert renamed[i] == k;
      }
      if k == newName {
        var i :| 0 <= i < |order| && order[i] == name;
        assert renamed[i] == newName;
      }
      if k in renamed {
        var i :| 0 <= i < |renamed| && renamed[i] == k;
        assert order[i] in order;
      }
    }
  }

  lemma RenamedOrder(kids: map<string, Node>, name: string, newName: string)
    requires name in kids && newName !in kids
    ensures Order(WeightsOf(RenamedKids(kids, name, newName))) == Renamed(Order(WeightsOf(kids)), name, newName)
  {
    hide Order, WeightsOf, NoRepeats, Sequence, Reweighted, Rekeyed, Renamed;
    var order := Renamed(Order(WeightsOf(kids)), name, newName);
    var rekeyed := Rekeyed(kids, name, newName);
    RenamedOrderKeys(kids, name, newName);
    SequenceSorts(order);
    if Order(WeightsOf(rekeyed)) != order {
      ReweightedBySequence(rekeyed, order);
      OrderIs(Sequence(order), order);
    }
  }

  /** A rename keeps the visible position of every sibling. */
  lemma RenameKeepsOrder(doc: Node, path: Path, newName: string)
    requires |path| > 0 && Has(doc, path) && newName != Name(path)
    requires RenameNode(doc, path, newName).Moved?
    ensures Has(doc, Parent(path)) && Has(RenameNode(doc, path, newName).doc, Parent(path))
    ensures Order(WeightsOf(KidsAt(RenameNode(doc, path, newName).doc, Parent(path)))) ==
            Renamed(Order(WeightsOf(KidsAt(doc, Parent(path)))), Name(path), newName)
  {
    hide Order, Lookup, SetKids, WeightsOf, Kids, RenamedKids, Renamed;
    ParentHas(doc, path);
    var kids := KidsAt(doc, Parent(path));
    SetKidsHas(doc, Parent(path), RenamedKids(kids, Name(path), newName));
    RenamedOrder(kids, Name(path), newName);
  }

  lemma ReweightedBySequence(kids: map<string, Node>, order: seq<string>)
    requires forall k :: k in order <==> k in kids
    ensures WeightsOf(Reweighted(kids, Sequence(order))) == Sequence(order)
  {}

  /** The new name under the old weight sorts between the two neighbours of the old name. */
  ghost predicate StillBetween(w: Weights, name: string, newName: string)
    requires name in w
  {
    var order, v := Order(w), w[newName := w[name]];
    var i := IndexOf(order, name);
    && (i > 0 ==> Less(v, order[i - 1], newName))
    && (i + 1 < |order| ==> Less(v, newName, order[i + 1]))
  }

  /** No sibling has another weight after the rename, and the renamed one has its old weight. */
  ghost predicate KeepsWeights(kids: map<string, Node>, name: string, newName: string)
    requires name in kids
  {
    WeightsOf(RenamedKids(kids, name, newName)) == WeightsOf(Rekeyed(kids, name, newName))
  }

  lemma LessAgrees(w: Weights, v: Weights, a: string, b: string)
    requires a in w && a in v && w[a] == v[a] && b in w && b in v && w[b] == v[b]
    ensures Less(w, a, b) <==> Less(v, a, b)
  {
    hide StrLess;
  }

  lemma SortedAt(w: Weights, order: seq<string>, i: nat, j: nat)
    requires Sorted(w, order) && i < j < |order|
    ensures order[i] in w && order[j] in w && order[i] != order[j] && Less(w, order[i], order[j])
  {
    hide StrLess;
    assert order[i] in order && order[j] in order && Less(w, order[i], order[j]);
    LessTotal(w, order[i], order[i]);
  }

  /** The weights with one name replaced. */
  function OneRenamed(w: Weights, name: string, newName: string): Weights
    requires name in w
  {
    (w - {name})[newName := w[name]]
  }

  lemma RekeyedWeights(kids: map<string, Node>, name: string, newName: string)
    requires name in kids && newName !in kids
    ensures WeightsOf(Rekeyed(kids, name, newName)) == OneRenamed(WeightsOf(kids), name, newName)
  {}

  lemma BesidesRenamed(w: Weights, name: string, newName: string, k: string)
    requires name in w && newName !in w && k in w && k != name
    ensures k in OneRenamed(w, name, newName) && OneRenamed(w, name, newName)[k] == w[k]
    ensures Less(OneRenamed(w, name, newName), k, newName) <==> Less(w[newName := w[name]], k, newName)
    ensures Less(OneRenamed(w, name, newName), newName, k) <==> Less(w[newName := w[name]], newName, k)
  {
    hide Less;
    LessAgrees(OneRenamed(w, name, newName), w[newName := w[name]], k, newName);
    LessAgrees(OneRenamed(w, name, newName), w[newName := w[name]], newName, k);
  }

  /** Two names of the new list are in order if the new name lies between its neighbours. */
  lemma BetweenLess(w: Weights, name: string, newName: string, i: nat, j: nat)
    requires name in w && newName !in w && StillBetween(w, name, newName) && i < j < |Order(w)|
    ensures var renamed := Renamed(Order(w), name, newName); Less(OneRenamed(w, name, newName), renamed[i], renamed[j])
  {
    hide Less, Order, Sorted, OneRenamed;
    var v, order := OneRenamed(w, name, newName), Order(w);
    var p := IndexOf(order, name);
    SortedAt(w, order, i, j);
    if order[j] == name {
      BesidesRenamed(w, name, newName, order[i]);
      PlaceIs(w, name, j);
      if i < p - 1 {
        SortedAt(w, order, i, p - 1);
        SortedAt(w, order, p - 1, p);
        BesidesRenamed(w, name, newName, order[p - 1]);
        LessAgrees(w, v, order[i], order[p - 1]);
        LessTransitive(v, order[i], order[p - 1], newName);
      }
    } else if order[i] == name {
      BesidesRenamed(w, name, newName, order[j]);
      PlaceIs(w, name, i);
      if j > p + 1 {
        SortedAt(w, order, p + 1, j);
        SortedAt(w, order, p, p + 1);
        BesidesRenamed(w, name, newName, order[p + 1]);
        LessAgrees(w, v, order[p + 1], order[j]);
        LessTransitive(v, newName, order[p + 1], order[j]);
      }
    } else {
      BesidesRenamed(w, name, newName, order[i]);
      BesidesRenamed(w, name, newName, order[j]);
      LessAgrees(w, v, order[i], order[j]);
    }
  }

  lemma PlaceIs(w: Weights, name: string, i: nat)
    requires name in w && i < |Order(w)| && Order(w)[i] == name
    ensures IndexOf(Order(w), name) == i
  {
    hide Sorted, Order;
    SortedNoRepeats(w, Order(w));
  }

  /** Between the same neighbours means in the same place. */
  lemma BetweenSorted(w: Weights, name: string, newName: string)
    requires name in w && newName !in w && StillBetween(w, name, newName)
    ensures Sorted(OneRenamed(w, name, newName), Renamed(Order(w), name, newName))
  {
    hide Less, StillBetween, Order;
    var renamed := Renamed(Order(w), name, newName);
    SortedNoRepeats(w, Order(w));
    RenamedMembers(Order(w), name, newName);
    forall i, j | 0 <= i < j < |renamed|
      ensures Less(OneRenamed(w, name, newName), renamed[i], renamed[j])
    {
      BetweenLess(w, name, newName, i, j);
    }
  }

  /** And in the same place means between the same neighbours. */
  lemma SortedBetween(w: Weights, name: string, newName: string)
    requires name in w && newName !in w
    requires Sorted(OneRenamed(w, name, newName), Renamed(Order(w), name, newName))
    ensures StillBetween(w, name, newName)
  {
    hide Less, Order, Sorted, OneRenamed;
    OrderKeys(w);
    var v, order := OneRenamed(w, name, newName), Order(w);
    var renamed, i := Renamed(order, name, newName), IndexOf(order, name);
    if i > 0 {
      SortedAt(w, order, i - 1, i);
      SortedAt(v, renamed, i - 1, i);
      BesidesRenamed(w, name, newName, order[i - 1]);
    }
    if i + 1 < |order| {
      SortedAt(w, order, i, i + 1);
      SortedAt(v, renamed, i, i + 1);
      BesidesRenamed(w, name, newName, order[i + 1]);
    }
  }

  /** A rename changes no weight exactly if the new name, under the old weight, still sorts between the
      neighbours of the old one; it is then nothing but the new key. */
  lemma RenameKeepsWeights(kids: map<string, Node>, name: string, newName: string)
    requires name in kids && newName !in kids
    ensures KeepsWeights(kids, name, newName) <==> StillBetween(WeightsOf(kids), name, newName)
    ensures KeepsWeights(kids, name, newName) ==> RenamedKids(kids, name, newName) == Rekeyed(kids, name, newName)
  {
    hide Order, WeightsOf, Sorted, NoRepeats, Sequence, Reweighted, Rekeyed, Renamed, StillBetween;
    var w := WeightsOf(kids);
    WeightsAre(kids, name);
    RekeyedWeights(kids, name, newName);
    RenamedOrder(kids, name, newName);
    if StillBetween(w, name, newName) {
      BetweenSorted(w, name, newName);
      OrderIs(WeightsOf(Rekeyed(kids, name, newName)), Renamed(Order(w), name, newName));
    }
    if KeepsWeights(kids, name, newName) {
      SortedBetween(w, name, newName);
    }
  }

  lemma WeightsAre(kids: map<string, Node>, name: string)
    ensures WeightsOf(kids).Keys == kids.Keys
    ensures name in kids ==> WeightsOf(kids)[name] == kids[name].weight
  {}

  /** A rename is refused exactly if another node has the new name; a stale path and the same name change nothing. */
  lemma RenameRefusedIff(doc: Node, path: Path, newName: string)
    requires |path| > 0
    ensures var r := RenameNode(doc, path, newName);
            && (r.Refused? <==> Has(doc, path) && Parent(path) + [newName] != path && Has(doc, Parent(path) + [newName]))
            && (r.Refused? ==> r == Refused(Occupied))
            && (!Has(doc, path) || newName == Name(path) ==> r == Moved(doc))
  {
    hide Lookup, RenamedKids, SetKids, KidsAt;
    assert path == Parent(path) + [Name(path)];
    if Has(doc, path) {
      ParentHas(doc, path);
      SlotTaken(doc, Parent(path), newName);
    }
  }

  /** A rename shows at every path exactly the settings that were at its origin, of targets and of groups. */
  lemma RenameTargets(doc: Node, path: Path, newName: string, q: Path)
    requires |path| > 0 && Has(doc, path) && newName != Name(path)
    requires RenameNode(doc, path, newName).Moved?
    ensures SettingsAt(RenameNode(doc, path, newName).doc, q) ==
            match Origin(path, Parent(path) + [newName], q)
            case None => None
            case Some(p) => SettingsAt(doc, p)
  {
    hide Order, Lookup, SetKids, WeightsOf, Sequence, Reweighted, Kids, Renamed, OwnAt, OwnIn;
    ParentHas(doc, path);
    var sp, name, kids := Parent(path), Name(path), KidsAt(doc, Parent(path));
    var node := kids[name];
    SetKidsOwn(doc, sp, RenamedKids(kids, name, newName), q);
    if Below(q, sp) {
      var r := q[|sp|..];
      assert q == sp + r;
      RenamedSettings(kids, name, newName, r);
      MoreKids(kids - {name}, newName, node, r);
      FewerKids(kids, name, r);
      OwnBelow(doc, sp, r);
      BelowSource(q, path);
      assert Parent(sp + [newName]) == sp && Name(sp + [newName]) == newName;
      BelowSource(q, sp + [newName]);
      if AtOrBelow(q, sp + [newName]) {
        NodeOwn(doc, path, r[1..]);
        assert r[1..] == q[|sp + [newName]|..];
      }
    }
  }

  lemma RenamedSettings(kids: map<string, Node>, name: string, newName: string, r: Path)
    requires name in kids
    ensures Bare(OwnIn(RenamedKids(kids, name, newName), r)) == Bare(OwnIn(Rekeyed(kids, name, newName), r))
  {
    hide Order, WeightsOf, Reweighted, Rekeyed, OwnIn;
    ReweightedSettings(Rekeyed(kids, name, newName), Sequence(Renamed(Order(WeightsOf(kids)), name, newName)), r);
  }
}
