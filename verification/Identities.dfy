/** Storage identities of the targets in a config tree: listing them, stamping them, and importing
    branches without disturbing them. The children of a node stand in the order the program walks them. */
module Identities {

  /** A node of the target tree; `settings` stands for everything but host, id and children. Null is a
      child that is not an object. */
  datatype Node = Null | Node(host: string, id: string, settings: string, children: seq<Child>)

  datatype Child = Child(key: string, node: Node)

  // ---- paths and identities ----

  function ChildPath(parent: string, key: string): string { if parent == "" then key else parent + "/" + key }

  /** A host's storage id: its own id, or its path. */
  function StorageId(id: string, path: string): string { if id != "" then id else path }

  datatype Identity = Identity(path: string, id: string)

  /** TargetIdentities, from the children of the node at `path`. */
  function IdentitiesOf(path: string, cs: seq<Child>): seq<Identity>
    decreases cs
  {
    if cs == [] then []
    else
      match cs[0].node
      case Null => IdentitiesOf(path, cs[1..])
      case Node(host, id, _, children) =>
        var p := ChildPath(path, cs[0].key);
        (if host != "" then [Identity(p, StorageId(id, p))] else [])
        + IdentitiesOf(p, children) + IdentitiesOf(path, cs[1..])
  }

  // ---- what the paths and storage ids are ----

  /** The keys joined by slashes. */
  function Slashed(keys: seq<string>): string {
    if keys == [] then "" else if |keys| == 1 then keys[0] else keys[0] + "/" + Slashed(keys[1..])
  }

  /** The keys from the first non-empty one on. */
  function Named(keys: seq<string>): seq<string> { if keys == [] || keys[0] != "" then keys else Named(keys[1..]) }

  /** The node under the keys has this host and this id of its own. */
  ghost predicate Reached(cs: seq<Child>, keys: seq<string>, host: string, id: string)
    decreases cs
  {
    exists i :: 0 <= i < |cs| && ReachedBy(cs[i], keys, host, id)
  }

  ghost predicate ReachedBy(c: Child, keys: seq<string>, host: string, id: string)
    decreases c
  {
    && keys != [] && keys[0] == c.key && c.node.Node?
    && if |keys| == 1 then c.node.host == host && c.node.id == id else Reached(c.node.children, keys[1..], host, id)
  }

  /** x is the identity of a host below `path`. */
  ghost predicate Identifies(path: string, keys: seq<string>, id: string, x: Identity) {
    && x.path == (if path == "" then Slashed(Named(keys)) else path + "/" + Slashed(keys))
    && x.id == if id != "" then id else x.path
  }

  ghost predicate Listed(path: string, cs: seq<Child>, x: Identity) {
    exists keys, host, id :: Reached(cs, keys, host, id) && host != "" && Identifies(path, keys, id, x)
  }

  ghost predicate ListedBy(path: string, c: Child, x: Identity) {
    exists keys, host, id :: ReachedBy(c, keys, host, id) && host != "" && Identifies(path, keys, id, x)
  }

  lemma ListedCons(path: string, cs: seq<Child>, x: Identity)
    requires cs != []
    ensures Listed(path, cs, x) <==> ListedBy(path, cs[0], x) || Listed(path, cs[1..], x)
  {
    hide Identifies, ReachedBy;
    forall keys, host, id
      ensures Reached(cs, keys, host, id) <==> ReachedBy(cs[0], keys, host, id) || Reached(cs[1..], keys, host, id)
    {
      ReachedCons(cs, keys, host, id);
    }
  }

  lemma ReachedCons(cs: seq<Child>, keys: seq<string>, host: string, id: string)
    requires cs != []
    ensures Reached(cs, keys, host, id) <==> ReachedBy(cs[0], keys, host, id) || Reached(cs[1..], keys, host, id)
  {
    hide ReachedBy;
    if Reached(cs, keys, host, id) {
      var i :| 0 <= i < |cs| && ReachedBy(cs[i], keys, host, id);
      if i > 0 { assert ReachedBy(cs[1..][i - 1], keys, host, id); }
    }
    if Reached(cs[1..], keys, host, id) {
      var i :| 0 <= i < |cs[1..]| && ReachedBy(cs[1..][i], keys, host, id);
      assert ReachedBy(cs[i + 1], keys, host, id);
    }
  }

  lemma ListedNull(path: string, c: Child, x: Identity)
    requires c.node.Null?
    ensures !ListedBy(path, c, x)
  {}

  /** The keys below a node, seen from its parent. */
  lemma NamedBelow(path: string, key: string, keys: seq<string>, id: string, x: Identity)
    requires keys != []
    ensures Identifies(path, [key] + keys, id, x) <==> Identifies(ChildPath(path, key), keys, id, x)
  {
    assert ([key] + keys)[1..] == keys;
    if path != "" {
      assert path + "/" + (key + "/" + Slashed(keys)) == path + "/" + key + "/" + Slashed(keys);
    }
  }

  lemma NamedHere(path: string, key: string, id: string, x: Identity)
    ensures Identifies(path, [key], id, x) <==> x == Identity(ChildPath(path, key), StorageId(id, ChildPath(path, key)))
  {
    assert [key][1..] == [];
    assert Named([]) == [] && Slashed([]) == "";
    assert Slashed(Named([key])) == key;
    assert Slashed([key]) == key;
  }

  lemma ListedNode(path: string, c: Child, x: Identity)
    requires c.node.Node?
    ensures var p := ChildPath(path, c.key);
            ListedBy(path, c, x) <==>
            (c.node.host != "" && x == Identity(p, StorageId(c.node.id, p))) || Listed(p, c.node.children, x)
  {
    hide Identifies, ChildPath, StorageId, Reached;
    var p := ChildPath(path, c.key);
    NamedHere(path, c.key, c.node.id, x);
    if ListedBy(path, c, x) { ListedDown(path, c, x); }
    if c.node.host != "" && x == Identity(p, StorageId(c.node.id, p)) {
      assert ReachedBy(c, [c.key], c.node.host, c.node.id);
    }
    if Listed(p, c.node.children, x) { ListedUp(path, c, x); }
  }

  lemma ListedDown(path: string, c: Child, x: Identity)
    requires c.node.Node? && ListedBy(path, c, x)
    ensures var p := ChildPath(path, c.key);
            (c.node.host != "" && x == Identity(p, StorageId(c.node.id, p))) || Listed(p, c.node.children, x)
  {
    hide Identifies, ChildPath, StorageId, Reached;
    var keys, host, id :| ReachedBy(c, keys, host, id) && host != "" && Identifies(path, keys, id, x);
    if |keys| == 1 {
      assert keys == [c.key];
      NamedHere(path, c.key, c.node.id, x);
    } else {
      assert keys == [c.key] + keys[1..];
      NamedBelow(path, c.key, keys[1..], id, x);
      assert Reached(c.node.children, keys[1..], host, id);
    }
  }

  lemma ListedUp(path: string, c: Child, x: Identity)
    requires c.node.Node? && Listed(ChildPath(path, c.key), c.node.children, x)
    ensures ListedBy(path, c, x)
  {
    hide Identifies, ChildPath, Reached;
    var p := ChildPath(path, c.key);
    var keys, host, id :| Reached(c.node.children, keys, host, id) && host != "" && Identifies(p, keys, id, x);
    ReachedKeys(c.node.children, keys, host, id);
    NamedBelow(path, c.key, keys, id, x);
    assert ([c.key] + keys)[1..] == keys;
    assert ReachedBy(c, [c.key] + keys, host, id);
  }

  lemma ReachedKeys(cs: seq<Child>, keys: seq<string>, host: string, id: string)
    requires Reached(cs, keys, host, id)
    ensures keys != []
  {}

  lemma {:induction false} IdentitiesFrom(path: string, cs: seq<Child>, x: Identity)
    ensures x in IdentitiesOf(path, cs) <==> Listed(path, cs, x)
    decreases cs
  {
    hide ListedBy, Listed, ChildPath, StorageId;
    if cs == [] {
      ListedNone(path, x);
    } else {
      ListedCons(path, cs, x);
      IdentitiesFrom(path, cs[1..], x);
      match cs[0].node {
        case Null =>
          ListedNull(path, cs[0], x);
        case Node(host, id, settings, children) =>
          ListedNode(path, cs[0], x);
          IdentitiesNode(path, cs, x);
          IdentitiesFrom(ChildPath(path, cs[0].key), children, x);
      }
    }
  }

  lemma IdentitiesNode(path: string, cs: seq<Child>, x: Identity)
    requires cs != [] && cs[0].node.Node?
    ensures var c, p := cs[0], ChildPath(path, cs[0].key);
            x in IdentitiesOf(path, cs) <==>
            || (c.node.host != "" && x == Identity(p, StorageId(c.node.id, p)))
            || x in IdentitiesOf(p, c.node.children) || x in IdentitiesOf(path, cs[1..])
  {
    hide ChildPath, StorageId;
  }

  lemma ListedNone(path: string, x: Identity)
    ensures !Listed(path, [], x)
  {}

  /** The identities are those of the hosts at their places, whatever the path of one that has an id. */
  lemma IdentitiesAre(cs: seq<Child>, x: Identity)
    ensures x in IdentitiesOf("", cs) <==>
            exists keys, host, id :: Reached(cs, keys, host, id) && host != "" && PathAndId(keys, id, x)
  {
    hide IdentitiesOf, Reached, Slashed, Named;
    IdentitiesFrom("", cs, x);
    if Listed("", cs, x) {
      var keys, host, id :| Reached(cs, keys, host, id) && host != "" && Identifies("", keys, id, x);
      assert PathAndId(keys, id, x);
      assert exists k, h, i :: Reached(cs, k, h, i) && h != "" && PathAndId(k, i, x);
    }
    if keys, host, id :| Reached(cs, keys, host, id) && host != "" && PathAndId(keys, id, x) {
      assert Identifies("", keys, id, x);
    }
  }

  /** The path is the keys from the first non-empty one, joined by slashes; the id is the own one, or the path. */
  predicate PathAndId(keys: seq<string>, id: string, x: Identity) {
    x == Identity(Slashed(Named(keys)), if id != "" then id else Slashed(Named(keys)))
  }

  // ---- stamping ----

  type Mint = string -> string

  /** The birth-path mint of the migration. */
  function BirthPath(path: string): string { path }

  function StampId(mint: Mint, path: string, host: string, id: string): string {
    if host != "" && id == "" then mint(path) else id
  }

  /** Every host-bearing node without an id gets mint(path). */
  function Stamp(mint: Mint, path: string, cs: seq<Child>): (stamped: seq<Child>)
    ensures |stamped| == |cs|
    decreases cs
  {
    if cs == [] then []
    else
      [match cs[0].node
       case Null => cs[0]
       case Node(host, id, settings, children) =>
         var p := ChildPath(path, cs[0].key);
         Child(cs[0].key, Node(host, StampId(mint, p, host, id), settings, Stamp(mint, p, children)))]
      + Stamp(mint, path, cs[1..])
  }

  lemma StampNext(mint: Mint, path: string, cs: seq<Child>, i: nat)
    requires i < |cs|
    ensures Stamp(mint, path, cs[i..]) == Stamp(mint, path, [cs[i]]) + Stamp(mint, path, cs[i + 1..])
    ensures Unstamped(cs[i..]) <==> Unstamped([cs[i]]) || Unstamped(cs[i + 1..])
  {
    assert cs[i..][1..] == cs[i + 1..];
    StampNone(mint, path);
  }

  lemma StampNone(mint: Mint, path: string)
    ensures Stamp(mint, path, []) == [] && !Unstamped([])
  {}

  lemma StampNull(mint: Mint, path: string, key: string)
    ensures Stamp(mint, path, [Child(key, Null)]) == [Child(key, Null)] && !Unstamped([Child(key, Null)])
  {
    StampNone(mint, path);
  }

  lemma StampNode(mint: Mint, path: string, key: string, host: string, id: string, settings: string, children: seq<Child>)
    ensures var c, p := Child(key, Node(host, id, settings, children)), ChildPath(path, key);
            && Stamp(mint, path, [c]) == [Child(key, Node(host, StampId(mint, p, host, id), settings, Stamp(mint, p, children)))]
            && (Unstamped([c]) <==> (host != "" && id == "") || Unstamped(children))
  {
    StampNone(mint, path);
  }

  /** Some host-bearing node has no id. */
  predicate Unstamped(cs: seq<Child>)
    decreases cs
  {
    cs != [] &&
    (Unstamped(cs[1..]) || match cs[0].node
                           case Null => false
                           case Node(host, id, _, children) => (host != "" && id == "") || Unstamped(children))
  }

  /** stampIDs: the walk over the decoded tree, and whether it changed anything. */
  method StampIds(mint: Mint, path: string, cs: seq<Child>) returns (stamped: seq<Child>, changed: bool)
    ensures stamped == Stamp(mint, path, cs) && changed == Unstamped(cs)
    decreases cs
  {
    hide Stamp, Unstamped, ChildPath;
    stamped, changed := [], false;
    StampNone(mint, path);
    var i := 0;
    assert cs[0..] == cs;
    while i < |cs|
      invariant 0 <= i <= |cs|
      invariant stamped + Stamp(mint, path, cs[i..]) == Stamp(mint, path, cs)
      invariant (changed || Unstamped(cs[i..])) == Unstamped(cs)
    {
      StampNext(mint, path, cs, i);
      var c := cs[i];
      match c.node {
        case Null =>
          StampNull(mint, path, c.key);
        case Node(host, id, settings, children) =>
          StampNode(mint, path, c.key, host, id, settings, children);
          var p := ChildPath(path, c.key);
          var newId := id;
          if host != "" && id == "" {
            newId := mint(p);
            changed := true;
          }
          var below, more := StampIds(mint, p, children);
          changed := changed || more;
          c := Child(c.key, Node(host, newId, settings, below));
      }
      stamped := stamped + [c];
      i := i + 1;
    }
    assert cs[i..] == [];
  }

  /** The tree with all ids cleared. */
  function WithoutIds(cs: seq<Child>): (plain: seq<Child>)
    ensures |plain| == |cs|
    decreases cs
  {
    if cs == [] then [] else [Child(cs[0].key, PlainNode(cs[0].node))] + WithoutIds(cs[1..])
  }

  function PlainNode(n: Node): Node
    decreases n, 0
  {
    match n
    case Null => Null
    case Node(host, _, settings, children) => Node(host, "", settings, WithoutIds(children))
  }

  /** Stamping leaves the list of (path, storage id) pairs of every tree as it was: no history needs
      new keys. */
  lemma {:induction false} StampKeepsIdentities(path: string, cs: seq<Child>)
    ensures IdentitiesOf(path, Stamp(BirthPath, path, cs)) == IdentitiesOf(path, cs)
    decreases cs
  {
    if cs != [] {
      StampKeepsIdentities(path, cs[1..]);
      var stamped := Stamp(BirthPath, path, cs);
      assert stamped[1..] == Stamp(BirthPath, path, cs[1..]);
      match cs[0].node {
        case Null =>
        case Node(host, id, settings, children) =>
          StampKeepsIdentities(ChildPath(path, cs[0].key), children);
      }
    }
  }

  /** Stamping changes nothing but ids, whatever it mints. */
  lemma {:induction false} StampOnlyIds(mint: Mint, path: string, cs: seq<Child>)
    ensures WithoutIds(Stamp(mint, path, cs)) == WithoutIds(cs)
    decreases cs
  {
    if cs != [] {
      StampOnlyIds(mint, path, cs[1..]);
      assert Stamp(mint, path, cs)[1..] == Stamp(mint, path, cs[1..]);
      match cs[0].node {
        case Null =>
        case Node(host, id, settings, children) =>
          StampOnlyIds(mint, ChildPath(path, cs[0].key), children);
      }
    }
  }

  /** The ids of `cs` are still there in `ds`, in the same places. */
  predicate KeepsIds(cs: seq<Child>, ds: seq<Child>)
    decreases cs
  {
    |ds| == |cs| &&
    (cs != [] ==>
       && KeepsIds(cs[1..], ds[1..])
       && cs[0].key == ds[0].key
       && (cs[0].node.Null? <==> ds[0].node.Null?)
       && (cs[0].node.Node? ==>
             && (cs[0].node.id != "" ==> ds[0].node.id == cs[0].node.id)
             && (cs[0].node.host == "" ==> ds[0].node.id == cs[0].node.id)
             && KeepsIds(cs[0].node.children, ds[0].node.children)))
  }

  /** No existing id is ever altered, and no group gets one. */
  lemma {:induction false} StampKeepsIds(mint: Mint, path: string, cs: seq<Child>)
    ensures KeepsIds(cs, Stamp(mint, path, cs))
    decreases cs
  {
    if cs != [] {
      StampKeepsIds(mint, path, cs[1..]);
      assert Stamp(mint, path, cs)[1..] == Stamp(mint, path, cs[1..]);
      match cs[0].node {
        case Null =>
        case Node(host, id, settings, children) =>
          StampKeepsIds(mint, ChildPath(path, cs[0].key), children);
      }
    }
  }

  /** Running the migration twice is the same as running it once. */
  lemma {:induction false} StampIdempotent(path: string, cs: seq<Child>)
    ensures Stamp(BirthPath, path, Stamp(BirthPath, path, cs)) == Stamp(BirthPath, path, cs)
    decreases cs
  {
    if cs != [] {
      StampIdempotent(path, cs[1..]);
      assert Stamp(BirthPath, path, cs)[1..] == Stamp(BirthPath, path, cs[1..]);
      match cs[0].node {
        case Null =>
        case Node(host, id, settings, children) =>
          StampIdempotent(ChildPath(path, cs[0].key), children);
      }
    }
  }

  /** A host-bearing node without an id sits below empty keys only, so that its path is empty. */
  predicate UnnamedHost(cs: seq<Child>)
    decreases cs
  {
    cs != [] &&
    (UnnamedHost(cs[1..]) || (cs[0].key == "" && cs[0].node.Node? &&
                              ((cs[0].node.host != "" && cs[0].node.id == "") || UnnamedHost(cs[0].node.children))))
  }

  lemma {:induction false} StampedBelow(path: string, cs: seq<Child>)
    requires path != ""
    ensures !Unstamped(Stamp(BirthPath, path, cs))
    decreases cs
  {
    if cs != [] {
      StampedBelow(path, cs[1..]);
      assert Stamp(BirthPath, path, cs)[1..] == Stamp(BirthPath, path, cs[1..]);
      match cs[0].node {
        case Null =>
        case Node(host, id, settings, children) =>
          StampedBelow(ChildPath(path, cs[0].key), children);
      }
    }
  }

  /** After the migration every host-bearing node has an id, and a second run changes nothing, exactly
      if no host without an id sits below empty keys only. */
  lemma {:induction false} StampsAllIff(cs: seq<Child>)
    ensures Unstamped(Stamp(BirthPath, "", cs)) <==> UnnamedHost(cs)
    decreases cs
  {
    if cs != [] {
      StampsAllIff(cs[1..]);
      assert Stamp(BirthPath, "", cs)[1..] == Stamp(BirthPath, "", cs[1..]);
      match cs[0].node {
        case Null =>
        case Node(host, id, settings, children) =>
          if cs[0].key == "" {
            StampsAllIff(children);
          } else {
            StampedBelow(cs[0].key, children);
          }
      }
    }
  }

  /** The migration's promise fails for one host under an empty key: it is stamped with the empty path,
      and every later run finds something to change. */
  lemma EmptyKeyNeverStamped()
    ensures var cs := [Child("", Node("10.0.0.1", "", "", []))];
            Stamp(BirthPath, "", cs) == cs && Unstamped(cs)
  {}

  // ---- importing branches ----

  datatype Import = Merged(doc: map<string, Node>, added: nat, same: nat) | Conflict(key: string)

  predicate DistinctKeys(cs: seq<Child>) { forall i, j :: 0 <= i < j < |cs| ==> cs[i].key != cs[j].key }

  /** nodesEqual: the same settings, ids aside. */
  predicate SameSettings(a: Node, b: Node) { PlainNode(a) == PlainNode(b) }

  /** Two nodes have the same settings exactly if host and settings agree, and child by child the key and the
      settings below: a difference in any of these is a conflict. */
  lemma SameSettingsIff(a: Node, b: Node)
    ensures SameSettings(a, b) <==>
            || (a.Null? && b.Null?)
            || (a.Node? && b.Node? && a.host == b.host && a.settings == b.settings &&
                |a.children| == |b.children| && forall i :: 0 <= i < |a.children| ==>
                  a.children[i].key == b.children[i].key && SameSettings(a.children[i].node, b.children[i].node))
  {
    hide PlainNode;
    if a.Node? { PlainIs(a); WithoutIdsAt(a.children); }
    if b.Node? { PlainIs(b); WithoutIdsAt(b.children); }
    PlainIs(Null);
    if a.Node? && b.Node? && |a.children| == |b.children| {
      if WithoutIds(a.children) == WithoutIds(b.children) {
        forall i | 0 <= i < |a.children|
          ensures a.children[i].key == b.children[i].key && SameSettings(a.children[i].node, b.children[i].node)
        {
          assert WithoutIds(a.children)[i] == WithoutIds(b.children)[i];
        }
      }
    }
  }

  lemma PlainIs(n: Node)
    ensures PlainNode(n) == if n.Null? then Null else Node(n.host, "", n.settings, WithoutIds(n.children))
  {}

  lemma {:induction false} WithoutIdsAt(cs: seq<Child>)
    ensures forall i :: 0 <= i < |cs| ==> WithoutIds(cs)[i] == Child(cs[i].key, PlainNode(cs[i].node))
    decreases |cs|
  {
    hide PlainNode;
    if cs != [] { WithoutIdsAt(cs[1..]); }
  }

  /** The branches of the import the document does not have. */
  function NewBranches(doc: map<string, Node>, cs: seq<Child>): seq<Child>
    decreases |cs|
  {
    if |cs| == 0 then []
    else NewBranches(doc, cs[..|cs| - 1]) + if cs[|cs| - 1].key in doc then [] else [cs[|cs| - 1]]
  }

  predicate Clashes(doc: map<string, Node>, c: Child) { c.key in doc && !SameSettings(doc[c.key], c.node) }

  function WithBranches(doc: map<string, Node>, cs: seq<Child>): map<string, Node>
    decreases |cs|
  {
    if |cs| == 0 then doc else WithBranches(doc, cs[..|cs| - 1])[cs[|cs| - 1].key := cs[|cs| - 1].node]
  }

  /** The first pass: a differing duplicate stops the import. */
  method Classify(doc: map<string, Node>, imp: seq<Child>) returns (conflict: seq<Child>, toAdd: seq<Child>, same: nat)
    ensures |conflict| <= 1 && forall c :: c in conflict ==> c in imp && Clashes(doc, c)
    ensures conflict == [] ==> forall c :: c in imp ==> !Clashes(doc, c)
    ensures conflict == [] ==> toAdd == NewBranches(doc, imp) && same == |imp| - |toAdd|
  {
    hide SameSettings, NewBranches;
    conflict, toAdd, same := [], [], 0;
    NewNone(doc);
    for i := 0 to |imp|
      invariant forall c :: c in imp[..i] ==> !Clashes(doc, c)
      invariant toAdd == NewBranches(doc, imp[..i]) && same == i - |toAdd|
    {
      var c := imp[i];
      NewNext(doc, imp, i);
      assert imp[..i + 1] == imp[..i] + [c];
      if c.key in doc {
        if !SameSettings(doc[c.key], c.node) {
          return [c], [], 0;
        }
        same := same + 1;
      } else {
        toAdd := toAdd + [c];
      }
    }
    assert imp[..|imp|] == imp;
  }

  lemma NewNone(doc: map<string, Node>)
    ensures NewBranches(doc, []) == []
  {}

  lemma NewNext(doc: map<string, Node>, cs: seq<Child>, i: nat)
    requires i < |cs|
    ensures NewBranches(doc, cs[..i + 1]) == NewBranches(doc, cs[..i]) + if cs[i].key in doc then [] else [cs[i]]
  {
    assert cs[..i + 1][..i] == cs[..i];
  }

  /** AppendImport on decoded documents: classify every branch, then add the new ones. A conflict leaves
      the document as it was. */
  method AppendImport(doc: map<string, Node>, imp: seq<Child>) returns (r: Import)
    ensures r.Conflict? <==> exists c :: c in imp && Clashes(doc, c)
    ensures r.Conflict? ==> exists c :: c in imp && c.key == r.key && Clashes(doc, c)
    ensures r.Merged? ==>
              var new_ := NewBranches(doc, imp);
              r.doc == WithBranches(doc, new_) && r.added == |new_| && r.same == |imp| - |new_|
  {
    hide Clashes, NewBranches;
    var conflict, toAdd, same := Classify(doc, imp);
    if |conflict| > 0 {
      assert conflict[0] in conflict;
      return Conflict(conflict[0].key);
    }
    if |toAdd| == 0 {
      return Merged(doc, 0, same);
    }
    var merged := doc;
    for i := 0 to |toAdd|
      invariant merged == WithBranches(doc, toAdd[..i])
    {
      assert toAdd[..i + 1][..i] == toAdd[..i];
      merged := merged[toAdd[i].key := toAdd[i].node];
    }
    assert toAdd[..|toAdd|] == toAdd;
    return Merged(merged, |toAdd|, same);
  }

  lemma {:induction false} NewBranchesAre(doc: map<string, Node>, cs: seq<Child>)
    ensures forall c :: c in NewBranches(doc, cs) <==> c in cs && c.key !in doc
    decreases |cs|
  {
    if |cs| > 0 {
      NewBranchesAre(doc, cs[..|cs| - 1]);
      assert forall c :: c in cs <==> c in cs[..|cs| - 1] || c == cs[|cs| - 1];
    }
  }

  lemma {:induction false} WithBranchesIs(doc: map<string, Node>, cs: seq<Child>)
    requires forall i, j :: 0 <= i < |cs| && 0 <= j < |cs| && cs[i].key == cs[j].key ==> cs[i] == cs[j]
    ensures forall c :: c in cs ==> c.key in WithBranches(doc, cs) && WithBranches(doc, cs)[c.key] == c.node
    ensures forall k :: k in doc ==> k in WithBranches(doc, cs)
    ensures forall k :: k in doc && (forall c :: c in cs ==> c.key != k) ==> WithBranches(doc, cs)[k] == doc[k]
    ensures forall k :: k in WithBranches(doc, cs) ==> k in doc || exists c :: c in cs && c.key == k
    decreases |cs|
  {
    if |cs| > 0 {
      var init, last := cs[..|cs| - 1], cs[|cs| - 1];
      WithBranchesIs(doc, init);
      assert forall c :: c in cs <==> c in init || c == last;
    }
  }

  lemma NewKeysOnce(doc: map<string, Node>, imp: seq<Child>, a: Child, b: Child)
    requires DistinctKeys(imp) && a in NewBranches(doc, imp) && b in NewBranches(doc, imp) && a.key == b.key
    ensures a == b
  {
    NewBranchesAre(doc, imp);
    var i :| 0 <= i < |imp| && imp[i] == a;
    var j :| 0 <= j < |imp| && imp[j] == b;
  }

  /** An import touches no branch the document had, and every imported branch is in the result with its
      own settings. */
  lemma ImportMerges(doc: map<string, Node>, imp: seq<Child>)
    requires DistinctKeys(imp) && forall c :: c in imp ==> !Clashes(doc, c)
    ensures var merged := WithBranches(doc, NewBranches(doc, imp));
            && (forall k :: k in doc ==> k in merged && merged[k] == doc[k])
            && (forall c :: c in imp ==> c.key in merged && SameSettings(merged[c.key], c.node))
            && forall k :: k in merged ==> k in doc || exists c :: c in imp && c.key == k
  {
    hide WithBranches, NewBranches, PlainNode, DistinctKeys;
    var new_ := NewBranches(doc, imp);
    NewBranchesAre(doc, imp);
    forall i, j | 0 <= i < |new_| && 0 <= j < |new_| && new_[i].key == new_[j].key
      ensures new_[i] == new_[j]
    {
      NewKeysOnce(doc, imp, new_[i], new_[j]);
    }
    WithBranchesIs(doc, new_);
  }

  /** Importing the same branches again, after the first import and any change of ids such as minting,
      adds nothing, conflicts with nothing and leaves the document as it is. */
  lemma ReimportChangesNothing(doc: map<string, Node>, imp: seq<Child>, minted: map<string, Node>)
    requires DistinctKeys(imp) && forall c :: c in imp ==> !Clashes(doc, c)
    requires var merged := WithBranches(doc, NewBranches(doc, imp));
             minted.Keys == merged.Keys && forall k :: k in merged ==> SameSettings(minted[k], merged[k])
    ensures forall c :: c in imp ==> !Clashes(minted, c)
    ensures NewBranches(minted, imp) == [] && WithBranches(minted, NewBranches(minted, imp)) == minted
  {
    hide WithBranches, NewBranches, PlainNode, DistinctKeys;
    ImportMerges(doc, imp);
    NewBranchesAre(minted, imp);
    if |NewBranches(minted, imp)| > 0 {
      SomeMember(NewBranches(minted, imp));
    }
    WithNone(minted);
  }

  lemma SomeMember(cs: seq<Child>)
    requires |cs| > 0
    ensures exists c :: c in cs
  {
    assert cs[0] in cs;
  }

  lemma WithNone(doc: map<string, Node>)
    ensures WithBranches(doc, []) == doc
  {}

  /** Minting ids for the new hosts of a document is such a change. */
  lemma MintedSameSettings(mint: Mint, path: string, key: string, n: Node)
    ensures var stamped := Stamp(mint, path, [Child(key, n)]);
            |stamped| == 1 && stamped[0].key == key && SameSettings(stamped[0].node, n)
  {
    hide Stamp;
    StampOnlyIds(mint, path, [Child(key, n)]);
    assert WithoutIds(Stamp(mint, path, [Child(key, n)]))[0] == WithoutIds([Child(key, n)])[0];
  }

  /** The document with every new host below every branch stamped. */
  function MintedDoc(mint: Mint, doc: map<string, Node>): map<string, Node> {
    map k | k in doc :: Stamp(mint, "", [Child(k, doc[k])])[0].node
  }

  /** Import a file, stamp the merged document with any mint, import the same file again: nothing is
      added, nothing conflicts, the document stays as it is. */
  lemma ImportMintReimport(mint: Mint, doc: map<string, Node>, imp: seq<Child>)
    requires DistinctKeys(imp) && forall c :: c in imp ==> !Clashes(doc, c)
    ensures var minted := MintedDoc(mint, WithBranches(doc, NewBranches(doc, imp)));
            && (forall c :: c in imp ==> !Clashes(minted, c))
            && NewBranches(minted, imp) == [] && WithBranches(minted, NewBranches(minted, imp)) == minted
  {
    hide WithBranches, NewBranches, PlainNode, DistinctKeys, Clashes, Stamp, SameSettings;
    var merged := WithBranches(doc, NewBranches(doc, imp));
    var minted := MintedDoc(mint, merged);
    forall k | k in merged
      ensures SameSettings(minted[k], merged[k])
    {
      MintedSameSettings(mint, "", k, merged[k]);
    }
    ReimportChangesNothing(doc, imp, minted);
  }
}
