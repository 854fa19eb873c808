/** Removal of a generated tree while others may change it. Every object is held by a handle and compared with an
    earlier snapshot before it goes, children go before their directories, and the kernel refuses to remove a directory
    that is not empty. */
module TreeRemoval {
  import opened Wrappers
  import opened Sets

  /** Components relative to the root of the tree, which is []. */
  type Path = seq<string>

  /** What a snapshot records of an object; a link also has the digest of its data. */
  datatype Entry = Entry(identity: nat, stamp: nat, directory: bool, link: Option<nat>)

  /** An object: whether it has further hard links, and whether a link stays inside the tree. */
  datatype Node = Node(entry: Entry, shared: bool, inside: bool)

  type Tree = map<Path, Node>
  type Snapshot = map<Path, Entry>

  /** What others do meanwhile: nothing, only add entries, or anything. */
  datatype Company = Alone | Adding | Anyone

  /** The removal of one object, with the tree that it met. */
  datatype Deletion = Deletion(path: Path, before: Tree)

  const ENTRY_LIMIT := 50000
  const DEPTH_LIMIT := 128

  function Parent(p: Path): Path
    requires p != []
  {
    p[..|p| - 1]
  }

  /** Every entry lies in a directory that is no link. */
  predicate Shaped(tree: Tree) {
    forall p :: p in tree && p != [] ==>
      Parent(p) in tree && tree[Parent(p)].entry.directory && tree[Parent(p)].entry.link.None?
  }

  /** An object that may be opened: no hard links elsewhere, and no link unless links are admitted. */
  predicate Openable(node: Node, links: bool) {
    (node.entry.directory || !node.shared) && (node.entry.link.Some? ==> links)
  }

  predicate Kind(node: Node, directory: bool, reparse: bool) {
    node.entry.directory == directory && node.entry.link.Some? == reparse
  }

  predicate Fit(node: Node, links: bool) {
    Openable(node, links) && (node.entry.link.Some? ==> node.inside)
  }

  /** The same object, up to the times of a directory. */
  predicate Held(a: Node, b: Node) {
    && a.entry.identity == b.entry.identity && a.entry.directory == b.entry.directory && a.entry.link == b.entry.link
    && (!a.entry.directory ==> a.entry.stamp == b.entry.stamp) && a.shared == b.shared && a.inside == b.inside
  }

  /** A handle lets nobody move, replace or write its object. */
  predicate Pinned(before: Tree, after: Tree, pins: set<Path>) {
    forall p :: p in pins && p in before ==> p in after && Held(before[p], after[p])
  }

  predicate Adds(before: Tree, after: Tree) {
    forall p :: p in before ==> p in after && after[p].entry.identity == before[p].entry.identity
  }

  function Prefixes(p: Path): set<Path> {
    set k | 0 <= k <= |p| :: p[..k]
  }

  /** Removal updates the times of the directory. */
  function Without(tree: Tree, p: Path, stamp: nat): Tree {
    var rest := tree - {p};
    if p == [] || Parent(p) !in rest then rest
    else rest[Parent(p) := rest[Parent(p)].(entry := rest[Parent(p)].entry.(stamp := stamp))]
  }

  /** The whole tree can be recorded within the limits: it has a root that is no link, no file has a further hard link,
      and links are admitted and stay inside. */
  ghost predicate Recordable(tree: Tree, links: bool) {
    && [] in tree && tree[[]].entry.link.None? && |tree| <= 50000
    && forall p :: p in tree ==>
         && |p| <= 128
         && (tree[p].entry.directory || !tree[p].shared)
         && (tree[p].entry.link.Some? ==> links && tree[p].inside)
  }

  ghost predicate Records(tree: Tree, s: Snapshot) {
    s.Keys == tree.Keys && forall p :: p in tree ==> s[p] == tree[p].entry
  }

  /** The object at a path is the recorded one: a directory by its identity, anything else in every respect and without
      a further hard link, and a link with its data, admitted and inside the tree. */
  ghost predicate Intact(expected: Snapshot, links: bool, tree: Tree, p: Path) {
    && p in expected && p in tree
    && tree[p].entry.identity == expected[p].identity && tree[p].entry.directory == expected[p].directory
    && (!tree[p].entry.directory ==> tree[p].entry == expected[p] && !tree[p].shared)
    && tree[p].entry.link == expected[p].link
    && (tree[p].entry.link.Some? ==> links && tree[p].inside)
  }

  /** Only a recorded object, unchanged and without children, was removed. */
  ghost predicate Rightful(expected: Snapshot, links: bool, d: Deletion) {
    Intact(expected, links, d.before, d.path) && forall q :: q in d.before ==> !(d.path < q)
  }

  /** No object was removed before something below it. */
  ghost predicate ChildrenFirst(deleted: seq<Deletion>) {
    forall i, j :: 0 <= i < j < |deleted| ==> !(deleted[i].path <= deleted[j].path)
  }

  /** Whenever an object was removed, all recorded objects still to be removed were as recorded. */
  ghost predicate AllVerified(expected: Snapshot, links: bool, deleted: seq<Deletion>) {
    forall i, q :: 0 <= i < |deleted| && q in expected && (forall j :: 0 <= j < i ==> deleted[j].path != q) ==>
      Intact(expected, links, deleted[i].before, q)
  }

  ghost predicate Deepening(order: seq<Path>) {
    && (forall i, j :: 0 <= i < j < |order| ==> order[i] != order[j])
    && forall i, j :: 0 <= i < j < |order| ==> |order[i]| >= |order[j]|
  }

  ghost predicate Follows(deleted: seq<Deletion>, order: seq<Path>, n: nat)
    requires n <= |order|
  {
    |deleted| == n && forall i :: 0 <= i < n ==> deleted[i].path == order[i]
  }

  // Shapes

  lemma {:induction false} PrefixPresent(tree: Tree, p: Path, k: nat)
    requires Shaped(tree) && p in tree && k <= |p|
    ensures p[..k] in tree && (k < |p| ==> tree[p[..k]].entry.directory && tree[p[..k]].entry.link.None?)
    decreases |p|
  {
    if k == |p| {
      assert p[..k] == p;
    } else {
      PrefixPresent(tree, Parent(p), k);
      assert Parent(p)[..k] == p[..k];
      if k == |p| - 1 { assert p[..k] == Parent(p); }
    }
  }

  /** Without a root there is nothing. */
  lemma NoRootNoTree(tree: Tree)
    requires Shaped(tree) && [] !in tree
    ensures tree == map[]
  {
    if p :| p in tree {
      PrefixPresent(tree, p, 0);
    }
  }

  lemma WithoutShaped(tree: Tree, p: Path, stamp: nat)
    requires Shaped(tree) && p in tree && forall q :: q in tree ==> !(p < q)
    ensures Shaped(Without(tree, p, stamp))
  {
    var rest := Without(tree, p, stamp);
    forall q | q in rest && q != []
      ensures Parent(q) in rest && rest[Parent(q)].entry.directory && rest[Parent(q)].entry.link.None?
    {
      assert q in tree && Parent(q) in tree;
      assert Parent(q) < q;
    }
  }

  lemma WithoutRest(tree: Tree, p: Path, stamp: nat)
    requires Shaped(tree) && p in tree
    ensures Rest(tree, Without(tree, p, stamp), p)
  {
  }

  lemma OrderedDeletions(deleted: seq<Deletion>, order: seq<Path>, n: nat)
    requires n <= |order| && Deepening(order) && Follows(deleted, order, n)
    ensures ChildrenFirst(deleted)
  {
    forall i, j | 0 <= i < j < |deleted|
      ensures !(deleted[i].path <= deleted[j].path)
    {
      assert |order[i]| >= |order[j]| && order[i] != order[j];
    }
  }

  // Order

  method Deepest(keys: set<Path>) returns (p: Path)
    requires keys != {}
    ensures p in keys && forall q :: q in keys ==> |q| <= |p|
  {
    p :| p in keys;
    var todo := keys - {p};
    while todo != {}
      invariant p in keys && todo <= keys && forall q :: q in keys - todo ==> |q| <= |p|
      decreases |todo|
    {
      var q :| q in todo;
      if |q| > |p| { p := q; }
      todo := todo - {q};
    }
  }

  /** All keys, the deepest first. */
  method SortByDepth(keys: set<Path>) returns (order: seq<Path>)
    ensures Deepening(order) && forall p :: p in order <==> p in keys
  {
    order := [];
    var rest := keys;
    while rest != {}
      invariant rest <= keys && Deepening(order)
      invariant forall p :: p in order <==> p in keys - rest
      invariant forall i, q :: 0 <= i < |order| && q in rest ==> |order[i]| >= |q|
      decreases |rest|
    {
      var p := Deepest(rest);
      assert forall i :: 0 <= i < |order| ==> order[i] in order;
      order, rest := order + [p], rest - {p};
    }
  }

  /** An object that the snapshot does not have. */
  predicate Stranger(expected: Snapshot, tree: Tree, p: Path) {
    p in tree && (p in expected ==> tree[p].entry.identity != expected[p].identity)
  }

  /** The removal of a recorded object touches no stranger. */
  lemma StrangersStay(expected: Snapshot, tree: Tree, p: Path, rest: Tree)
    requires p in expected && p in tree && tree[p].entry.identity == expected[p].identity && Rest(tree, rest, p)
    ensures forall q :: Stranger(expected, rest, q) <==> Stranger(expected, tree, q)
    ensures forall q :: Stranger(expected, rest, q) ==> rest[q].entry.identity == tree[q].entry.identity
  {
    forall q
      ensures Stranger(expected, rest, q) <==> Stranger(expected, tree, q)
      ensures Stranger(expected, rest, q) ==> rest[q].entry.identity == tree[q].entry.identity
    {
      if q in rest { assert Held(tree[q], rest[q]); }
    }
  }

  class Volume {
    const expected: Snapshot
    /** Links that stay inside the tree are admitted. */
    const links: bool
    const company: Company

    var tree: Tree
    ghost var deleted: seq<Deletion>
    /** The objects met so far that the snapshot does not have, by identity. */
    ghost var guests: map<Path, nat>
    /** What the objects were when they were opened for good. */
    ghost var handled: Snapshot

    /** A tree about to be removed; what the snapshot does not have is a guest from the start. */
    constructor (expected: Snapshot, links: bool, company: Company, tree: Tree)
      requires Shaped(tree)
      ensures Valid() && this.expected == expected && this.links == links && this.company == company
      ensures this.tree == tree && deleted == []
    {
      this.expected, this.links, this.company, this.tree := expected, links, company, tree;
      deleted, handled, guests := [], map[], map p | p in tree && Stranger(expected, tree, p) :: tree[p].entry.identity;
    }

    ghost predicate Guest(p: Path)
      reads this
    {
      Stranger(expected, tree, p)
    }

    /** The tree keeps its shape, and with others only adding, every guest stays. */
    ghost predicate Valid()
      reads this
    {
      && Shaped(tree)
      && (!company.Anyone? ==> forall p :: p in guests ==> Guest(p) && tree[p].entry.identity == guests[p])
      && (!company.Anyone? ==> forall p :: Guest(p) ==> p in guests)
    }

    /** The guests met earlier are still there, and without company nothing has changed. */
    twostate predicate Calm()
      reads this
    {
      Valid() && (!company.Anyone? ==> GuestsKept(old(guests), guests)) && (company.Alone? ==> tree == old(tree))
    }

    /** Others act; what is held by a handle stays. */
    method Interfere(pins: set<Path>)
      requires Valid()
      modifies this`tree, this`guests
      ensures Calm() && Pinned(old(tree), tree, pins)
    {
      if company.Alone? { return; }
      var other: Tree := *;
      if Shaped(other) && Pinned(tree, other, pins) && (company.Adding? ==> Adds(tree, other)) {
        tree := other;
        guests := map p | p in tree && Guest(p) :: tree[p].entry.identity;
      }
    }

    /** Opens an object; others may deny that. */
    method Pin(p: Path, directory: bool, reparse: bool, pins: set<Path>) returns (ok: bool)
      requires Valid()
      modifies this`tree, this`guests
      ensures Calm() && Pinned(old(tree), tree, pins)
      ensures ok ==> p in tree && Openable(tree[p], links) && Kind(tree[p], directory, reparse)
      ensures company.Alone? ==> (ok <==> p in tree && Openable(tree[p], links) && Kind(tree[p], directory, reparse))
    {
      Interfere(pins);
      var denied := *;
      if denied && !company.Alone? { return false; }
      ok := p in tree && Openable(tree[p], links) && Kind(tree[p], directory, reparse);
    }

    /** Asks the kernel to remove a held object; it refuses a directory that is not empty. */
    method Dispose(p: Path) returns (ok: bool)
      requires Valid() && Intact(expected, links, tree, p)
      modifies this`tree, this`deleted
      ensures Valid() && (!company.Anyone? ==> GuestsKept(old(guests), guests))
      ensures ok ==> deleted == old(deleted) + [Deletion(p, old(tree))]
      ensures ok ==> Rightful(expected, links, Deletion(p, old(tree)))
      ensures ok ==> p !in tree && Rest(old(tree), tree, p)
      ensures !ok ==> tree == old(tree) && deleted == old(deleted)
      ensures company.Alone? && (forall q :: q in tree ==> !(p < q)) ==> ok
    {
      var refused := *;
      if (refused && !company.Alone?) || exists q :: q in tree && p < q { return false; }
      var stamp: nat := *;
      WithoutShaped(tree, p, stamp);
      WithoutRest(tree, p, stamp);
      StrangersStay(expected, tree, p, Without(tree, p, stamp));
      deleted := deleted + [Deletion(p, tree)];
      tree := Without(tree, p, stamp);
      ok := true;
    }

    // Snapshot

    /** Records an object and everything below it. Undisturbed, it fails only if the tree cannot be recorded. */
    method Visit(path: Path, known: Snapshot) returns (r: Option<Snapshot>)
      requires Valid() && (company.Alone? ==> Unvisited(tree, path, known))
      modifies this`tree, this`guests
      ensures Calm()
      ensures r.Some? ==>
        path in r.value && known.Keys <= r.value.Keys && (!links && NoLinks(known) ==> NoLinks(r.value))
      ensures company.Alone? && r.Some? ==> Visited(tree, links, path, known, r.value)
      ensures company.Alone? && r.None? ==> !Recordable(tree, links)
      decreases DEPTH_LIMIT + 1 - |path|, 1
    {
      if |known| >= ENTRY_LIMIT || |path| > DEPTH_LIMIT {
        if company.Alone? { TooMuch(tree, links, path, known); }
        return None;
      }
      var found := Look(path);
      if found.None? { return None; }
      var listed := known[path := found.value];
      if company.Alone? { StartCollecting(tree, links, path, known, found.value); }
      if found.value.directory && found.value.link.None? {
        r := VisitChildren(path, known, listed);
      } else {
        if company.Alone? { LeafVisited(tree, links, path, known, listed); }
        r := Some(listed);
      }
    }

    /** Opens one object and records it. */
    method Look(path: Path) returns (r: Option<Entry>)
      requires Valid()
      modifies this`tree, this`guests
      ensures Calm()
      ensures r.Some? && !links ==> r.value.link.None?
      ensures company.Alone? && r.Some? ==> path in tree && r.value == tree[path].entry && Fit(tree[path], links)
      ensures company.Alone? && r.Some? && path == [] ==> r.value.link.None?
      ensures company.Alone? && r.None? && (path == [] || path in tree) ==> !Recordable(tree, links)
    {
      Interfere({});
      if path !in tree { return None; }
      var reparse, directory := tree[path].entry.link.Some?, tree[path].entry.directory;
      if path == [] && reparse { return None; }
      var ok := Pin(path, directory, reparse, {});
      if !ok || (reparse && !tree[path].inside) { return None; }
      r := Some(tree[path].entry);
    }

    method VisitChildren(path: Path, ghost known: Snapshot, listed: Snapshot) returns (r: Option<Snapshot>)
      requires Valid() && |path| <= DEPTH_LIMIT && path in listed && known.Keys <= listed.Keys
      requires company.Alone? ==> Unvisited(tree, path, known) && Collected(tree, links, path, {}, known, listed)
      modifies this`tree, this`guests
      ensures Calm()
      ensures r.Some? ==>
        path in r.value && known.Keys <= r.value.Keys && (!links && NoLinks(listed) ==> NoLinks(r.value))
      ensures company.Alone? && r.Some? ==> Visited(tree, links, path, known, r.value)
      ensures company.Alone? && r.None? ==> !Recordable(tree, links)
      decreases DEPTH_LIMIT + 1 - |path|, 0
    {
      var found := listed;
      var children := set q | q in tree && q != [] && Parent(q) == path;
      var todo := children;
      while todo != {}
        invariant Calm() && todo <= children && path in found && known.Keys <= found.Keys
          && (!links && NoLinks(listed) ==> NoLinks(found))
        invariant company.Alone? ==> Collected(tree, links, path, children - todo, known, found)
        decreases |todo|
      {
        var q :| q in todo;
        r := VisitChild(path, known, children - todo, found, q);
        if r.None? { return; }
        OneMore(children, todo, q);
        found, todo := r.value, todo - {q};
      }
      if company.Alone? { CollectedAll(tree, links, path, children, known, found); }
      r := Some(found);
    }

    method VisitChild(path: Path, ghost known: Snapshot, ghost done: set<Path>, found: Snapshot, q: Path)
      returns (r: Option<Snapshot>)
      requires Valid() && |path| <= DEPTH_LIMIT && path in found && known.Keys <= found.Keys
      requires q != [] && Parent(q) == path && q !in done
      requires company.Alone? ==>
        q in tree && Unvisited(tree, path, known) && Collected(tree, links, path, done, known, found)
      modifies this`tree, this`guests
      ensures Calm()
      ensures r.Some? ==>
        path in r.value && known.Keys <= r.value.Keys && (!links && NoLinks(found) ==> NoLinks(r.value))
      ensures company.Alone? && r.Some? ==> Collected(tree, links, path, done + {q}, known, r.value)
      ensures company.Alone? && r.None? ==> !Recordable(tree, links)
      decreases DEPTH_LIMIT + 1 - |q|, 2
    {
      if company.Alone? { NextUnvisited(tree, links, path, done, known, found, q); }
      r := Visit(q, found);
      if company.Alone? && r.Some? { CollectedNext(tree, links, path, done, known, found, r.value, q); }
    }

    /** Undisturbed, exactly a tree within the limits is recorded, and recorded whole. */
    method TakeSnapshot() returns (r: Option<Snapshot>)
      requires Valid()
      modifies this`tree, this`guests
      ensures Calm() && (r.Some? ==> [] in r.value && (!links ==> NoLinks(r.value)))
      ensures company.Alone? ==> (r.Some? <==> Recordable(tree, links)) && (r.Some? ==> Records(tree, r.value))
    {
      r := Visit([], map[]);
      if company.Alone? && r.Some? { assert r.value.Keys == tree.Keys; }
    }

    // Removal

    /** Removes one object if it is the recorded one, and sees it gone. */
    method RemoveEntry(p: Path) returns (ok: bool)
      requires Valid() && p in expected && expected[p].link.None?
      modifies this`tree, this`guests, this`deleted
      ensures Valid() && (!company.Anyone? ==> GuestsKept(old(guests), guests))
      ensures Extends(expected, links, old(deleted), deleted, p) && (ok ==> p !in tree && deleted != old(deleted))
      ensures company.Alone? && Removable(expected, old(tree), links, p) ==> ok && Rest(old(tree), tree, p)
    {
      var e := expected[p];
      ok := Pin(p, e.directory, false, Prefixes(p));
      if !ok { return; }
      if tree[p].entry.identity != e.identity || (!e.directory && tree[p].entry.stamp != e.stamp) { return false; }
      Interfere(Prefixes(p));
      assert p in Prefixes(p) by { assert p[..|p|] == p; }
      ok := Dispose(p);
      if !ok { return; }
      Interfere({});
      ok := p !in tree;
    }

    /** Removes the recorded objects in the given order. */
    method RemoveEntries(order: seq<Path>) returns (ok: bool)
      requires Valid() && deleted == [] && Deepening(order)
        && (forall p :: p in order <==> p in expected) && [] in expected
      requires NoLinks(expected) && (company.Alone? ==> Standing(expected, tree, links, order, 0))
      modifies this`tree, this`guests, this`deleted
      ensures Valid() && (!company.Anyone? ==> GuestsKept(old(guests), guests))
      ensures Lawful(expected, links, deleted) && (ok ==> tree == map[] && Follows(deleted, order, |order|))
      ensures company.Alone? ==> ok
    {
      for i := 0 to |order|
        invariant Valid() && (!company.Anyone? ==> GuestsKept(old(guests), guests))
        invariant Follows(deleted, order, i) && (forall k :: 0 <= k < i ==> Rightful(expected, links, deleted[k]))
        invariant i > 0 ==> order[i - 1] !in tree
        invariant company.Alone? ==> Standing(expected, tree, links, order, i)
      {
        ghost var before, log := tree, deleted;
        assert order[i] in order;
        if company.Alone? { StandingRemovable(expected, tree, links, order, i); }
        ok := RemoveEntry(order[i]);
        LawfulNext(expected, links, log, deleted, order, i);
        if !ok { return; }
        if company.Alone? { StandingNext(expected, before, tree, links, order, i); }
      }
      LawfulNext(expected, links, deleted, deleted, order, |order|);
      RootIsLast(order);
      NoRootNoTree(tree);
      ok := true;
    }

    /** Opens and checks every recorded object, directories before what they hold, and keeps all handles. */
    method PinAll(order: seq<Path>) returns (ok: bool)
      requires Valid() && forall p :: p in order ==> p in expected
      modifies this`tree, this`guests, this`handled
      ensures Calm() && (ok ==> AsRecorded(expected, links, tree, order, 0) && Opened(expected, handled, order, 0))
      ensures company.Alone? && Recordable(tree, links) && Records(tree, expected) ==> ok
    {
      handled := map[];
      for i := |order| downto 0
        invariant Calm() && AsRecorded(expected, links, tree, order, i) && Opened(expected, handled, order, i)
      {
        ok := PinNext(order, i);
        if !ok { return; }
      }
      ok := true;
    }

    /** Opens and checks one recorded object. */
    method PinNext(order: seq<Path>, i: nat) returns (ok: bool)
      requires Valid() && i < |order| && order[i] in expected
      requires AsRecorded(expected, links, tree, order, i + 1) && Opened(expected, handled, order, i + 1)
      modifies this`tree, this`guests, this`handled
      ensures Calm() && (ok ==> AsRecorded(expected, links, tree, order, i) && Opened(expected, handled, order, i))
      ensures company.Alone? && Recordable(tree, links) && Records(tree, expected) ==> ok
    {
      var p := order[i];
      var e := expected[p];
      ghost var before := tree;
      ok := Pin(p, e.directory, e.link.Some?, Pins(order, i + 1));
      PinnedStays(expected, links, before, tree, order, i + 1);
      if !ok || tree[p].entry.identity != e.identity || tree[p].entry.stamp != e.stamp
         || (e.link.Some? && (!tree[p].inside || tree[p].entry.link != e.link)) {
        return false;
      }
      handled := handled[p := tree[p].entry];
    }

    /** Removes the held objects. */
    method DisposeAll(order: seq<Path>) returns (ok: bool)
      requires Valid() && deleted == [] && Deepening(order)
        && (forall p :: p in order <==> p in expected) && [] in expected
      requires AsRecorded(expected, links, tree, order, 0)
      requires company.Alone? ==> Standing(expected, tree, links, order, 0)
      modifies this`tree, this`guests, this`deleted
      ensures Valid() && (!company.Anyone? ==> GuestsKept(old(guests), guests))
      ensures Lawful(expected, links, deleted) && AllVerified(expected, links, deleted)
      ensures ok ==> tree == map[] && Follows(deleted, order, |order|)
      ensures company.Alone? ==> ok
    {
      for i := 0 to |order|
        invariant Valid() && (!company.Anyone? ==> GuestsKept(old(guests), guests))
        invariant Follows(deleted, order, i) && (forall k :: 0 <= k < i ==> Rightful(expected, links, deleted[k]))
        invariant AllVerified(expected, links, deleted) && AsRecorded(expected, links, tree, order, i)
        invariant i > 0 ==> order[i - 1] !in tree
        invariant company.Alone? ==> Standing(expected, tree, links, order, i)
      {
        ghost var before, log := tree, deleted;
        if company.Alone? { StandingRemovable(expected, tree, links, order, i); }
        ok := DisposeHeld(order, i);
        LawfulNext(expected, links, log, deleted, order, i);
        if deleted != log { VerifiedNext(expected, links, before, log, order, i); }
        if !ok { return; }
        if company.Alone? { StandingNext(expected, before, tree, links, order, i); }
      }
      LawfulNext(expected, links, deleted, deleted, order, |order|);
      RootIsLast(order);
      NoRootNoTree(tree);
      ok := true;
    }

    /** Removes one held object, closes its handle and sees it gone. */
    method DisposeHeld(order: seq<Path>, i: nat) returns (ok: bool)
      requires Valid() && Deepening(order) && i < |order| && AsRecorded(expected, links, tree, order, i)
      modifies this`tree, this`guests, this`deleted
      ensures Valid() && (!company.Anyone? ==> GuestsKept(old(guests), guests))
      ensures Extends(expected, links, old(deleted), deleted, order[i])
      ensures deleted == old(deleted) || deleted == old(deleted) + [Deletion(order[i], old(tree))]
      ensures ok ==> order[i] !in tree && deleted != old(deleted) && AsRecorded(expected, links, tree, order, i + 1)
      ensures company.Alone? && Removable(expected, old(tree), links, order[i]) ==>
        ok && Rest(old(tree), tree, order[i])
    {
      ok := Dispose(order[i]);
      if !ok { return; }
      ghost var before := tree;
      assert AsRecorded(expected, links, before, order, i + 1);
      Interfere(Pins(order, i + 1));
      PinnedStays(expected, links, before, tree, order, i + 1);
      ok := order[i] !in tree;
    }

    /** Removes the tree that the snapshot recorded. Whatever others do, only recorded objects without children are
        removed, children before directories, and success leaves nothing. With links admitted, nothing is removed before
        everything is verified. With others only adding, every object that is not in the snapshot stays, and so the
        removal fails. Alone, it succeeds exactly on an unchanged tree. */
    method Remove() returns (ok: bool)
      requires Valid() && deleted == []
      modifies this`tree, this`guests, this`deleted, this`handled
      ensures Valid() && (!company.Anyone? ==> GuestsKept(old(guests), guests))
      ensures Lawful(expected, links, deleted) && (links ==> AllVerified(expected, links, deleted))
      ensures ok ==> tree == map[] && forall p :: p in expected ==> Gone(deleted, p)
      ensures ok && !company.Anyone? ==> guests == map[]
      ensures company.Alone? ==> (ok <==> Recordable(old(tree), links) && Records(old(tree), expected))
      ensures company.Alone? && ok ==>
        forall p :: p in old(tree) && !old(tree)[p].entry.directory ==> !old(tree)[p].shared
      ensures links && deleted != [] ==> handled == expected
    {
      var current := TakeSnapshot();
      if current != Some(expected) {
        if current.Some? && company.Alone? { RecordsUnique(tree, current.value, expected); }
        return false;
      }
      ok := RemoveAll();
    }

    /** The removal after a matching snapshot. */
    method RemoveAll() returns (ok: bool)
      requires Valid() && deleted == [] && [] in expected && (!links ==> NoLinks(expected))
      requires company.Alone? ==> Recordable(tree, links) && Records(tree, expected)
      modifies this`tree, this`guests, this`deleted, this`handled
      ensures Valid() && (!company.Anyone? ==> GuestsKept(old(guests), guests))
      ensures Lawful(expected, links, deleted) && (links ==> AllVerified(expected, links, deleted))
      ensures ok ==> tree == map[] && forall p :: p in expected ==> Gone(deleted, p)
      ensures links && deleted != [] ==> handled == expected
      ensures company.Alone? ==> ok
    {
      var order := SortByDepth(expected.Keys);
      if company.Alone? { AllStanding(expected, tree, links, order); }
      if links {
        ok := RemovePinned(order);
      } else {
        ok := RemoveEntries(order);
      }
      if ok { AllGone(expected, deleted, order); }
    }

    /** Verifies and holds every object, and only then removes them. */
    method RemovePinned(order: seq<Path>) returns (ok: bool)
      requires Valid() && deleted == [] && Deepening(order)
        && (forall p :: p in order <==> p in expected) && [] in expected
      requires company.Alone? ==>
        Recordable(tree, links) && Records(tree, expected) && Standing(expected, tree, links, order, 0)
      modifies this`tree, this`guests, this`deleted, this`handled
      ensures Valid() && (!company.Anyone? ==> GuestsKept(old(guests), guests))
      ensures Lawful(expected, links, deleted) && AllVerified(expected, links, deleted)
      ensures deleted != [] ==> handled == expected
      ensures ok ==> tree == map[] && Follows(deleted, order, |order|)
      ensures company.Alone? ==> ok
    {
      ok := PinAll(order);
      if !ok { return; }
      ghost var before := tree;
      Interfere(Pins(order, 0));
      PinnedStays(expected, links, before, tree, order, 0);
      var distrusted := *;
      if distrusted && !company.Alone? { return false; }
      ok := DisposeAll(order);
    }
  }

  // Visiting

  /** Nothing at or below the path is known yet, and all that is known is in the tree. */
  ghost predicate Unvisited(tree: Tree, path: Path, known: Snapshot) {
    && (path == [] || path in tree) && known.Keys <= tree.Keys
    && forall p :: p in known ==> !(path <= p)
  }

  predicate Faithful(tree: Tree, links: bool, path: Path, known: Snapshot, p: Path, e: Entry) {
    if path <= p then p in tree && e == tree[p].entry && |p| <= DEPTH_LIMIT && Fit(tree[p], links)
    else p in known && e == known[p]
  }

  ghost predicate Visited(tree: Tree, links: bool, path: Path, known: Snapshot, found: Snapshot) {
    && (forall p :: p in found <==> p in known || (p in tree && path <= p))
    && (forall p :: p in found ==> Faithful(tree, links, path, known, p, found[p]))
    && |found| <= ENTRY_LIMIT && (path == [] ==> path in tree && tree[path].entry.link.None?)
  }

  predicate InBranch(path: Path, done: set<Path>, p: Path) {
    path < p && p[..|path| + 1] in done
  }

  /** The path and everything in the finished branches below it has been recorded. */
  ghost predicate Collected(tree: Tree, links: bool, path: Path, done: set<Path>, known: Snapshot, found: Snapshot) {
    && (forall p :: p in found <==> p in known || (p in tree && (p == path || InBranch(path, done, p))))
    && (forall p :: p in found ==> Faithful(tree, links, path, known, p, found[p]))
    && |found| <= ENTRY_LIMIT && path in tree && (path == [] ==> tree[path].entry.link.None?)
  }

  lemma TooMuch(tree: Tree, links: bool, path: Path, known: Snapshot)
    requires Unvisited(tree, path, known) && (|known| >= ENTRY_LIMIT || |path| > DEPTH_LIMIT)
    ensures !Recordable(tree, links)
  {
    if path in tree && |path| <= DEPTH_LIMIT {
      SubsetSize(known.Keys + {path}, tree.Keys);
    }
  }

  lemma NothingBelow(tree: Tree, path: Path)
    requires Shaped(tree) && path in tree && !(tree[path].entry.directory && tree[path].entry.link.None?)
    ensures forall p :: p in tree ==> !(path < p)
  {
    forall p | p in tree
      ensures !(path < p)
    {
      if |path| < |p| {
        assert path < p ==> path == p[..|path|];
        PrefixPresent(tree, p, |path|);
      }
    }
  }

  lemma BranchOf(path: Path, q: Path, p: Path)
    requires q != [] && Parent(q) == path
    ensures q <= p <==> path < p && p[..|path| + 1] == q
  {
    if q <= p { assert q == p[..|q|]; }
  }

  lemma OneMore(children: set<Path>, todo: set<Path>, q: Path)
    requires todo <= children && q in todo
    ensures children - (todo - {q}) == (children - todo) + {q}
  {
  }

  lemma StartCollecting(tree: Tree, links: bool, path: Path, known: Snapshot, e: Entry)
    requires Unvisited(tree, path, known) && path in tree && e == tree[path].entry && Fit(tree[path], links)
    requires |known| < ENTRY_LIMIT && |path| <= DEPTH_LIMIT && (path == [] ==> e.link.None?)
    ensures Collected(tree, links, path, {}, known, known[path := e])
  {
    var found := known[path := e];
    assert found.Keys == known.Keys + {path};
    forall p | p in found
      ensures Faithful(tree, links, path, known, p, found[p])
    {
    }
  }

  /** What is no directory is visited at once. */
  lemma LeafVisited(tree: Tree, links: bool, path: Path, known: Snapshot, found: Snapshot)
    requires Shaped(tree) && Collected(tree, links, path, {}, known, found)
    requires !(tree[path].entry.directory && tree[path].entry.link.None?)
    ensures Visited(tree, links, path, known, found)
  {
    NothingBelow(tree, path);
    assert forall p :: p in tree && path <= p ==> p == path;
  }

  lemma NextUnvisited(tree: Tree, links: bool, path: Path, done: set<Path>, known: Snapshot, found: Snapshot, q: Path)
    requires Unvisited(tree, path, known) && Collected(tree, links, path, done, known, found)
    requires q in tree && q != [] && Parent(q) == path && q !in done
    ensures Unvisited(tree, q, found)
  {
    forall p | p in found
      ensures !(q <= p)
    {
      BranchOf(path, q, p);
    }
  }

  lemma CollectedNext(tree: Tree, links: bool, path: Path, done: set<Path>, known: Snapshot, before: Snapshot,
                      found: Snapshot, q: Path)
    requires Unvisited(tree, path, known) && Collected(tree, links, path, done, known, before)
    requires q in tree && q != [] && Parent(q) == path && q !in done && Visited(tree, links, q, before, found)
    ensures Collected(tree, links, path, done + {q}, known, found)
  {
    forall p
      ensures q <= p <==> InBranch(path, {q}, p)
    {
      BranchOf(path, q, p);
    }
    assert forall p :: InBranch(path, done + {q}, p) <==> InBranch(path, done, p) || InBranch(path, {q}, p);
  }

  lemma CollectedAll(tree: Tree, links: bool, path: Path, children: set<Path>, known: Snapshot, found: Snapshot)
    requires Shaped(tree) && Collected(tree, links, path, children, known, found)
    requires forall q :: q in tree && q != [] && Parent(q) == path ==> q in children
    ensures Visited(tree, links, path, known, found)
  {
    forall p | p in tree && path < p
      ensures InBranch(path, children, p)
    {
      PrefixPresent(tree, p, |path| + 1);
      assert Parent(p[..|path| + 1]) == path;
    }
  }

  // Removing

  ghost predicate NoLinks(s: Snapshot) {
    forall p :: p in s ==> s[p].link.None?
  }

  /** At most one object more was removed, namely the recorded one at `p`. */
  ghost predicate Extends(expected: Snapshot, links: bool, before: seq<Deletion>, after: seq<Deletion>, p: Path) {
    after == before || (|after| == |before| + 1 && before <= after && after[|before|].path == p
      && Rightful(expected, links, after[|before|]))
  }

  ghost predicate Lawful(expected: Snapshot, links: bool, deleted: seq<Deletion>) {
    ChildrenFirst(deleted) && forall k :: 0 <= k < |deleted| ==> Rightful(expected, links, deleted[k])
  }

  ghost predicate Removable(expected: Snapshot, tree: Tree, links: bool, p: Path) {
    Intact(expected, links, tree, p) && forall q :: q in tree ==> !(p < q)
  }

  ghost predicate Rest(before: Tree, after: Tree, p: Path) {
    after.Keys == before.Keys - {p} && forall q :: q in after ==> Held(before[q], after[q])
  }

  /** The objects from `order[i]` on are all there is, and as recorded. */
  ghost predicate Standing(expected: Snapshot, tree: Tree, links: bool, order: seq<Path>, i: nat)
    requires i <= |order|
  {
    && (forall p :: p in tree <==> p in order[i..])
    && forall p :: p in tree ==> Intact(expected, links, tree, p)
  }

  lemma StandingRemovable(expected: Snapshot, tree: Tree, links: bool, order: seq<Path>, i: nat)
    requires Deepening(order) && i < |order| && Standing(expected, tree, links, order, i)
    ensures Removable(expected, tree, links, order[i])
  {
    assert order[i] == order[i..][0];
    forall q | q in tree
      ensures !(order[i] < q)
    {
      var j :| 0 <= j < |order[i..]| && order[i..][j] == q;
      assert order[i + j] == q;
    }
  }

  lemma StandingNext(expected: Snapshot, before: Tree, after: Tree, links: bool, order: seq<Path>, i: nat)
    requires Deepening(order) && i < |order| && Standing(expected, before, links, order, i)
      && Rest(before, after, order[i])
    ensures Standing(expected, after, links, order, i + 1)
  {
    assert order[i..] == [order[i]] + order[i + 1..];
    assert order[i] !in order[i + 1..];
    forall p
      ensures p in after <==> p in order[i + 1..]
    {
      assert p in before <==> p in order[i..];
    }
    forall p | p in after
      ensures Intact(expected, links, after, p)
    {
      assert p in before && Held(before[p], after[p]);
      assert Intact(expected, links, before, p);
    }
  }

  lemma LawfulNext(expected: Snapshot, links: bool, before: seq<Deletion>, after: seq<Deletion>, order: seq<Path>,
                   i: nat)
    requires Deepening(order) && i <= |order| && Follows(before, order, i)
    requires forall k :: 0 <= k < i ==> Rightful(expected, links, before[k])
    requires after == before || (i < |order| && Extends(expected, links, before, after, order[i]))
    ensures Lawful(expected, links, after)
    ensures forall k :: 0 <= k < |after| ==> Rightful(expected, links, after[k])
    ensures after != before ==> Follows(after, order, i + 1)
  {
    OrderedDeletions(after, order, |after|);
  }

  /** The root is removed last. */
  lemma RootIsLast(order: seq<Path>)
    requires Deepening(order) && [] in order
    ensures order[|order| - 1] == []
  {
    var i :| 0 <= i < |order| && order[i] == [];
    if i < |order| - 1 { assert |order[|order| - 1]| <= 0; }
  }

  function Pins(order: seq<Path>, i: nat): set<Path>
    requires i <= |order|
  {
    set k | i <= k < |order| :: order[k]
  }

  ghost predicate AsRecorded(expected: Snapshot, links: bool, tree: Tree, order: seq<Path>, i: nat) {
    forall k :: i <= k < |order| ==> Intact(expected, links, tree, order[k])
  }

  /** The objects from `order[i]` on were, when they were opened, exactly as recorded. */
  ghost predicate Opened(expected: Snapshot, handled: Snapshot, order: seq<Path>, i: nat) {
    && (forall p :: p in handled ==> p in expected && handled[p] == expected[p])
    && (forall k :: i <= k < |order| ==> order[k] in handled)
  }

  /** What is held stays as recorded. */
  lemma PinnedStays(expected: Snapshot, links: bool, before: Tree, after: Tree, order: seq<Path>, i: nat)
    requires i <= |order| && AsRecorded(expected, links, before, order, i) && Pinned(before, after, Pins(order, i))
    ensures AsRecorded(expected, links, after, order, i)
  {
    forall k | i <= k < |order|
      ensures Intact(expected, links, after, order[k])
    {
      assert order[k] in Pins(order, i);
      assert Intact(expected, links, before, order[k]);
    }
  }

  lemma VerifiedNext(expected: Snapshot, links: bool, tree: Tree, log: seq<Deletion>, order: seq<Path>, i: nat)
    requires i < |order| && Follows(log, order, i) && AllVerified(expected, links, log)
      && (forall p :: p in expected ==> p in order)
    requires AsRecorded(expected, links, tree, order, i)
    ensures AllVerified(expected, links, log + [Deletion(order[i], tree)])
  {
    var next := log + [Deletion(order[i], tree)];
    forall n, q | 0 <= n < |next| && q in expected && (forall j :: 0 <= j < n ==> next[j].path != q)
      ensures Intact(expected, links, next[n].before, q)
    {
      if n < i {
        assert forall j :: 0 <= j < n ==> log[j].path == next[j].path;
      } else {
        var k :| 0 <= k < |order| && order[k] == q;
        assert forall j :: 0 <= j < i ==> next[j].path == order[j];
      }
    }
  }

  ghost predicate Gone(deleted: seq<Deletion>, p: Path) {
    exists k :: 0 <= k < |deleted| && deleted[k].path == p
  }

  lemma AllGone(expected: Snapshot, deleted: seq<Deletion>, order: seq<Path>)
    requires Follows(deleted, order, |order|) && forall p :: p in expected ==> p in order
    ensures forall p :: p in expected ==> Gone(deleted, p)
  {
    forall p | p in expected
      ensures Gone(deleted, p)
    {
      var k :| 0 <= k < |order| && order[k] == p;
      assert deleted[k].path == p;
    }
  }

  lemma RecordsUnique(tree: Tree, s: Snapshot, t: Snapshot)
    ensures Records(tree, s) && Records(tree, t) ==> s == t
  {
    if Records(tree, s) && Records(tree, t) {
      assert forall p :: p in s ==> p in tree;
    }
  }

  lemma AllStanding(expected: Snapshot, tree: Tree, links: bool, order: seq<Path>)
    requires Recordable(tree, links) && Records(tree, expected) && forall p :: p in order <==> p in expected
    ensures Standing(expected, tree, links, order, 0)
  {
    assert order[0..] == order;
  }

  /** Whatever was met stays on record. */
  ghost predicate GuestsKept(before: map<Path, nat>, after: map<Path, nat>) {
    forall p :: p in before ==> p in after && after[p] == before[p]
  }
}
