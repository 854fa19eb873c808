/** Which live sources a transition seeds: the addresses of the links that the previous interfaces were bound to. */
module TransitionSeeds {
  import opened Wrappers
  import opened Addresses
  import opened PolicyRules
  import opened Allocation
  import opened Scripts
  import opened Kernel
  import opened SourceTables
  import opened Transition
  import opened Turns
  import Seeding

  /** A previous interface; its hardware address may not have been pinned. */
  datatype Binding = Binding(name: string, mac: Option<string>, table: int)

  const MAX_BINDINGS := 256

  predicate Bindable(bindings: seq<Binding>) {
    && |bindings| <= MAX_BINDINGS && (forall b :: b in bindings ==> KnownTable(b.table))
    && forall i, j :: 0 <= i < j < |bindings| ==> bindings[i].name != bindings[j].name
  }

  /** The link has the name of the binding, and its hardware address if that was pinned. */
  predicate Binds(b: Binding, l: Link) {
    l.name == b.name && (b.mac.None? || b.mac.value == l.mac)
  }

  predicate Present(inventory: seq<Link>, b: Binding) {
    exists l :: l in inventory && Binds(b, l)
  }

  function OwnerOf(b: Binding, l: Link): Interface {
    Interface(b.name, l.mac, b.table, None)
  }

  /** The owners whose links are there. */
  function Owners(bindings: seq<Binding>, inventory: seq<Link>): set<Interface> {
    set b, l | b in bindings && l in inventory && Binds(b, l) :: OwnerOf(b, l)
  }

  function Keys(owners: set<Interface>): set<(string, string)> {
    set i | i in owners :: (i.name, i.mac)
  }

  /** The holds of accepted owners. */
  function Accepted(held: seq<Held>, keys: set<(string, string)>): (r: seq<Held>)
    ensures forall h :: h in r <==> h in held && (h.interface.name, h.interface.mac) in keys
    ensures UniqueHolds(held) ==> UniqueHolds(r)
  {
    if held == [] then []
    else
      var rest := Accepted(held[1..], keys);
      if (held[0].interface.name, held[0].interface.mac) in keys then [held[0]] + rest else rest
  }

  function KeptHolds(held: seq<Held>, owners: set<Interface>): set<Held> {
    set h | h in Accepted(held, Keys(owners))
  }

  predicate SameHold(a: Held, b: Held) {
    a.interface.name == b.interface.name && a.address == b.address
  }

  predicate UniqueHolds(held: seq<Held>) {
    forall i, j :: 0 <= i < j < |held| ==> !SameHold(held[i], held[j])
  }

  // ---------------------------------------------------------------------
  // Appearances

  function Sightings(entries: seq<Entry>): seq<Address> {
    if entries == [] then []
    else
      var n := |entries| - 1;
      Sightings(entries[..n])
      + if !entries[n].expired && entries[n].local.Some? && Usable(entries[n].local.value)
        then [entries[n].local.value] else []
  }

  /** Every usable address that has not expired, also one that is still tentative, as often as it is listed. */
  function AllSightings(inventory: seq<Link>): seq<Address> {
    if inventory == [] then []
    else AllSightings(inventory[..|inventory| - 1]) + Sightings(inventory[|inventory| - 1].entries)
  }

  function Appearances(inventory: seq<Link>, s: Address): nat {
    multiset(AllSightings(inventory))[s]
  }

  method CountSightings(entries: seq<Entry>, s: Address) returns (n: nat)
    ensures n == multiset(Sightings(entries))[s]
  {
    n := 0;
    for i := 0 to |entries|
      invariant n == multiset(Sightings(entries[..i]))[s]
    {
      var e := entries[i];
      assert entries[..i + 1][..i] == entries[..i] && entries[..i + 1][i] == e;
      if e.expired { continue; }
      if e.local.None? || !Usable(e.local.value) { continue; }
      if e.local.value == s { n := n + 1; }
    }
    assert entries[..|entries|] == entries;
  }

  method CountAppearances(inventory: seq<Link>, s: Address) returns (n: nat)
    ensures n == Appearances(inventory, s)
  {
    n := 0;
    for i := 0 to |inventory|
      invariant n == Appearances(inventory[..i], s)
    {
      assert inventory[..i + 1][..i] == inventory[..i] && inventory[..i + 1][i] == inventory[i];
      var k := CountSightings(inventory[i].entries, s);
      n := n + k;
    }
    assert inventory[..|inventory|] == inventory;
  }

  // ---------------------------------------------------------------------
  // Deriving the seeds

  method FindLink(inventory: seq<Link>, name: string) returns (r: Option<Link>)
    ensures r.Some? ==> r.value in inventory && r.value.name == name
    ensures r.None? ==> forall l :: l in inventory ==> l.name != name
  {
    for i := 0 to |inventory|
      invariant forall k :: 0 <= k < i ==> inventory[k].name != name
    {
      if inventory[i].name == name { return Some(inventory[i]); }
    }
    r := None;
  }

  lemma OneLink(inventory: seq<Link>, l: Link, k: Link)
    requires Admitted(inventory) && l in inventory && k in inventory && l.name == k.name
    ensures l == k
  {
    var i :| 0 <= i < |inventory| && inventory[i] == l;
    var j :| 0 <= j < |inventory| && inventory[j] == k;
    assert !(i < j) && !(j < i);
  }

  /** The owner that a binding names, if its link is there. */
  method FindOwner(inventory: seq<Link>, b: Binding) returns (r: Option<Interface>)
    requires Admitted(inventory)
    ensures r.Some? <==> Present(inventory, b)
    ensures Owners([b], inventory) == if r.Some? then {r.value} else {}
    ensures r.Some? ==> r.value.name == b.name
  {
    var l := FindLink(inventory, b.name);
    if l.None? { return None; }
    forall k | k in inventory && Binds(b, k) { OneLink(inventory, k, l.value); }
    if b.mac.Some? && b.mac.value != l.value.mac { return None; }
    assert Binds(b, l.value) && b in [b];
    r := Some(OwnerOf(b, l.value));
  }

  lemma OwnersNext(bindings: seq<Binding>, inventory: seq<Link>, i: nat)
    requires i < |bindings|
    ensures Owners(bindings[..i + 1], inventory) == Owners(bindings[..i], inventory) + Owners([bindings[i]], inventory)
  {
    assert bindings[..i + 1] == bindings[..i] + [bindings[i]];
  }

  ghost predicate AllPresent(inventory: seq<Link>, bindings: seq<Binding>) {
    forall b :: b in bindings ==> Present(inventory, b)
  }

  /** Walks the bindings. A binding without its link is refused, or at boot passed over. */
  method CollectOwners(bindings: seq<Binding>, inventory: seq<Link>, allowAbsent: bool)
    returns (r: Option<seq<Interface>>)
    requires Bindable(bindings) && Admitted(inventory)
    ensures r.Some? <==> allowAbsent || AllPresent(inventory, bindings)
    ensures r.Some? ==> (set i | i in r.value) == Owners(bindings, inventory)
    ensures r.Some? ==> forall i, j :: 0 <= i < j < |r.value| ==> r.value[i].name != r.value[j].name
  {
    var owners: seq<Interface> := [];
    for n := 0 to |bindings|
      invariant (set i | i in owners) == Owners(bindings[..n], inventory)
      invariant forall i, j :: 0 <= i < j < |owners| ==> owners[i].name != owners[j].name
      invariant forall i :: 0 <= i < |owners| ==> exists k :: 0 <= k < n && bindings[k].name == owners[i].name
      invariant allowAbsent || forall k :: 0 <= k < n ==> Present(inventory, bindings[k])
    {
      OwnersNext(bindings, inventory, n);
      var owner := FindOwner(inventory, bindings[n]);
      if owner.None? {
        if !allowAbsent { return None; }
      } else {
        owners := owners + [owner.value];
      }
    }
    assert bindings[..|bindings|] == bindings;
    r := Some(owners);
  }

  /** The intent that a transition resolves: the owners that are there, and their holds. */
  function Previous(owners: seq<Interface>, held: seq<Held>): Intent {
    Intent(owners, Accepted(held, Keys(set i | i in owners)))
  }

  /** Every owner has its link, so the inventory is never incomplete. */
  lemma NeverIncomplete(owners: seq<Interface>, held: seq<Held>, bindings: seq<Binding>, inventory: seq<Link>)
    requires (set i | i in owners) == Owners(bindings, inventory)
    ensures var p := Previous(owners, held); !Incomplete(Interfaces(p), Holds(p), Views(inventory))
  {
    var p := Previous(owners, held);
    forall k | k in OwnerKeys(Interfaces(p), Holds(p))
      ensures exists v :: v in Views(inventory) && (v.name, v.mac) == k
    {
      var i :| i in Owners(bindings, inventory) && (i.name, i.mac) == k;
      var b, l :| b in bindings && l in inventory && Binds(b, l) && i == OwnerOf(b, l);
      assert ViewOf(l) in Views(inventory);
    }
  }

  /** Every source resolves to one table, and appears once. */
  predicate Seedable(sources: SourceMap, inventory: seq<Link>) {
    forall s :: s in sources ==> sources[s].Some? && Appearances(inventory, s) == 1
  }

  /** The resolution of the owners that are there. */
  ghost predicate ResolvesPrevious(bindings: seq<Binding>, inventory: seq<Link>, held: seq<Held>, sources: SourceMap) {
    var owners := Owners(bindings, inventory);
    Resolution(owners, KeptHolds(held, owners), Views(inventory), sources)
  }

  // ---------------------------------------------------------------------
  // The seeds written out over links, bindings and holds

  /** Where an address is shown that has not expired. */
  ghost function Positions(inventory: seq<Link>, s: Address): set<(int, int)> {
    set i, j | 0 <= i < |inventory| && 0 <= j < |inventory[i].entries| && !inventory[i].entries[j].expired
               && inventory[i].entries[j].local == Some(s) && Usable(s) :: (i, j)
  }

  ghost function EntryPositions(entries: seq<Entry>, s: Address): set<int> {
    set j | 0 <= j < |entries| && !entries[j].expired && entries[j].local == Some(s) && Usable(s)
  }

  lemma EntryPositionsNext(entries: seq<Entry>, s: Address)
    requires entries != []
    ensures var n := |entries| - 1;
            && n !in EntryPositions(entries[..n], s)
            && EntryPositions(entries, s) == EntryPositions(entries[..n], s) +
                 if !entries[n].expired && entries[n].local == Some(s) && Usable(s) then {n} else {}
  {
    var n := |entries| - 1;
    assert forall j :: 0 <= j < n ==> entries[..n][j] == entries[j];
  }

  lemma {:induction false} EntryCount(entries: seq<Entry>, s: Address)
    ensures multiset(Sightings(entries))[s] == |EntryPositions(entries, s)|
    decreases |entries|
  {
    if entries == [] {
    } else {
      var n := |entries| - 1;
      EntryCount(entries[..n], s);
      EntryPositionsNext(entries, s);
    }
  }

  ghost function OnLink<T(!new)>(i: int, js: set<T>): set<(int, T)> {
    set j | j in js :: (i, j)
  }

  lemma {:induction false} OnLinkSize<T(!new)>(i: int, js: set<T>)
    ensures |OnLink(i, js)| == |js|
    decreases js
  {
    if js == {} {
    } else {
      var j :| j in js;
      OnLinkSize(i, js - {j});
      assert OnLink(i, js) == OnLink(i, js - {j}) + {(i, j)};
    }
  }

  /** The appearances of an address are the places where it is shown. */
  lemma {:induction false} AppearancesArePositions(inventory: seq<Link>, s: Address)
    ensures Appearances(inventory, s) == |Positions(inventory, s)|
    decreases |inventory|
  {
    if inventory == [] {
    } else {
      var n := |inventory| - 1;
      AppearancesArePositions(inventory[..n], s);
      EntryCount(inventory[n].entries, s);
      OnLinkSize(n, EntryPositions(inventory[n].entries, s));
      PositionsNext(inventory, s);
    }
  }

  lemma PositionsNext(inventory: seq<Link>, s: Address)
    requires inventory != []
    ensures var n := |inventory| - 1;
            var last := OnLink(n, EntryPositions(inventory[n].entries, s));
            Positions(inventory, s) == Positions(inventory[..n], s) + last && Positions(inventory[..n], s) !! last
  {
    var n := |inventory| - 1;
    var last := OnLink(n, EntryPositions(inventory[n].entries, s));
    assert forall i :: 0 <= i < n ==> inventory[..n][i] == inventory[i];
    forall p
      ensures p in Positions(inventory, s) <==> p in Positions(inventory[..n], s) + last
    {
    }
  }

  /** A link that a binding names gives its address this table: that of a hold, or else that of the binding. */
  ghost predicate Seeded(bindings: seq<Binding>, held: seq<Held>, inventory: seq<Link>, s: Address, t: int) {
    exists l, b :: l in inventory && b in bindings && Has(l, s) && Seeds(held, l, b, s, t)
  }

  ghost predicate Seeds(held: seq<Held>, l: Link, b: Binding, s: Address, t: int) {
    && l.name == b.name && (b.mac.Some? ==> b.mac.value == l.mac)
    && (if exists h :: h in held && HoldsFor(h, l, s)
        then exists h :: h in held && HoldsFor(h, l, s) && h.interface.table == t
        else t == b.table)
  }

  lemma GivesIsSeeds(bindings: seq<Binding>, inventory: seq<Link>, held: seq<Held>, l: Link, s: Address, t: int)
    requires Bindable(bindings) && Admitted(inventory) && l in inventory
    ensures var owners := Owners(bindings, inventory);
            Gives(owners, KeptHolds(held, owners), l, s, t) <==> exists b :: b in bindings && Seeds(held, l, b, s, t)
  {
    var owners := Owners(bindings, inventory);
    var kept := KeptHolds(held, owners);
    if b :| b in bindings && Binds(b, l) {
      assert OwnerOf(b, l) in owners && (l.name, l.mac) in Keys(owners);
      assert forall h :: HoldsFor(h, l, s) ==> (h in kept <==> h in held);
      forall o | o in owners && o.name == l.name && o.mac == l.mac
        ensures o.table == b.table
      {
        var c, k :| c in bindings && k in inventory && Binds(c, k) && o == OwnerOf(c, k);
        OneBinding(bindings, b, c);
      }
      forall c | c in bindings && Seeds(held, l, c, s, t) { OneBinding(bindings, b, c); }
    } else {
      forall o | o in owners
        ensures o.name != l.name || o.mac != l.mac
      {
        var c, k :| c in bindings && k in inventory && Binds(c, k) && o == OwnerOf(c, k);
        if k.name == l.name { OneLink(inventory, k, l); }
      }
    }
  }

  lemma OneBinding(bindings: seq<Binding>, b: Binding, c: Binding)
    requires Bindable(bindings) && b in bindings && c in bindings
    ensures b.name == c.name ==> b == c
  {
    var i :| 0 <= i < |bindings| && bindings[i] == b;
    var j :| 0 <= j < |bindings| && bindings[j] == c;
    if i < j { assert bindings[i].name != bindings[j].name; }
    if j < i { assert bindings[j].name != bindings[i].name; }
  }

  /** A source of the previous interfaces is claimed for a table exactly if a bound link gives it. */
  lemma ClaimedIsSeeded(bindings: seq<Binding>, inventory: seq<Link>, held: seq<Held>, s: Address, t: int)
    requires Bindable(bindings) && Admitted(inventory)
    ensures var owners := Owners(bindings, inventory);
            Claimed(owners, KeptHolds(held, owners), inventory, s, t) <==> Seeded(bindings, held, inventory, s, t)
  {
    forall l | l in inventory { GivesIsSeeds(bindings, inventory, held, l, s, t); }
  }

  /** The seeds are exactly the addresses of bound links, each in the one table that it is given there; each is shown
      once, and by one link only. */
  lemma SeedsMean(bindings: seq<Binding>, inventory: seq<Link>, held: seq<Held>, sources: SourceMap, s: Address, t: int)
    requires Bindable(bindings) && Admitted(inventory) && ResolvesPrevious(bindings, inventory, held, sources)
    requires Seedable(sources, inventory)
    ensures s in sources && sources[s] == Some(t) <==> Seeded(bindings, held, inventory, s, t)
    ensures Seeded(bindings, held, inventory, s, t) ==> |Positions(inventory, s)| == 1
  {
    var owners := Owners(bindings, inventory);
    ResolutionMeans(owners, KeptHolds(held, owners), inventory, sources);
    ClaimedIsSeeded(bindings, inventory, held, s, t);
    OneMeaning(owners, KeptHolds(held, owners), inventory, sources, s, t);
    AppearancesArePositions(inventory, s);
  }

  lemma OneMeaning(interfaces: set<Interface>, held: set<Held>, inventory: seq<Link>, sources: SourceMap, s: Address,
                   t: int)
    requires Means(interfaces, held, inventory, sources) && (s in sources ==> sources[s].Some?)
    ensures s in sources && sources[s] == Some(t) <==> Claimed(interfaces, held, inventory, s, t)
  {
    if s in sources {
      assert Sole(interfaces, held, inventory, s, sources[s].value);
    }
  }

  /** Everything that a transition demands of the previous interfaces. */
  ghost predicate Derivable(bindings: seq<Binding>, inventory: seq<Link>, allowAbsent: bool, held: seq<Held>) {
    && |bindings| <= 256 && (forall b :: b in bindings ==> b.table == 100 || b.table == 200)
    && (forall i, j :: 0 <= i < j < |bindings| ==> bindings[i].name != bindings[j].name)
    && Admitted(inventory)
    && (allowAbsent || forall b :: b in bindings ==>
          exists l :: l in inventory && l.name == b.name && (b.mac.Some? ==> b.mac.value == l.mac))
    && (forall s, t :: Seeded(bindings, held, inventory, s, t) ==> |Positions(inventory, s)| == 1)
  }

  /** The seeds are exactly the addresses of bound links, each in the table that it is given there. */
  ghost predicate Derived(bindings: seq<Binding>, inventory: seq<Link>, held: seq<Held>, seeds: map<Address, int>) {
    forall s, t :: (s in seeds && seeds[s] == t) <==> Seeded(bindings, held, inventory, s, t)
  }

  /** Two links that have an address show it twice. */
  lemma SamePosition(inventory: seq<Link>, l: Link, k: Link, s: Address)
    requires l in inventory && k in inventory && Has(l, s) && Has(k, s) && |Positions(inventory, s)| == 1
    ensures l == k
  {
    var p := PositionIn(inventory, l, s);
    var q := PositionIn(inventory, k, s);
    SingletonElements(Positions(inventory, s), p, q);
  }

  lemma PositionIn(inventory: seq<Link>, l: Link, s: Address) returns (p: (int, int))
    requires l in inventory && Has(l, s)
    ensures p in Positions(inventory, s) && 0 <= p.0 < |inventory| && inventory[p.0] == l
  {
    var e :| e in l.entries && e.local == Some(s) && !e.tentative && !e.dadFailed && !e.expired;
    var i :| 0 <= i < |inventory| && inventory[i] == l;
    var j :| 0 <= j < |l.entries| && l.entries[j] == e;
    p := (i, j);
  }

  /** One place, one link, one binding and at most one hold: one table. */
  lemma OneSeed(bindings: seq<Binding>, inventory: seq<Link>, held: seq<Held>, s: Address, t: int, u: int)
    requires Bindable(bindings) && UniqueHolds(held) && |Positions(inventory, s)| == 1
    requires Seeded(bindings, held, inventory, s, t) && Seeded(bindings, held, inventory, s, u)
    ensures t == u
  {
    var l, b :| l in inventory && b in bindings && Has(l, s) && Seeds(held, l, b, s, t);
    var k, c :| k in inventory && c in bindings && Has(k, s) && Seeds(held, k, c, s, u);
    SamePosition(inventory, l, k, s);
    OneBinding(bindings, b, c);
    if h :| h in held && HoldsFor(h, l, s) && h.interface.table == t {
      if g :| g in held && HoldsFor(g, l, s) && g.interface.table == u { OneHold(held, h, g); }
    }
  }

  lemma OneHold(held: seq<Held>, h: Held, g: Held)
    requires UniqueHolds(held) && h in held && g in held
    ensures SameHold(h, g) ==> h == g
  {
    var i :| 0 <= i < |held| && held[i] == h;
    var j :| 0 <= j < |held| && held[j] == g;
    if i < j { assert !SameHold(held[i], held[j]); }
    if j < i { assert !SameHold(held[j], held[i]); }
  }

  /** The sources can all be seeded exactly if each address that a bound link gives is shown once. */
  lemma SeedableMeans(bindings: seq<Binding>, inventory: seq<Link>, held: seq<Held>, sources: SourceMap)
    requires Bindable(bindings) && Admitted(inventory) && UniqueHolds(held)
    requires ResolvesPrevious(bindings, inventory, held, sources)
    ensures Seedable(sources, inventory) <==>
      forall s, t :: Seeded(bindings, held, inventory, s, t) ==> |Positions(inventory, s)| == 1
  {
    if Seedable(sources, inventory) {
      forall s, t | Seeded(bindings, held, inventory, s, t) { SeedsMean(bindings, inventory, held, sources, s, t); }
    }
    if forall s, t :: Seeded(bindings, held, inventory, s, t) ==> |Positions(inventory, s)| == 1 {
      forall s | s in sources
        ensures sources[s].Some? && Appearances(inventory, s) == 1
      {
        ShownOnceIsSole(bindings, inventory, held, sources, s);
      }
    }
  }

  lemma ShownOnceIsSole(bindings: seq<Binding>, inventory: seq<Link>, held: seq<Held>, sources: SourceMap, s: Address)
    requires Bindable(bindings) && Admitted(inventory) && UniqueHolds(held)
    requires ResolvesPrevious(bindings, inventory, held, sources) && s in sources
    requires forall t :: Seeded(bindings, held, inventory, s, t) ==> |Positions(inventory, s)| == 1
    ensures sources[s].Some? && Appearances(inventory, s) == 1
  {
    var owners := Owners(bindings, inventory);
    var kept := KeptHolds(held, owners);
    ResolutionMeans(owners, kept, inventory, sources);
    var t :| Claimed(owners, kept, inventory, s, t);
    ClaimedIsSeeded(bindings, inventory, held, s, t);
    AppearancesArePositions(inventory, s);
    forall u | Claimed(owners, kept, inventory, s, u)
      ensures u == t
    {
      ClaimedIsSeeded(bindings, inventory, held, s, u);
      OneSeed(bindings, inventory, held, s, t, u);
    }
    forall l, k | l in inventory && k in inventory && Has(l, s) && Has(k, s) { SamePosition(inventory, l, k, s); }
    assert Sole(owners, kept, inventory, s, t);
  }


  function TablesOf(sources: SourceMap): (r: map<Address, int>)
    requires forall s :: s in sources ==> sources[s].Some?
    ensures r.Keys == sources.Keys && forall s :: s in r ==> sources[s] == Some(r[s])
  {
    map s | s in sources :: sources[s].value
  }

  method CheckSources(sources: SourceMap, inventory: seq<Link>) returns (ok: bool)
    ensures ok <==> Seedable(sources, inventory)
  {
    if exists s :: s in sources && sources[s].None? { return false; }
    var todo := sources.Keys;
    while todo != {}
      invariant todo <= sources.Keys && forall s :: s in sources && s !in todo ==> Appearances(inventory, s) == 1
      decreases todo
    {
      var s :| s in todo;
      var n := CountAppearances(inventory, s);
      if n != 1 { return false; }
      todo := todo - {s};
    }
    ok := true;
  }

  /** Derives the seeds, or refuses. */
  method DeriveSeeds(bindings: seq<Binding>, inventory: seq<Link>, allowAbsent: bool, held: seq<Held>)
    returns (r: Option<map<Address, int>>)
    requires UniqueHolds(held) && forall h :: h in held ==> KnownTable(h.interface.table)
    ensures r.Some? <==> Derivable(bindings, inventory, allowAbsent, held)
    ensures r.Some? ==> Seeding.ValidSeeds(r.value) && Derived(bindings, inventory, held, r.value)
  {
    if !Bindable(bindings) || !Admitted(inventory) { return None; }
    var owners := CollectOwners(bindings, inventory, allowAbsent);
    if owners.None? { return None; }
    r := ResolveSeeds(bindings, inventory, held, owners.value);
  }

  method ResolveSeeds(ghost bindings: seq<Binding>, inventory: seq<Link>, held: seq<Held>, owners: seq<Interface>)
    returns (r: Option<map<Address, int>>)
    requires Bindable(bindings) && Admitted(inventory) && (set i | i in owners) == Owners(bindings, inventory)
    requires forall i, j :: 0 <= i < j < |owners| ==> owners[i].name != owners[j].name
    requires UniqueHolds(held) && forall h :: h in held ==> KnownTable(h.interface.table)
    ensures r.Some? <==> forall s, t :: Seeded(bindings, held, inventory, s, t) ==> |Positions(inventory, s)| == 1
    ensures r.Some? ==> Seeding.ValidSeeds(r.value) && Derived(bindings, inventory, held, r.value)
  {
    var intent := Previous(owners, held);
    PreviousParsed(owners, held);
    NeverIncomplete(owners, held, bindings, inventory);
    var tables := SourceTablesOf(intent, inventory);
    var sources := tables.value.0;
    assert !tables.value.1;
    assert ResolvesPrevious(bindings, inventory, held, sources);
    SeedableMeans(bindings, inventory, held, sources);
    var ok := CheckSources(sources, inventory);
    if !ok { return None; }
    PreviousValid(bindings, inventory, held, owners, sources);
    forall s, t { SeedsMean(bindings, inventory, held, sources, s, t); }
    r := Some(TablesOf(sources));
  }

  lemma PreviousParsed(owners: seq<Interface>, held: seq<Held>)
    requires UniqueHolds(held) && forall i, j :: 0 <= i < j < |owners| ==> owners[i].name != owners[j].name
    ensures Parsed(Previous(owners, held))
  {
    var kept := Accepted(held, Keys(set i | i in owners));
    assert forall i, j :: 0 <= i < j < |kept| ==> !SameHold(kept[i], kept[j]);
  }

  lemma PreviousValid(bindings: seq<Binding>, inventory: seq<Link>, held: seq<Held>, owners: seq<Interface>,
                      sources: SourceMap)
    requires Bindable(bindings) && (set i | i in owners) == Owners(bindings, inventory)
    requires forall h :: h in held ==> KnownTable(h.interface.table)
    requires ResolvesPrevious(bindings, inventory, held, sources)
    ensures ValidSources(sources)
  {
    forall i | i in owners
      ensures KnownTable(i.table)
    {
      assert i in Owners(bindings, inventory);
      var b, l :| b in bindings && l in inventory && Binds(b, l) && i == OwnerOf(b, l);
    }
    ResolutionIsValid(Previous(owners, held), inventory, sources);
  }

  /** A seed is an address that one link carries, once, and that link is the one that was bound. */
  lemma SeedIsCarried(bindings: seq<Binding>, inventory: seq<Link>, held: seq<Held>, sources: SourceMap, s: Address)
    requires Admitted(inventory) && ResolvesPrevious(bindings, inventory, held, sources)
    requires Seedable(sources, inventory) && s in sources
    ensures Appearances(inventory, s) == 1
    ensures exists b, l :: b in bindings && l in inventory && Binds(b, l) && s in Assigned(l.entries)
              && Carriers(Views(inventory), s) == {l.name}
  {
    var owners := Owners(bindings, inventory);
    var holds := KeptHolds(held, owners);
    TableMeansOwned(owners, holds, Views(inventory), sources, s);
    var v :| v in Views(inventory) && Carriers(Views(inventory), s) == {v.name} && s in v.addresses
             && (v.name, v.mac) in OwnerKeys(owners, holds);
    var b, k := BoundLink(bindings, inventory, held, (v.name, v.mac));
    var l :| l in inventory && ViewOf(l) == v;
    OneLink(inventory, k, l);
  }

  lemma BoundLink(bindings: seq<Binding>, inventory: seq<Link>, held: seq<Held>, key: (string, string))
    returns (b: Binding, l: Link)
    requires var owners := Owners(bindings, inventory); key in OwnerKeys(owners, KeptHolds(held, owners))
    ensures b in bindings && l in inventory && Binds(b, l) && (l.name, l.mac) == key
  {
    var i :| i in Owners(bindings, inventory) && (i.name, i.mac) == key;
    b, l :| b in bindings && l in inventory && Binds(b, l) && i == OwnerOf(b, l);
  }

  /** Turns the guard on for the previous interfaces. Without any there is nothing to seed. Otherwise a refusal leaves
      the kernel untouched, and otherwise the kernel is on the way to a plan that seeds every address of the previous
      interfaces. */
  method StartPrevious(device: Device<KernelRule>, bindings: seq<Binding>, inventory: seq<Link>, allowAbsent: bool,
                       held: seq<Held>, hash: Address -> nat)
    returns (r: Seeding.Ending, ghost seeds: map<Address, int>, ghost desired: set<Rule>, ghost turns: seq<Turn>)
    requires UniqueHolds(held) && forall h :: h in held ==> KnownTable(h.interface.table)
    modifies device
    ensures Leads(old(device.state), turns, device.state)
    ensures bindings == [] ==> PairRules(device.state) == PairRules(old(device.state)) && !r.SeedConflict?
    ensures bindings == [] && r.Started? ==> device.state == old(device.state) + GuardRules(V4) + GuardRules(V6)
    ensures bindings != [] && (r.SeedConflict? || r.Refused?) ==> device.state == old(device.state)
    ensures bindings != [] ==> (r.Refused? <==>
      || !Derivable(bindings, inventory, allowAbsent, held)
      || !Consistent(PairRules(old(device.state)))
      || (Seeding.Agrees(seeds, PairRules(old(device.state)))
          && !Fits(Seeding.SeededTables(seeds, PairRules(old(device.state))).Keys)))
    ensures bindings != [] && (r.Started? || r.Stopped?) ==>
      && Seeding.OnTheWay(old(device.state), desired, device.state)
      && Derived(bindings, inventory, held, seeds)
      && Realises(desired, Seeding.SeededTables(seeds, PairRules(old(device.state))))
      && KeepsSlots(desired, PairRules(old(device.state)))
  {
    seeds, desired, turns := map[], {}, [];
    if bindings == [] {
      var guarding;
      guarding, turns := GuardBoth(device);
      r := if guarding.Guarded? then Seeding.Started else if guarding.Unreadable? then Seeding.Refused
        else Seeding.Stopped;
      return;
    }
    var derived := DeriveSeeds(bindings, inventory, allowAbsent, held);
    if derived.None? { return Seeding.Refused, seeds, desired, turns; }
    seeds := derived.value;
    r, desired, turns := Seeding.StartTransition(device, derived.value, hash);
  }
}
