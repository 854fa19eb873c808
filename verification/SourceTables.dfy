/** Resolving every assigned source address to a routing table. */
module SourceTables {
  import opened Wrappers
  import opened Addresses
  import opened PolicyRules
  import opened Allocation

  datatype Interface = Interface(name: string, mac: string, table: int, managementUi: Option<bool>)

  datatype Held = Held(interface: Interface, address: Address)

  datatype Intent = Intent(interfaces: seq<Interface>, held: seq<Held>)

  /** An address entry of a link; `local` is missing when it does not parse. */
  datatype Entry = Entry(local: Option<Address>, tentative: bool, dadFailed: bool, expired: bool, global: bool)

  datatype Link = Link(name: string, mac: string, entries: seq<Entry>)

  datatype Error =
    TooManyLinks | AmbiguousLinks | TooManyAddresses | IdentityUnavailable | UnprovenOwnership | AmbiguousSource

  const MAX_LINKS := 4096

  /** What the intent parser guarantees: no interface twice, no held address of a link twice. */
  predicate Parsed(intent: Intent) {
    && (forall i, j :: 0 <= i < j < |intent.interfaces| ==> intent.interfaces[i].name != intent.interfaces[j].name)
    && (forall i, j :: 0 <= i < j < |intent.held| ==>
          intent.held[i].interface.name != intent.held[j].interface.name
            || intent.held[i].address != intent.held[j].address)
  }

  // ---------------------------------------------------------------------
  // Meaning: everything below is a function of sets, so no order can matter

  /** What matters about a link. */
  datatype View = View(name: string, mac: string, addresses: set<Address>)

  predicate Counts(e: Entry) {
    !e.tentative && !e.dadFailed && !e.expired && e.local.Some? && Usable(e.local.value)
  }

  function Assigned(entries: seq<Entry>): set<Address> {
    set e | e in entries && Counts(e) :: e.local.value
  }

  function ViewOf(l: Link): View { View(l.name, l.mac, Assigned(l.entries)) }

  function Views(inventory: seq<Link>): set<View> {
    set l | l in inventory :: ViewOf(l)
  }

  function Interfaces(intent: Intent): set<Interface> { set i | i in intent.interfaces }

  function Holds(intent: Intent): set<Held> { set h | h in intent.held }

  /** Name and hardware address of every owner that the intent names. */
  function OwnerKeys(interfaces: set<Interface>, held: set<Held>): set<(string, string)> {
    (set i | i in interfaces :: (i.name, i.mac)) + (set h | h in held :: (h.interface.name, h.interface.mac))
  }

  function Carriers(views: set<View>, s: Address): set<string> {
    set v | v in views && s in v.addresses :: v.name
  }

  /** The tables that a hold names for an address of an owner. */
  function HeldTables(held: set<Held>, name: string, mac: string, s: Address): set<int> {
    set h | h in held && h.interface.name == name && h.interface.mac == mac && h.address == s :: h.interface.table
  }

  function AppliedTables(interfaces: set<Interface>, name: string, mac: string): set<int> {
    set i | i in interfaces && i.name == name && i.mac == mac :: i.table
  }

  /** A hold goes before the applied table of the interface. */
  function OwnTables(interfaces: set<Interface>, held: set<Held>, name: string, mac: string, s: Address): set<int> {
    if HeldTables(held, name, mac, s) != {} then HeldTables(held, name, mac, s)
    else AppliedTables(interfaces, name, mac)
  }

  /** The tables claimed for a source by the links that carry it and whose name and hardware address are
      among the given owners. */
  function Claims(interfaces: set<Interface>, held: set<Held>, views: set<View>, keys: set<(string, string)>,
                  s: Address): set<int> {
    set v, t | v in views && (v.name, v.mac) in keys && s in v.addresses
      && t in OwnTables(interfaces, held, v.name, v.mac, s) :: t
  }

  function AllClaims(interfaces: set<Interface>, held: set<Held>, views: set<View>, s: Address): set<int> {
    Claims(interfaces, held, views, OwnerKeys(interfaces, held), s)
  }

  /** A source resolves to a table only when one table is claimed for it and one link carries it. */
  ghost predicate Resolved(interfaces: set<Interface>, held: set<Held>, views: set<View>, s: Address,
                           table: Option<int>) {
    if |AllClaims(interfaces, held, views, s)| == 1 && |Carriers(views, s)| == 1
    then table.Some? && table.value in AllClaims(interfaces, held, views, s)
    else table.None?
  }

  /** The sources of an intent and an inventory: exactly those with a claim, each resolved. */
  ghost predicate Resolution(interfaces: set<Interface>, held: set<Held>, views: set<View>, sources: SourceMap) {
    && (forall s :: s in sources <==> AllClaims(interfaces, held, views, s) != {})
    && (forall s :: s in sources ==> Resolved(interfaces, held, views, s, sources[s]))
  }

  /** Some owner has no link with its name and hardware address. */
  predicate Incomplete(interfaces: set<Interface>, held: set<Held>, views: set<View>) {
    exists k :: k in OwnerKeys(interfaces, held) && !exists v :: v in views && (v.name, v.mac) == k
  }

  predicate Admitted(inventory: seq<Link>) {
    && |inventory| <= MAX_LINKS
    && (forall i :: 0 <= i < |inventory| ==> |inventory[i].entries| <= MAX_LINKS)
    && (forall i, j :: 0 <= i < j < |inventory| ==> inventory[i].name != inventory[j].name)
  }

  lemma SingletonElements<T>(a: set<T>, x: T, y: T)
    requires |a| == 1 && x in a && y in a
    ensures x == y
  {
    assert |a - {x}| == 0;
    assert a == {x} + (a - {x});
  }

  /** The sets determine the answer. */
  lemma ResolutionUnique(interfaces: set<Interface>, held: set<Held>, views: set<View>, one: SourceMap, two: SourceMap)
    requires Resolution(interfaces, held, views, one) && Resolution(interfaces, held, views, two)
    ensures one == two
  {
    forall s | s in one
      ensures s in two && one[s] == two[s]
    {
      if one[s].Some? { SingletonElements(AllClaims(interfaces, held, views, s), one[s].value, two[s].value); }
    }
  }

  // ---------------------------------------------------------------------
  // The program

  method AssignedOf(entries: seq<Entry>) returns (addresses: set<Address>)
    ensures addresses == Assigned(entries)
  {
    addresses := {};
    for i := 0 to |entries|
      invariant addresses == Assigned(entries[..i])
    {
      var e := entries[i];
      assert entries[..i + 1] == entries[..i] + [e];
      if e.tentative || e.dadFailed { continue; }
      if e.expired { continue; }
      if e.local.None? || !Usable(e.local.value) { continue; }
      addresses := addresses + {e.local.value};
    }
    assert entries[..|entries|] == entries;
  }

  function Get<K, V>(m: map<K, set<V>>, k: K): set<V> {
    if k in m then m[k] else {}
  }

  /** `links` finds every view by its name. */
  ghost predicate Finds(links: map<string, View>, views: set<View>) {
    && (forall v :: v in views ==> v.name in links && links[v.name] == v)
    && (forall n :: n in links ==> links[n] in views && links[n].name == n)
  }

  lemma AdmittedNext(inventory: seq<Link>, i: nat, links: map<string, View>)
    requires i < |inventory| <= MAX_LINKS && Admitted(inventory[..i]) && Finds(links, Views(inventory[..i]))
    ensures Admitted(inventory[..i + 1]) <==> inventory[i].name !in links && |inventory[i].entries| <= MAX_LINKS
  {
    var before, after := inventory[..i], inventory[..i + 1];
    assert after == before + [inventory[i]];
    if inventory[i].name in links {
      var v := links[inventory[i].name];
      var l :| l in before && ViewOf(l) == v;
      var k :| 0 <= k < i && before[k] == l;
      assert after[k].name == after[i].name;
    } else {
      forall k | 0 <= k < i
        ensures before[k].name != inventory[i].name
      {
        assert ViewOf(before[k]) in Views(before);
      }
    }
  }

  lemma RefusedPrefix(inventory: seq<Link>, i: nat)
    requires i <= |inventory| && !Admitted(inventory[..i])
    ensures !Admitted(inventory)
  {
    assert forall k :: 0 <= k < i ==> inventory[..i][k] == inventory[k];
  }

  lemma ViewsNext(inventory: seq<Link>, i: nat)
    requires i < |inventory|
    ensures Views(inventory[..i + 1]) == Views(inventory[..i]) + {ViewOf(inventory[i])}
  {
    assert inventory[..i + 1] == inventory[..i] + [inventory[i]];
  }

  lemma CarriersNext(views: set<View>, v: View, s: Address)
    ensures Carriers(views + {v}, s) == Carriers(views, s) + (if s in v.addresses then {v.name} else {})
  {
    assert v in views + {v};
  }

  /** Reads the links: a view for every name, and for every address the links that carry it. */
  method ReadLinks(inventory: seq<Link>)
    returns (ok: bool, links: map<string, View>, occurrences: map<Address, set<string>>)
    ensures ok <==> Admitted(inventory)
    ensures ok ==> Finds(links, Views(inventory))
    ensures ok ==> forall s :: Get(occurrences, s) == Carriers(Views(inventory), s)
  {
    links, occurrences := map[], map[];
    if |inventory| > MAX_LINKS { return false, links, occurrences; }
    for i := 0 to |inventory|
      invariant Admitted(inventory[..i]) && Finds(links, Views(inventory[..i]))
      invariant forall s :: Get(occurrences, s) == Carriers(Views(inventory[..i]), s)
    {
      var l := inventory[i];
      AdmittedNext(inventory, i, links);
      if l.name in links || |l.entries| > MAX_LINKS {
        RefusedPrefix(inventory, i + 1);
        return false, links, occurrences;
      }
      var addresses := AssignedOf(l.entries);
      ViewsNext(inventory, i);
      forall s { CarriersNext(Views(inventory[..i]), ViewOf(l), s); }
      occurrences := AddCarrier(occurrences, l.name, addresses);
      links := links[l.name := View(l.name, l.mac, addresses)];
    }
    assert inventory[..|inventory|] == inventory;
    ok := true;
  }

  method AddCarrier(occurrences: map<Address, set<string>>, name: string, addresses: set<Address>)
    returns (r: map<Address, set<string>>)
    ensures forall s :: Get(r, s) == Get(occurrences, s) + (if s in addresses then {name} else {})
  {
    r := occurrences;
    var todo := addresses;
    while todo != {}
      invariant todo <= addresses
      invariant forall s :: Get(r, s) == Get(occurrences, s) + (if s in addresses - todo then {name} else {})
      decreases todo
    {
      var s :| s in todo;
      r := r[s := Get(r, s) + {name}];
      todo := todo - {s};
    }
  }

  lemma HeldAtMostOne(intent: Intent, name: string, mac: string, s: Address, h: Held)
    requires Parsed(intent) && h in intent.held && h.interface.name == name && h.address == s
    ensures HeldTables(Holds(intent), name, mac, s) == if h.interface.mac == mac then {h.interface.table} else {}
  {
    forall g | g in intent.held && g.interface.name == name && g.address == s
      ensures g == h
    {
      var i :| 0 <= i < |intent.held| && intent.held[i] == g;
      var j :| 0 <= j < |intent.held| && intent.held[j] == h;
      assert !(i < j) && !(j < i);
    }
  }

  lemma AppliedAtMostOne(intent: Intent, i: Interface)
    requires Parsed(intent) && i in intent.interfaces
    ensures AppliedTables(Interfaces(intent), i.name, i.mac) == {i.table}
  {
    forall k | k in intent.interfaces && k.name == i.name
      ensures k == i
    {
      var x :| 0 <= x < |intent.interfaces| && intent.interfaces[x] == k;
      var y :| 0 <= y < |intent.interfaces| && intent.interfaces[y] == i;
      assert !(x < y) && !(y < x);
    }
  }

  /** The table of one address of one owner: its hold if the hardware address agrees, otherwise the applied
      table; none for an owner known only by its holds. */
  method OwnTable(intent: Intent, name: string, mac: string, s: Address) returns (table: Option<int>)
    requires Parsed(intent)
    ensures OwnTables(Interfaces(intent), Holds(intent), name, mac, s) == if table.Some? then {table.value} else {}
  {
    if h :| h in intent.held && h.interface.name == name && h.address == s {
      HeldAtMostOne(intent, name, mac, s, h);
      if h.interface.mac == mac { return Some(h.interface.table); }
    }
    if i :| i in intent.interfaces && i.name == name && i.mac == mac {
      AppliedAtMostOne(intent, i);
      return Some(i.table);
    }
    table := None;
  }

  function LinkClaims(intent: Intent, v: View, addresses: set<Address>, s: Address): set<int> {
    if s in addresses then OwnTables(Interfaces(intent), Holds(intent), v.name, v.mac, s) else {}
  }

  ghost predicate NoEmptyClaims(sources: map<Address, set<int>>) {
    forall s :: s in sources ==> sources[s] != {}
  }

  /** Adds the claims of one link. */
  method AddClaims(intent: Intent, v: View, sources: map<Address, set<int>>) returns (r: map<Address, set<int>>)
    requires Parsed(intent)
    ensures forall s :: Get(r, s) == Get(sources, s) + LinkClaims(intent, v, v.addresses, s)
    ensures NoEmptyClaims(sources) ==> NoEmptyClaims(r)
  {
    r := sources;
    var todo := v.addresses;
    while todo != {}
      invariant todo <= v.addresses
      invariant forall s :: Get(r, s) == Get(sources, s) + LinkClaims(intent, v, v.addresses - todo, s)
      invariant NoEmptyClaims(sources) ==> NoEmptyClaims(r)
      decreases todo
    {
      var s :| s in todo;
      var table := OwnTable(intent, v.name, v.mac, s);
      if table.Some? { r := r[s := Get(r, s) + {table.value}]; }
      todo := todo - {s};
    }
  }

  lemma ClaimsNext(interfaces: set<Interface>, held: set<Held>, views: set<View>, keys: set<(string, string)>,
                   k: (string, string), links: map<string, View>, s: Address)
    requires Finds(links, views)
    ensures Claims(interfaces, held, views, keys + {k}, s) == Claims(interfaces, held, views, keys, s) +
      (if k.0 in links && links[k.0].mac == k.1 && s in links[k.0].addresses
       then OwnTables(interfaces, held, k.0, k.1, s) else {})
  {
  }

  /** Walks the owners; an owner without its link makes the inventory incomplete. */
  method CollectClaims(intent: Intent, links: map<string, View>, ghost views: set<View>)
    returns (sources: map<Address, set<int>>, incomplete: bool)
    requires Parsed(intent) && Finds(links, views)
    ensures forall s :: Get(sources, s) == AllClaims(Interfaces(intent), Holds(intent), views, s)
    ensures NoEmptyClaims(sources)
    ensures incomplete <==> Incomplete(Interfaces(intent), Holds(intent), views)
  {
    var owners := (set i | i in intent.interfaces :: (i.name, i.mac))
      + (set h | h in intent.held :: (h.interface.name, h.interface.mac));
    assert owners == OwnerKeys(Interfaces(intent), Holds(intent));
    sources, incomplete := map[], false;
    var todo := owners;
    while todo != {}
      invariant todo <= owners
      invariant forall s :: Get(sources, s) == Claims(Interfaces(intent), Holds(intent), views, owners - todo, s)
      invariant NoEmptyClaims(sources)
      invariant incomplete <==> exists k :: k in owners - todo && !(k.0 in links && links[k.0].mac == k.1)
      decreases todo
    {
      var k :| k in todo;
      forall s { ClaimsNext(Interfaces(intent), Holds(intent), views, owners - todo, k, links, s); }
      assert owners - (todo - {k}) == (owners - todo) + {k};
      if k.0 !in links || links[k.0].mac != k.1 {
        incomplete := true;
      } else {
        sources := AddClaims(intent, links[k.0], sources);
      }
      todo := todo - {k};
    }
    assert owners - todo == owners;
    IncompleteByLinks(Interfaces(intent), Holds(intent), views, links);
  }

  lemma IncompleteByLinks(interfaces: set<Interface>, held: set<Held>, views: set<View>, links: map<string, View>)
    requires Finds(links, views)
    ensures Incomplete(interfaces, held, views) <==>
      exists k :: k in OwnerKeys(interfaces, held) && !(k.0 in links && links[k.0].mac == k.1)
  {
    forall k | k in OwnerKeys(interfaces, held)
      ensures (exists v :: v in views && (v.name, v.mac) == k) <==> k.0 in links && links[k.0].mac == k.1
    {
      if k.0 in links && links[k.0].mac == k.1 { assert links[k.0] in views; }
    }
  }

  lemma AnElement<T>(a: set<T>) returns (x: T)
    requires |a| == 1
    ensures x in a
  {
    if a != {} { x :| x in a; }
  }

  /** One claim and one carrier give a table; anything else quarantines the source. */
  method Settle(claims: map<Address, set<int>>, occurrences: map<Address, set<string>>) returns (sources: SourceMap)
    ensures sources.Keys == claims.Keys
    ensures forall s :: s in sources ==> Settled(claims[s], Get(occurrences, s), sources[s])
  {
    sources := map[];
    var todo := claims.Keys;
    while todo != {}
      invariant todo <= claims.Keys && sources.Keys == claims.Keys - todo
      invariant forall s :: s in sources ==> Settled(claims[s], Get(occurrences, s), sources[s])
      decreases todo
    {
      var s :| s in todo;
      var claimed := claims[s];
      if |claimed| == 1 && |Get(occurrences, s)| == 1 {
        ghost var some := AnElement(claimed);
        var t :| t in claimed;
        sources := sources[s := Some(t)];
      } else {
        sources := sources[s := None];
      }
      todo := todo - {s};
    }
  }

  predicate Settled(claims: set<int>, carriers: set<string>, table: Option<int>) {
    if |claims| == 1 && |carriers| == 1 then table.Some? && table.value in claims else table.None?
  }

  /** Refuses an ambiguous or oversized inventory; otherwise the resolution of its sets, and whether it is complete. */
  method SourceTablesOf(intent: Intent, inventory: seq<Link>) returns (r: Result<(SourceMap, bool), Error>)
    requires Parsed(intent)
    ensures r.Success? <==> Admitted(inventory)
    ensures r.Success? <==>
      && |inventory| <= 4096 && (forall i :: 0 <= i < |inventory| ==> |inventory[i].entries| <= 4096)
      && (forall i, j :: 0 <= i < j < |inventory| ==> inventory[i].name != inventory[j].name)
    ensures r.Success? ==> Resolution(Interfaces(intent), Holds(intent), Views(inventory), r.value.0)
    ensures r.Success? ==> Means(Interfaces(intent), Holds(intent), inventory, r.value.0)
    ensures r.Success? ==> (r.value.1 <==> Incomplete(Interfaces(intent), Holds(intent), Views(inventory)))
  {
    var ok, links, occurrences := ReadLinks(inventory);
    if !ok { return Failure(AmbiguousLinks); }
    var claims, incomplete := CollectClaims(intent, links, Views(inventory));
    var sources := Settle(claims, occurrences);
    SettledIsResolution(Interfaces(intent), Holds(intent), Views(inventory), claims, occurrences, sources);
    ResolutionMeans(Interfaces(intent), Holds(intent), inventory, sources);
    r := Success((sources, incomplete));
  }

  lemma SettledIsResolution(interfaces: set<Interface>, held: set<Held>, views: set<View>,
                            claims: map<Address, set<int>>, occurrences: map<Address, set<string>>,
                            sources: SourceMap)
    requires NoEmptyClaims(claims) && sources.Keys == claims.Keys
    requires forall s :: Get(claims, s) == AllClaims(interfaces, held, views, s)
    requires forall s :: Get(occurrences, s) == Carriers(views, s)
    requires forall s :: s in sources ==> Settled(claims[s], Get(occurrences, s), sources[s])
    ensures Resolution(interfaces, held, views, sources)
  {
    forall s
      ensures s in sources <==> AllClaims(interfaces, held, views, s) != {}
      ensures s in sources ==> Resolved(interfaces, held, views, s, sources[s])
    {
      assert Get(claims, s) == AllClaims(interfaces, held, views, s);
      assert Get(occurrences, s) == Carriers(views, s);
    }
  }

  // ---------------------------------------------------------------------
  // The resolution written out over links and intent rows

  /** The link has the usable address, and the address counts. */
  ghost predicate Has(l: Link, s: Address) {
    Usable(s) && exists e :: e in l.entries && e.local == Some(s) && !e.tentative && !e.dadFailed && !e.expired
  }

  predicate HoldsFor(h: Held, l: Link, s: Address) {
    h.interface.name == l.name && h.interface.mac == l.mac && h.address == s
  }

  /** The intent gives an address of a link this table: by a hold of the address for the link, or else by the row of the
      interface that has the name and hardware address of the link. */
  ghost predicate Gives(interfaces: set<Interface>, held: set<Held>, l: Link, s: Address, t: int) {
    if exists h :: h in held && HoldsFor(h, l, s)
    then exists h :: h in held && HoldsFor(h, l, s) && h.interface.table == t
    else exists i :: i in interfaces && i.name == l.name && i.mac == l.mac && i.table == t
  }

  ghost predicate Claimed(interfaces: set<Interface>, held: set<Held>, inventory: seq<Link>, s: Address, t: int) {
    exists l :: l in inventory && Has(l, s) && Gives(interfaces, held, l, s, t)
  }

  /** One table is given for the address, and all links that have it have one name. */
  ghost predicate Sole(interfaces: set<Interface>, held: set<Held>, inventory: seq<Link>, s: Address, t: int) {
    && Claimed(interfaces, held, inventory, s, t)
    && (forall u :: Claimed(interfaces, held, inventory, s, u) ==> u == t)
    && (forall l, k :: l in inventory && k in inventory && Has(l, s) && Has(k, s) ==> l.name == k.name)
  }

  /** Exactly the addresses that some table is given for are sources, and a source has a table exactly if it is the sole
      one. */
  ghost predicate Means(interfaces: set<Interface>, held: set<Held>, inventory: seq<Link>, sources: SourceMap) {
    && (forall s :: s in sources <==> exists t :: Claimed(interfaces, held, inventory, s, t))
    && (forall s, t :: s in sources ==> (sources[s] == Some(t) <==> Sole(interfaces, held, inventory, s, t)))
  }

  /** No link has the name and hardware address. */
  predicate Missing(inventory: seq<Link>, name: string, mac: string) {
    forall l :: l in inventory ==> l.name != name || l.mac != mac
  }

  lemma HasIsAssigned(l: Link, s: Address)
    ensures Has(l, s) <==> s in Assigned(l.entries)
  {
    if Has(l, s) {
      var e :| e in l.entries && e.local == Some(s) && !e.tentative && !e.dadFailed && !e.expired;
      assert Counts(e);
    }
  }

  lemma GivesIsOwn(interfaces: set<Interface>, held: set<Held>, l: Link, s: Address, t: int)
    ensures Gives(interfaces, held, l, s, t) <==> t in OwnTables(interfaces, held, l.name, l.mac, s)
    ensures Gives(interfaces, held, l, s, t) ==> (l.name, l.mac) in OwnerKeys(interfaces, held)
  {
    if h :| h in held && HoldsFor(h, l, s) {
      assert h.interface.table in HeldTables(held, l.name, l.mac, s);
    }
  }

  lemma ClaimedIs(interfaces: set<Interface>, held: set<Held>, inventory: seq<Link>, s: Address, t: int)
    ensures Claimed(interfaces, held, inventory, s, t) <==> t in AllClaims(interfaces, held, Views(inventory), s)
  {
    if l :| l in inventory && Has(l, s) && Gives(interfaces, held, l, s, t) {
      HasIsAssigned(l, s);
      GivesIsOwn(interfaces, held, l, s, t);
      assert ViewOf(l) in Views(inventory);
    }
    if t in AllClaims(interfaces, held, Views(inventory), s) {
      var v :| v in Views(inventory) && (v.name, v.mac) in OwnerKeys(interfaces, held) && s in v.addresses
               && t in OwnTables(interfaces, held, v.name, v.mac, s);
      var l :| l in inventory && ViewOf(l) == v;
      HasIsAssigned(l, s);
      GivesIsOwn(interfaces, held, l, s, t);
    }
  }

  lemma CarrierIs(inventory: seq<Link>, s: Address, name: string)
    ensures name in Carriers(Views(inventory), s) <==> exists l :: l in inventory && Has(l, s) && l.name == name
  {
    if l :| l in inventory && Has(l, s) && l.name == name {
      HasIsAssigned(l, s);
      assert ViewOf(l) in Views(inventory);
    }
    if name in Carriers(Views(inventory), s) {
      var v :| v in Views(inventory) && s in v.addresses && v.name == name;
      var l :| l in inventory && ViewOf(l) == v;
      HasIsAssigned(l, s);
    }
  }

  lemma OneElement<T>(a: set<T>, x: T)
    requires x in a
    ensures |a| == 1 <==> forall y :: y in a ==> y == x
  {
    if |a| == 1 {
      forall y | y in a { SingletonElements(a, x, y); }
    }
    if forall y :: y in a ==> y == x { assert a == {x}; }
  }

  /** A table is the sole one exactly if one is claimed and one link carries the source. */
  lemma SoleIs(interfaces: set<Interface>, held: set<Held>, inventory: seq<Link>, s: Address, t: int)
    ensures Sole(interfaces, held, inventory, s, t) <==>
      && t in AllClaims(interfaces, held, Views(inventory), s)
      && |AllClaims(interfaces, held, Views(inventory), s)| == 1 && |Carriers(Views(inventory), s)| == 1
  {
    forall u { ClaimedIs(interfaces, held, inventory, s, u); }
    if Claimed(interfaces, held, inventory, s, t) {
      OneElement(AllClaims(interfaces, held, Views(inventory), s), t);
      var l :| l in inventory && Has(l, s) && Gives(interfaces, held, l, s, t);
      OneName(inventory, l, s);
    }
  }

  lemma OneName(inventory: seq<Link>, l: Link, s: Address)
    requires l in inventory && Has(l, s)
    ensures |Carriers(Views(inventory), s)| == 1 <==>
      forall m, k :: m in inventory && k in inventory && Has(m, s) && Has(k, s) ==> m.name == k.name
  {
    forall name { CarrierIs(inventory, s, name); }
    OneElement(Carriers(Views(inventory), s), l.name);
    if forall name :: name in Carriers(Views(inventory), s) ==> name == l.name {
      forall m | m in inventory && Has(m, s)
        ensures m.name == l.name
      {
        assert m.name in Carriers(Views(inventory), s);
      }
    }
  }

  /** The resolution of the sets is what the links and intent rows mean. */
  lemma ResolutionMeans(interfaces: set<Interface>, held: set<Held>, inventory: seq<Link>, sources: SourceMap)
    ensures Resolution(interfaces, held, Views(inventory), sources) <==> Means(interfaces, held, inventory, sources)
  {
    forall s
      ensures AllClaims(interfaces, held, Views(inventory), s) != {} <==>
        exists t :: Claimed(interfaces, held, inventory, s, t)
    {
      SomeClaimed(interfaces, held, inventory, s);
    }
    forall s | s in sources
      ensures Resolved(interfaces, held, Views(inventory), s, sources[s]) <==>
        forall t :: sources[s] == Some(t) <==> Sole(interfaces, held, inventory, s, t)
    {
      ResolvedMeans(interfaces, held, inventory, s, sources[s]);
    }
  }

  lemma SomeClaimed(interfaces: set<Interface>, held: set<Held>, inventory: seq<Link>, s: Address)
    ensures AllClaims(interfaces, held, Views(inventory), s) != {} <==>
      exists t :: Claimed(interfaces, held, inventory, s, t)
  {
    forall t { ClaimedIs(interfaces, held, inventory, s, t); }
    if AllClaims(interfaces, held, Views(inventory), s) != {} {
      var t :| t in AllClaims(interfaces, held, Views(inventory), s);
      assert Claimed(interfaces, held, inventory, s, t);
    }
  }

  lemma ResolvedMeans(interfaces: set<Interface>, held: set<Held>, inventory: seq<Link>, s: Address,
                      table: Option<int>)
    ensures Resolved(interfaces, held, Views(inventory), s, table) <==>
      forall t :: table == Some(t) <==> Sole(interfaces, held, inventory, s, t)
  {
    forall t { SoleIs(interfaces, held, inventory, s, t); }
    var claims := AllClaims(interfaces, held, Views(inventory), s);
    if |claims| == 1 && |Carriers(Views(inventory), s)| == 1 {
      var t :| t in claims;
      OneElement(claims, t);
      assert Sole(interfaces, held, inventory, s, t);
      assert Resolved(interfaces, held, Views(inventory), s, table) <==> table == Some(t);
    } else {
      assert Resolved(interfaces, held, Views(inventory), s, table) <==> table.None?;
      if table.Some? { assert !Sole(interfaces, held, inventory, s, table.value); }
    }
  }

  lemma MissingIs(inventory: seq<Link>, name: string, mac: string)
    ensures Missing(inventory, name, mac) <==> !exists v :: v in Views(inventory) && (v.name, v.mac) == (name, mac)
  {
    if !Missing(inventory, name, mac) {
      var l :| l in inventory && l.name == name && l.mac == mac;
      assert ViewOf(l) in Views(inventory);
    }
  }

  /** An inventory is incomplete exactly if the link of some interface or hold is missing. */
  lemma IncompleteMeans(interfaces: set<Interface>, held: set<Held>, inventory: seq<Link>)
    ensures Incomplete(interfaces, held, Views(inventory)) <==>
      || (exists i :: i in interfaces && Missing(inventory, i.name, i.mac))
      || (exists h :: h in held && Missing(inventory, h.interface.name, h.interface.mac))
  {
    forall k: (string, string) { MissingIs(inventory, k.0, k.1); }
    if i :| i in interfaces && Missing(inventory, i.name, i.mac) {
      assert (i.name, i.mac) in OwnerKeys(interfaces, held);
      MissingIs(inventory, i.name, i.mac);
    }
    if h :| h in held && Missing(inventory, h.interface.name, h.interface.mac) {
      assert (h.interface.name, h.interface.mac) in OwnerKeys(interfaces, held);
      MissingIs(inventory, h.interface.name, h.interface.mac);
    }
  }

  // ---------------------------------------------------------------------
  // What the resolution promises

  /** The order of links, of addresses and of intent rows makes no difference. */
  lemma OrderIrrelevant(intent: Intent, inventory: seq<Link>, sources: SourceMap, intent': Intent,
                        inventory': seq<Link>, sources': SourceMap)
    requires Resolution(Interfaces(intent), Holds(intent), Views(inventory), sources)
    requires Resolution(Interfaces(intent'), Holds(intent'), Views(inventory'), sources')
    requires multiset(intent.interfaces) == multiset(intent'.interfaces)
      && multiset(intent.held) == multiset(intent'.held)
    requires multiset(seq(|inventory|, i requires 0 <= i < |inventory| => ViewOf(inventory[i]))) ==
             multiset(seq(|inventory'|, i requires 0 <= i < |inventory'| => ViewOf(inventory'[i])))
    ensures sources == sources'
  {
    SameElements(intent.interfaces, intent'.interfaces);
    SameElements(intent.held, intent'.held);
    var one := seq(|inventory|, i requires 0 <= i < |inventory| => ViewOf(inventory[i]));
    var two := seq(|inventory'|, i requires 0 <= i < |inventory'| => ViewOf(inventory'[i]));
    SameElements(one, two);
    ViewsListed(inventory, one);
    ViewsListed(inventory', two);
    assert Interfaces(intent) == Interfaces(intent') && Holds(intent) == Holds(intent');
    assert Views(inventory) == Views(inventory');
    ResolutionUnique(Interfaces(intent), Holds(intent), Views(inventory), sources, sources');
  }

  lemma SameElements<T>(a: seq<T>, b: seq<T>)
    requires multiset(a) == multiset(b)
    ensures forall x :: x in a <==> x in b
  {
    forall x
      ensures x in a <==> x in b
    {
      assert x in a <==> x in multiset(a);
      assert x in b <==> x in multiset(b);
    }
  }

  lemma ViewsListed(inventory: seq<Link>, views: seq<View>)
    requires |views| == |inventory| && forall i :: 0 <= i < |views| ==> views[i] == ViewOf(inventory[i])
    ensures forall v :: v in views <==> v in Views(inventory)
  {
    forall v
      ensures v in views <==> v in Views(inventory)
    {
      if v in views { var i :| 0 <= i < |views| && views[i] == v; assert inventory[i] in inventory; }
      if v in Views(inventory) {
        var l :| l in inventory && ViewOf(l) == v;
        var i :| 0 <= i < |inventory| && inventory[i] == l;
        assert views[i] == v;
      }
    }
  }

  /** A table is given only to a source that exactly one link carries, and the name and hardware address of that link
      are those of an owner that gives the source this table. */
  lemma TableMeansOwned(interfaces: set<Interface>, held: set<Held>, views: set<View>, sources: SourceMap, s: Address)
    requires Resolution(interfaces, held, views, sources) && s in sources && sources[s].Some?
    ensures exists v :: v in views && Carriers(views, s) == {v.name} && s in v.addresses
              && (v.name, v.mac) in OwnerKeys(interfaces, held)
              && sources[s].value in OwnTables(interfaces, held, v.name, v.mac, s)
  {
    assert sources[s].value in AllClaims(interfaces, held, views, s);
    var v :| v in views && (v.name, v.mac) in OwnerKeys(interfaces, held) && s in v.addresses
             && sources[s].value in OwnTables(interfaces, held, v.name, v.mac, s);
    assert v.name in Carriers(views, s);
    forall n | n in Carriers(views, s)
      ensures n == v.name
    {
      SingletonElements(Carriers(views, s), n, v.name);
    }
    assert Carriers(views, s) == {v.name};
  }

  // ---------------------------------------------------------------------
  // Holding the sources of removed interfaces

  function Without(intent: Intent, absent: set<string>): Intent {
    Intent(KeepInterfaces(intent.interfaces, absent), KeepHeld(intent.held, absent))
  }

  function KeepInterfaces(rows: seq<Interface>, absent: set<string>): (r: seq<Interface>)
    ensures forall i :: i in r <==> i in rows && i.name !in absent
    ensures (forall i, j :: 0 <= i < j < |rows| ==> rows[i].name != rows[j].name) ==>
      forall i, j :: 0 <= i < j < |r| ==> r[i].name != r[j].name
  {
    if rows == [] then []
    else
      var rest := KeepInterfaces(rows[1..], absent);
      if rows[0].name in absent then rest else [rows[0]] + rest
  }

  function KeepHeld(rows: seq<Held>, absent: set<string>): (r: seq<Held>)
    ensures forall h :: h in r <==> h in rows && h.interface.name !in absent
    ensures (forall i, j :: 0 <= i < j < |rows| ==>
      rows[i].interface.name != rows[j].interface.name || rows[i].address != rows[j].address) ==>
      forall i, j :: 0 <= i < j < |r| ==> r[i].interface.name != r[j].interface.name || r[i].address != r[j].address
  {
    if rows == [] then []
    else
      var rest := KeepHeld(rows[1..], absent);
      if rows[0].interface.name in absent then rest else [rows[0]] + rest
  }

  lemma WithoutParsed(intent: Intent, absent: set<string>)
    requires Parsed(intent)
    ensures Parsed(Without(intent, absent))
  {
  }

  function LinkNames(inventory: seq<Link>): set<string> {
    set l | l in inventory :: l.name
  }

  /** `h` holds an address that its link carries, for the owner of that link, in the table the source has. */
  ghost predicate Proven(intent: Intent, inventory: seq<Link>, names: set<string>, sources: SourceMap, h: Held) {
    && (exists l ::
          l in inventory && l.name in names && l.name == h.interface.name && l.mac == h.interface.mac
          && h.address in Assigned(l.entries))
    && (exists i ::
          i in intent.interfaces && i.name == h.interface.name && i.mac == h.interface.mac
          && i.table == h.interface.table)
    && h.address in sources && sources[h.address] == Some(h.interface.table)
  }

  predicate HoldsAddress(holds: seq<Held>, name: string, mac: string, s: Address) {
    exists h :: h in holds && h.interface.name == name && h.interface.mac == mac && h.address == s
  }

  /** The holds are proven, and no address of a removed link is forgotten. */
  ghost predicate Retains(intent: Intent, inventory: seq<Link>, names: set<string>, sources: SourceMap,
                          holds: seq<Held>) {
    && (forall h :: h in holds ==> Proven(intent, inventory, names, sources, h))
    && (forall l, s :: l in inventory && l.name in names && s in Assigned(l.entries) ==>
        HoldsAddress(holds, l.name, l.mac, s))
  }

  lemma HoldsMore(holds: seq<Held>, more: seq<Held>, name: string, mac: string, s: Address)
    requires HoldsAddress(holds, name, mac, s) || HoldsAddress(more, name, mac, s)
    ensures HoldsAddress(holds + more, name, mac, s)
  {
    if HoldsAddress(holds, name, mac, s) {
      var h :| h in holds && h.interface.name == name && h.interface.mac == mac && h.address == s;
      assert h in holds + more;
    } else {
      var h :| h in more && h.interface.name == name && h.interface.mac == mac && h.address == s;
      assert h in holds + more;
    }
  }

  predicate OwnedBy(l: Link, i: Interface) {
    i.name == l.name && i.mac == l.mac
  }

  /** The link has an owner, and each of its addresses is in the table of that owner. */
  predicate Holdable(intent: Intent, l: Link, sources: SourceMap) {
    exists i :: i in intent.interfaces && OwnedBy(l, i) && InTable(l.entries, sources, i.table)
  }

  predicate InTable(entries: seq<Entry>, sources: SourceMap, table: int) {
    forall s :: s in Assigned(entries) ==> s in sources && sources[s] == Some(table)
  }

  /** The holds of one removed link, refused exactly when they are not proved. */
  method HoldLink(intent: Intent, inventory: seq<Link>, l: Link, names: set<string>, sources: SourceMap)
    returns (r: Result<seq<Held>, Error>)
    requires Parsed(intent) && l in inventory && l.name in names
    ensures r.Success? <==> Holdable(intent, l, sources)
    ensures r.Success? ==> forall h :: h in r.value ==> Proven(intent, inventory, names, sources, h)
    ensures r.Success? ==> forall s :: s in Assigned(l.entries) ==> HoldsAddress(r.value, l.name, l.mac, s)
  {
    if !exists i :: i in intent.interfaces && OwnedBy(l, i) { return Failure(UnprovenOwnership); }
    var owner :| owner in intent.interfaces && OwnedBy(l, owner);
    OneOwner(intent, l, sources, owner);
    var holds: seq<Held> := [];
    for k := 0 to |l.entries|
      invariant InTable(l.entries[..k], sources, owner.table)
      invariant forall h :: h in holds ==> Proven(intent, inventory, names, sources, h)
      invariant forall s :: s in Assigned(l.entries[..k]) ==> HoldsAddress(holds, l.name, l.mac, s)
    {
      var e := l.entries[k];
      assert l.entries[..k + 1] == l.entries[..k] + [e];
      if e.tentative || e.dadFailed { continue; }
      if e.expired { continue; }
      if e.local.None? || !Usable(e.local.value) { continue; }
      var s := e.local.value;
      assert s in Assigned(l.entries) by { assert e in l.entries; }
      if s !in sources || sources[s] != Some(owner.table) { return Failure(AmbiguousSource); }
      var h := Held(Interface(l.name, owner.mac, owner.table, None), s);
      assert Proven(intent, inventory, names, sources, h);
      assert HoldsAddress([h], l.name, l.mac, s) by { assert h in [h]; }
      forall x | x in Assigned(l.entries[..k + 1]) { HoldsMore(holds, [h], l.name, l.mac, x); }
      holds := holds + [h];
    }
    assert l.entries[..|l.entries|] == l.entries;
    r := Success(holds);
  }

  lemma OneOwner(intent: Intent, l: Link, sources: SourceMap, owner: Interface)
    requires Parsed(intent) && owner in intent.interfaces && OwnedBy(l, owner)
    ensures Holdable(intent, l, sources) <==> InTable(l.entries, sources, owner.table)
  {
    forall i | i in intent.interfaces && OwnedBy(l, i)
      ensures i == owner
    {
      var a :| 0 <= a < |intent.interfaces| && intent.interfaces[a] == i;
      var b :| 0 <= b < |intent.interfaces| && intent.interfaces[b] == owner;
      assert a == b;
    }
  }

  /** Every removed link can be held. */
  predicate AllHoldable(intent: Intent, inventory: seq<Link>, names: set<string>, sources: SourceMap) {
    forall l :: l in inventory && l.name in names ==> Holdable(intent, l, sources)
  }

  /** The holds of all removed links. */
  method HoldLinks(intent: Intent, inventory: seq<Link>, names: set<string>, sources: SourceMap)
    returns (r: Result<seq<Held>, Error>)
    requires Parsed(intent)
    ensures r.Success? <==> AllHoldable(intent, inventory, names, sources)
    ensures r.Success? ==> Retains(intent, inventory, names, sources, r.value)
  {
    var holds: seq<Held> := [];
    for k := 0 to |inventory|
      invariant forall i :: 0 <= i < k && inventory[i].name in names ==> Holdable(intent, inventory[i], sources)
      invariant forall h :: h in holds ==> Proven(intent, inventory, names, sources, h)
      invariant forall i, s :: 0 <= i < k && inventory[i].name in names && s in Assigned(inventory[i].entries) ==>
        HoldsAddress(holds, inventory[i].name, inventory[i].mac, s)
    {
      var l := inventory[k];
      if l.name !in names { continue; }
      var held := HoldLink(intent, inventory, l, names, sources);
      if held.Failure? { return Failure(held.error); }
      forall i, s | 0 <= i <= k && inventory[i].name in names && s in Assigned(inventory[i].entries)
        ensures HoldsAddress(holds + held.value, inventory[i].name, inventory[i].mac, s)
      {
        HoldsMore(holds, held.value, inventory[i].name, inventory[i].mac, s);
      }
      holds := holds + held.value;
    }
    r := Success(holds);
  }

  /** The resolution without the links already gone. */
  ghost predicate ResolvedWithout(intent: Intent, inventory: seq<Link>, names: set<string>, sources: SourceMap) {
    var effective := Without(intent, names - LinkNames(inventory));
    Resolution(Interfaces(effective), Holds(effective), Views(inventory), sources)
  }

  /** The inventory is admitted and complete, no source is quarantined, and every address of every removed link that is
      not guard-only is proved to be its owner's. */
  ghost predicate Removable(intent: Intent, inventory: seq<Link>, names: set<string>, guardOnly: set<string>) {
    var effective := Without(intent, names - LinkNames(inventory));
    && |names| <= 256 && guardOnly <= names && Admitted(inventory)
    && !Incomplete(Interfaces(effective), Holds(effective), Views(inventory))
    && exists sources :: ResolvedWithout(intent, inventory, names, sources) && NoneQuarantined(sources)
                         && AllHoldable(intent, inventory, names - guardOnly, sources)
  }

  predicate NoneQuarantined(sources: SourceMap) {
    forall s :: s in sources ==> sources[s].Some?
  }

  /** The rows of the intent that stay: all but those of removed names that no link has any more. */
  ghost predicate Stays(inventory: seq<Link>, names: set<string>, name: string) {
    name in names ==> exists l :: l in inventory && l.name == name
  }

  ghost function StayingInterfaces(intent: Intent, inventory: seq<Link>, names: set<string>): set<Interface> {
    set i | i in intent.interfaces && Stays(inventory, names, i.name)
  }

  ghost function StayingHolds(intent: Intent, inventory: seq<Link>, names: set<string>): set<Held> {
    set h | h in intent.held && Stays(inventory, names, h.interface.name)
  }

  /** The owner of the link is known, and all its addresses are in the table of that owner alone. */
  ghost predicate Owned(intent: Intent, interfaces: set<Interface>, held: set<Held>, inventory: seq<Link>, l: Link) {
    exists i :: i in intent.interfaces && i.name == l.name && i.mac == l.mac
      && forall s :: Has(l, s) ==> Sole(interfaces, held, inventory, s, i.table)
  }

  /** No link of the rows that stay is missing, every address given a table is given one by one link, and every removed
      link that is not guard-only has an owner with all its addresses. */
  ghost predicate Ownership(intent: Intent, interfaces: set<Interface>, held: set<Held>, inventory: seq<Link>,
                            names: set<string>) {
    && (forall i :: i in interfaces ==> !Missing(inventory, i.name, i.mac))
    && (forall h :: h in held ==> !Missing(inventory, h.interface.name, h.interface.mac))
    && (forall s, t :: Claimed(interfaces, held, inventory, s, t) ==> Sole(interfaces, held, inventory, s, t))
    && (forall l :: l in inventory && l.name in names ==> Owned(intent, interfaces, held, inventory, l))
  }

  /** The holds are those of the addresses of the removed links, each in the table of its owner. */
  ghost predicate HoldsExactly(intent: Intent, inventory: seq<Link>, names: set<string>, holds: seq<Held>) {
    && (forall h :: h in holds ==>
          exists l, i ::
            && l in inventory && l.name in names && HoldsFor(h, l, h.address) && Has(l, h.address)
            && i in intent.interfaces && OwnedBy(l, i) && i.table == h.interface.table)
    && (forall l, s :: l in inventory && l.name in names && Has(l, s) ==>
          exists h :: h in holds && HoldsFor(h, l, s))
  }

  lemma StayingIs(intent: Intent, inventory: seq<Link>, names: set<string>)
    ensures var effective := Without(intent, names - LinkNames(inventory));
      && Interfaces(effective) == StayingInterfaces(intent, inventory, names)
      && Holds(effective) == StayingHolds(intent, inventory, names)
  {
    forall n: string
      ensures Stays(inventory, names, n) <==> n !in names - LinkNames(inventory)
    {
    }
  }

  lemma InTableMeans(interfaces: set<Interface>, held: set<Held>, inventory: seq<Link>, sources: SourceMap, l: Link,
                     t: int)
    requires Means(interfaces, held, inventory, sources)
    ensures InTable(l.entries, sources, t) <==> forall s :: Has(l, s) ==> Sole(interfaces, held, inventory, s, t)
  {
    forall s
      ensures Has(l, s) <==> s in Assigned(l.entries)
      ensures s in sources && sources[s] == Some(t) <==> Sole(interfaces, held, inventory, s, t)
    {
      HasIsAssigned(l, s);
    }
  }

  lemma QuarantineMeans(interfaces: set<Interface>, held: set<Held>, inventory: seq<Link>, sources: SourceMap)
    requires Means(interfaces, held, inventory, sources)
    ensures NoneQuarantined(sources) <==> forall s, t :: Claimed(interfaces, held, inventory, s, t) ==>
      Sole(interfaces, held, inventory, s, t)
  {
    if NoneQuarantined(sources) {
      forall s, t | Claimed(interfaces, held, inventory, s, t)
        ensures Sole(interfaces, held, inventory, s, t)
      {
        assert Sole(interfaces, held, inventory, s, sources[s].value);
      }
    }
  }

  lemma HoldableMeans(intent: Intent, interfaces: set<Interface>, held: set<Held>, inventory: seq<Link>,
                      sources: SourceMap, l: Link)
    requires Means(interfaces, held, inventory, sources)
    ensures Holdable(intent, l, sources) <==> Owned(intent, interfaces, held, inventory, l)
  {
    forall t: int { InTableMeans(interfaces, held, inventory, sources, l, t); }
  }

  lemma OwnershipMeans(intent: Intent, interfaces: set<Interface>, held: set<Held>, inventory: seq<Link>,
                       names: set<string>, sources: SourceMap)
    requires Resolution(interfaces, held, Views(inventory), sources)
    ensures Ownership(intent, interfaces, held, inventory, names) <==>
      && !Incomplete(interfaces, held, Views(inventory)) && NoneQuarantined(sources)
      && AllHoldable(intent, inventory, names, sources)
  {
    ResolutionMeans(interfaces, held, inventory, sources);
    IncompleteMeans(interfaces, held, inventory);
    QuarantineMeans(interfaces, held, inventory, sources);
    forall l: Link { HoldableMeans(intent, interfaces, held, inventory, sources, l); }
  }

  /** When a removal is accepted, in terms of the links and the rows of the intent. */
  lemma RemovalMeans(intent: Intent, inventory: seq<Link>, names: set<string>, guardOnly: set<string>,
                     sources: SourceMap)
    requires ResolvedWithout(intent, inventory, names, sources)
    ensures Removable(intent, inventory, names, guardOnly) <==>
      && |names| <= 256 && guardOnly <= names && Admitted(inventory)
      && Ownership(intent, StayingInterfaces(intent, inventory, names), StayingHolds(intent, inventory, names),
                   inventory, names - guardOnly)
  {
    RemovableIs(intent, inventory, names, guardOnly, sources);
    StayingIs(intent, inventory, names);
    OwnershipMeans(intent, StayingInterfaces(intent, inventory, names), StayingHolds(intent, inventory, names),
                   inventory, names - guardOnly, sources);
  }

  lemma RetainsMeans(intent: Intent, inventory: seq<Link>, names: set<string>, sources: SourceMap, holds: seq<Held>)
    requires Retains(intent, inventory, names, sources, holds)
    ensures HoldsExactly(intent, inventory, names, holds)
  {
    forall l: Link, s: Address { HasIsAssigned(l, s); }
    forall h | h in holds
      ensures exists l, i ::
        && l in inventory && l.name in names && HoldsFor(h, l, h.address) && Has(l, h.address)
        && i in intent.interfaces && OwnedBy(l, i) && i.table == h.interface.table
    {
      assert Proven(intent, inventory, names, sources, h);
      var i :| i in intent.interfaces && i.name == h.interface.name && i.mac == h.interface.mac
        && i.table == h.interface.table;
      var l :| l in inventory && l.name in names && l.name == h.interface.name && l.mac == h.interface.mac
        && h.address in Assigned(l.entries);
      assert OwnedBy(l, i);
    }
    forall l, s | l in inventory && l.name in names && Has(l, s)
      ensures exists h :: h in holds && HoldsFor(h, l, s)
    {
      assert HoldsAddress(holds, l.name, l.mac, s);
    }
  }

  /** The holds for removed interfaces: one for every address of every removed link that is not guard-only, refused
      exactly when they are not proved. */
  method RemovedHolds(intent: Intent, inventory: seq<Link>, names: set<string>, guardOnly: set<string>)
    returns (r: Result<seq<Held>, Error>)
    requires Parsed(intent)
    ensures r.Success? <==> Removable(intent, inventory, names, guardOnly)
    ensures r.Success? ==>
      exists sources :: ResolvedWithout(intent, inventory, names, sources)
        && Retains(intent, inventory, names - guardOnly, sources, r.value)
    ensures r.Success? <==>
      && |names| <= 256 && guardOnly <= names && Admitted(inventory)
      && Ownership(intent, StayingInterfaces(intent, inventory, names), StayingHolds(intent, inventory, names),
                   inventory, names - guardOnly)
    ensures r.Success? ==> HoldsExactly(intent, inventory, names - guardOnly, r.value)
  {
    if |names| > 256 || !(guardOnly <= names) { return Failure(UnprovenOwnership); }
    var absent := names - LinkNames(inventory);
    var effective := Without(intent, absent);
    WithoutParsed(intent, absent);
    var tables := SourceTablesOf(effective, inventory);
    if tables.Failure? { return Failure(tables.error); }
    var sources := tables.value.0;
    RemovableIs(intent, inventory, names, guardOnly, sources);
    RemovalMeans(intent, inventory, names, guardOnly, sources);
    if tables.value.1 || !NoneQuarantined(sources) { return Failure(IdentityUnavailable); }
    r := HoldLinks(intent, inventory, names - guardOnly, sources);
    if r.Success? { RetainsMeans(intent, inventory, names - guardOnly, sources, r.value); }
  }

  lemma RemovableIs(intent: Intent, inventory: seq<Link>, names: set<string>, guardOnly: set<string>,
                    sources: SourceMap)
    requires ResolvedWithout(intent, inventory, names, sources)
    ensures Removable(intent, inventory, names, guardOnly) <==>
      var effective := Without(intent, names - LinkNames(inventory));
      && |names| <= 256 && guardOnly <= names && Admitted(inventory)
      && !Incomplete(Interfaces(effective), Holds(effective), Views(inventory))
      && NoneQuarantined(sources) && AllHoldable(intent, inventory, names - guardOnly, sources)
  {
    OneResolution(intent, inventory, names, sources);
  }

  lemma OneResolution(intent: Intent, inventory: seq<Link>, names: set<string>, sources: SourceMap)
    requires ResolvedWithout(intent, inventory, names, sources)
    ensures forall other :: ResolvedWithout(intent, inventory, names, other) ==> other == sources
  {
    var effective := Without(intent, names - LinkNames(inventory));
    forall other | ResolvedWithout(intent, inventory, names, other)
      ensures other == sources
    {
      ResolutionUnique(Interfaces(effective), Holds(effective), Views(inventory), other, sources);
    }
  }

  /** Only one link carries a proven held address. */
  lemma HeldCarrier(intent: Intent, inventory: seq<Link>, names: set<string>, sources: SourceMap, effective: Intent,
                    h: Held, v: View)
    requires Admitted(inventory) && Resolution(Interfaces(effective), Holds(effective), Views(inventory), sources)
    requires Proven(intent, inventory, names, sources, h) && v in Views(inventory) && h.address in v.addresses
    ensures v.name == h.interface.name && v.mac == h.interface.mac && v.name in names
    ensures |Carriers(Views(inventory), h.address)| == 1
  {
    var views, s := Views(inventory), h.address;
    var l :| l in inventory && l.name in names && l.name == h.interface.name && l.mac == h.interface.mac
      && s in Assigned(l.entries);
    assert ViewOf(l) in views;
    assert l.name in Carriers(views, s) && v.name in Carriers(views, s);
    assert Resolved(Interfaces(effective), Holds(effective), views, s, sources[s]);
    SingletonElements(Carriers(views, s), l.name, v.name);
    var k :| k in inventory && ViewOf(k) == v;
    var a :| 0 <= a < |inventory| && inventory[a] == l;
    var b :| 0 <= b < |inventory| && inventory[b] == k;
    assert a == b;
  }

  /** Replacing removed interfaces by their holds changes no table: whatever the rest of the new intent says, every
      held source resolves as before. */
  lemma HoldsKeepTables(intent: Intent, inventory: seq<Link>, names: set<string>, sources: SourceMap, holds: seq<Held>,
                        intent': Intent, sources': SourceMap, h: Held)
    requires var effective := Without(intent, names - LinkNames(inventory));
             Admitted(inventory) && Resolution(Interfaces(effective), Holds(effective), Views(inventory), sources)
    requires Retains(intent, inventory, names, sources, holds) && h in holds
    requires forall g :: g in intent'.held && g.interface.name in names ==> g in holds
    requires forall g :: g in holds ==> g in intent'.held
    requires Resolution(Interfaces(intent'), Holds(intent'), Views(inventory), sources')
    ensures h.address in sources && h.address in sources' && sources'[h.address] == sources[h.address]
  {
    assert Proven(intent, inventory, names, sources, h);
    HeldClaim(intent, inventory, names, sources, holds, Without(intent, names - LinkNames(inventory)), intent', h);
    SingleClaim(Interfaces(intent'), Holds(intent'), Views(inventory), sources', h.address, h.interface.table);
  }

  lemma SingleClaim(interfaces: set<Interface>, held: set<Held>, views: set<View>, sources: SourceMap, s: Address,
                    t: int)
    requires Resolution(interfaces, held, views, sources)
    requires AllClaims(interfaces, held, views, s) == {t} && |Carriers(views, s)| == 1
    ensures s in sources && sources[s] == Some(t)
  {
  }

  /** The hold is the only claim for its address, and one link carries it. */
  lemma HeldClaim(intent: Intent, inventory: seq<Link>, names: set<string>, sources: SourceMap, holds: seq<Held>,
                  effective: Intent, intent': Intent, h: Held)
    requires Admitted(inventory) && Resolution(Interfaces(effective), Holds(effective), Views(inventory), sources)
    requires Retains(intent, inventory, names, sources, holds) && h in holds
      && Proven(intent, inventory, names, sources, h)
    requires forall g :: g in intent'.held && g.interface.name in names ==> g in holds
    requires forall g :: g in holds ==> g in intent'.held
    ensures AllClaims(Interfaces(intent'), Holds(intent'), Views(inventory), h.address) == {h.interface.table}
    ensures |Carriers(Views(inventory), h.address)| == 1
  {
    var l :| l in inventory && l.name in names && l.name == h.interface.name && l.mac == h.interface.mac
      && h.address in Assigned(l.entries);
    assert ViewOf(l) in Views(inventory);
    HeldTablesSame(names, sources, holds, intent', h) by {
      assert forall g :: g in holds ==> Proven(intent, inventory, names, sources, g);
    }
    OnlyClaim(intent', Views(inventory), ViewOf(l), h) by {
      forall v | v in Views(inventory) && h.address in v.addresses {
        HeldCarrier(intent, inventory, names, sources, effective, h, v);
      }
    }
    HeldCarrier(intent, inventory, names, sources, effective, h, ViewOf(l));
  }

  /** If every link that carries a held address is its own, the hold is the only claim. */
  lemma OnlyClaim(intent: Intent, views: set<View>, v: View, h: Held)
    requires v in views && h.address in v.addresses && h in intent.held
    requires forall w :: w in views && h.address in w.addresses ==>
      w.name == h.interface.name && w.mac == h.interface.mac
    requires HeldTables(Holds(intent), h.interface.name, h.interface.mac, h.address) == {h.interface.table}
    ensures AllClaims(Interfaces(intent), Holds(intent), views, h.address) == {h.interface.table}
  {
    assert h in Holds(intent);
    assert (v.name, v.mac) in OwnerKeys(Interfaces(intent), Holds(intent));
    assert h.interface.table in OwnTables(Interfaces(intent), Holds(intent), v.name, v.mac, h.address);
  }

  lemma HeldTablesSame(names: set<string>, sources: SourceMap, holds: seq<Held>, intent': Intent, h: Held)
    requires h in holds && h.interface.name in names
    requires forall g :: g in holds ==> g.address in sources && sources[g.address] == Some(g.interface.table)
    requires forall g :: g in intent'.held && g.interface.name in names ==> g in holds
    requires forall g :: g in holds ==> g in intent'.held
    ensures HeldTables(Holds(intent'), h.interface.name, h.interface.mac, h.address) == {h.interface.table}
  {
    assert h in Holds(intent');
    forall t | t in HeldTables(Holds(intent'), h.interface.name, h.interface.mac, h.address)
      ensures t == h.interface.table
    {
      var g :|
        g in Holds(intent') && g.interface.name == h.interface.name && g.address == h.address && t == g.interface.table;
      assert g in intent'.held;
    }
  }

  /** What is resolved is fit for planning: usable sources, known tables. */
  lemma ResolutionIsValid(intent: Intent, inventory: seq<Link>, sources: SourceMap)
    requires Resolution(Interfaces(intent), Holds(intent), Views(inventory), sources)
    requires forall i :: i in intent.interfaces ==> KnownTable(i.table)
    requires forall h :: h in intent.held ==> KnownTable(h.interface.table)
    ensures ValidSources(sources)
  {
    var interfaces, held, views := Interfaces(intent), Holds(intent), Views(inventory);
    forall s | s in sources
      ensures Usable(s) && (sources[s].Some? ==> KnownTable(sources[s].value))
    {
      var t := if sources[s].Some? then sources[s].value else (var t :| t in AllClaims(interfaces, held, views, s); t);
      assert Resolved(interfaces, held, views, s, sources[s]);
      var v :| v in views && (v.name, v.mac) in OwnerKeys(interfaces, held) && s in v.addresses
        && t in OwnTables(interfaces, held, v.name, v.mac, s);
      var l :| l in inventory && ViewOf(l) == v;
      if HeldTables(held, v.name, v.mac, s) != {} {
        var h :| h in held && h.interface.table == t;
      } else {
        var i :| i in interfaces && i.table == t;
      }
    }
  }
}
