/** What a migration decides before its first command: which selectors it admits, which addresses they cover, and the
    table of each. */
module MigrationChoice {
  import opened Wrappers
  import opened Addresses
  import opened PolicyRules
  import opened Allocation
  import Seeding
  import SourceTables

  // ---------------------------------------------------------------------
  // Legacy selectors

  /** Priorities 1000-1099 name table 100, priorities 2000-2099 table 200. */
  function ExpectedTable(priority: int): Option<int> {
    if 1000 <= priority < 1100 then Some(100) else if 2000 <= priority < 2100 then Some(200) else None
  }

  predicate ValidSelector(x: Selector) {
    && ExpectedTable(x.priority) == Some(x.table)
    && x.protocol in {0, 2, 3, 4}
    && (x.network.first > 0 || x.network.last < Everything(x.network.family).last)
  }

  predicate AdmittedSelectors(selectors: seq<Selector>) {
    && (forall i :: 0 <= i < |selectors| ==> ValidSelector(selectors[i]))
    && (forall i, j :: 0 <= i < j < |selectors| ==>
          selectors[i].network.family != selectors[j].network.family || selectors[i].priority != selectors[j].priority)
  }

  /** The tables that the selectors covering an address name. */
  function MatchTables(selectors: seq<Selector>, a: Address): set<int> {
    set i | 0 <= i < |selectors| && Inside(a, selectors[i].network) :: selectors[i].table
  }

  const MAX_SELECTORS := 400

  /** Admits the journaled selectors exactly when each is valid and no priority occurs twice in a family. */
  method AdmitSelectors(rows: seq<Selector>) returns (ok: bool)
    ensures ok <==> |rows| <= MAX_SELECTORS && AdmittedSelectors(rows)
    ensures ok <==>
      && |rows| <= 400
      && (forall x :: x in rows ==>
            && ((1000 <= x.priority <= 1099 && x.table == 100) || (2000 <= x.priority <= 2099 && x.table == 200))
            && x.protocol in {0, 2, 3, 4}
            && (x.network.first > 0 || x.network.last < Everything(x.network.family).last))
      && (forall i, j :: 0 <= i < j < |rows| && rows[i].priority == rows[j].priority ==>
            rows[i].network.family != rows[j].network.family)
  {
    if |rows| > MAX_SELECTORS { return false; }
    var seen: set<(Family, int)> := {};
    for i := 0 to |rows|
      invariant forall k :: 0 <= k < i ==> ValidSelector(rows[k]) && (rows[k].network.family, rows[k].priority) in seen
      invariant forall p :: p in seen ==> exists k :: 0 <= k < i && (rows[k].network.family, rows[k].priority) == p
      invariant AdmittedSelectors(rows[..i])
    {
      var x := rows[i];
      if ExpectedTable(x.priority) != Some(x.table) || x.protocol !in {0, 2, 3, 4} { return false; }
      if (x.network.family, x.priority) in seen { return false; }
      if !(x.network.first > 0 || x.network.last < Everything(x.network.family).last) { return false; }
      seen := seen + {(x.network.family, x.priority)};
      assert rows[..i + 1] == rows[..i] + [x];
    }
    assert rows[..|rows|] == rows;
    ok := true;
  }

  // ---------------------------------------------------------------------
  // The live addresses of an inventory

  type Bindings = map<string, SourceTables.Interface>

  /** The binding of the link that carries an address. */
  datatype Binding = Unbound | Replaced | Bound(table: int)

  datatype LiveAddress = LiveAddress(address: Address, binding: Binding)

  /** An assigned address of global scope. */
  predicate Live(e: SourceTables.Entry) {
    e.global && !e.expired && !e.tentative && !e.dadFailed
  }

  /** What is bound to the name of a link, and whether the link still is the one that was bound. */
  function BindingOf(bindings: Bindings, l: SourceTables.Link): Binding {
    if l.name !in bindings then Unbound
    else if bindings[l.name].mac != l.mac then Replaced
    else Bound(bindings[l.name].table)
  }

  function LiveEntries(entries: seq<SourceTables.Entry>, binding: Binding): seq<LiveAddress> {
    if entries == [] then []
    else
      var n := |entries| - 1;
      LiveEntries(entries[..n], binding)
      + if Live(entries[n]) && entries[n].local.Some? then [LiveAddress(entries[n].local.value, binding)] else []
  }

  /** The live addresses of all links, each as often as it is assigned. */
  function LiveOf(inventory: seq<SourceTables.Link>, bindings: Bindings): seq<LiveAddress> {
    if inventory == [] then []
    else
      var n := |inventory| - 1;
      LiveOf(inventory[..n], bindings) + LiveEntries(inventory[n].entries, BindingOf(bindings, inventory[n]))
  }

  predicate Parses(entries: seq<SourceTables.Entry>) {
    forall i :: 0 <= i < |entries| && Live(entries[i]) ==> entries[i].local.Some?
  }

  /** No link twice, within the limits, and every live address can be read. */
  predicate Surveyable(inventory: seq<SourceTables.Link>) {
    SourceTables.Admitted(inventory) && forall i :: 0 <= i < |inventory| ==> Parses(inventory[i].entries)
  }

  method SurveyLink(entries: seq<SourceTables.Entry>, binding: Binding) returns (r: Option<seq<LiveAddress>>)
    ensures r.Some? <==> Parses(entries)
    ensures r.Some? ==> r.value == LiveEntries(entries, binding)
  {
    var live: seq<LiveAddress> := [];
    for i := 0 to |entries|
      invariant live == LiveEntries(entries[..i], binding) && Parses(entries[..i])
    {
      var e := entries[i];
      assert entries[..i + 1][..i] == entries[..i] && entries[..i + 1][i] == e;
      if e.expired || !e.global || e.tentative || e.dadFailed { continue; }
      if e.local.None? { return None; }
      live := live + [LiveAddress(e.local.value, binding)];
    }
    assert entries[..|entries|] == entries;
    r := Some(live);
  }

  /** One more link is surveyable with the earlier ones exactly if its name is new, it is within the limit and its live
      addresses can be read. */
  lemma SurveyableNext(inventory: seq<SourceTables.Link>, i: nat, seen: set<string>)
    requires i < |inventory| <= SourceTables.MAX_LINKS && Surveyable(inventory[..i])
    requires forall name :: name in seen <==> exists k :: 0 <= k < i && inventory[k].name == name
    ensures Surveyable(inventory[..i + 1]) <==>
      && inventory[i].name !in seen
      && |inventory[i].entries| <= SourceTables.MAX_LINKS
      && Parses(inventory[i].entries)
  {
    var before, after := inventory[..i], inventory[..i + 1];
    assert after == before + [inventory[i]];
    assert after[i] == inventory[i];
    assert forall k :: 0 <= k < i ==> after[k] == before[k] == inventory[k];
  }

  lemma UnsurveyablePrefix(inventory: seq<SourceTables.Link>, i: nat)
    requires i <= |inventory| && !Surveyable(inventory[..i])
    ensures !Surveyable(inventory)
  {
    assert forall k :: 0 <= k < i ==> inventory[..i][k] == inventory[k];
  }

  lemma LiveOfNext(inventory: seq<SourceTables.Link>, i: nat, bindings: Bindings)
    requires i < |inventory|
    ensures LiveOf(inventory[..i + 1], bindings) ==
      LiveOf(inventory[..i], bindings) + LiveEntries(inventory[i].entries, BindingOf(bindings, inventory[i]))
  {
    assert inventory[..i + 1][..i] == inventory[..i];
  }

  /** Walks the links and their addresses. */
  method Survey(inventory: seq<SourceTables.Link>, bindings: Bindings) returns (r: Option<seq<LiveAddress>>)
    ensures r.Some? <==> Surveyable(inventory)
    ensures r.Some? ==> r.value == LiveOf(inventory, bindings)
  {
    if |inventory| > SourceTables.MAX_LINKS { return None; }
    var live: seq<LiveAddress> := [];
    var seen: set<string> := {};
    for i := 0 to |inventory|
      invariant live == LiveOf(inventory[..i], bindings) && Surveyable(inventory[..i])
      invariant forall name :: name in seen <==> exists k :: 0 <= k < i && inventory[k].name == name
    {
      var l := inventory[i];
      SurveyableNext(inventory, i, seen);
      if l.name in seen || |l.entries| > SourceTables.MAX_LINKS {
        UnsurveyablePrefix(inventory, i + 1);
        return None;
      }
      seen := seen + {l.name};
      var found := SurveyLink(l.entries, BindingOf(bindings, l));
      if found.None? {
        UnsurveyablePrefix(inventory, i + 1);
        return None;
      }
      LiveOfNext(inventory, i, bindings);
      live := live + found.value;
    }
    assert inventory[..|inventory|] == inventory;
    r := Some(live);
  }

  /** Every live address is one of a link, with the binding of that link. */
  lemma {:induction false} LiveIsCarried(inventory: seq<SourceTables.Link>, bindings: Bindings, x: LiveAddress)
    requires x in LiveOf(inventory, bindings)
    ensures exists l, e :: l in inventory && e in l.entries && Live(e) && e.local == Some(x.address)
              && x.binding == BindingOf(bindings, l)
  {
    var n := |inventory| - 1;
    var l := inventory[n];
    if x in LiveEntries(l.entries, BindingOf(bindings, l)) {
      EntryIsCarried(l.entries, BindingOf(bindings, l), x);
    } else {
      LiveIsCarried(inventory[..n], bindings, x);
    }
  }

  lemma {:induction false} EntryIsCarried(entries: seq<SourceTables.Entry>, binding: Binding, x: LiveAddress)
    requires x in LiveEntries(entries, binding)
    ensures x.binding == binding && exists e :: e in entries && Live(e) && e.local == Some(x.address)
  {
    var n := |entries| - 1;
    if Live(entries[n]) && entries[n].local == Some(x.address) && x.binding == binding {
      assert entries[n] in entries;
    } else {
      EntryIsCarried(entries[..n], binding, x);
    }
  }

  /** And every live address of a link is found. */
  lemma {:induction false} CarriedIsLive(inventory: seq<SourceTables.Link>, bindings: Bindings, i: nat, j: nat)
    requires i < |inventory| && j < |inventory[i].entries|
    requires Live(inventory[i].entries[j]) && inventory[i].entries[j].local.Some?
    ensures LiveAddress(inventory[i].entries[j].local.value, BindingOf(bindings, inventory[i])) in
      LiveOf(inventory, bindings)
    decreases |inventory|
  {
    var n := |inventory| - 1;
    if i == n {
      EntryIsLive(inventory[i].entries, BindingOf(bindings, inventory[i]), j);
    } else {
      CarriedIsLive(inventory[..n], bindings, i, j);
    }
  }

  lemma {:induction false} EntryIsLive(entries: seq<SourceTables.Entry>, binding: Binding, j: nat)
    requires j < |entries| && Live(entries[j]) && entries[j].local.Some?
    ensures LiveAddress(entries[j].local.value, binding) in LiveEntries(entries, binding)
    decreases |entries|
  {
    if j == |entries| - 1 {
    } else {
      EntryIsLive(entries[..|entries| - 1], binding, j);
    }
  }

  // ---------------------------------------------------------------------
  // Choosing a table for every live address

  datatype Conflict = UnusableAddress | AmbiguousOwnership | IdentityChanged | AmbiguousDomain
                    | DomainConflict | CanonicalConflict | WatcherActive

  /** The table for one address: the rule in place, else the binding, else the only match. */
  function Preferred(tables: SourceMap, x: LiveAddress, matches: set<int>): Option<int> {
    if x.address in tables && tables[x.address].Some? then tables[x.address]
    else if x.binding.Bound? then Some(x.binding.table)
    else if matches == {100} then Some(100)
    else if matches == {200} then Some(200)
    else None
  }

  ghost predicate Chosen(chosen: map<Address, int>, selectors: seq<Selector>, live: seq<LiveAddress>, active: bool,
                         tables: SourceMap) {
    && (forall s :: s in chosen ==> Usable(s) && chosen[s] in MatchTables(selectors, s))
    && (forall s :: s in chosen && s in tables ==> tables[s] == Some(chosen[s]))
    && (active ==> forall s :: s in chosen ==> s in tables)
    && (forall i :: 0 <= i < |live| && MatchTables(selectors, live[i].address) != {} ==>
          && live[i].address in chosen
          && Preferred(tables, live[i], MatchTables(selectors, live[i].address)) == Some(chosen[live[i].address]))
  }

  /** The address is not covered, or its table is proved: the link is the one bound, the preferred table is one of those
      matched, no rule in place disagrees, and an active watcher already knows it. */
  predicate Provable(selectors: seq<Selector>, x: LiveAddress, active: bool, tables: SourceMap) {
    var matches := MatchTables(selectors, x.address);
    var table := Preferred(tables, x, matches);
    && Usable(x.address)
    && (matches != {} ==>
          && !x.binding.Replaced? && table.Some? && table.value in matches
          && (x.address in tables ==> tables[x.address] == table) && (active ==> x.address in tables))
  }

  /** Every live address is provable, and no covered one occurs twice. */
  predicate Choosable(selectors: seq<Selector>, live: seq<LiveAddress>, active: bool, tables: SourceMap) {
    && (forall i :: 0 <= i < |live| ==> Provable(selectors, live[i], active, tables))
    && forall i, j :: 0 <= i < j < |live| && live[i].address == live[j].address ==>
        MatchTables(selectors, live[j].address) == {}
  }

  function Covered(selectors: seq<Selector>, live: seq<LiveAddress>): set<Address> {
    set i | 0 <= i < |live| && MatchTables(selectors, live[i].address) != {} :: live[i].address
  }

  /** Walks the live addresses; refuses exactly when one has no proved table or occurs twice. */
  method ChooseTables(selectors: seq<Selector>, live: seq<LiveAddress>, active: bool, tables: SourceMap)
    returns (r: Result<map<Address, int>, Conflict>)
    ensures r.Success? <==> Choosable(selectors, live, active, tables)
    ensures r.Success? ==> Chosen(r.value, selectors, live, active, tables) && r.value.Keys == Covered(selectors, live)
  {
    var chosen: map<Address, int> := map[];
    for i := 0 to |live|
      invariant Chosen(chosen, selectors, live[..i], active, tables) && Choosable(selectors, live[..i], active, tables)
      invariant chosen.Keys == Covered(selectors, live[..i])
    {
      CoveredNext(selectors, live, i);
      ChoosableNext(selectors, live, active, tables, i);
      var table := ChooseTable(selectors, live[i], active, tables, chosen.Keys);
      if table.Failure? { return Failure(table.error); }
      ChosenNext(chosen, selectors, live, active, tables, i);
      if table.value.Some? { chosen := chosen[live[i].address := table.value.value]; }
    }
    assert live[..|live|] == live;
    r := Success(chosen);
  }

  /** The table of one address; none if no selector covers it. */
  method ChooseTable(selectors: seq<Selector>, x: LiveAddress, active: bool, tables: SourceMap, chosen: set<Address>)
    returns (r: Result<Option<int>, Conflict>)
    ensures r.Success? <==>
      && Provable(selectors, x, active, tables) && (MatchTables(selectors, x.address) != {} ==> x.address !in chosen)
    ensures r.Success? ==>
      var matches := MatchTables(selectors, x.address);
      r.value == if matches == {} then None else Preferred(tables, x, matches)
  {
    if !Usable(x.address) { return Failure(UnusableAddress); }
    var matches := MatchTables(selectors, x.address);
    if matches == {} { return Success(None); }
    if x.address in chosen { return Failure(AmbiguousOwnership); }
    if x.binding.Replaced? { return Failure(IdentityChanged); }
    var table := Preferred(tables, x, matches);
    if table.None? { return Failure(AmbiguousDomain); }
    if table.value !in matches { return Failure(DomainConflict); }
    if x.address in tables && tables[x.address] != table { return Failure(CanonicalConflict); }
    if active && x.address !in tables { return Failure(WatcherActive); }
    r := Success(table);
  }

  lemma ChosenNext(chosen: map<Address, int>, selectors: seq<Selector>, live: seq<LiveAddress>, active: bool,
                   tables: SourceMap, i: nat)
    requires i < |live| && Chosen(chosen, selectors, live[..i], active, tables)
    requires chosen.Keys == Covered(selectors, live[..i]) && Provable(selectors, live[i], active, tables)
    requires MatchTables(selectors, live[i].address) != {} ==> live[i].address !in chosen
    ensures var matches := MatchTables(selectors, live[i].address);
      var next :=
        if matches == {} then chosen else chosen[live[i].address := Preferred(tables, live[i], matches).value];
      Chosen(next, selectors, live[..i + 1], active, tables)
  {
    var more, less := live[..i + 1], live[..i];
    assert more[i] == live[i] && forall k :: 0 <= k < i ==> more[k] == less[k];
    forall k | 0 <= k < i && MatchTables(selectors, less[k].address) != {}
      ensures less[k].address in chosen
    {
    }
  }

  lemma CoveredNext(selectors: seq<Selector>, live: seq<LiveAddress>, i: nat)
    requires i < |live|
    ensures live[..i + 1] == live[..i] + [live[i]]
    ensures Covered(selectors, live[..i + 1]) ==
      Covered(selectors, live[..i]) + if MatchTables(selectors, live[i].address) != {} then {live[i].address} else {}
  {
    var more, less := live[..i + 1], live[..i];
    assert forall k :: 0 <= k < i ==> more[k] == less[k];
    forall s
      ensures s in Covered(selectors, more) <==>
        s in Covered(selectors, less) || (MatchTables(selectors, live[i].address) != {} && s == live[i].address)
    {
      if s in Covered(selectors, less) {
        var k :| 0 <= k < i && MatchTables(selectors, less[k].address) != {} && less[k].address == s;
        assert more[k].address == s;
      }
      if MatchTables(selectors, live[i].address) != {} && s == live[i].address { assert more[i].address == s; }
    }
  }

  /** The next address is choosable after the earlier ones exactly if it is provable and no covered one before it is the
      same. */
  lemma ChoosableNext(selectors: seq<Selector>, live: seq<LiveAddress>, active: bool, tables: SourceMap, i: nat)
    requires i < |live|
    ensures Choosable(selectors, live[..i + 1], active, tables) <==>
      && Choosable(selectors, live[..i], active, tables) && Provable(selectors, live[i], active, tables)
      && (MatchTables(selectors, live[i].address) != {} ==> live[i].address !in Covered(selectors, live[..i]))
    ensures Choosable(selectors, live, active, tables) ==> Choosable(selectors, live[..i + 1], active, tables)
  {
    var more, less := live[..i + 1], live[..i];
    assert more[i] == live[i] && forall k :: 0 <= k < i ==> more[k] == less[k];
    if MatchTables(selectors, live[i].address) != {} && live[i].address in Covered(selectors, less) {
      var k :| 0 <= k < i && MatchTables(selectors, less[k].address) != {} && less[k].address == live[i].address;
      assert more[k].address == more[i].address;
    }
    if MatchTables(selectors, live[i].address) != {} && live[i].address !in Covered(selectors, less) {
      forall k | 0 <= k < i
        ensures less[k].address != live[i].address
      {
        assert MatchTables(selectors, less[k].address) != {} ==> less[k].address in Covered(selectors, less);
      }
    }
  }

  // ---------------------------------------------------------------------
  // The rules of the choice, written out over links and their addresses

  predicate Covers(x: Selector, a: Address) {
    x.network.family == a.family && x.network.first <= a.value <= x.network.last
  }

  ghost predicate IsCovered(selectors: seq<Selector>, a: Address) {
    exists x :: x in selectors && Covers(x, a)
  }

  /** A selector that covers the address names the table. */
  ghost predicate Named(selectors: seq<Selector>, a: Address, t: int) {
    exists x :: x in selectors && Covers(x, a) && x.table == t
  }

  predicate Shown(e: SourceTables.Entry) {
    e.global && !e.expired && !e.tentative && !e.dadFailed
  }

  /** The table of an address: that of its lookup in place if it has rules, else that of the binding of its link, else
      the only one that its selectors name; always one that they name. */
  ghost predicate Decided(selectors: seq<Selector>, bindings: Bindings, existing: set<Rule>, name: string, a: Address,
                          t: int) {
    && Named(selectors, a, t)
    && (if exists r :: r in existing && r.source == a
        then exists r :: r in existing && r.source == a && r.table == Some(t)
        else if name in bindings then t == bindings[name].table
        else forall u :: Named(selectors, a, u) ==> u == t)
  }

  /** What must hold of an address on a link: it can be read and is usable, and if a selector covers it, the link still
      is the one that was bound, its table is decided, and an active watcher already has rules for it. */
  ghost predicate Proves(selectors: seq<Selector>, bindings: Bindings, existing: set<Rule>, active: bool,
                         l: SourceTables.Link, e: SourceTables.Entry) {
    && e.local.Some? && Usable(e.local.value)
    && (IsCovered(selectors, e.local.value) ==>
          && (l.name in bindings ==> bindings[l.name].mac == l.mac)
          && (exists t :: Decided(selectors, bindings, existing, l.name, e.local.value, t))
          && (active ==> exists r :: r in existing && r.source == e.local.value))
  }

  /** An address that is shown, by its link and its place there. */
  predicate IsShown(inventory: seq<SourceTables.Link>, i: int, j: int) {
    && 0 <= i < |inventory| && 0 <= j < |inventory[i].entries|
    && Shown(inventory[i].entries[j]) && inventory[i].entries[j].local.Some?
  }

  function AddressAt(inventory: seq<SourceTables.Link>, i: int, j: int): Address
    requires IsShown(inventory, i, j)
  {
    inventory[i].entries[j].local.value
  }

  predicate Repeats(inventory: seq<SourceTables.Link>, i: int, j: int, k: int, m: int) {
    IsShown(inventory, i, j) && IsShown(inventory, k, m) && AddressAt(inventory, i, j) == AddressAt(inventory, k, m)
  }

  /** No covered address is shown twice. */
  ghost predicate ShownOnce(selectors: seq<Selector>, inventory: seq<SourceTables.Link>) {
    forall i, j, k, m :: Repeats(inventory, i, j, k, m) && IsCovered(selectors, AddressAt(inventory, i, j)) ==>
      i == k && j == m
  }

  ghost predicate Acceptable(selectors: seq<Selector>, bindings: Bindings, inventory: seq<SourceTables.Link>,
                             active: bool, existing: set<Rule>) {
    && SourceTables.Admitted(inventory)
    && (forall l, e :: l in inventory && e in l.entries && Shown(e) ==>
          Proves(selectors, bindings, existing, active, l, e))
    && ShownOnce(selectors, inventory)
  }

  // ---------------------------------------------------------------------
  // The survey and the positions

  lemma CoveredIsMatched(selectors: seq<Selector>, a: Address, t: int)
    ensures Named(selectors, a, t) <==> t in MatchTables(selectors, a)
    ensures IsCovered(selectors, a) <==> MatchTables(selectors, a) != {}
  {
    forall x | x in selectors && Covers(x, a)
      ensures x.table in MatchTables(selectors, a)
    {
      var i :| 0 <= i < |selectors| && selectors[i] == x;
      assert Inside(a, selectors[i].network);
    }
    if t in MatchTables(selectors, a) {
      var i :| 0 <= i < |selectors| && Inside(a, selectors[i].network) && selectors[i].table == t;
      assert selectors[i] in selectors && Covers(selectors[i], a);
    }
    if MatchTables(selectors, a) != {} {
      var u :| u in MatchTables(selectors, a);
      var i :| 0 <= i < |selectors| && Inside(a, selectors[i].network) && selectors[i].table == u;
      assert selectors[i] in selectors && Covers(selectors[i], a);
    }
  }

  /** Where the survey has an address. */
  ghost function Index(inventory: seq<SourceTables.Link>, bindings: Bindings, i: int, j: int): nat
    requires 0 <= i < |inventory| && 0 <= j <= |inventory[i].entries|
  {
    |LiveOf(inventory[..i], bindings)| + |LiveEntries(inventory[i].entries[..j], BindingOf(bindings, inventory[i]))|
  }

  lemma {:induction false} EntryAt(entries: seq<SourceTables.Entry>, binding: Binding, j: nat)
    requires j < |entries| && Live(entries[j]) && entries[j].local.Some?
    ensures var p := |LiveEntries(entries[..j], binding)|;
            p < |LiveEntries(entries, binding)|
            && LiveEntries(entries, binding)[p] == LiveAddress(entries[j].local.value, binding)
    decreases |entries|
  {
    var n := |entries| - 1;
    if j == n {
    } else {
      EntryAt(entries[..n], binding, j);
      assert entries[..n][..j] == entries[..j];
    }
  }

  lemma {:induction false} SurveyAt(inventory: seq<SourceTables.Link>, bindings: Bindings, i: nat, j: nat)
    requires IsShown(inventory, i, j)
    ensures Index(inventory, bindings, i, j) < |LiveOf(inventory, bindings)|
    ensures LiveOf(inventory, bindings)[Index(inventory, bindings, i, j)] ==
      LiveAddress(AddressAt(inventory, i, j), BindingOf(bindings, inventory[i]))
    decreases |inventory|
  {
    var n := |inventory| - 1;
    if i == n {
      EntryAt(inventory[n].entries, BindingOf(bindings, inventory[n]), j);
    } else {
      SurveyAt(inventory[..n], bindings, i, j);
      assert inventory[..n][..i] == inventory[..i];
    }
  }

  lemma {:induction false} EntryFound(entries: seq<SourceTables.Entry>, binding: Binding, p: nat) returns (j: nat)
    requires p < |LiveEntries(entries, binding)|
    ensures j < |entries| && Live(entries[j]) && entries[j].local.Some? && |LiveEntries(entries[..j], binding)| == p
    decreases |entries|
  {
    var n := |entries| - 1;
    if p < |LiveEntries(entries[..n], binding)| {
      j := EntryFound(entries[..n], binding, p);
      assert entries[..n][..j] == entries[..j];
    } else {
      j := n;
    }
  }

  lemma {:induction false} SurveyFound(inventory: seq<SourceTables.Link>, bindings: Bindings, p: nat)
    returns (i: nat, j: nat)
    requires p < |LiveOf(inventory, bindings)|
    ensures IsShown(inventory, i, j) && Index(inventory, bindings, i, j) == p
    decreases |inventory|
  {
    var n := |inventory| - 1;
    var before := LiveOf(inventory[..n], bindings);
    if p < |before| {
      i, j := SurveyFound(inventory[..n], bindings, p);
      assert inventory[..n][..i] == inventory[..i];
    } else {
      j := EntryFound(inventory[n].entries, BindingOf(bindings, inventory[n]), p - |before|);
      i := n;
    }
  }

  lemma {:induction false} EntriesGrow(entries: seq<SourceTables.Entry>, binding: Binding, j: nat, m: nat)
    requires j < m <= |entries| && Live(entries[j]) && entries[j].local.Some?
    ensures |LiveEntries(entries[..j], binding)| < |LiveEntries(entries[..m], binding)|
    decreases m
  {
    assert entries[..m][..m - 1] == entries[..m - 1];
    if j < m - 1 { EntriesGrow(entries, binding, j, m - 1); }
  }

  lemma {:induction false} LinksGrow(inventory: seq<SourceTables.Link>, bindings: Bindings, i: nat, k: nat)
    requires i < k <= |inventory|
    ensures |LiveOf(inventory[..i], bindings)| + |LiveEntries(inventory[i].entries, BindingOf(bindings, inventory[i]))|
            <= |LiveOf(inventory[..k], bindings)|
    decreases k
  {
    assert inventory[..k][..k - 1] == inventory[..k - 1];
    if i < k - 1 { LinksGrow(inventory, bindings, i, k - 1); }
  }

  /** Later positions come later in the survey. */
  lemma IndexGrows(inventory: seq<SourceTables.Link>, bindings: Bindings, i: nat, j: nat, k: nat, m: nat)
    requires IsShown(inventory, i, j) && IsShown(inventory, k, m) && (i < k || (i == k && j < m))
    ensures Index(inventory, bindings, i, j) < Index(inventory, bindings, k, m)
  {
    var binding := BindingOf(bindings, inventory[i]);
    if i == k {
      EntriesGrow(inventory[i].entries, binding, j, m);
    } else {
      EntriesGrow(inventory[i].entries, binding, j, |inventory[i].entries|);
      assert inventory[i].entries[..|inventory[i].entries|] == inventory[i].entries;
      LinksGrow(inventory, bindings, i, k);
    }
  }

  // ---------------------------------------------------------------------
  // The choice follows the rules

  /** Two tables at most are named, so that one is the only one exactly if it stands alone. */
  lemma OnlyTable(selectors: seq<Selector>, a: Address, t: int)
    requires AdmittedSelectors(selectors)
    ensures t in MatchTables(selectors, a) && (forall u :: u in MatchTables(selectors, a) ==> u == t) <==>
      (t == 100 || t == 200) && MatchTables(selectors, a) == {t}
  {
    forall u | u in MatchTables(selectors, a)
      ensures u == 100 || u == 200
    {
      var i :| 0 <= i < |selectors| && Inside(a, selectors[i].network) && selectors[i].table == u;
      assert ValidSelector(selectors[i]);
    }
  }

  /** The preferred table, if it is one that is named and no rule in place disagrees, is the one decided. */
  lemma PreferredIsDecided(selectors: seq<Selector>, bindings: Bindings, existing: set<Rule>, l: SourceTables.Link,
                           a: Address, t: int)
    requires AdmittedSelectors(selectors) && Consistent(existing)
    requires l.name in bindings ==> bindings[l.name].mac == l.mac
    ensures Decided(selectors, bindings, existing, l.name, a, t) <==>
      var tables, matches := Seeding.CurrentTables(existing), MatchTables(selectors, a);
      && Preferred(tables, LiveAddress(a, BindingOf(bindings, l)), matches) == Some(t) && t in matches
      && (a in tables ==> tables[a] == Some(t))
  {
    Seeding.TablesInPlace(existing, a, t);
    OnlyTable(selectors, a, t);
    forall u { CoveredIsMatched(selectors, a, u); }
    var tables, matches := Seeding.CurrentTables(existing), MatchTables(selectors, a);
    if a !in tables && l.name !in bindings {
      assert Decided(selectors, bindings, existing, l.name, a, t) <==>
        t in matches && forall u :: u in matches ==> u == t;
    }
  }

  lemma ProvesIsProvable(selectors: seq<Selector>, bindings: Bindings, existing: set<Rule>, active: bool,
                         l: SourceTables.Link, e: SourceTables.Entry)
    requires AdmittedSelectors(selectors) && Consistent(existing) && e.local.Some?
    ensures Proves(selectors, bindings, existing, active, l, e) <==>
      Provable(selectors, LiveAddress(e.local.value, BindingOf(bindings, l)), active, Seeding.CurrentTables(existing))
  {
    var a := e.local.value;
    var tables, matches := Seeding.CurrentTables(existing), MatchTables(selectors, a);
    CoveredIsMatched(selectors, a, 0);
    Seeding.TablesInPlace(existing, a, 0);
    if l.name in bindings ==> bindings[l.name].mac == l.mac {
      forall t { PreferredIsDecided(selectors, bindings, existing, l, a, t); }
      var x := LiveAddress(a, BindingOf(bindings, l));
      assert (exists t :: Decided(selectors, bindings, existing, l.name, a, t)) <==>
        Preferred(tables, x, matches).Some? && Preferred(tables, x, matches).value in matches
        && (a in tables ==> tables[a] == Preferred(tables, x, matches)) by {
        if Preferred(tables, x, matches).Some? {
          PreferredIsDecided(selectors, bindings, existing, l, a, Preferred(tables, x, matches).value);
        }
      }
    }
  }

  lemma AcceptableSurvey(selectors: seq<Selector>, bindings: Bindings, inventory: seq<SourceTables.Link>, active: bool,
                         existing: set<Rule>)
    requires AdmittedSelectors(selectors) && Consistent(existing) && Surveyable(inventory)
    requires Choosable(selectors, LiveOf(inventory, bindings), active, Seeding.CurrentTables(existing))
    ensures Acceptable(selectors, bindings, inventory, active, existing)
  {
    var live := LiveOf(inventory, bindings);
    forall l, e | l in inventory && e in l.entries && Shown(e)
      ensures Proves(selectors, bindings, existing, active, l, e)
    {
      var i :| 0 <= i < |inventory| && inventory[i] == l;
      var j :| 0 <= j < |l.entries| && l.entries[j] == e;
      assert Parses(inventory[i].entries) && Live(e);
      SurveyAt(inventory, bindings, i, j);
      ProvesIsProvable(selectors, bindings, existing, active, l, e);
    }
    forall i, j, k, m | Repeats(inventory, i, j, k, m) && IsCovered(selectors, AddressAt(inventory, i, j))
      ensures i == k && j == m
    {
      SurveyAt(inventory, bindings, i, j);
      SurveyAt(inventory, bindings, k, m);
      CoveredIsMatched(selectors, AddressAt(inventory, i, j), 0);
      if i < k || (i == k && j < m) { IndexGrows(inventory, bindings, i, j, k, m); }
      if k < i || (i == k && m < j) { IndexGrows(inventory, bindings, k, m, i, j); }
    }
  }

  lemma SurveyIsChoosable(selectors: seq<Selector>, bindings: Bindings, inventory: seq<SourceTables.Link>, active: bool,
                          existing: set<Rule>)
    requires AdmittedSelectors(selectors) && Consistent(existing)
    requires Acceptable(selectors, bindings, inventory, active, existing)
    ensures Surveyable(inventory)
    ensures Choosable(selectors, LiveOf(inventory, bindings), active, Seeding.CurrentTables(existing))
  {
    var live, tables := LiveOf(inventory, bindings), Seeding.CurrentTables(existing);
    forall i, j | 0 <= i < |inventory| && 0 <= j < |inventory[i].entries| && Live(inventory[i].entries[j])
      ensures inventory[i].entries[j].local.Some?
    {
      assert inventory[i] in inventory && inventory[i].entries[j] in inventory[i].entries;
      assert Proves(selectors, bindings, existing, active, inventory[i], inventory[i].entries[j]);
    }
    forall p | 0 <= p < |live|
      ensures Provable(selectors, live[p], active, tables)
    {
      var i, j := SurveyFound(inventory, bindings, p);
      SurveyAt(inventory, bindings, i, j);
      assert inventory[i] in inventory && inventory[i].entries[j] in inventory[i].entries;
      ProvesIsProvable(selectors, bindings, existing, active, inventory[i], inventory[i].entries[j]);
    }
    forall p, q | 0 <= p < q < |live| && live[p].address == live[q].address
      ensures MatchTables(selectors, live[q].address) == {}
    {
      var i, j := SurveyFound(inventory, bindings, p);
      SurveyAt(inventory, bindings, i, j);
      var k, m := SurveyFound(inventory, bindings, q);
      SurveyAt(inventory, bindings, k, m);
      CoveredIsMatched(selectors, live[q].address, 0);
      assert Repeats(inventory, i, j, k, m);
    }
  }

  /** What the choice accepts is exactly what the rules accept. */
  lemma ChoiceFollowsRules(selectors: seq<Selector>, bindings: Bindings, inventory: seq<SourceTables.Link>,
                           active: bool, existing: set<Rule>)
    requires AdmittedSelectors(selectors) && Consistent(existing)
    ensures Acceptable(selectors, bindings, inventory, active, existing) <==>
      && Surveyable(inventory)
      && Choosable(selectors, LiveOf(inventory, bindings), active, Seeding.CurrentTables(existing))
  {
    if Acceptable(selectors, bindings, inventory, active, existing) {
      SurveyIsChoosable(selectors, bindings, inventory, active, existing);
    } else if Surveyable(inventory)
      && Choosable(selectors, LiveOf(inventory, bindings), active, Seeding.CurrentTables(existing)) {
      AcceptableSurvey(selectors, bindings, inventory, active, existing);
    }
  }

  /** The addresses shown that a selector covers. */
  ghost function CoveredShown(selectors: seq<Selector>, inventory: seq<SourceTables.Link>): set<Address> {
    set l, e | l in inventory && e in l.entries && Shown(e) && e.local.Some? && IsCovered(selectors, e.local.value) ::
      e.local.value
  }

  lemma CoveredIsShown(selectors: seq<Selector>, bindings: Bindings, inventory: seq<SourceTables.Link>)
    ensures Covered(selectors, LiveOf(inventory, bindings)) == CoveredShown(selectors, inventory)
  {
    var live := LiveOf(inventory, bindings);
    forall a | a in Covered(selectors, live)
      ensures a in CoveredShown(selectors, inventory)
    {
      var p :| 0 <= p < |live| && MatchTables(selectors, live[p].address) != {} && live[p].address == a;
      var i, j := SurveyFound(inventory, bindings, p);
      SurveyAt(inventory, bindings, i, j);
      CoveredIsMatched(selectors, a, 0);
      assert inventory[i] in inventory && inventory[i].entries[j] in inventory[i].entries;
    }
    forall a | a in CoveredShown(selectors, inventory)
      ensures a in Covered(selectors, live)
    {
      var l, e :| l in inventory && e in l.entries && Shown(e) && e.local.Some? && IsCovered(selectors, e.local.value)
                  && e.local.value == a;
      var i :| 0 <= i < |inventory| && inventory[i] == l;
      var j :| 0 <= j < |l.entries| && l.entries[j] == e;
      SurveyAt(inventory, bindings, i, j);
      CoveredIsMatched(selectors, a, 0);
    }
  }

  /** Every covered address gets the table that the rules decide, and no other address gets one. */
  ghost predicate Decides(chosen: map<Address, int>, selectors: seq<Selector>, bindings: Bindings,
                          inventory: seq<SourceTables.Link>, existing: set<Rule>) {
    && chosen.Keys == CoveredShown(selectors, inventory)
    && forall l, e :: l in inventory && e in l.entries && Shown(e) && e.local.Some? && e.local.value in chosen ==>
         && (l.name in bindings ==> bindings[l.name].mac == l.mac)
         && Decided(selectors, bindings, existing, l.name, e.local.value, chosen[e.local.value])
  }

  lemma ChosenIsDecided(chosen: map<Address, int>, selectors: seq<Selector>, bindings: Bindings,
                        inventory: seq<SourceTables.Link>, active: bool, existing: set<Rule>)
    requires AdmittedSelectors(selectors) && Consistent(existing)
    requires Acceptable(selectors, bindings, inventory, active, existing)
    requires Chosen(chosen, selectors, LiveOf(inventory, bindings), active, Seeding.CurrentTables(existing))
    requires chosen.Keys == Covered(selectors, LiveOf(inventory, bindings))
    ensures Decides(chosen, selectors, bindings, inventory, existing)
  {
    CoveredIsShown(selectors, bindings, inventory);
    forall l, e | l in inventory && e in l.entries && Shown(e) && e.local.Some? && e.local.value in chosen
      ensures l.name in bindings ==> bindings[l.name].mac == l.mac
      ensures Decided(selectors, bindings, existing, l.name, e.local.value, chosen[e.local.value])
    {
      DecidedAt(chosen, selectors, bindings, inventory, active, existing, l, e);
    }
  }

  lemma DecidedAt(chosen: map<Address, int>, selectors: seq<Selector>, bindings: Bindings,
                  inventory: seq<SourceTables.Link>, active: bool, existing: set<Rule>, l: SourceTables.Link,
                  e: SourceTables.Entry)
    requires AdmittedSelectors(selectors) && Consistent(existing)
    requires Acceptable(selectors, bindings, inventory, active, existing)
    requires Chosen(chosen, selectors, LiveOf(inventory, bindings), active, Seeding.CurrentTables(existing))
    requires l in inventory && e in l.entries && Shown(e) && e.local.Some? && e.local.value in chosen
    ensures l.name in bindings ==> bindings[l.name].mac == l.mac
    ensures Decided(selectors, bindings, existing, l.name, e.local.value, chosen[e.local.value])
  {
    var a := e.local.value;
    var i :| 0 <= i < |inventory| && inventory[i] == l;
    var j :| 0 <= j < |l.entries| && l.entries[j] == e;
    SurveyAt(inventory, bindings, i, j);
    CoveredIsMatched(selectors, a, chosen[a]);
    assert Proves(selectors, bindings, existing, active, l, e);
    PreferredIsDecided(selectors, bindings, existing, l, a, chosen[a]);
    var live := LiveOf(inventory, bindings);
    assert live[Index(inventory, bindings, i, j)].address == a;
  }
}
