/** Slot allocation: every source gets a stable pair of priorities. */
module Allocation {
  import opened Wrappers
  import opened Addresses
  import opened PolicyRules
  import opened Sets

  const CAPACITY: nat := (PRIORITY_END - PRIORITY_START) / 2

  type Location = (Family, int)

  datatype Refusal = AmbiguousAllocation | CapacityExhausted

  /** Every assigned source with its table, or with none when it is quarantined. */
  type SourceMap = map<Address, Option<int>>

  predicate ValidSources(sources: SourceMap) {
    forall s :: s in sources ==> Usable(s) && (sources[s].Some? ==> KnownTable(sources[s].value))
  }

  function Elements(order: seq<Address>): set<Address> {
    set s | s in order
  }

  /** `order` lists the sources once each. */
  predicate Lists(order: seq<Address>, sources: set<Address>) {
    && (forall i :: 0 <= i < |order| ==> order[i] in sources)
    && (forall s :: s in sources ==> s in order)
    && (forall i, j :: 0 <= i < j < |order| ==> order[i] != order[j])
  }

  function OfFamily(sources: set<Address>, f: Family): set<Address> {
    set s | s in sources && s.family == f
  }

  predicate Fits(sources: set<Address>) {
    |OfFamily(sources, V4)| <= CAPACITY && |OfFamily(sources, V6)| <= CAPACITY
  }

  function Where(r: Rule): Location { (r.Family(), r.Slot()) }

  function Locations(rules: set<Rule>): set<Location> {
    set r | r in rules :: Where(r)
  }

  ghost function SlotOf(rules: set<Rule>, s: Address): int
    requires s in Sources(rules)
  {
    var r :| r in rules && r.source == s; r.Slot()
  }

  ghost function OccupantOf(rules: set<Rule>, p: Location): Address
    requires p in Locations(rules)
  {
    var r :| r in rules && Where(r) == p; r.source
  }

  ghost function SlotMap(rules: set<Rule>): map<Address, int> {
    map s | s in Sources(rules) :: SlotOf(rules, s)
  }

  ghost function Occupants(rules: set<Rule>): map<Location, Address> {
    map p | p in Locations(rules) :: OccupantOf(rules, p)
  }

  /** In an unambiguous set the two maps say of every rule where it is and whose it is. */
  lemma Indexed(rules: set<Rule>, r: Rule)
    requires Unambiguous(rules) && r in rules
    ensures r.source in SlotMap(rules) && SlotMap(rules)[r.source] == r.Slot()
    ensures Where(r) in Occupants(rules) && Occupants(rules)[Where(r)] == r.source
  {
    assert forall q :: q in rules ==> Agree(q, r);
  }

  // ---------------------------------------------------------------------
  // The allocator

  /** The slot that is `step` probes away from the hash of a source. */
  function Probe(start: nat, step: nat): int {
    PRIORITY_START + 2 * ((start + step) % CAPACITY)
  }

  /** The first scan takes a free slot; the second takes one whose occupant is obsolete. */
  predicate Takes(occupied: map<Location, Address>, live: set<Address>, reclaim: bool, f: Family, slot: int) {
    if reclaim then (f, slot) in occupied ==> occupied[(f, slot)] !in live
    else (f, slot) !in occupied
  }

  function Scan(occupied: map<Location, Address>, live: set<Address>, reclaim: bool, f: Family, start: nat,
                step: nat): Option<int>
    requires step <= CAPACITY
    decreases live, CAPACITY - step
  {
    if step == CAPACITY then None
    else if Takes(occupied, live, reclaim, f, Probe(start, step)) then Some(Probe(start, step))
    else Scan(occupied, live, reclaim, f, start, step + 1)
  }

  /** The slot found is the first in probe order that the scan takes; none is found only when it takes none. */
  lemma {:induction false} ScanIsFirst(occupied: map<Location, Address>, live: set<Address>, reclaim: bool, f: Family,
                                       start: nat, step: nat)
    requires step <= CAPACITY
    requires forall j :: 0 <= j < step ==> !Takes(occupied, live, reclaim, f, Probe(start, j))
    ensures match Scan(occupied, live, reclaim, f, start, step)
            case None => forall k :: 0 <= k < CAPACITY ==> !Takes(occupied, live, reclaim, f, Probe(start, k))
            case Some(p) => exists k ::
              0 <= k < CAPACITY && p == Probe(start, k) && Takes(occupied, live, reclaim, f, p)
                              && forall j :: 0 <= j < k ==> !Takes(occupied, live, reclaim, f, Probe(start, j))
    decreases CAPACITY - step
  {
    if step < CAPACITY && !Takes(occupied, live, reclaim, f, Probe(start, step)) {
      ScanIsFirst(occupied, live, reclaim, f, start, step + 1);
    }
  }

  /** A free slot if there is one, otherwise the slot of an obsolete source. */
  function Choose(occupied: map<Location, Address>, live: set<Address>, s: Address, start: nat): Option<int> {
    var free := Scan(occupied, live, false, s.family, start, 0);
    if free.Some? then free else Scan(occupied, live, true, s.family, start, 0)
  }

  datatype Ledger = Ledger(occupied: map<Location, Address>, chosen: map<Address, int>)

  function Place(l: Ledger, slots: map<Address, int>, live: set<Address>, hash: Address -> nat,
                 s: Address): Option<Ledger> {
    if s in slots then Some(l.(chosen := l.chosen[s := slots[s]]))
    else
      match Choose(l.occupied, live, s, hash(s))
      case None => None
      case Some(slot) => Some(Ledger(l.occupied[(s.family, slot) := s], l.chosen[s := slot]))
  }

  /** The ledger once the first k sources have been placed. */
  ghost function Allocate(order: seq<Address>, k: nat, existing: set<Rule>, hash: Address -> nat): Option<Ledger>
    requires k <= |order|
  {
    if k == 0 then Some(Ledger(Occupants(existing), map[]))
    else
      match Allocate(order, k - 1, existing, hash)
      case None => None
      case Some(l) => Place(l, SlotMap(existing), Elements(order), hash, order[k - 1])
  }

  function RulesFor(chosen: map<Address, int>, sources: SourceMap): set<Rule> {
    (set s | s in chosen :: Rule(chosen[s] + 1, s, None)) +
    (set s | s in chosen && s in sources && sources[s].Some? :: Rule(chosen[s], s, sources[s]))
  }

  ghost function Plan(sources: SourceMap, order: seq<Address>, existing: set<Rule>,
                      hash: Address -> nat): Result<set<Rule>, Refusal> {
    if !Unambiguous(existing) then Failure(AmbiguousAllocation)
    else
      match Allocate(order, |order|, existing, hash)
      case None => Failure(CapacityExhausted)
      case Some(l) => Success(RulesFor(l.chosen, sources))
  }

  // ---------------------------------------------------------------------
  // What an allocation means

  /** Exactly one guard a source, its lookup when it has a table, and nothing else. */
  ghost predicate Realises(desired: set<Rule>, sources: SourceMap) {
    && Consistent(desired)
    && (forall r :: r in desired ==> r.source in sources && (r.IsGuard() || r.table == sources[r.source]))
    && (forall s :: s in sources ==> HasGuard(desired, s) && (sources[s].Some? ==> HasLookup(desired, s)))
  }

  predicate KeepsSlot(d: Rule, r: Rule) { d.source == r.source ==> d.Slot() == r.Slot() }

  ghost predicate KeepsSlots(desired: set<Rule>, existing: set<Rule>) {
    forall d, r {:trigger KeepsSlot(d, r)} :: d in desired && r in existing ==> KeepsSlot(d, r)
  }

  /** A source has a lookup of a table exactly if that is its table, and a guard exactly if it is a source. */
  lemma RealisesMeans(desired: set<Rule>, sources: SourceMap, s: Address, t: int)
    requires Realises(desired, sources)
    ensures (exists r :: r in desired && r.source == s && r.table == Some(t)) <==> s in sources && sources[s] == Some(t)
    ensures (exists r :: r in desired && r.source == s && r.table == None) <==> s in sources
  {
    if s in sources {
      assert HasGuard(desired, s);
      var g :| g in desired && g.source == s && g.IsGuard();
      assert g.table == None;
      if sources[s] == Some(t) {
        assert HasLookup(desired, s);
        var r :| r in desired && r.source == s && !r.IsGuard();
        assert r.table == Some(t);
      }
    }
  }

  // ---------------------------------------------------------------------
  // Allocation invariants

  predicate IsSlot(p: int) { PRIORITY_START <= p < PRIORITY_END && p % 2 == 0 }

  lemma ProbeIsSlot(start: nat, step: nat)
    ensures IsSlot(Probe(start, step))
  {
  }

  lemma Wraps(q: int, x: int)
    requires 0 <= x < 500
    ensures (500 * q + x) % 500 == x
  {
  }

  /** Every slot is reached by some probe. */
  lemma ProbeReaches(start: nat, slot: int) returns (k: nat)
    requires IsSlot(slot)
    ensures k < CAPACITY && Probe(start, k) == slot
  {
    var target, q, r := (slot - PRIORITY_START) / 2, start / 500, start % 500;
    k := if target >= r then target - r else target + 500 - r;
    assert start + k == 500 * (if target >= r then q else q + 1) + target;
    Wraps(if target >= r then q else q + 1, target);
  }

  /** No location has two sources, no source two locations; every placed source and every
      continuing live source holds its own. */
  ghost predicate Sound(l: Ledger, slots: map<Address, int>, live: set<Address>) {
    && (forall p :: p in l.occupied ==> IsSlot(p.1) && l.occupied[p].family == p.0)
    && (forall p, q :: p in l.occupied && q in l.occupied && l.occupied[p] == l.occupied[q] ==> p == q)
    && (forall s :: s in l.chosen ==> (s.family, l.chosen[s]) in l.occupied && l.occupied[(s.family, l.chosen[s])] == s)
    && (forall s :: s in slots && s in live ==>
        (s.family, slots[s]) in l.occupied && l.occupied[(s.family, slots[s])] == s)
    && (forall p :: p in l.occupied ==> l.occupied[p] in slots || l.occupied[p] in l.chosen)
    && (forall s :: s in l.chosen && s in slots ==> l.chosen[s] == slots[s])
  }

  lemma ChooseSound(l: Ledger, slots: map<Address, int>, live: set<Address>, s: Address, start: nat)
    requires Sound(l, slots, live)
    ensures var c := Choose(l.occupied, live, s, start);
            c.Some? ==> IsSlot(c.value) && Takes(l.occupied, live, true, s.family, c.value)
  {
    ScanIsFirst(l.occupied, live, false, s.family, start, 0);
    ScanIsFirst(l.occupied, live, true, s.family, start, 0);
    forall k: nat { ProbeIsSlot(start, k); }
  }

  lemma PlaceSound(l: Ledger, slots: map<Address, int>, live: set<Address>, hash: Address -> nat, s: Address)
    requires Sound(l, slots, live) && s in live && s !in l.chosen && l.chosen.Keys <= live
    ensures var n := Place(l, slots, live, hash, s);
            n.Some? ==> Sound(n.value, slots, live) && n.value.chosen.Keys == l.chosen.Keys + {s}
  {
    ChooseSound(l, slots, live, s, hash(s));
  }

  lemma CanonicalSlot(r: Rule)
    requires Canonical(r)
    ensures IsSlot(r.Slot())
  {
  }

  lemma OccupantRule(existing: set<Rule>, p: Location) returns (r: Rule)
    requires Unambiguous(existing) && p in Occupants(existing)
    ensures r in existing && Where(r) == p && r.source == Occupants(existing)[p]
    ensures r.Family() == p.0 && r.source in SlotMap(existing)
    ensures SlotMap(existing)[r.source] == p.1
  {
    r :| r in existing && Where(r) == p;
    Indexed(existing, r);
  }

  lemma OccupantsDistinct(existing: set<Rule>, p: Location, q: Location)
    requires Consistent(existing) && p in Occupants(existing) && q in Occupants(existing)
    requires Occupants(existing)[p] == Occupants(existing)[q]
    ensures p == q
  {
    var r := OccupantRule(existing, p);
    var t := OccupantRule(existing, q);
  }

  lemma HoldsOwnSlot(existing: set<Rule>, s: Address)
    requires Consistent(existing) && s in SlotMap(existing)
    ensures var p := (s.family, SlotMap(existing)[s]); p in Occupants(existing) && Occupants(existing)[p] == s
  {
    var r :| r in existing && r.source == s;
    Indexed(existing, r);
  }

  lemma InitialSound(existing: set<Rule>, live: set<Address>)
    requires Consistent(existing)
    ensures Sound(Ledger(Occupants(existing), map[]), SlotMap(existing), live)
  {
    var occupied, slots := Occupants(existing), SlotMap(existing);
    assert forall p :: p in occupied ==> IsSlot(p.1) && occupied[p].family == p.0 && occupied[p] in slots by {
      forall p | p in occupied
        ensures IsSlot(p.1) && occupied[p].family == p.0 && occupied[p] in slots
      {
        var r := OccupantRule(existing, p);
        CanonicalSlot(r);
      }
    }
    assert forall p, q :: p in occupied && q in occupied && occupied[p] == occupied[q] ==> p == q by {
      forall p, q | p in occupied && q in occupied && occupied[p] == occupied[q] { OccupantsDistinct(existing, p, q); }
    }
    assert forall s :: s in slots ==> (s.family, slots[s]) in occupied && occupied[(s.family, slots[s])] == s by {
      forall s | s in slots { HoldsOwnSlot(existing, s); }
    }
  }

  lemma {:induction false} AllocateSound(order: seq<Address>, k: nat, existing: set<Rule>, hash: Address -> nat)
    requires Consistent(existing) && k <= |order|
    requires Lists(order, Elements(order))
    ensures var a := Allocate(order, k, existing, hash);
            a.Some? ==> Sound(a.value, SlotMap(existing), Elements(order))
                        && a.value.chosen.Keys == Elements(order[..k])
  {
    if k == 0 {
      InitialSound(existing, Elements(order));
    } else {
      AllocateSound(order, k - 1, existing, hash);
      var a := Allocate(order, k - 1, existing, hash);
      if a.Some? {
        ElementsNext(order, k);
        PlaceSound(a.value, SlotMap(existing), Elements(order), hash, order[k - 1]);
      }
    }
  }

  lemma ElementsNext(order: seq<Address>, k: nat)
    requires 0 < k <= |order| && Lists(order, Elements(order))
    ensures Elements(order[..k]) == Elements(order[..k - 1]) + {order[k - 1]}
    ensures order[k - 1] !in Elements(order[..k - 1])
    ensures Elements(order[..k - 1]) <= Elements(order)
  {
    assert order[..k] == order[..k - 1] + [order[k - 1]];
  }

  // ---------------------------------------------------------------------
  // A successful plan

  /** Slots in range, no two sources of a family in one slot. */
  ghost predicate Assignment(chosen: map<Address, int>) {
    && (forall s :: s in chosen ==> IsSlot(chosen[s]))
    && (forall s, t :: s in chosen && t in chosen && s.family == t.family && chosen[s] == chosen[t] ==> s == t)
  }

  lemma SoundAssigns(l: Ledger, slots: map<Address, int>, live: set<Address>)
    requires Sound(l, slots, live)
    ensures Assignment(l.chosen)
  {
  }

  lemma RulesForSlot(chosen: map<Address, int>, sources: SourceMap, r: Rule)
    requires Assignment(chosen) && r in RulesFor(chosen, sources)
    ensures r.source in chosen && r.Slot() == chosen[r.source]
    ensures r == Rule(chosen[r.source] + 1, r.source, None) ||
            (r.source in sources && r == Rule(chosen[r.source], r.source, sources[r.source]) && r.table.Some?)
  {
  }

  lemma AssignedRule(chosen: map<Address, int>, sources: SourceMap, r: Rule)
    requires Assignment(chosen) && ValidSources(sources) && chosen.Keys == sources.Keys
      && r in RulesFor(chosen, sources)
    ensures Canonical(r) && r.source in sources && (r.IsGuard() || r.table == sources[r.source])
  {
    RulesForSlot(chosen, sources, r);
  }

  lemma AssignedPair(chosen: map<Address, int>, sources: SourceMap, r: Rule, q: Rule)
    requires Assignment(chosen) && r in RulesFor(chosen, sources) && q in RulesFor(chosen, sources)
    ensures r.Family() == q.Family() && r.priority == q.priority ==> r == q
    ensures r.source == q.source ==> r.Slot() == q.Slot()
    ensures r.Family() == q.Family() && r.Slot() == q.Slot() ==> r.source == q.source
  {
    RulesForSlot(chosen, sources, r);
    RulesForSlot(chosen, sources, q);
  }

  lemma AssignedConsistent(chosen: map<Address, int>, sources: SourceMap)
    requires Assignment(chosen) && ValidSources(sources) && chosen.Keys == sources.Keys
    ensures Consistent(RulesFor(chosen, sources))
  {
    forall r | r in RulesFor(chosen, sources) { AssignedRule(chosen, sources, r); }
    forall r, q | r in RulesFor(chosen, sources) && q in RulesFor(chosen, sources) {
      AssignedPair(chosen, sources, r, q);
    }
  }

  lemma AssignmentRealises(chosen: map<Address, int>, sources: SourceMap)
    requires Assignment(chosen) && ValidSources(sources) && chosen.Keys == sources.Keys
    ensures Realises(RulesFor(chosen, sources), sources)
  {
    var rules := RulesFor(chosen, sources);
    AssignedConsistent(chosen, sources);
    forall r | r in rules { AssignedRule(chosen, sources, r); }
    forall s | s in sources
      ensures HasGuard(rules, s) && (sources[s].Some? ==> HasLookup(rules, s))
    {
      assert Rule(chosen[s] + 1, s, None) in rules;
      if sources[s].Some? { assert Rule(chosen[s], s, sources[s]) in rules; }
    }
  }

  /** Allocation is injective a family, covers every source, and continuing sources keep their slot. */
  lemma PlanRealises(sources: SourceMap, order: seq<Address>, existing: set<Rule>, hash: Address -> nat)
    requires Consistent(existing) && ValidSources(sources) && Lists(order, sources.Keys)
    requires Plan(sources, order, existing, hash).Success?
    ensures var desired := Plan(sources, order, existing, hash).value;
            Realises(desired, sources) && KeepsSlots(desired, existing)
  {
    assert Elements(order) == sources.Keys;
    AllocateSound(order, |order|, existing, hash);
    assert order[..|order|] == order;
    var l := Allocate(order, |order|, existing, hash).value;
    SoundAssigns(l, SlotMap(existing), sources.Keys);
    AssignmentRealises(l.chosen, sources);
    var desired := RulesFor(l.chosen, sources);
    forall d, r | d in desired && r in existing && d.source == r.source
      ensures d.Slot() == r.Slot()
    {
      RulesForSlot(l.chosen, sources, d);
      Indexed(existing, r);
    }
  }

  /** Two rule sets that realise the same sources in the same slots are equal. */
  lemma RealisationUnique(first: set<Rule>, second: set<Rule>, sources: SourceMap)
    requires Realises(first, sources) && Realises(second, sources) && KeepsSlots(second, first)
    ensures first == second
  {
    RealisationSubset(first, second, sources);
    RealisationSubset(second, first, sources);
  }

  lemma RealisationSubset(first: set<Rule>, second: set<Rule>, sources: SourceMap)
    requires Realises(first, sources) && Realises(second, sources)
    requires KeepsSlots(second, first) || KeepsSlots(first, second)
    ensures first <= second
  {
    forall r | r in first
      ensures r in second
    {
      if r.IsGuard() {
        assert HasGuard(second, r.source);
        var q :| q in second && q.source == r.source && q.IsGuard();
        if KeepsSlots(second, first) { assert KeepsSlot(q, r); } else { assert KeepsSlot(r, q); }
        assert q == r;
      } else {
        assert HasLookup(second, r.source);
        var q :| q in second && q.source == r.source && !q.IsGuard();
        if KeepsSlots(second, first) { assert KeepsSlot(q, r); } else { assert KeepsSlot(r, q); }
        assert q == r;
      }
    }
  }

  /** Planning again from a plan's own output, in any order and from any hash, changes nothing. */
  lemma PlanFixedPoint(sources: SourceMap, order: seq<Address>, existing: set<Rule>, hash: Address -> nat,
                       order': seq<Address>, hash': Address -> nat)
    requires Consistent(existing) && ValidSources(sources) && Lists(order, sources.Keys) && Lists(order', sources.Keys)
    requires Plan(sources, order, existing, hash).Success?
    ensures var desired := Plan(sources, order, existing, hash).value;
            Plan(sources, order', desired, hash') == Success(desired)
  {
    PlanRealises(sources, order, existing, hash);
    var desired := Plan(sources, order, existing, hash).value;
    PlanSucceeds(sources, order, existing, hash);
    PlanSucceeds(sources, order', desired, hash');
    PlanRealises(sources, order', desired, hash');
    RealisationUnique(desired, Plan(sources, order', desired, hash').value, sources);
  }

  // ---------------------------------------------------------------------
  // Capacity

  lemma {:induction false} ImageSize<A, B>(domain: set<A>, f: map<A, B>, image: set<B>)
    requires domain <= f.Keys
    requires forall x, y :: x in domain && y in domain && f[x] == f[y] ==> x == y
    requires forall x :: x in domain ==> f[x] in image
    ensures |domain| <= |image|
    decreases domain
  {
    if domain == {} {
    } else {
      var x :| x in domain;
      ImageSize(domain - {x}, f, image - {f[x]});
    }
  }

  function SlotsBelow(n: nat): set<int> {
    set i | 0 <= i < n :: PRIORITY_START + 2 * i
  }

  lemma {:induction false} SlotCount(n: nat)
    ensures |SlotsBelow(n)| == n
  {
    if n == 0 {
    } else {
      SlotCount(n - 1);
      assert SlotsBelow(n) == SlotsBelow(n - 1) + {PRIORITY_START + 2 * (n - 1)};
    }
  }

  lemma AllSlots(p: int)
    ensures IsSlot(p) <==> p in SlotsBelow(CAPACITY)
  {
    if IsSlot(p) { assert p == PRIORITY_START + 2 * ((p - PRIORITY_START) / 2); }
  }

  /** At most 500 sources a family can hold distinct slots. */
  lemma AssignmentFits(chosen: map<Address, int>)
    requires Assignment(chosen)
    ensures Fits(chosen.Keys)
  {
    SlotCount(CAPACITY);
    forall p { AllSlots(p); }
    ImageSize(OfFamily(chosen.Keys, V4), chosen, SlotsBelow(CAPACITY));
    ImageSize(OfFamily(chosen.Keys, V6), chosen, SlotsBelow(CAPACITY));
  }

  lemma SlotHeld(l: Ledger, slots: map<Address, int>, live: set<Address>, s: Address, start: nat, p: int)
    requires Sound(l, slots, live) && s !in slots && s !in l.chosen
    requires Choose(l.occupied, live, s, start).None? && IsSlot(p)
    ensures (s.family, p) in l.occupied && l.occupied[(s.family, p)] in OfFamily(live, s.family) - {s}
  {
    ScanIsFirst(l.occupied, live, true, s.family, start, 0);
    var k := ProbeReaches(start, p);
    assert !Takes(l.occupied, live, true, s.family, Probe(start, k));
  }

  /** A source finds no slot only when 500 other live sources of its family hold them all. */
  lemma NoChoiceMeansFull(l: Ledger, slots: map<Address, int>, live: set<Address>, s: Address, start: nat)
    requires Sound(l, slots, live) && s in live && s !in slots && s !in l.chosen
    requires Choose(l.occupied, live, s, start).None?
    ensures |OfFamily(live, s.family)| > CAPACITY
  {
    var all, others := SlotsBelow(CAPACITY), OfFamily(live, s.family) - {s};
    forall p | p in all
      ensures (s.family, p) in l.occupied && l.occupied[(s.family, p)] in others
    {
      AllSlots(p);
      SlotHeld(l, slots, live, s, start, p);
    }
    var holder := map p | p in all :: l.occupied[(s.family, p)];
    SlotCount(CAPACITY);
    ImageSize(all, holder, others);
  }

  lemma PlaceFailsWhenFull(l: Ledger, slots: map<Address, int>, live: set<Address>, hash: Address -> nat, s: Address)
    requires Sound(l, slots, live) && s in live && s !in l.chosen
    requires Place(l, slots, live, hash, s).None?
    ensures !Fits(live)
  {
    NoChoiceMeansFull(l, slots, live, s, hash(s));
  }

  lemma {:induction false} AllocateFailsWhenFull(order: seq<Address>, k: nat, existing: set<Rule>, hash: Address -> nat)
    requires Consistent(existing) && k <= |order| && Lists(order, Elements(order))
    requires Allocate(order, k, existing, hash).None?
    ensures !Fits(Elements(order))
  {
    if Allocate(order, k - 1, existing, hash).None? {
      AllocateFailsWhenFull(order, k - 1, existing, hash);
    } else {
      var l := Allocate(order, k - 1, existing, hash).value;
      AllocateNext(order, k - 1, existing, hash, l);
      AllocateSound(order, k - 1, existing, hash);
      ElementsNext(order, k);
      PlaceFailsWhenFull(l, SlotMap(existing), Elements(order), hash, order[k - 1]);
    }
  }

  /** Capacity is exhausted exactly when a family has more than 500 sources. */
  lemma PlanSucceeds(sources: SourceMap, order: seq<Address>, existing: set<Rule>, hash: Address -> nat)
    requires Consistent(existing) && Lists(order, sources.Keys)
    ensures Plan(sources, order, existing, hash).Success? <==> Fits(sources.Keys)
    ensures !Fits(sources.Keys) ==> Plan(sources, order, existing, hash) == Failure(CapacityExhausted)
    ensures Fits(sources.Keys) <==>
      |set s | s in sources && s.family == V4| <= 500 && |set s | s in sources && s.family == V6| <= 500
  {
    assert OfFamily(sources.Keys, V4) == set s | s in sources && s.family == V4;
    assert OfFamily(sources.Keys, V6) == set s | s in sources && s.family == V6;
    assert Elements(order) == sources.Keys;
    if Plan(sources, order, existing, hash).Success? {
      AllocateSound(order, |order|, existing, hash);
      assert order[..|order|] == order;
      var l := Allocate(order, |order|, existing, hash).value;
      SoundAssigns(l, SlotMap(existing), sources.Keys);
      AssignmentFits(l.chosen);
    } else {
      AllocateFailsWhenFull(order, |order|, existing, hash);
    }
  }

  /** A passed reservation rules out exhaustion for every later subset of the reserved sources,
      whatever consistent rules are then in place. */
  lemma ReservationHolds(reserved: set<Address>, order: seq<Address>, existing: set<Rule>, hash: Address -> nat,
                         sources: SourceMap, order': seq<Address>, existing': set<Rule>, hash': Address -> nat)
    requires Consistent(existing) && Lists(order, reserved)
    requires Plan(map s | s in reserved :: None, order, existing, hash).Success?
    requires sources.Keys <= reserved && Lists(order', sources.Keys) && Consistent(existing')
    ensures Plan(sources, order', existing', hash').Success?
  {
    var quarantined: SourceMap := map s | s in reserved :: None;
    assert quarantined.Keys == reserved;
    PlanSucceeds(quarantined, order, existing, hash);
    SubsetSize(OfFamily(sources.Keys, V4), OfFamily(reserved, V4));
    SubsetSize(OfFamily(sources.Keys, V6), OfFamily(reserved, V6));
    PlanSucceeds(sources, order', existing', hash');
  }

  // ---------------------------------------------------------------------
  // The planner as it runs

  predicate Fitting(rule: Rule, slots: map<Address, int>, occupied: map<Location, Address>) {
    && (rule.source in slots ==> slots[rule.source] == rule.Slot())
    && (Where(rule) in occupied ==> occupied[Where(rule)] == rule.source)
  }

  lemma FittingAgrees(done: set<Rule>, rule: Rule)
    requires Unambiguous(done)
    ensures Fitting(rule, SlotMap(done), Occupants(done)) <==> forall r :: r in done ==> Agree(r, rule)
  {
    forall r | r in done { Indexed(done, r); }
    if rule.source in SlotMap(done) {
      var r :| r in done && r.source == rule.source;
    }
    if Where(rule) in Occupants(done) {
      var r :| r in done && Where(r) == Where(rule);
    }
  }

  lemma UnambiguousNext(done: set<Rule>, rule: Rule)
    requires Unambiguous(done)
    ensures Unambiguous(done + {rule}) <==> forall r :: r in done ==> Agree(r, rule)
  {
    if Unambiguous(done + {rule}) {
      forall r | r in done ensures Agree(r, rule) { assert r in done + {rule}; }
    } else {
      var r, q :| r in done + {rule} && q in done + {rule} && !Agree(r, q);
      assert !(r in done && q in done);
    }
  }

  lemma IndexNext(done: set<Rule>, rule: Rule)
    requires Unambiguous(done) && Unambiguous(done + {rule})
    ensures SlotMap(done + {rule}) == SlotMap(done)[rule.source := rule.Slot()]
    ensures Occupants(done + {rule}) == Occupants(done)[Where(rule) := rule.source]
  {
    var next := done + {rule};
    Indexed(next, rule);
    forall s | s in Sources(done)
      ensures SlotMap(next)[s] == SlotMap(done)[s]
    {
      var r :| r in done && r.source == s;
      Indexed(done, r);
      Indexed(next, r);
    }
    forall p | p in Locations(done)
      ensures Occupants(next)[p] == Occupants(done)[p]
    {
      var r :| r in done && Where(r) == p;
      Indexed(done, r);
      Indexed(next, r);
    }
    assert Sources(next) == Sources(done) + {rule.source};
    assert Locations(next) == Locations(done) + {Where(rule)};
  }

  lemma UnambiguousSubset(some: set<Rule>, all: set<Rule>)
    requires some <= all && Unambiguous(all)
    ensures Unambiguous(some)
  {
  }

  /** First pass: where every existing source is, or a refusal. */
  method IndexRules(existing: set<Rule>) returns (ok: bool, slots: map<Address, int>, occupied: map<Location, Address>)
    ensures ok <==> Unambiguous(existing)
    ensures ok ==> slots == SlotMap(existing) && occupied == Occupants(existing)
  {
    slots, occupied := map[], map[];
    var todo := existing;
    while todo != {}
      invariant todo <= existing && Unambiguous(existing - todo)
      invariant slots == SlotMap(existing - todo) && occupied == Occupants(existing - todo)
    {
      var rule :| rule in todo;
      ghost var done := existing - todo;
      FittingAgrees(done, rule);
      UnambiguousNext(done, rule);
      assert done + {rule} == existing - (todo - {rule});
      if (rule.source in slots && slots[rule.source] != rule.Slot())
        || (Where(rule) in occupied && occupied[Where(rule)] != rule.source) {
        if Unambiguous(existing) { UnambiguousSubset(done + {rule}, existing); }
        return false, slots, occupied;
      }
      IndexNext(done, rule);
      slots := slots[rule.source := rule.Slot()];
      occupied := occupied[Where(rule) := rule.source];
      todo := todo - {rule};
    }
    assert existing - todo == existing;
    ok := true;
  }

  // What the allocator prefers

  /** The even priority that is `k` places after the one that a hash selects, going round. */
  function Spot(start: nat, k: nat): int { 5000 + 2 * ((start + k) % 500) }

  predicate Living(occupied: map<Location, Address>, live: set<Address>, f: Family, p: int) {
    (f, p) in occupied && occupied[(f, p)] in live
  }

  /** The slot is free if any is, and every nearer one is occupied; if none is free it has an obsolete occupant, and
      every nearer one a live occupant. */
  predicate Prefers(occupied: map<Location, Address>, live: set<Address>, f: Family, start: nat, k: nat) {
    && k < 500
    && if forall p :: 5000 <= p < 6000 && p % 2 == 0 ==> (f, p) in occupied
       then !Living(occupied, live, f, Spot(start, k))
            && forall j: nat :: j < k ==> Living(occupied, live, f, Spot(start, j))
       else (f, Spot(start, k)) !in occupied && forall j: nat :: j < k ==> (f, Spot(start, j)) in occupied
  }

  lemma ChoosePrefers(occupied: map<Location, Address>, live: set<Address>, s: Address, start: nat) returns (k: nat)
    requires Choose(occupied, live, s, start).Some?
    ensures Choose(occupied, live, s, start).value == Spot(start, k) && Prefers(occupied, live, s.family, start, k)
  {
    forall j: nat ensures Spot(start, j) == Probe(start, j) && IsSlot(Spot(start, j)) { ProbeIsSlot(start, j); }
    ScanIsFirst(occupied, live, false, s.family, start, 0);
    ScanIsFirst(occupied, live, true, s.family, start, 0);
    var free := Scan(occupied, live, false, s.family, start, 0);
    if free.Some? {
      k :| 0 <= k < CAPACITY && free.value == Probe(start, k) && Takes(occupied, live, false, s.family, free.value)
        && forall j :: 0 <= j < k ==> !Takes(occupied, live, false, s.family, Probe(start, j));
      assert Spot(start, k) == free.value;
    } else {
      NoneFree(occupied, live, s.family, start);
      var slot := Scan(occupied, live, true, s.family, start, 0).value;
      k :| 0 <= k < CAPACITY && slot == Probe(start, k) && Takes(occupied, live, true, s.family, slot)
        && forall j :: 0 <= j < k ==> !Takes(occupied, live, true, s.family, Probe(start, j));
      assert Spot(start, k) == slot;
    }
  }

  lemma NoneFree(occupied: map<Location, Address>, live: set<Address>, f: Family, start: nat)
    requires forall k :: 0 <= k < CAPACITY ==> !Takes(occupied, live, false, f, Probe(start, k))
    ensures forall p :: IsSlot(p) ==> (f, p) in occupied
  {
    forall p | IsSlot(p)
      ensures (f, p) in occupied
    {
      var k := ProbeReaches(start, p);
      assert !Takes(occupied, live, false, f, Probe(start, k));
    }
  }

  /** No slot is chosen only when all have live occupants. */
  lemma NoneChosen(occupied: map<Location, Address>, live: set<Address>, s: Address, start: nat)
    requires Choose(occupied, live, s, start).None?
    ensures forall p :: 5000 <= p < 6000 && p % 2 == 0 ==> Living(occupied, live, s.family, p)
  {
    ScanIsFirst(occupied, live, true, s.family, start, 0);
    forall p | 5000 <= p < 6000 && p % 2 == 0
      ensures Living(occupied, live, s.family, p)
    {
      var k := ProbeReaches(start, p);
      assert !Takes(occupied, live, true, s.family, Probe(start, k));
    }
  }

  lemma FoundSlot(occupied: map<Location, Address>, live: set<Address>, s: Address, start: nat)
    ensures var slot := Choose(occupied, live, s, start);
      if slot.Some? then exists k: nat :: Prefers(occupied, live, s.family, start, k) && slot.value == Spot(start, k)
      else forall p :: 5000 <= p < 6000 && p % 2 == 0 ==> Living(occupied, live, s.family, p)
  {
    if Choose(occupied, live, s, start).None? {
      NoneChosen(occupied, live, s, start);
    } else {
      var k := ChoosePrefers(occupied, live, s, start);
    }
  }

  /** Second pass, one source: probe for a free slot, then for an obsolete one. */
  method FindSlot(occupied: map<Location, Address>, live: set<Address>, s: Address, start: nat)
    returns (slot: Option<int>)
    ensures slot == Choose(occupied, live, s, start)
    ensures slot.Some? ==> exists k: nat :: Prefers(occupied, live, s.family, start, k) && slot.value == Spot(start, k)
    ensures slot.None? ==> forall p :: 5000 <= p < 6000 && p % 2 == 0 ==> Living(occupied, live, s.family, p)
  {
    FoundSlot(occupied, live, s, start);
    slot := None;
    var step := 0;
    while step < CAPACITY
      invariant 0 <= step <= CAPACITY
      invariant Scan(occupied, live, false, s.family, start, 0) == Scan(occupied, live, false, s.family, start, step)
    {
      var p := Probe(start, step);
      if (s.family, p) !in occupied { return Some(p); }
      step := step + 1;
    }
    step := 0;
    while step < CAPACITY
      invariant 0 <= step <= CAPACITY && Scan(occupied, live, false, s.family, start, 0).None?
      invariant Scan(occupied, live, true, s.family, start, 0) == Scan(occupied, live, true, s.family, start, step)
    {
      var p := Probe(start, step);
      if (s.family, p) !in occupied || occupied[(s.family, p)] !in live { return Some(p); }
      step := step + 1;
    }
  }

  lemma AllocateNext(order: seq<Address>, k: nat, existing: set<Rule>, hash: Address -> nat, l: Ledger)
    requires k < |order| && Allocate(order, k, existing, hash) == Some(l)
    ensures Allocate(order, k + 1, existing, hash) == Place(l, SlotMap(existing), Elements(order), hash, order[k])
  {
  }

  lemma {:induction false} AllocateStuck(order: seq<Address>, i: nat, k: nat, existing: set<Rule>, hash: Address -> nat)
    requires i <= k <= |order| && Allocate(order, i, existing, hash).None?
    ensures Allocate(order, k, existing, hash).None?
    decreases k - i
  {
    if i == k {
    } else {
      AllocateStuck(order, i, k - 1, existing, hash);
    }
  }

  lemma RulesForNext(chosen: map<Address, int>, sources: SourceMap, s: Address, slot: int)
    requires s !in chosen && s in sources
    ensures RulesFor(chosen[s := slot], sources) ==
      RulesFor(chosen, sources) + {Rule(slot + 1, s, None)} +
      (if sources[s].Some? then {Rule(slot, s, sources[s])} else {})
  {
    var next := chosen[s := slot];
    assert forall t :: t in chosen ==> next[t] == chosen[t];
    assert next[s] == slot;
  }

  lemma {:induction false} AllocateChosen(order: seq<Address>, k: nat, existing: set<Rule>, hash: Address -> nat)
    requires k <= |order| && Allocate(order, k, existing, hash).Some?
    ensures Allocate(order, k, existing, hash).value.chosen.Keys == Elements(order[..k])
  {
    if k == 0 {
    } else {
      AllocateChosen(order, k - 1, existing, hash);
      assert order[..k] == order[..k - 1] + [order[k - 1]];
    }
  }

  /** One source: its old slot, or a new one that it then occupies. */
  method PlaceSource(slots: map<Address, int>, occupied: map<Location, Address>, live: set<Address>,
                     hash: Address -> nat, s: Address, ghost chosen: map<Address, int>)
    returns (slot: Option<int>, occupied': map<Location, Address>)
    ensures Place(Ledger(occupied, chosen), slots, live, hash, s) ==
      if slot.None? then None else Some(Ledger(occupied', chosen[s := slot.value]))
  {
    occupied' := occupied;
    if s in slots {
      slot := Some(slots[s]);
    } else {
      slot := FindSlot(occupied, live, s, hash(s));
      if slot.Some? {
        occupied' := occupied[(s.family, slot.value) := s];
      }
    }
  }

  /** Adds the guard of a source and, when it has a table, its lookup. */
  method AddPair(desired: set<Rule>, sources: SourceMap, s: Address, slot: int, ghost chosen: map<Address, int>)
    returns (desired': set<Rule>)
    requires desired == RulesFor(chosen, sources) && s !in chosen && s in sources
    ensures desired' == RulesFor(chosen[s := slot], sources)
  {
    RulesForNext(chosen, sources, s, slot);
    desired' := desired + {Rule(slot + 1, s, None)};
    if sources[s].Some? {
      desired' := desired' + {Rule(slot, s, sources[s])};
    }
  }

  lemma PlanFailsAt(sources: SourceMap, order: seq<Address>, existing: set<Rule>, hash: Address -> nat, i: nat)
    requires i <= |order| && Unambiguous(existing) && Allocate(order, i, existing, hash).None?
    ensures Plan(sources, order, existing, hash) == Failure(CapacityExhausted)
  {
    AllocateStuck(order, i, |order|, existing, hash);
  }

  lemma NotYetChosen(order: seq<Address>, existing: set<Rule>, hash: Address -> nat, i: nat, l: Ledger)
    requires Lists(order, Elements(order)) && i < |order| && Allocate(order, i, existing, hash) == Some(l)
    ensures order[i] !in l.chosen
  {
    AllocateChosen(order, i, existing, hash);
    ElementsNext(order, i + 1);
  }

  /** The planner computes `Plan`: a refusal for an ambiguous rule set or for a family over capacity,
      otherwise the rules of the allocation. */
  method PlanRules(sources: SourceMap, order: seq<Address>, existing: set<Rule>, hash: Address -> nat)
    returns (r: Result<set<Rule>, Refusal>)
    requires Lists(order, sources.Keys)
    ensures r == Plan(sources, order, existing, hash)
  {
    var ok, slots, occupied := IndexRules(existing);
    if !ok { return Failure(AmbiguousAllocation); }
    var desired: set<Rule> := {};
    ghost var chosen: map<Address, int> := map[];
    assert Elements(order) == sources.Keys;
    for i := 0 to |order|
      invariant Allocate(order, i, existing, hash) == Some(Ledger(occupied, chosen))
      invariant desired == RulesFor(chosen, sources)
    {
      var source := order[i];
      var slot, occupied' := PlaceSource(slots, occupied, sources.Keys, hash, source, chosen);
      AllocateNext(order, i, existing, hash, Ledger(occupied, chosen));
      if slot.None? {
        PlanFailsAt(sources, order, existing, hash, i + 1);
        return Failure(CapacityExhausted);
      }
      NotYetChosen(order, existing, hash, i, Ledger(occupied, chosen));
      desired := AddPair(desired, sources, source, slot.value, chosen);
      occupied, chosen := occupied', chosen[source := slot.value];
    }
    r := Success(desired);
  }

  /** Some listing of a set of sources; the planner is correct for every one. */
  method Listing(sources: set<Address>) returns (order: seq<Address>)
    ensures Lists(order, sources)
  {
    order := [];
    var todo := sources;
    while todo != {}
      invariant todo <= sources && Lists(order, sources - todo)
      decreases todo
    {
      var s :| s in todo;
      order, todo := order + [s], todo - {s};
    }
  }
}
