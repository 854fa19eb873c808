/** Where a plan puts new sources: a free slot while there is one, the nearest to the hash of the source. */
module Placement {
  import opened Wrappers
  import opened Addresses
  import opened PolicyRules
  import opened Allocation

  /** Some rule of the family sits at this even priority or right after it. */
  ghost predicate Held(rules: set<Rule>, f: Family, p: int) {
    exists r :: r in rules && r.source.family == f && r.priority - r.priority % 2 == p
  }

  ghost predicate AllHeld(rules: set<Rule>, f: Family) {
    forall p :: 5000 <= p < 6000 && p % 2 == 0 ==> Held(rules, f, p)
  }

  /** The first place after the hash that no rule of the set has. */
  ghost predicate Nearest(rules: set<Rule>, f: Family, start: nat, k: nat) {
    k < 500 && !Held(rules, f, Spot(start, k)) && forall j: nat :: j < k ==> Held(rules, f, Spot(start, j))
  }

  /** The planned rules of the sources that come before the i-th. */
  ghost function Earlier(desired: set<Rule>, order: seq<Address>, i: nat): set<Rule>
    requires i <= |order|
  {
    set r | r in desired && r.source in order[..i]
  }

  /** The planned rules of the sources that have rules already. */
  ghost function Continuing(desired: set<Rule>, existing: set<Rule>): set<Rule> {
    set r | r in desired && r.source in Sources(existing)
  }

  lemma HeldMore(some: set<Rule>, all: set<Rule>, f: Family, p: int)
    requires some <= all && Held(some, f, p)
    ensures Held(all, f, p)
  {
  }

  // ---------------------------------------------------------------------
  // The ledger and the rules

  ghost function Spots(chosen: map<Address, int>): set<Location> {
    set s | s in chosen :: (s.family, chosen[s])
  }

  lemma SpotsNext(chosen: map<Address, int>, s: Address, slot: int)
    requires s !in chosen
    ensures Spots(chosen[s := slot]) == Spots(chosen) + {(s.family, slot)}
  {
    var next := chosen[s := slot];
    assert forall t :: t in chosen ==> next[t] == chosen[t];
    assert next[s] == slot;
  }

  lemma PlaceOccupies(l: Ledger, slots: map<Address, int>, live: set<Address>, hash: Address -> nat, s: Address,
                      base: set<Location>)
    requires l.occupied.Keys == base + Spots(l.chosen) && s !in l.chosen
    requires s in slots ==> (s.family, slots[s]) in base
    ensures var n := Place(l, slots, live, hash, s); n.Some? ==> n.value.occupied.Keys == base + Spots(n.value.chosen)
  {
    var n := Place(l, slots, live, hash, s);
    if n.Some? { SpotsNext(l.chosen, s, n.value.chosen[s]); }
  }

  /** A slot is occupied by a rule in place or by a source placed since. */
  ghost predicate Tracks(l: Ledger, existing: set<Rule>) {
    l.occupied.Keys == Locations(existing) + Spots(l.chosen)
  }

  /** The slots of the rules in place are those occupied at first, and sources that have one hold it. */
  ghost predicate Anchored(existing: set<Rule>) {
    && Occupants(existing).Keys == Locations(existing)
    && forall s :: s in SlotMap(existing) ==> (s.family, SlotMap(existing)[s]) in Locations(existing)
  }

  lemma ConsistentIsAnchored(existing: set<Rule>)
    requires Consistent(existing)
    ensures Anchored(existing)
  {
    forall s | s in SlotMap(existing) { HoldsOwnSlot(existing, s); }
  }

  lemma {:induction false} LedgerOccupied(order: seq<Address>, k: nat, existing: set<Rule>, hash: Address -> nat)
    requires Anchored(existing) && Lists(order, Elements(order)) && k <= |order|
    ensures var l := Allocate(order, k, existing, hash); l.Some? ==> Tracks(l.value, existing)
  {
    if k == 0 {
      assert Spots(map[]) == {};
    } else if Allocate(order, k - 1, existing, hash).Some? {
      LedgerOccupied(order, k - 1, existing, hash);
      OccupiedNext(order, k - 1, existing, hash, Allocate(order, k - 1, existing, hash).value);
    }
  }

  lemma OccupiedNext(order: seq<Address>, k: nat, existing: set<Rule>, hash: Address -> nat, l: Ledger)
    requires Anchored(existing) && Lists(order, Elements(order)) && k < |order|
    requires Allocate(order, k, existing, hash) == Some(l) && Tracks(l, existing)
    ensures var n := Allocate(order, k + 1, existing, hash); n.Some? ==> Tracks(n.value, existing)
  {
    AllocateNext(order, k, existing, hash, l);
    NotYetChosen(order, existing, hash, k, l);
    PlaceOccupies(l, SlotMap(existing), Elements(order), hash, order[k], Locations(existing));
  }

  /** Earlier choices stay. */
  lemma {:induction false} ChosenStays(order: seq<Address>, i: nat, k: nat, existing: set<Rule>, hash: Address -> nat)
    requires i <= k <= |order| && Lists(order, Elements(order)) && Allocate(order, k, existing, hash).Some?
    ensures Allocate(order, i, existing, hash).Some?
    ensures forall s :: s in Allocate(order, i, existing, hash).value.chosen ==>
      s in Allocate(order, k, existing, hash).value.chosen
      && Allocate(order, k, existing, hash).value.chosen[s] == Allocate(order, i, existing, hash).value.chosen[s]
    decreases k - i
  {
    if i == k {
    } else {
      ChosenStays(order, i, k - 1, existing, hash);
      NotYetChosen(order, existing, hash, k - 1, Allocate(order, k - 1, existing, hash).value);
    }
  }

  /** What an allocation fixes about the plan that comes of it. */
  ghost predicate Planned(sources: SourceMap, order: seq<Address>, existing: set<Rule>, hash: Address -> nat,
                          desired: set<Rule>) {
    && Consistent(existing) && ValidSources(sources) && Lists(order, sources.Keys)
    && Plan(sources, order, existing, hash) == Success(desired)
  }

  lemma RuleOf(chosen: map<Address, int>, sources: SourceMap, r: Rule)
    ensures r in RulesFor(chosen, sources) <==>
      && r.source in chosen
      && (r == Rule(chosen[r.source] + 1, r.source, None)
          || (r.source in sources && sources[r.source].Some?
              && r == Rule(chosen[r.source], r.source, sources[r.source])))
  {
  }

  lemma RestrictedRules(chosen: map<Address, int>, all: map<Address, int>, sources: SourceMap)
    requires Assignment(all) && forall s :: s in chosen ==> s in all && all[s] == chosen[s]
    ensures RulesFor(chosen, sources) == set r | r in RulesFor(all, sources) && r.source in chosen
  {
    forall r { RuleOf(chosen, sources, r); }
    forall r { RuleOf(all, sources, r); }
  }

  lemma EarlierSources(order: seq<Address>, i: nat, s: Address)
    requires i <= |order|
    ensures s in order[..i] <==> s in Elements(order[..i])
  {
  }

  /** The rules of the sources placed so far are in the slots chosen so far. */
  lemma EarlierRules(sources: SourceMap, order: seq<Address>, existing: set<Rule>, hash: Address -> nat,
                     desired: set<Rule>, i: nat) returns (l: Ledger)
    requires Planned(sources, order, existing, hash, desired) && i <= |order|
    ensures Allocate(order, i, existing, hash) == Some(l)
    ensures Sound(l, SlotMap(existing), sources.Keys) && l.chosen.Keys == Elements(order[..i])
    ensures l.occupied.Keys == Locations(existing) + Spots(l.chosen)
    ensures Earlier(desired, order, i) == RulesFor(l.chosen, sources)
  {
    assert Elements(order) == sources.Keys;
    ChosenStays(order, i, |order|, existing, hash);
    AllocateSound(order, i, existing, hash);
    AllocateSound(order, |order|, existing, hash);
    l := Allocate(order, i, existing, hash).value;
    ConsistentIsAnchored(existing);
    LedgerOccupied(order, i, existing, hash);
    var last := Allocate(order, |order|, existing, hash).value;
    SoundAssigns(last, SlotMap(existing), sources.Keys);
    RestrictedRules(l.chosen, last.chosen, sources);
    forall s { EarlierSources(order, i, s); }
  }

  /** The slots of a set of rules made from choices. */
  lemma HeldByChosen(chosen: map<Address, int>, sources: SourceMap, f: Family, p: int)
    requires Assignment(chosen)
    ensures Held(RulesFor(chosen, sources), f, p) <==> exists s :: s in chosen && s.family == f && chosen[s] == p
  {
    var rules := RulesFor(chosen, sources);
    forall r | r in rules { RulesForSlot(chosen, sources, r); }
    forall s | s in chosen && s.family == f && chosen[s] == p
      ensures Held(rules, f, p)
    {
      var r := Rule(chosen[s] + 1, s, None);
      assert r in rules && r.priority - r.priority % 2 == p;
    }
  }

  /** A location is occupied after i sources exactly if a rule in place or an earlier planned one has it. */
  lemma OccupiedIsHeld(sources: SourceMap, order: seq<Address>, existing: set<Rule>, hash: Address -> nat,
                       desired: set<Rule>, i: nat, l: Ledger, f: Family, p: int)
    requires Planned(sources, order, existing, hash, desired) && i <= |order|
    requires Allocate(order, i, existing, hash) == Some(l)
    ensures (f, p) in l.occupied <==> Held(existing + Earlier(desired, order, i), f, p)
  {
    var same := EarlierRules(sources, order, existing, hash, desired, i);
    SoundAssigns(l, SlotMap(existing), sources.Keys);
    HeldByChosen(l.chosen, sources, f, p);
    HeldInPlace(existing, f, p);
    HeldEither(existing, Earlier(desired, order, i), f, p);
  }

  lemma HeldInPlace(existing: set<Rule>, f: Family, p: int)
    ensures Held(existing, f, p) <==> (f, p) in Locations(existing)
  {
    forall r | r in existing && Where(r) == (f, p)
      ensures Held(existing, f, p)
    {
      assert r.source.family == f && r.priority - r.priority % 2 == p;
    }
    forall r | r in existing && r.source.family == f && r.priority - r.priority % 2 == p
      ensures (f, p) in Locations(existing)
    {
      assert Where(r) == (f, p);
    }
  }

  lemma HeldEither(a: set<Rule>, b: set<Rule>, f: Family, p: int)
    ensures Held(a + b, f, p) <==> Held(a, f, p) || Held(b, f, p)
  {
    if Held(a, f, p) { HeldMore(a, a + b, f, p); }
    if Held(b, f, p) { HeldMore(b, a + b, f, p); }
  }

  lemma InPlaceSlot(existing: set<Rule>, desired: set<Rule>, d: Rule)
    requires Consistent(existing) && KeepsSlots(desired, existing) && d in desired && d.source in Sources(existing)
    ensures d.source in SlotMap(existing) && SlotMap(existing)[d.source] == d.Slot()
  {
    var r :| r in existing && r.source == d.source;
    Indexed(existing, r);
    assert KeepsSlot(d, r);
  }

  /** The slots that the plan gives to sources with rules are those they have. */
  lemma ContinuingHeld(sources: SourceMap, order: seq<Address>, existing: set<Rule>, hash: Address -> nat,
                       desired: set<Rule>, f: Family, p: int)
    requires Planned(sources, order, existing, hash, desired)
    ensures Held(Continuing(desired, existing), f, p) <==>
      exists s :: s in sources && s in SlotMap(existing) && s.family == f && SlotMap(existing)[s] == p
  {
    PlanRealises(sources, order, existing, hash);
    var slots, rules := SlotMap(existing), Continuing(desired, existing);
    forall r | r in rules
      ensures r.source in sources && slots[r.source] == r.Slot()
    {
      InPlaceSlot(existing, desired, r);
    }
    forall s | s in sources && s in slots && s.family == f && slots[s] == p
      ensures Held(rules, f, p)
    {
      assert HasGuard(desired, s);
      var r :| r in desired && r.source == s && r.IsGuard();
      InPlaceSlot(existing, desired, r);
      assert r in rules && r.priority - r.priority % 2 == p;
    }
  }

  /** It has a live occupant exactly if a continuing source, or one placed since, has it. */
  lemma LivingIsHeld(sources: SourceMap, order: seq<Address>, existing: set<Rule>, hash: Address -> nat,
                     desired: set<Rule>, i: nat, l: Ledger, f: Family, p: int)
    requires Planned(sources, order, existing, hash, desired) && i <= |order|
    requires Allocate(order, i, existing, hash) == Some(l)
    ensures Living(l.occupied, sources.Keys, f, p) <==>
      Held(Continuing(desired, existing) + Earlier(desired, order, i), f, p)
  {
    var same := EarlierRules(sources, order, existing, hash, desired, i);
    SoundAssigns(l, SlotMap(existing), sources.Keys);
    HeldByChosen(l.chosen, sources, f, p);
    ContinuingHeld(sources, order, existing, hash, desired, f, p);
    HeldEither(Continuing(desired, existing), Earlier(desired, order, i), f, p);
    assert l.chosen.Keys <= sources.Keys;
  }

  // ---------------------------------------------------------------------
  // Where new sources go

  lemma PlaceChooses(l: Ledger, slots: map<Address, int>, live: set<Address>, hash: Address -> nat, s: Address,
                     next: Ledger)
    requires s !in slots && Place(l, slots, live, hash, s) == Some(next)
    ensures s in next.chosen && Choose(l.occupied, live, s, hash(s)) == Some(next.chosen[s])
  {
  }

  lemma SlotOnceChosen(sources: SourceMap, order: seq<Address>, existing: set<Rule>, hash: Address -> nat,
                       desired: set<Rule>, i: nat, d: Rule) returns (l: Ledger)
    requires Planned(sources, order, existing, hash, desired) && i <= |order| && d in desired && d.source in order[..i]
    ensures Allocate(order, i, existing, hash) == Some(l)
    ensures d.source in l.chosen && l.chosen[d.source] == d.Slot()
  {
    l := EarlierRules(sources, order, existing, hash, desired, i);
    assert d in Earlier(desired, order, i);
    SoundAssigns(l, SlotMap(existing), sources.Keys);
    RulesForSlot(l.chosen, sources, d);
  }

  lemma ChosenAt(sources: SourceMap, order: seq<Address>, existing: set<Rule>, hash: Address -> nat,
                 desired: set<Rule>, i: nat, d: Rule) returns (l: Ledger)
    requires Planned(sources, order, existing, hash, desired) && i < |order|
    requires d in desired && d.source == order[i] && d.source !in Sources(existing)
    ensures Allocate(order, i, existing, hash) == Some(l)
    ensures Choose(l.occupied, sources.Keys, d.source, hash(d.source)) == Some(d.Slot())
  {
    assert Elements(order) == sources.Keys;
    assert order[..i + 1][i] == d.source;
    var next := SlotOnceChosen(sources, order, existing, hash, desired, i + 1, d);
    ChosenStays(order, i, |order|, existing, hash);
    l := Allocate(order, i, existing, hash).value;
    AllocateNext(order, i, existing, hash, l);
    PlaceChooses(l, SlotMap(existing), sources.Keys, hash, d.source, next);
  }

  /** The plan is greedy. The i-th source, if it is new, takes the nearest slot that neither a rule in place nor an
      earlier source has; only when those have all of its family does it take the nearest that no source of the plan
      has so far. */
  lemma PlanIsGreedy(sources: SourceMap, order: seq<Address>, existing: set<Rule>, hash: Address -> nat,
                     desired: set<Rule>, i: nat, d: Rule) returns (k: nat)
    requires Planned(sources, order, existing, hash, desired) && i < |order|
    requires d in desired && d.source == order[i] && d.source !in Sources(existing)
    ensures d.priority - d.priority % 2 == Spot(hash(d.source), k)
    ensures var earlier := Earlier(desired, order, i);
            if AllHeld(existing + earlier, d.source.family)
            then Nearest(Continuing(desired, existing) + earlier, d.source.family, hash(d.source), k)
            else Nearest(existing + earlier, d.source.family, hash(d.source), k)
  {
    var l := ChosenAt(sources, order, existing, hash, desired, i, d);
    k := ChoosePrefers(l.occupied, sources.Keys, d.source, hash(d.source));
    assert Prefers(l.occupied, sources.Keys, d.source.family, hash(d.source), k);
    forall p {
      OccupiedIsHeld(sources, order, existing, hash, desired, i, l, d.source.family, p);
    }
    forall p {
      LivingIsHeld(sources, order, existing, hash, desired, i, l, d.source.family, p);
    }
  }

  lemma NewcomerAt(sources: SourceMap, order: seq<Address>, d: Rule) returns (i: nat)
    requires Lists(order, sources.Keys) && d.source in sources
    ensures i < |order| && order[i] == d.source
  {
    i :| 0 <= i < |order| && order[i] == d.source;
  }

  lemma AllHeldMore(some: set<Rule>, all: set<Rule>, f: Family)
    requires some <= all && AllHeld(some, f)
    ensures AllHeld(all, f)
  {
    forall p | 5000 <= p < 6000 && p % 2 == 0 { HeldMore(some, all, f, p); }
  }

  /** The slot of an obsolete source is reclaimed only when no slot of the family is free. */
  lemma ReclaimsOnlyWhenFull(sources: SourceMap, order: seq<Address>, existing: set<Rule>, hash: Address -> nat,
                             desired: set<Rule>, d: Rule, r: Rule)
    requires Planned(sources, order, existing, hash, desired) && d in desired && r in existing
    requires d.source != r.source && d.source.family == r.source.family
    requires d.priority - d.priority % 2 == r.priority - r.priority % 2
    ensures forall p :: 5000 <= p < 6000 && p % 2 == 0 ==> Held(existing + desired, d.source.family, p)
  {
    PlanRealises(sources, order, existing, hash);
    forall q | q in existing
      ensures q.source != d.source
    {
      assert KeepsSlot(d, q);
      assert Agree(q, r);
    }
    var i := NewcomerAt(sources, order, d);
    var k := PlanIsGreedy(sources, order, existing, hash, desired, i, d);
    var earlier := Earlier(desired, order, i);
    assert Held(existing + earlier, d.source.family, d.priority - d.priority % 2);
    AllHeldMore(existing + earlier, existing + desired, d.source.family);
  }

  /** A new source sits as near to its hash as the rules in place and the plan allow. */
  lemma NewSourcesSitNear(sources: SourceMap, order: seq<Address>, existing: set<Rule>, hash: Address -> nat,
                          desired: set<Rule>, d: Rule) returns (k: nat)
    requires Planned(sources, order, existing, hash, desired) && d in desired && d.source !in Sources(existing)
    ensures k < 500 && d.priority - d.priority % 2 == 5000 + 2 * ((hash(d.source) + k) % 500)
    ensures forall j: nat :: j < k ==> Held(existing + desired, d.source.family, Spot(hash(d.source), j))
  {
    PlanRealises(sources, order, existing, hash);
    var i := NewcomerAt(sources, order, d);
    k := PlanIsGreedy(sources, order, existing, hash, desired, i, d);
    var earlier := Earlier(desired, order, i);
    forall j: nat | j < k
      ensures Held(existing + desired, d.source.family, Spot(hash(d.source), j))
    {
      var near := if AllHeld(existing + earlier, d.source.family) then Continuing(desired, existing) + earlier
                  else existing + earlier;
      HeldMore(near, existing + desired, d.source.family, Spot(hash(d.source), j));
    }
  }
}
