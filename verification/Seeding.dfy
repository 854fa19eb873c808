/** Turning the guard on during a transition: live sources get their lookup first. */
module Seeding {
  import opened Wrappers
  import opened Addresses
  import opened PolicyRules
  import opened Allocation
  import opened Scripts
  import opened Kernel
  import opened Application
  import opened RuleSafety
  import opened Transition
  import opened Turns

  /** What the rules in place say of every source that has one. */
  ghost function CurrentTables(existing: set<Rule>): SourceMap {
    map s | s in Sources(existing) :: if HasLookup(existing, s) then Some(LookupTable(existing, s)) else None
  }

  /** The tables in place are those of the rules: a source has one if a lookup names it, and none if it has a guard
      only. */
  lemma TablesInPlace(existing: set<Rule>, a: Address, t: int)
    requires Consistent(existing)
    ensures (exists r :: r in existing && r.source == a) <==> a in CurrentTables(existing)
    ensures (exists r :: r in existing && r.source == a && r.table == Some(t)) <==>
      a in CurrentTables(existing) && CurrentTables(existing)[a] == Some(t)
  {
    if r :| r in existing && r.source == a && r.table == Some(t) {
      assert HasLookup(existing, a);
      var q :| q in existing && q.source == a && !q.IsGuard() && LookupTable(existing, a) == q.table.value;
      OneLookup(existing, r, q);
    }
    if a in CurrentTables(existing) && CurrentTables(existing)[a] == Some(t) {
      var q :| q in existing && q.source == a && !q.IsGuard() && LookupTable(existing, a) == q.table.value;
      assert q.table == Some(t);
    }
  }

  predicate AgreesWith(seeds: map<Address, int>, tables: SourceMap) {
    forall s :: s in seeds && s in tables ==> tables[s] == Some(seeds[s])
  }

  function Overlaid(seeds: map<Address, int>, tables: SourceMap): SourceMap {
    map s | s in seeds.Keys + tables.Keys :: if s in seeds then Some(seeds[s]) else tables[s]
  }

  /** A seed agrees with the rules in place: its source has no rule, or a lookup of the same table. */
  ghost predicate Agrees(seeds: map<Address, int>, existing: set<Rule>) {
    AgreesWith(seeds, CurrentTables(existing))
  }

  ghost function SeededTables(seeds: map<Address, int>, existing: set<Rule>): SourceMap {
    Overlaid(seeds, CurrentTables(existing))
  }

  predicate ValidSeeds(seeds: map<Address, int>) {
    forall s :: s in seeds ==> Usable(s) && KnownTable(seeds[s])
  }

  /** Seeds agree exactly if every seed whose source has rules has a lookup of its table among them. */
  lemma AgreesMeans(seeds: map<Address, int>, existing: set<Rule>)
    requires Consistent(existing)
    ensures Agrees(seeds, existing) <==>
      forall r :: r in existing && r.source in seeds ==>
        exists q :: q in existing && q.source == r.source && q.table == Some(seeds[r.source])
  {
    forall s | s in seeds { TablesInPlace(existing, s, seeds[s]); }
    forall r | r in existing && r.source in seeds
      ensures r.source in CurrentTables(existing)
    {
      TablesInPlace(existing, r.source, seeds[r.source]);
    }
  }

  /** A plan of the seeds looks up every seed in its table and every other source with rules where it was, and guards
      all of them. */
  lemma SeededRulesMean(seeds: map<Address, int>, existing: set<Rule>, desired: set<Rule>, s: Address, t: int)
    requires Consistent(existing) && Realises(desired, SeededTables(seeds, existing))
    ensures (exists r :: r in desired && r.source == s && r.table == Some(t)) <==>
      if s in seeds then seeds[s] == t else exists r :: r in existing && r.source == s && r.table == Some(t)
    ensures (exists r :: r in desired && r.source == s && r.table == None) <==>
      s in seeds || exists r :: r in existing && r.source == s
  {
    TablesInPlace(existing, s, t);
    RealisesMeans(desired, SeededTables(seeds, existing), s, t);
  }

  lemma SeededValid(seeds: map<Address, int>, existing: set<Rule>)
    requires Consistent(existing) && ValidSeeds(seeds)
    ensures ValidSources(SeededTables(seeds, existing))
  {
    var tables := SeededTables(seeds, existing);
    forall s | s in tables
      ensures Usable(s) && (tables[s].Some? ==> KnownTable(tables[s].value))
    {
      if s !in seeds {
        var r :| r in existing && r.source == s;
        assert Canonical(r);
        if HasLookup(existing, s) {
          var q :| q in existing && q.source == s && !q.IsGuard() && LookupTable(existing, s) == q.table.value;
          assert Canonical(q);
        }
      }
    }
  }

  lemma SeededKeepsGuard(seeds: map<Address, int>, existing: set<Rule>, desired: set<Rule>, r: Rule)
    requires Realises(desired, SeededTables(seeds, existing)) && KeepsSlots(desired, existing)
    requires r in existing && Canonical(r) && r.IsGuard()
    ensures r in desired
  {
    assert r.source in Sources(existing);
    assert HasGuard(desired, r.source);
    var d :| d in desired && d.source == r.source && d.IsGuard();
    assert KeepsSlot(d, r) && Canonical(d);
  }

  lemma SeededKeepsLookup(seeds: map<Address, int>, existing: set<Rule>, desired: set<Rule>, r: Rule)
    requires Consistent(existing) && Agrees(seeds, existing)
    requires Realises(desired, SeededTables(seeds, existing)) && KeepsSlots(desired, existing)
    requires r in existing && !r.IsGuard()
    ensures r in desired
  {
    var s := r.source;
    assert s in Sources(existing) && Canonical(r);
    assert CurrentTables(existing)[s] == r.table by {
      var q :| q in existing && q.source == s && !q.IsGuard() && LookupTable(existing, s) == q.table.value;
      OneLookup(existing, r, q);
    }
    assert HasLookup(desired, s);
    var d :| d in desired && d.source == s && !d.IsGuard();
    assert KeepsSlot(d, r) && Canonical(d);
  }

  /** A plan for the seeded tables contains every rule in place: nothing is to be retired. */
  lemma SeededPlanExtends(seeds: map<Address, int>, existing: set<Rule>, desired: set<Rule>)
    requires Consistent(existing) && Agrees(seeds, existing)
    requires Realises(desired, SeededTables(seeds, existing)) && KeepsSlots(desired, existing)
    ensures existing <= desired
  {
    forall r | r in existing
      ensures r in desired
    {
      if r.IsGuard() { SeededKeepsGuard(seeds, existing, desired, r); }
      else { SeededKeepsLookup(seeds, existing, desired, r); }
    }
  }

  /** Only adds, and every command is enabled. */
  lemma SeedApplicable(kernel: set<KernelRule>, desired: set<Rule>)
    requires PairRules(kernel) <= desired
    ensures Staged([kernel, kernel + Pairs(LookupsIn(desired)), kernel + Pairs(desired)],
                   LiftAll(SeedPhases(desired, PairRules(kernel))))
  {
    var existing := PairRules(kernel);
    var phases := LiftAll(SeedPhases(desired, existing));
    assert |phases| == 2;
    assert phases[0] == Lift(Phase(true, LookupsIn(desired - existing)));
    assert phases[1] == Lift(Phase(true, GuardsIn(desired - existing)));
    forall k: KernelRule
      ensures k in kernel + Pairs(LookupsIn(desired - existing)) <==> k in kernel + Pairs(LookupsIn(desired))
      ensures k in kernel + Pairs(LookupsIn(desired)) + Pairs(GuardsIn(desired - existing)) <==>
        k in kernel + Pairs(desired)
      ensures k in kernel ==> k !in Pairs(LookupsIn(desired - existing))
      ensures k in kernel + Pairs(LookupsIn(desired)) ==> k !in Pairs(GuardsIn(desired - existing))
    {
      if k.Pair? {
        PairsMember(LookupsIn(desired - existing), k.rule);
        PairsMember(LookupsIn(desired), k.rule);
        PairsMember(GuardsIn(desired - existing), k.rule);
        PairsMember(desired, k.rule);
        assert k in kernel <==> k.rule in existing;
      }
    }
  }

  /** The kernel states that turning the guard on passes through, from the rules in place to both guards. */
  predicate OnTheWay(kernel: set<KernelRule>, desired: set<Rule>, now: set<KernelRule>) {
    var seeded := kernel + Pairs(desired);
    || Between(kernel, LiftAll(SeedPhases(desired, PairRules(kernel))), now)
    || Between(seeded, EnablePhases(seeded, V4), now)
    || Between(seeded + GuardRules(V4), EnablePhases(seeded + GuardRules(V4), V6), now)
  }

  lemma SeedMiddle(kernel: set<KernelRule>, desired: set<Rule>, now: set<KernelRule>)
    requires PairRules(kernel) <= desired && Between(kernel, LiftAll(SeedPhases(desired, PairRules(kernel))), now)
    ensures kernel <= now <= kernel + Pairs(desired)
    ensures Pairs(LookupsIn(desired)) <= now || now <= kernel + Pairs(LookupsIn(desired))
  {
    SeedApplicable(kernel, desired);
    var n := StagedBetween([kernel, kernel + Pairs(LookupsIn(desired)), kernel + Pairs(desired)],
                           LiftAll(SeedPhases(desired, PairRules(kernel))), now);
    assert kernel + Pairs(LookupsIn(desired)) <= kernel + Pairs(desired) by {
      forall k | k in Pairs(LookupsIn(desired)) ensures k in Pairs(desired) { PairsMember(desired, k.rule); }
    }
  }

  /** At every state met: rules in place stay, only planned pairs and the guards are added, and a guard or a
      terminal rule is added only once every planned lookup of both families is in. */
  lemma LookupsPrecedeGuards(kernel: set<KernelRule>, desired: set<Rule>, now: set<KernelRule>, k: KernelRule)
    requires PairRules(kernel) <= desired && OnTheWay(kernel, desired, now)
    requires k in now && k !in kernel
    ensures kernel <= now
    ensures k in Pairs(desired) || k in GuardRules(V4) + GuardRules(V6)
    ensures !(k.Pair? && !k.rule.IsGuard()) ==> Pairs(LookupsIn(desired)) <= now
  {
    var seeded := kernel + Pairs(desired);
    assert Pairs(LookupsIn(desired)) <= seeded by {
      forall q | q in Pairs(LookupsIn(desired)) ensures q in Pairs(desired) { PairsMember(desired, q.rule); }
    }
    if Between(kernel, LiftAll(SeedPhases(desired, PairRules(kernel))), now) {
      SeedMiddle(kernel, desired, now);
      if k in Pairs(LookupsIn(desired)) { assert k.Pair? && !k.rule.IsGuard(); }
    } else if Between(seeded, EnablePhases(seeded, V4), now) {
      EnableOnTheWay(seeded, V4, now);
    } else {
      EnableOnTheWay(seeded + GuardRules(V4), V6, now);
    }
  }

  lemma SeedLookup(seeds: map<Address, int>, existing: set<Rule>, desired: set<Rule>, s: Address) returns (r: Rule)
    requires Realises(desired, SeededTables(seeds, existing)) && s in seeds
    ensures r in desired && r.source == s && r.table == Some(seeds[s])
  {
    assert HasLookup(desired, s);
    r :| r in desired && r.source == s && !r.IsGuard();
  }

  /** A seed whose source already has a rule has its lookup in place. */
  lemma SeedInPlace(seeds: map<Address, int>, existing: set<Rule>, desired: set<Rule>, r: Rule)
    requires Consistent(existing) && Agrees(seeds, existing) && existing <= desired
    requires Realises(desired, SeededTables(seeds, existing))
    requires r in desired && r.source in seeds && !r.IsGuard() && r.source in Sources(existing)
    ensures r in existing
  {
    assert CurrentTables(existing)[r.source].Some?;
    var q :| q in existing && q.source == r.source && !q.IsGuard();
    OneLookup(desired, q, r);
  }

  /** Before the terminal guard existed, turning it on makes no seeded source unreachable at any state met. */
  lemma SeededNeverBlocked(kernel: set<KernelRule>, seeds: map<Address, int>, desired: set<Rule>, now: set<KernelRule>,
                           s: Address, d: Address, o: Outcome)
    requires Terminal(V4) !in kernel && Terminal(V6) !in kernel
    requires var existing := PairRules(kernel);
             && Consistent(existing) && Agrees(seeds, existing)
             && Realises(desired, SeededTables(seeds, existing)) && KeepsSlots(desired, existing)
    requires OnTheWay(kernel, desired, now) && s in seeds && Resolves(now, s, d, o)
    ensures !o.Blocked?
  {
    var existing := PairRules(kernel);
    SeededPlanExtends(seeds, existing, desired);
    var r := SeedLookup(seeds, existing, desired, s);
    OnlyAdds(kernel, desired, now);
    forall k | k in now && Matches(k, s, d) && Verdict(k).Blocked?
      ensures Pair(r) in now && Priority(Pair(r)) < Priority(k)
    {
      if k in kernel {
        assert k != Terminal(V4) && k != Terminal(V6);
        SeedLookupInKernel(kernel, seeds, desired, k.rule, r);
      } else {
        LookupAlreadyIn(kernel, desired, now, k, r);
      }
      if k.Pair? { PlannedPair(kernel, desired, now, k); }
      LookupOutranks(desired, r, k);
    }
    assert Matches(Pair(r), s, d);
  }

  lemma LookupAlreadyIn(kernel: set<KernelRule>, desired: set<Rule>, now: set<KernelRule>, k: KernelRule, r: Rule)
    requires PairRules(kernel) <= desired && OnTheWay(kernel, desired, now) && k in now && k !in kernel
    requires (k.Terminal? || (k.Pair? && k.rule.IsGuard())) && r in desired && !r.IsGuard()
    ensures Pair(r) in now
  {
    PairsMember(LookupsIn(desired), r);
    LookupsPrecedeGuards(kernel, desired, now, k);
  }

  lemma SeedLookupInKernel(kernel: set<KernelRule>, seeds: map<Address, int>, desired: set<Rule>, q: Rule, r: Rule)
    requires var existing := PairRules(kernel);
             && Consistent(existing) && Agrees(seeds, existing) && existing <= desired
             && Realises(desired, SeededTables(seeds, existing))
    requires Pair(q) in kernel && q.source == r.source && r.source in seeds && r in desired && !r.IsGuard()
    ensures Pair(r) in kernel
  {
    assert q in PairRules(kernel);
    SeedInPlace(seeds, PairRules(kernel), desired, r);
  }

  lemma PlannedPair(kernel: set<KernelRule>, desired: set<Rule>, now: set<KernelRule>, k: KernelRule)
    requires PairRules(kernel) <= desired && OnTheWay(kernel, desired, now) && k in now && k.Pair?
    ensures k.rule in desired
  {
    OnlyAdds(kernel, desired, now);
    PairsMember(desired, k.rule);
    if k in kernel { assert k.rule in PairRules(kernel); }
  }

  lemma LookupOutranks(desired: set<Rule>, r: Rule, k: KernelRule)
    requires Consistent(desired) && r in desired && !r.IsGuard()
    requires k.Terminal? || (k.Pair? && k.rule in desired && k.rule.IsGuard() && k.rule.source == r.source)
    ensures Priority(Pair(r)) < Priority(k)
  {
    assert Canonical(r);
    if k.Pair? { assert Agree(r, k.rule) && Canonical(k.rule); }
  }

  lemma OnlyAdds(kernel: set<KernelRule>, desired: set<Rule>, now: set<KernelRule>)
    requires PairRules(kernel) <= desired && OnTheWay(kernel, desired, now)
    ensures kernel <= now <= kernel + Pairs(desired) + GuardRules(V4) + GuardRules(V6)
  {
    var seeded := kernel + Pairs(desired);
    if Between(kernel, LiftAll(SeedPhases(desired, PairRules(kernel))), now) {
      SeedMiddle(kernel, desired, now);
    } else if Between(seeded, EnablePhases(seeded, V4), now) {
      EnableOnTheWay(seeded, V4, now);
    } else {
      EnableOnTheWay(seeded + GuardRules(V4), V6, now);
    }
  }

  // ---------------------------------------------------------------------
  // The transition as it runs

  datatype Ending = Started | SeedConflict | Refused | Stopped

  /** The tables of the rules in place: lookups first, guard-only sources as quarantined. */
  method ReadTables(existing: set<Rule>) returns (tables: SourceMap)
    requires Consistent(existing)
    ensures tables == CurrentTables(existing)
  {
    tables := map[];
    var lookups := LookupsIn(existing);
    var todo := lookups;
    while todo != {}
      invariant todo <= lookups && tables.Keys == Sources(lookups - todo)
      invariant forall s :: s in tables ==> HasLookup(existing, s) && tables[s] == Some(LookupTable(existing, s))
      decreases todo
    {
      var r :| r in todo;
      LookupDecides(existing, r);
      assert lookups - (todo - {r}) == (lookups - todo) + {r};
      tables := tables[r.source := r.table];
      todo := todo - {r};
    }
    assert lookups - todo == lookups;
    var rest := existing;
    while rest != {}
      invariant rest <= existing && tables.Keys == Sources(lookups + (existing - rest))
      invariant forall s :: s in tables ==> tables[s] == CurrentTables(existing)[s]
      decreases rest
    {
      var r :| r in rest;
      assert lookups + (existing - (rest - {r})) == lookups + (existing - rest) + {r};
      assert r.source in Sources(existing);
      if r.source !in tables {
        NoLookupOutside(existing, r.source, tables.Keys, rest);
        tables := tables[r.source := None];
      }
      rest := rest - {r};
    }
    assert lookups + (existing - rest) == existing;
  }

  lemma NoLookupOutside(existing: set<Rule>, s: Address, keys: set<Address>, rest: set<Rule>)
    requires keys == Sources(LookupsIn(existing) + (existing - rest)) && s !in keys
    ensures !HasLookup(existing, s)
  {
    forall r | r in existing && !r.IsGuard()
      ensures r.source in keys
    {
      assert r in LookupsIn(existing) + (existing - rest);
    }
  }

  /** Overlays the seeds on the tables in place; a disagreement is a conflict. */
  method Overlay(seeds: map<Address, int>, tables: SourceMap) returns (r: Option<SourceMap>)
    ensures r.Some? <==> AgreesWith(seeds, tables)
    ensures r.Some? ==> r.value == Overlaid(seeds, tables)
  {
    var current := tables;
    var todo := seeds.Keys;
    while todo != {}
      invariant todo <= seeds.Keys && current.Keys == (seeds.Keys - todo) + tables.Keys
      invariant forall s :: s in current ==>
        current[s] == if s in seeds && s !in todo then Some(seeds[s]) else tables[s]
      invariant forall s :: s in seeds && s !in todo && s in tables ==> tables[s] == Some(seeds[s])
      decreases todo
    {
      var s :| s in todo;
      if s in current && current[s] != Some(seeds[s]) { return None; }
      current := current[s := Some(seeds[s])];
      todo := todo - {s};
    }
    r := Some(current);
  }

  /** Turns the guard on. Whatever fails, the kernel is in a state on the way to a plan of the seeds; a
      conflict or a refusal leaves it untouched; success leaves every planned pair and both guards. */
  method StartTransition(device: Device<KernelRule>, seeds: map<Address, int>, hash: Address -> nat)
    returns (r: Ending, ghost desired: set<Rule>, ghost turns: seq<Turn>)
    requires ValidSeeds(seeds)
    modifies device
    ensures Leads(old(device.state), turns, device.state)
    ensures r.SeedConflict? || r.Refused? ==> device.state == old(device.state)
    ensures r.SeedConflict? <==>
      Consistent(PairRules(old(device.state))) && !Agrees(seeds, PairRules(old(device.state)))
    ensures r.Refused? <==>
      || !Consistent(PairRules(old(device.state)))
      || (Agrees(seeds, PairRules(old(device.state))) && !Fits(SeededTables(seeds, PairRules(old(device.state))).Keys))
    ensures r.Started? || r.Stopped? ==>
      && Consistent(PairRules(old(device.state))) && Agrees(seeds, PairRules(old(device.state)))
      && Realises(desired, SeededTables(seeds, PairRules(old(device.state))))
      && KeepsSlots(desired, PairRules(old(device.state)))
      && OnTheWay(old(device.state), desired, device.state)
    ensures r.Started? ==> device.state == old(device.state) + Pairs(desired) + GuardRules(V4) + GuardRules(V6)
    ensures device.reliable ==> !r.Stopped?
  {
    var existing := PairRules(device.state);
    desired, turns := {}, [];
    if !Consistent(existing) { return Refused, desired, turns; }
    var tables := ReadTables(existing);
    var current := Overlay(seeds, tables);
    if current.None? { return SeedConflict, desired, turns; }
    var order := Listing(current.value.Keys);
    var plan := PlanRules(current.value, order, existing, hash);
    PlanSucceeds(current.value, order, existing, hash);
    if plan.Failure? { return Refused, desired, turns; }
    SeededValid(seeds, existing);
    PlanRealises(current.value, order, existing, hash);
    SeededPlanExtends(seeds, existing, plan.value);
    r, turns := IssueSeeds(device, plan.value, existing);
    desired := plan.value;
  }

  /** With the planned pairs in, whatever part of the guard is on, the source rules can be read. */
  lemma StillReadable(kernel: set<KernelRule>, desired: set<Rule>, now: set<KernelRule>)
    requires PairRules(kernel) <= desired && Consistent(desired)
    requires kernel + Pairs(desired) <= now <= kernel + Pairs(desired) + GuardRules(V4) + GuardRules(V6)
    ensures Readable(PairRules(now), V4) && Readable(PairRules(now), V6)
  {
    forall r: Rule
      ensures r in PairRules(now) <==> r in desired
    {
      PairsMember(desired, r);
      assert r in PairRules(kernel) <==> Pair(r) in kernel;
      assert r in PairRules(now) <==> Pair(r) in now;
    }
    assert PairRules(now) == desired;
    ReadableBoth(desired);
  }

  method IssueSeeds(device: Device<KernelRule>, desired: set<Rule>, existing: set<Rule>)
    returns (r: Ending, ghost turns: seq<Turn>)
    requires existing == PairRules(device.state) && existing <= desired && Consistent(desired)
    modifies device
    ensures Leads(old(device.state), turns, device.state)
    ensures r.Started? || (r.Stopped? && !device.reliable)
    ensures OnTheWay(old(device.state), desired, device.state)
    ensures r.Started? ==> device.state == old(device.state) + Pairs(desired) + GuardRules(V4) + GuardRules(V6)
  {
    ghost var kernel := device.state;
    var ok, turn := IssuePairs(device, desired, existing);
    turns := [turn];
    SeedTurnLeads(kernel, turn);
    if !ok { return Stopped, turns; }
    r, turns := GuardSeeded(device, desired, kernel, turns);
  }

  /** Issues the planned pairs: all lookups, then all guards. */
  method IssuePairs(device: Device<KernelRule>, desired: set<Rule>, existing: set<Rule>)
    returns (ok: bool, ghost turn: Turn)
    requires existing == PairRules(device.state) && existing <= desired
    modifies device
    ensures turn.move == Seed(desired) && Possible(old(device.state), turn)
    ensures device.state == AfterTurn(old(device.state), turn)
    ensures Between(old(device.state), LiftAll(SeedPhases(desired, existing)), device.state)
    ensures (device.reliable ==> ok) && (ok ==> device.state == old(device.state) + Pairs(desired))
  {
    ghost var kernel := device.state;
    var phases := LiftAll(SeedPhases(desired, existing));
    SeedApplicable(kernel, desired);
    StagedRuns([kernel, kernel + Pairs(LookupsIn(desired)), kernel + Pairs(desired)], phases);
    var done, commands, n := RunPhases(device, phases);
    ScriptPrefix(kernel, commands, phases, n);
    ok, turn := done, Turn(Seed(desired), commands, n);
  }

  lemma SeedTurnLeads(kernel: set<KernelRule>, t: Turn)
    requires Possible(kernel, t) && t.move.Seed? && PairRules(kernel) <= t.move.desired && Consistent(t.move.desired)
    ensures Leads(kernel, [t], AfterTurn(kernel, t))
  {
    LeadsNext(kernel, [], kernel, t);
    assert [] + [t] == [t];
  }

  /** Turns on both guards once the seeds are in. */
  method GuardSeeded(device: Device<KernelRule>, ghost desired: set<Rule>, ghost kernel: set<KernelRule>,
                     ghost before: seq<Turn>)
    returns (r: Ending, ghost turns: seq<Turn>)
    requires PairRules(kernel) <= desired && Consistent(desired)
    requires device.state == kernel + Pairs(desired) && Leads(kernel, before, device.state)
    modifies device
    ensures Leads(kernel, turns, device.state) && OnTheWay(kernel, desired, device.state)
    ensures r.Started? || (r.Stopped? && !device.reliable)
    ensures r.Started? ==> device.state == kernel + Pairs(desired) + GuardRules(V4) + GuardRules(V6)
  {
    ghost var seeded := device.state;
    StillReadable(kernel, desired, seeded);
    var ok, turn := EnableOne(device, V4);
    LeadsNext(kernel, before, seeded, turn);
    turns := before + [turn];
    if !ok { return Stopped, turns; }
    ghost var guarded := device.state;
    StillReadable(kernel, desired, guarded);
    ok, turn := EnableOne(device, V6);
    LeadsNext(kernel, turns, guarded, turn);
    turns := turns + [turn];
    r := if ok then Started else Stopped;
  }
}
