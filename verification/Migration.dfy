/** Replacing legacy source selectors by exact source rules, without a gap. */
module Migration {
  import opened Wrappers
  import opened Addresses
  import opened PolicyRules
  import opened Allocation
  import opened Scripts
  import opened Kernel
  import opened Application
  import opened RuleSafety
  import opened Turns
  import opened MigrationChoice
  import Seeding
  import SourceTables

  // ---------------------------------------------------------------------
  // The states on the way

  /** First the new rules, then, one by one, the selectors go. */
  predicate OnTheWay(kernel: set<KernelRule>, desired: set<Rule>, selectors: seq<Selector>, now: set<KernelRule>) {
    var replaced := Others(kernel) + Pairs(desired);
    || Between(kernel, LiftAll(Phases(desired, PairRules(kernel))), now)
    || (replaced - SelectorRules(selectors) <= now <= replaced)
  }

  lemma NothingChanges(desired: set<Rule>, existing: set<Rule>)
    requires Target(desired, existing) && existing <= desired
    ensures Reclaimed(desired, existing) == {} && Remaining(desired, existing) == existing
    ensures Changing(desired, existing) == {} && Guards(desired, existing) <= desired
  {
    assert Sources(existing) <= Sources(desired);
    NothingReclaimed(desired, existing);
  }

  /** When the plan contains the rules in place, applying it only adds. */
  lemma ExtendingOnlyAdds(desired: set<Rule>, existing: set<Rule>, middle: set<Rule>)
    requires Target(desired, existing) && existing <= desired
    requires Between(existing, Phases(desired, existing), middle)
    ensures existing <= middle <= desired
  {
    NothingChanges(desired, existing);
    PhasesAreStaged(desired, existing);
    var n := StagedBetween(Stages(desired, existing), Phases(desired, existing), middle);
    ExtendingStages(desired, existing, Guards(desired, existing), n, middle);
  }

  lemma ExtendingStages(desired: set<Rule>, existing: set<Rule>, guards: set<Rule>, n: nat, middle: set<Rule>)
    requires n < 8 && existing <= desired && guards <= desired
    requires Within(StageOf(existing, {}, desired, guards, {}, n), PhasesOf(existing, {}, desired, guards, {})[n],
      middle)
    ensures existing <= middle <= desired
  {
  }

  /** No owned rule is deleted on the way, and the planned rules are all in before the first selector goes. */
  lemma MigrationOnlyAdds(kernel: set<KernelRule>, desired: set<Rule>, selectors: seq<Selector>, now: set<KernelRule>)
    requires Target(desired, PairRules(kernel)) && PairRules(kernel) <= desired
    requires OnTheWay(kernel, desired, selectors, now)
    ensures PairRules(kernel) <= PairRules(now) <= desired
    ensures Others(now) == Others(kernel) || PairRules(now) == desired
    ensures Others(kernel) - SelectorRules(selectors) <= Others(now) <= Others(kernel)
  {
    var replaced := Others(kernel) + Pairs(desired);
    if Between(kernel, LiftAll(Phases(desired, PairRules(kernel))), now) {
      LiftedBetween(kernel, Phases(desired, PairRules(kernel)), now);
      ExtendingOnlyAdds(desired, PairRules(kernel), PairRules(now));
    } else {
      forall r: Rule
        ensures r in PairRules(now) <==> r in desired
      {
        PairsMember(desired, r);
        assert Pair(r) !in SelectorRules(selectors) && Pair(r) !in Others(kernel);
        assert r in PairRules(now) <==> Pair(r) in now;
      }
      assert forall k: KernelRule :: !k.Pair? ==> k !in Pairs(desired);
    }
  }

  lemma ChosenLookup(chosen: map<Address, int>, existing: set<Rule>, desired: set<Rule>, s: Address)
    requires Realises(desired, Seeding.SeededTables(chosen, existing)) && s in chosen
    ensures Direct(desired, s) == Table(chosen[s])
  {
    var r := Seeding.SeedLookup(chosen, existing, desired, s);
    LookupDecides(desired, r);
  }

  /** Selectors come first: as long as one that covers the source is left, it decides, by one of the tables matched. */
  lemma SelectorDecides(selectors: seq<Selector>, now: set<KernelRule>, s: Address, d: Address, o: Outcome,
                        x: KernelRule)
    requires AdmittedSelectors(selectors)
    requires forall k :: k in now && k.Legacy? ==> k in SelectorRules(selectors)
    requires forall r :: r in PairRules(now) ==> Canonical(r)
    requires x in now && x.Legacy? && Matches(x, s, d) && Resolves(now, s, d, o)
    ensures o.Table? && o.n in MatchTables(selectors, s)
  {
    assert forall q :: q in now && q.Pair? ==> q.rule in PairRules(now) && Priority(q) >= PRIORITY_START;
    var k :| FirstMatch(now, s, d, k) && o == Verdict(k);
    assert Priority(k) <= Priority(x) < 5000 by {
      var i :| 0 <= i < |selectors| && x == Legacy(selectors[i]);
      assert ValidSelector(selectors[i]);
    }
    assert k.Legacy?;
    var j :| 0 <= j < |selectors| && k == Legacy(selectors[j]);
  }

  /** Make before break: at every state met, a packet of an admitted live address that a selector covered is
      looked up in a table that its selectors name; it is never blocked and never falls through. */
  lemma MigrationKeepsRoute(kernel: set<KernelRule>, chosen: map<Address, int>, selectors: seq<Selector>,
                            desired: set<Rule>, now: set<KernelRule>, s: Address, d: Address, o: Outcome)
    requires AdmittedSelectors(selectors)
    requires var existing := PairRules(kernel);
             && Consistent(existing) && Seeding.Agrees(chosen, existing)
             && Realises(desired, Seeding.SeededTables(chosen, existing)) && KeepsSlots(desired, existing)
    requires forall k :: k in kernel && k.Legacy? ==> k in SelectorRules(selectors)
    requires s in chosen && chosen[s] in MatchTables(selectors, s)
    requires exists k :: k in kernel && k.Legacy? && Matches(k, s, d)
    requires OnTheWay(kernel, desired, selectors, now) && Resolves(now, s, d, o)
    ensures o.Table? && o.n in MatchTables(selectors, s)
  {
    var existing := PairRules(kernel);
    PlanIsTarget(Seeding.SeededTables(chosen, existing), desired, existing);
    Seeding.SeededPlanExtends(chosen, existing, desired);
    MigrationOnlyAdds(kernel, desired, selectors, now);
    assert forall k :: k in now && k.Legacy? ==> k in Others(now) && k in kernel;
    if x :| x in now && x.Legacy? && Matches(x, s, d) {
      SelectorDecides(selectors, now, s, d, o, x);
    } else {
      var x :| x in kernel && x.Legacy? && Matches(x, s, d);
      assert x in Others(kernel) && x !in Others(now);
      ReplacedRoute(chosen, existing, desired, now, s, d, o);
    }
  }

  /** With the new rules in and no selector for a packet left, the chosen table decides. */
  lemma ReplacedRoute(chosen: map<Address, int>, existing: set<Rule>, desired: set<Rule>, now: set<KernelRule>,
                      s: Address, d: Address, o: Outcome)
    requires Realises(desired, Seeding.SeededTables(chosen, existing)) && s in chosen && Consistent(desired)
    requires PairRules(now) == desired && Resolves(now, s, d, o)
    requires forall k :: k in now && k.Legacy? ==> !Matches(k, s, d)
    ensures o == Table(chosen[s])
  {
    ChosenLookup(chosen, existing, desired, s);
    PairsDecide(now, s, d, o);
  }

  /** When all selectors that cover the address name one table, that table never changes. */
  lemma MigrationKeepsTable(kernel: set<KernelRule>, chosen: map<Address, int>, selectors: seq<Selector>,
                            desired: set<Rule>, now: set<KernelRule>, s: Address, d: Address, o: Outcome, t: int)
    requires AdmittedSelectors(selectors)
    requires var existing := PairRules(kernel);
             && Consistent(existing) && Seeding.Agrees(chosen, existing)
             && Realises(desired, Seeding.SeededTables(chosen, existing)) && KeepsSlots(desired, existing)
    requires forall k :: k in kernel && k.Legacy? ==> k in SelectorRules(selectors)
    requires s in chosen && chosen[s] in MatchTables(selectors, s) && MatchTables(selectors, s) == {t}
    requires exists k :: k in kernel && k.Legacy? && Matches(k, s, d)
    requires OnTheWay(kernel, desired, selectors, now) && Resolves(now, s, d, o)
    ensures o == Table(t)
  {
    MigrationKeepsRoute(kernel, chosen, selectors, desired, now, s, d, o);
  }

  // ---------------------------------------------------------------------
  // The migration as it runs

  datatype Ending = Migrated | NothingToDo | Refused | Stopped

  lemma StillThere(selectors: seq<Selector>, i: nat)
    requires AdmittedSelectors(selectors) && i < |selectors|
    ensures Legacy(selectors[i]) in SelectorRules(selectors) && Legacy(selectors[i]) !in SelectorRules(selectors[..i])
  {
    forall k | 0 <= k < i
      ensures selectors[..i][k] != selectors[i]
    {
      assert selectors[..i][k] == selectors[k];
    }
  }

  function RetireScript(selectors: seq<Selector>): (r: seq<Command<KernelRule>>)
    ensures |r| == |selectors| && forall i :: 0 <= i < |r| ==> r[i] == Del(Legacy(selectors[i]))
  {
    seq(|selectors|, i requires 0 <= i < |selectors| => Del(Legacy(selectors[i])))
  }

  lemma {:induction false} RetireIsScript(selectors: seq<Selector>)
    ensures IsScript(RetireScript(selectors), RetirePhases(selectors))
    decreases |selectors|
  {
    if selectors == [] {
    } else {
      RetireIsScript(selectors[1..]);
      assert RetirePhases(selectors)[1..] == RetirePhases(selectors[1..]);
      assert RetireScript(selectors)[1..] == RetireScript(selectors[1..]);
    }
  }

  lemma SelectorRulesNext(selectors: seq<Selector>, i: nat)
    requires i < |selectors|
    ensures SelectorRules(selectors[..i + 1]) == SelectorRules(selectors[..i]) + {Legacy(selectors[i])}
    ensures SelectorRules(selectors[..i + 1]) <= SelectorRules(selectors)
  {
    var more, less := selectors[..i + 1], selectors[..i];
    assert more == less + [selectors[i]] && more[i] == selectors[i];
    assert forall k :: 0 <= k < i ==> more[k] == less[k];
  }

  /** After some of the deletions. */
  lemma {:induction false} RetiredSome(first: set<KernelRule>, selectors: seq<Selector>, i: nat)
    requires i <= |selectors|
    ensures Run(first, RetireScript(selectors)[..i]) == first - SelectorRules(selectors[..i])
    ensures SelectorRules(selectors[..i]) <= SelectorRules(selectors)
  {
    if i == 0 {
    } else {
      RetiredSome(first, selectors, i - 1);
      RunNext(first, RetireScript(selectors), i - 1);
      SelectorRulesNext(selectors, i - 1);
    }
  }

  /** Deletes the selectors one by one; a selector that is not there makes its command fail. */
  method DeleteSelectors(device: Device<KernelRule>, selectors: seq<Selector>) returns (ok: bool, ghost turn: Turn)
    modifies device
    ensures turn.move == Retire(selectors) && Possible(old(device.state), turn)
    ensures device.state == AfterTurn(old(device.state), turn)
    ensures old(device.state) - SelectorRules(selectors) <= device.state <= old(device.state)
    ensures ok ==> device.state == old(device.state) - SelectorRules(selectors)
    ensures device.reliable && AdmittedSelectors(selectors) && SelectorRules(selectors) <= old(device.state) ==> ok
  {
    ghost var first, script := device.state, RetireScript(selectors);
    RetireIsScript(selectors);
    for i := 0 to |selectors|
      invariant device.state == Run(first, script[..i])
    {
      RunNext(first, script, i);
      RetiredSome(first, selectors, i);
      RetiredSome(first, selectors, i + 1);
      if AdmittedSelectors(selectors) { StillThere(selectors, i); }
      turn := Turn(Retire(selectors), script, i);
      if Legacy(selectors[i]) !in device.state { return false, turn; }
      ghost var log := device.log;
      var done := device.Issue(Del(Legacy(selectors[i])));
      if !done {
        if device.log != log { turn := Turn(Retire(selectors), script, i + 1); }
        return false, turn;
      }
    }
    RetiredSome(first, selectors, |selectors|);
    assert selectors[..|selectors|] == selectors;
    ok, turn := true, Turn(Retire(selectors), script, |script|);
  }

  /** What makes a plan a migration plan of the rules in place. */
  ghost predicate PlannedFor(desired: set<Rule>, chosen: map<Address, int>, existing: set<Rule>) {
    && Consistent(existing) && Seeding.Agrees(chosen, existing)
    && Realises(desired, Seeding.SeededTables(chosen, existing)) && KeepsSlots(desired, existing)
  }

  /** Everything that a migration demands before its first command. */
  ghost predicate Migratable(selectors: seq<Selector>, bindings: Bindings, inventory: seq<SourceTables.Link>,
                             active: bool, existing: set<Rule>) {
    && |selectors| <= MAX_SELECTORS && AdmittedSelectors(selectors) && Consistent(existing)
    && Acceptable(selectors, bindings, inventory, active, existing)
    && Fits(CoveredShown(selectors, inventory) + Sources(existing))
  }

  lemma ChosenValid(chosen: map<Address, int>, selectors: seq<Selector>, live: seq<LiveAddress>, active: bool,
                    tables: SourceMap)
    requires Chosen(chosen, selectors, live, active, tables) && AdmittedSelectors(selectors)
    ensures Seeding.ValidSeeds(chosen)
  {
    forall s | s in chosen
      ensures KnownTable(chosen[s])
    {
      var i :| 0 <= i < |selectors| && selectors[i].table == chosen[s];
      assert ValidSelector(selectors[i]);
    }
  }

  /** The table of every covered address that is shown, or a refusal. */
  method DecideTables(selectors: seq<Selector>, bindings: Bindings, inventory: seq<SourceTables.Link>, active: bool,
                      existing: set<Rule>) returns (r: Option<map<Address, int>>)
    requires AdmittedSelectors(selectors) && Consistent(existing)
    ensures r.Some? <==> Acceptable(selectors, bindings, inventory, active, existing)
    ensures r.Some? ==> r.value.Keys == CoveredShown(selectors, inventory) && Seeding.ValidSeeds(r.value)
    ensures r.Some? ==> Decides(r.value, selectors, bindings, inventory, existing) && Seeding.Agrees(r.value, existing)
  {
    ChoiceFollowsRules(selectors, bindings, inventory, active, existing);
    var survey := Survey(inventory, bindings);
    if survey.None? { return None; }
    var tables := Seeding.ReadTables(existing);
    var picked := ChooseTables(selectors, survey.value, active, tables);
    if picked.Failure? { return None; }
    CoveredIsShown(selectors, bindings, inventory);
    ChosenValid(picked.value, selectors, survey.value, active, tables);
    ChosenIsDecided(picked.value, selectors, bindings, inventory, active, existing);
    r := Some(picked.value);
  }

  /** The plan for the chosen tables over the rules in place; refused exactly if its sources do not fit. */
  method PlanChosen(chosen: map<Address, int>, existing: set<Rule>, hash: Address -> nat) returns (r: Option<set<Rule>>)
    requires Consistent(existing) && Seeding.ValidSeeds(chosen) && Seeding.Agrees(chosen, existing)
    ensures r.Some? <==> Fits(chosen.Keys + Sources(existing))
    ensures r.Some? ==> PlannedFor(r.value, chosen, existing)
  {
    var tables := Seeding.ReadTables(existing);
    var sources := Seeding.Overlay(chosen, tables);
    var order := Listing(sources.value.Keys);
    Seeding.SeededValid(chosen, existing);
    var plan := PlanRules(sources.value, order, existing, hash);
    PlanSucceeds(sources.value, order, existing, hash);
    assert sources.value.Keys == chosen.Keys + Sources(existing);
    if plan.Failure? { return None; }
    PlanRealises(sources.value, order, existing, hash);
    r := Some(plan.value);
  }

  /** The rules to be in place after a migration and the tables that it chooses, or a refusal. */
  method PlanMigration(selectors: seq<Selector>, bindings: Bindings, inventory: seq<SourceTables.Link>, active: bool,
                       existing: set<Rule>, hash: Address -> nat) returns (r: Option<(set<Rule>, map<Address, int>)>)
    requires |selectors| <= MAX_SELECTORS && AdmittedSelectors(selectors)
    ensures r.Some? <==> Migratable(selectors, bindings, inventory, active, existing)
    ensures r.Some? ==> PlannedFor(r.value.0, r.value.1, existing)
    ensures r.Some? ==> Decides(r.value.1, selectors, bindings, inventory, existing)
  {
    if !Consistent(existing) { return None; }
    var chosen := DecideTables(selectors, bindings, inventory, active, existing);
    if chosen.None? { return None; }
    var plan := PlanChosen(chosen.value, existing, hash);
    if plan.None? { return None; }
    r := Some((plan.value, chosen.value));
  }

  /** Migrates. A refusal leaves the kernel untouched. Otherwise the kernel is in a state on the way, whatever
      fails; on success the selectors are gone and the planned rules are in place. */
  method Migrate(device: Device<KernelRule>, selectors: seq<Selector>, bindings: Bindings,
                 inventory: seq<SourceTables.Link>, active: bool, hash: Address -> nat)
    returns (r: Ending, ghost desired: set<Rule>, ghost chosen: map<Address, int>, ghost turns: seq<Turn>)
    modifies device
    ensures Leads(old(device.state), turns, device.state)
    ensures r.Refused? || r.NothingToDo? ==> device.state == old(device.state)
    ensures r.NothingToDo? <==> selectors == []
    ensures r.Refused? <==>
      && selectors != []
      && !Migratable(selectors, bindings, inventory, active, PairRules(old(device.state)))
    ensures r.Migrated? || r.Stopped? ==>
      && AdmittedSelectors(selectors) && PlannedFor(desired, chosen, PairRules(old(device.state)))
      && Decides(chosen, selectors, bindings, inventory, PairRules(old(device.state)))
      && OnTheWay(old(device.state), desired, selectors, device.state)
    ensures r.Migrated? ==> device.state == Others(old(device.state)) + Pairs(desired) - SelectorRules(selectors)
    ensures device.reliable && SelectorRules(selectors) <= old(device.state) ==> !r.Stopped?
  {
    desired, chosen, turns := {}, map[], [];
    var ok := AdmitSelectors(selectors);
    if !ok { return Refused, desired, chosen, turns; }
    if selectors == [] { return NothingToDo, desired, chosen, turns; }
    var existing := PairRules(device.state);
    var plan := PlanMigration(selectors, bindings, inventory, active, existing, hash);
    if plan.None? { return Refused, desired, chosen, turns; }
    desired, chosen := plan.value.0, plan.value.1;
    r, turns := ReplaceSelectors(device, plan.value.0, existing, selectors, plan.value.1);
  }

  method ReplaceSelectors(device: Device<KernelRule>, desired: set<Rule>, existing: set<Rule>, selectors: seq<Selector>,
                          ghost chosen: map<Address, int>) returns (r: Ending, ghost turns: seq<Turn>)
    requires existing == PairRules(device.state) && PlannedFor(desired, chosen, existing)
    modifies device
    ensures Leads(old(device.state), turns, device.state) && (r.Migrated? || r.Stopped?)
    ensures device.reliable && AdmittedSelectors(selectors) && SelectorRules(selectors) <= old(device.state) ==>
      r.Migrated?
    ensures OnTheWay(old(device.state), desired, selectors, device.state)
    ensures r.Migrated? ==> device.state == Others(old(device.state)) + Pairs(desired) - SelectorRules(selectors)
  {
    ghost var kernel := device.state;
    PlanIsTarget(Seeding.SeededTables(chosen, existing), desired, existing);
    var applied, commands, done := ApplyRules(device, desired, existing);
    if applied.LiveSlotReclaimed? {
      var q :| q in Reclaimed(desired, existing) && q.source in Sources(desired);
      LiveSlotNeverReclaimed(desired, existing, q);
      assert false;
    }
    PhasesLiftable(kernel, desired);
    ScriptPrefix(kernel, commands, LiftAll(Phases(desired, existing)), done);
    ghost var turn := Turn(Replace(desired), commands, done);
    LeadsNext(kernel, [], kernel, turn);
    turns := [] + [turn];
    if !applied.Applied? { return Stopped, turns; }
    assert device.state == Others(kernel) + Pairs(desired);
    ghost var replaced := device.state;
    var ok;
    ok, turn := DeleteSelectors(device, selectors);
    LeadsNext(kernel, turns, replaced, turn);
    turns := turns + [turn];
    r := if ok then Migrated else Stopped;
  }
}
