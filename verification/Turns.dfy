/** Whole runs: any interleaving of the writers of the kernel's rules, each stopped anywhere.

    A writer works under a lock, so a run is a sequence of turns. Reconciling is both guards enabled and a plan applied,
    starting a transition is seeds issued and both guards enabled, and migrating is a plan applied and selectors
    retired. */
module Turns {
  import opened Wrappers
  import opened Addresses
  import opened PolicyRules
  import opened Allocation
  import opened Scripts
  import opened Kernel
  import opened Application
  import opened RuleSafety
  import opened Transition

  datatype Move =
    | Enable(family: Family)
    | Disable(family: Family)
    | Replace(desired: set<Rule>)
    | Seed(desired: set<Rule>)
    | Retire(selectors: seq<Selector>)

  /** Lookups across both families first, their guards after all of them. */
  function SeedPhases(desired: set<Rule>, existing: set<Rule>): seq<Phase<Rule>> {
    [Phase(true, LookupsIn(desired - existing)), Phase(true, GuardsIn(desired - existing))]
  }

  function SelectorRules(selectors: seq<Selector>): set<KernelRule> {
    set i | 0 <= i < |selectors| :: Legacy(selectors[i])
  }

  /** The selectors one by one. */
  function RetirePhases(selectors: seq<Selector>): seq<Phase<KernelRule>> {
    seq(|selectors|, i requires 0 <= i < |selectors| => Phase(false, {Legacy(selectors[i])}))
  }

  function MovePhases(kernel: set<KernelRule>, m: Move): seq<Phase<KernelRule>> {
    match m
    case Enable(f) => EnablePhases(kernel, f)
    case Disable(f) => DisablePhases(kernel, f)
    case Replace(desired) => LiftAll(Phases(desired, PairRules(kernel)))
    case Seed(desired) => LiftAll(SeedPhases(desired, PairRules(kernel)))
    case Retire(selectors) => RetirePhases(selectors)
  }

  /** One move: its commands and how many took effect. */
  datatype Turn = Turn(move: Move, commands: seq<Command<KernelRule>>, done: nat)

  ghost predicate Possible(kernel: set<KernelRule>, t: Turn) {
    t.done <= |t.commands| && IsScript(t.commands, MovePhases(kernel, t.move))
  }

  function AfterTurn(kernel: set<KernelRule>, t: Turn): set<KernelRule>
    requires t.done <= |t.commands|
  {
    Run(kernel, t.commands[..t.done])
  }

  ghost predicate PossibleTurns(kernel: set<KernelRule>, turns: seq<Turn>)
    decreases |turns|
  {
    turns == [] || (Possible(kernel, turns[0]) && PossibleTurns(AfterTurn(kernel, turns[0]), turns[1..]))
  }

  ghost function AfterTurns(kernel: set<KernelRule>, turns: seq<Turn>): set<KernelRule>
    requires PossibleTurns(kernel, turns)
    decreases |turns|
  {
    if turns == [] then kernel else AfterTurns(AfterTurn(kernel, turns[0]), turns[1..])
  }

  ghost predicate NeverDisables(turns: seq<Turn>, f: Family) {
    forall i :: 0 <= i < |turns| ==> turns[i].move != Disable(f)
  }

  // ---------------------------------------------------------------------
  // The guard

  /** Retiring selectors touches nothing else. */
  lemma RetireCommands(selectors: seq<Selector>, commands: seq<Command<KernelRule>>, k: KernelRule)
    requires IsScript(commands, RetirePhases(selectors)) && !k.Legacy?
    ensures Add(k) !in commands && Del(k) !in commands
  {
    if Add(k) in commands { ScriptCommands(commands, RetirePhases(selectors), Add(k)); }
    if Del(k) in commands { ScriptCommands(commands, RetirePhases(selectors), Del(k)); }
  }

  lemma RetireKeeps(kernel: set<KernelRule>, t: Turn, k: KernelRule)
    requires Possible(kernel, t) && t.move.Retire? && !k.Legacy?
    ensures k in AfterTurn(kernel, t) <==> k in kernel
  {
    RetireCommands(t.move.selectors, t.commands, k);
    assert t.commands[..0] == [];
    if k in kernel {
      NeverDeleted(kernel, t.commands, k, 0, t.done);
    } else if k in AfterTurn(kernel, t) {
      NeverAdded(kernel, t.commands, k, 0, t.done);
    }
  }

  /** One move of any writer, stopped anywhere. */
  lemma TurnKeeps(kernel: set<KernelRule>, t: Turn, f: Family)
    requires Possible(kernel, t)
    ensures Sheltered(kernel, f) ==> Sheltered(AfterTurn(kernel, t), f)
    ensures Terminal(f) in kernel && t.move != Disable(f) ==> Terminal(f) in AfterTurn(kernel, t)
  {
    var now := AfterTurn(kernel, t);
    match t.move {
      case Enable(g) =>
        EnableOnTheWay(kernel, g, now);
        ScriptPrefix(kernel, t.commands, EnablePhases(kernel, g), t.done);
        EnableKeeps(kernel, g, f, now);
      case Disable(g) =>
        DisableOnTheWay(kernel, g, now);
        ScriptPrefix(kernel, t.commands, DisablePhases(kernel, g), t.done);
        DisableKeeps(kernel, g, f, now);
      case Replace(desired) =>
        KernelPrefix(kernel, t.commands, Phases(desired, PairRules(kernel)), t.done);
        ReplaceKeeps(kernel, f, now);
      case Seed(desired) =>
        KernelPrefix(kernel, t.commands, SeedPhases(desired, PairRules(kernel)), t.done);
        ReplaceKeeps(kernel, f, now);
      case Retire(_) =>
        forall k | k in GuardRules(f) { RetireKeeps(kernel, t, k); }
    }
  }

  /** Through any sequence of turns, each stopped anywhere, exemptions are present only while the catch-all is. */
  lemma {:induction false} RunsStaySheltered(kernel: set<KernelRule>, turns: seq<Turn>, f: Family)
    requires PossibleTurns(kernel, turns) && Sheltered(kernel, f)
    ensures Sheltered(AfterTurns(kernel, turns), f)
    decreases |turns|
  {
    if turns == [] {
    } else {
      TurnKeeps(kernel, turns[0], f);
      RunsStaySheltered(AfterTurn(kernel, turns[0]), turns[1..], f);
    }
  }

  lemma {:induction false} RunsKeepTerminal(kernel: set<KernelRule>, turns: seq<Turn>, f: Family)
    requires PossibleTurns(kernel, turns) && Terminal(f) in kernel && NeverDisables(turns, f)
    ensures Terminal(f) in AfterTurns(kernel, turns)
    decreases |turns|
  {
    if turns == [] {
    } else {
      TurnKeeps(kernel, turns[0], f);
      assert forall i :: 0 <= i < |turns[1..]| ==> turns[1..][i] == turns[i + 1];
      RunsKeepTerminal(AfterTurn(kernel, turns[0]), turns[1..], f);
    }
  }

  /** Once the guard is on, and until it is turned off, no usable source reaches main for a destination that
      is not link-local: at any point of any run, including for a source that has only just appeared. */
  lemma GuardHoldsOverRuns(kernel: set<KernelRule>, turns: seq<Turn>, s: Address, d: Address, o: Outcome)
    requires PossibleTurns(kernel, turns) && Terminal(s.family) in kernel && NeverDisables(turns, s.family)
    requires Usable(s) && !Inside(d, LinkLocal(s.family))
    requires Resolves(AfterTurns(kernel, turns), s, d, o)
    ensures o.Table? || o.Blocked?
  {
    RunsKeepTerminal(kernel, turns, s.family);
    NeverMain(AfterTurns(kernel, turns), s, d, o);
  }

  // ---------------------------------------------------------------------
  // Consistency

  /** What the writers ask for: a plan that keeps slots, and seeds that leave every rule in place. */
  ghost predicate Planned(kernel: set<KernelRule>, m: Move) {
    var existing := PairRules(kernel);
    match m
    case Replace(desired) => exists sources :: Realises(desired, sources) && KeepsSlots(desired, existing)
    case Seed(desired) => existing <= desired && Consistent(desired)
    case _ => true
  }

  ghost predicate PlannedTurns(kernel: set<KernelRule>, turns: seq<Turn>)
    requires PossibleTurns(kernel, turns)
    decreases |turns|
  {
    turns == [] || (Planned(kernel, turns[0].move) && PlannedTurns(AfterTurn(kernel, turns[0]), turns[1..]))
  }

  lemma GuardTurnLeavesPairs(kernel: set<KernelRule>, t: Turn)
    requires Possible(kernel, t) && (t.move.Enable? || t.move.Disable? || t.move.Retire?)
    ensures PairRules(AfterTurn(kernel, t)) == PairRules(kernel)
    ensures t.move.Enable? ==> kernel <= AfterTurn(kernel, t)
  {
    var now := AfterTurn(kernel, t);
    match t.move {
      case Enable(f) =>
        EnableOnTheWay(kernel, f, now);
        ScriptPrefix(kernel, t.commands, EnablePhases(kernel, f), t.done);
        GuardLeavesPairs(kernel, f, now);
      case Disable(f) =>
        DisableOnTheWay(kernel, f, now);
        ScriptPrefix(kernel, t.commands, DisablePhases(kernel, f), t.done);
        GuardLeavesPairs(kernel, f, now);
      case Retire(_) =>
        forall k: KernelRule | k.Pair? { RetireKeeps(kernel, t, k); }
        SamePairs(kernel, now);
    }
  }

  lemma SeedBetween(desired: set<Rule>, existing: set<Rule>, script: seq<Command<Rule>>, k: nat)
    requires existing <= desired && IsScript(script, SeedPhases(desired, existing)) && k <= |script|
    ensures existing <= Run(existing, script[..k]) <= desired
  {
    var phases := SeedPhases(desired, existing);
    var stages := [existing, existing + LookupsIn(desired - existing), desired];
    assert stages[1] + GuardsIn(desired - existing) == desired;
    assert Staged(stages, phases);
    StagedRuns(stages, phases);
    ScriptPrefix(existing, script, phases, k);
    var n := StagedBetween(stages, phases, Run(existing, script[..k]));
  }

  lemma TurnKeepsConsistent(kernel: set<KernelRule>, t: Turn)
    requires Possible(kernel, t) && Planned(kernel, t.move) && Consistent(PairRules(kernel))
    ensures Consistent(PairRules(AfterTurn(kernel, t)))
  {
    var existing, now := PairRules(kernel), PairRules(AfterTurn(kernel, t));
    match t.move {
      case Replace(desired) =>
        KernelPrefix(kernel, t.commands, Phases(desired, existing), t.done);
        var sources :| Realises(desired, sources) && KeepsSlots(desired, existing);
        PlanIsTarget(sources, desired, existing);
        ScriptReachesTarget(desired, existing, Lower(t.commands), t.done);
        MiddleConsistent(desired, existing, now);
      case Seed(desired) =>
        KernelPrefix(kernel, t.commands, SeedPhases(desired, existing), t.done);
        SeedBetween(desired, existing, Lower(t.commands), t.done);
        ConsistentSubset(now, desired);
      case _ =>
        GuardTurnLeavesPairs(kernel, t);
    }
  }

  /** Consistency is an invariant of every run of writers, wherever each was stopped. */
  lemma {:induction false} RunKeepsConsistent(kernel: set<KernelRule>, turns: seq<Turn>)
    requires PossibleTurns(kernel, turns) && PlannedTurns(kernel, turns) && Consistent(PairRules(kernel))
    ensures Consistent(PairRules(AfterTurns(kernel, turns)))
    decreases |turns|
  {
    if turns == [] {
    } else {
      TurnKeepsConsistent(kernel, turns[0]);
      RunKeepsConsistent(AfterTurn(kernel, turns[0]), turns[1..]);
    }
  }

  /** Crash convergence: after any run of stopped writers the rules are read back as they are, a plan for any sources
      that fit is found, and applying it completely leaves exactly the rules of those sources. */
  lemma CrashConvergence(kernel: set<KernelRule>, turns: seq<Turn>, rows4: seq<Row>, rows6: seq<Row>,
                         sources: SourceMap, order: seq<Address>, hash: Address -> nat, script: seq<Command<Rule>>)
    requires PossibleTurns(kernel, turns) && PlannedTurns(kernel, turns) && Consistent(PairRules(kernel))
    requires var left := PairRules(AfterTurns(kernel, turns)); Dump(rows4, left, V4) && Dump(rows6, left, V6)
    requires ValidSources(sources) && Lists(order, sources.Keys) && Fits(sources.Keys)
    ensures RowsAdmitted(rows4, V4) && RowsAdmitted(rows6, V6)
    ensures var left := RulesOf(rows4) + RulesOf(rows6);
            && left == PairRules(AfterTurns(kernel, turns))
            && var plan := Plan(sources, order, left, hash);
            && plan.Success?
            && (IsScript(script, Phases(plan.value, left)) ==>
                  Run(left, script) == plan.value && Realises(plan.value, sources) && KeepsSlots(plan.value, left))
  {
    var left := PairRules(AfterTurns(kernel, turns));
    RunKeepsConsistent(kernel, turns);
    ReadBack(rows4, left, V4);
    ReadBack(rows6, left, V6);
    assert RulesOf(rows4) + RulesOf(rows6) == left;
    PlanSucceeds(sources, order, left, hash);
    PlanRealises(sources, order, left, hash);
    var desired := Plan(sources, order, left, hash).value;
    if IsScript(script, Phases(desired, left)) {
      ScriptReachesTarget(desired, left, script, |script|);
    }
  }

  // ---------------------------------------------------------------------
  // Building runs

  /** What a writer has done: planned turns, none of which disables a guard, lead from one state to the other. */
  ghost predicate Leads(kernel: set<KernelRule>, turns: seq<Turn>, now: set<KernelRule>) {
    && PossibleTurns(kernel, turns) && PlannedTurns(kernel, turns) && AfterTurns(kernel, turns) == now
    && forall i :: 0 <= i < |turns| ==> !turns[i].move.Disable?
  }

  lemma {:induction false} LeadsNext(kernel: set<KernelRule>, turns: seq<Turn>, now: set<KernelRule>, t: Turn)
    requires Leads(kernel, turns, now) && Possible(now, t) && Planned(now, t.move) && !t.move.Disable?
    ensures Leads(kernel, turns + [t], AfterTurn(now, t))
    decreases |turns|
  {
    var all := turns + [t];
    if turns == [] {
      assert all == [t] && all[1..] == [];
    } else {
      var next := AfterTurn(kernel, turns[0]);
      assert forall i :: 0 <= i < |turns[1..]| ==> turns[1..][i] == turns[i + 1];
      LeadsNext(next, turns[1..], now, t);
      assert all[1..] == turns[1..] + [t];
    }
  }

  /** Turns on the guard of one family. */
  method EnableOne(device: Device<KernelRule>, f: Family) returns (ok: bool, ghost turn: Turn)
    modifies device
    ensures turn.move == Enable(f) && Possible(old(device.state), turn)
    ensures device.state == AfterTurn(old(device.state), turn)
    ensures old(device.state) <= device.state && PairRules(device.state) == PairRules(old(device.state))
    ensures Between(old(device.state), EnablePhases(old(device.state), f), device.state)
    ensures ok ==> Readable(PairRules(device.state), f) && device.state == old(device.state) + GuardRules(f)
    ensures device.reliable && Readable(PairRules(device.state), f) ==> ok
  {
    ghost var before := device.state;
    var done, commands, n := SetGuard(device, f, true);
    ok, turn := done, Turn(Enable(f), commands, n);
    GuardTurnLeavesPairs(before, turn);
    EnableOnTheWay(before, f, device.state);
    ScriptPrefix(before, commands, EnablePhases(before, f), n);
  }

  datatype Guarding = Guarded | Unreadable | Interrupted

  /** Turns on the guards of both families. The source rules stay as they are; unreadable ones are refused. */
  method GuardBoth(device: Device<KernelRule>) returns (r: Guarding, ghost turns: seq<Turn>)
    modifies device
    ensures Leads(old(device.state), turns, device.state)
    ensures PairRules(device.state) == PairRules(old(device.state)) && old(device.state) <= device.state
    ensures r.Unreadable? ==> !Admissible(PairRules(device.state))
    ensures r.Guarded? ==> Admissible(PairRules(device.state))
    ensures r.Guarded? ==> device.state == old(device.state) + GuardRules(V4) + GuardRules(V6)
    ensures device.reliable ==> !r.Interrupted?
  {
    ghost var first := device.state;
    ReadableBoth(PairRules(first));
    turns := [];
    if !Readable(PairRules(device.state), V4) { return Unreadable, turns; }
    var ok, turn := EnableOne(device, V4);
    LeadsNext(first, turns, first, turn);
    turns := turns + [turn];
    if !ok { return Interrupted, turns; }
    ghost var second := device.state;
    if !Readable(PairRules(device.state), V6) { return Unreadable, turns; }
    ok, turn := EnableOne(device, V6);
    LeadsNext(first, turns, second, turn);
    turns := turns + [turn];
    r := if ok then Guarded else Interrupted;
  }
}
