/** What packets see while a plan is applied, and what remains after a crash. */
module RuleSafety {
  import opened Wrappers
  import opened Addresses
  import opened PolicyRules
  import opened Allocation
  import opened Scripts
  import opened Kernel
  import opened Application

  // ---------------------------------------------------------------------
  // Lower bounds on the states met

  lemma WithinLower(remaining: set<Rule>, reclaimed: set<Rule>, desired: set<Rule>, guards: set<Rule>,
                    changing: set<Rule>, n: nat, middle: set<Rule>)
    requires n < 8 && changing <= remaining - desired && remaining !! reclaimed
    requires forall r :: r in changing ==> !r.IsGuard()
    requires forall r :: r in guards ==> r.IsGuard()
    requires Within(StageOf(remaining, reclaimed, desired, guards, changing, n),
                    PhasesOf(remaining, reclaimed, desired, guards, changing)[n], middle)
    ensures n < 3 ==> remaining <= middle
    ensures n < 1 ==> GuardsIn(reclaimed) <= middle
    ensures 3 <= n < 6 ==> guards <= middle
    ensures n >= 5 ==> desired <= middle
    ensures n >= 6 ==> LookupsIn(middle) <= desired
    ensures 1 <= n < 2 ==> LookupsIn(middle) <= remaining
  {
  }

  /** A state met while a plan is applied, placed in its phase. */
  lemma Located(desired: set<Rule>, existing: set<Rule>, middle: set<Rule>) returns (n: nat)
    requires Between(existing, Phases(desired, existing), middle)
    ensures n < 8
    ensures n < 2 ==> middle <= existing
    ensures n >= 2 ==> middle <= Remaining(desired, existing) + Guards(desired, existing) + desired
    ensures 2 <= n < 4 ==> middle <= Remaining(desired, existing) + Guards(desired, existing)
    ensures n < 3 ==> Remaining(desired, existing) <= middle
    ensures n < 1 ==> GuardsIn(Reclaimed(desired, existing)) <= middle
    ensures 3 <= n < 6 ==> Guards(desired, existing) <= middle
    ensures n >= 5 ==> desired <= middle
    ensures n >= 6 ==> LookupsIn(middle) <= desired
    ensures 1 <= n < 2 ==> LookupsIn(middle) <= Remaining(desired, existing)
  {
    PhasesAreStaged(desired, existing);
    n := StagedBetween(Stages(desired, existing), Phases(desired, existing), middle);
    WithinBound(Remaining(desired, existing), Reclaimed(desired, existing), desired, Guards(desired, existing),
                Changing(desired, existing), n, middle);
    WithinLower(Remaining(desired, existing), Reclaimed(desired, existing), desired, Guards(desired, existing),
                Changing(desired, existing), n, middle);
  }

  // ---------------------------------------------------------------------
  // What a script does to one source

  lemma PhaseItems(remaining: set<Rule>, reclaimed: set<Rule>, desired: set<Rule>, guards: set<Rule>,
                   changing: set<Rule>, p: Phase<Rule>, x: Rule)
    requires changing <= remaining - desired
    requires p in PhasesOf(remaining, reclaimed, desired, guards, changing) && x in p.items
    ensures p.add ==> x in guards || x in desired
    ensures !p.add ==> x in reclaimed || x !in desired
  {
  }

  /** A planned rule is never deleted. */
  lemma ScriptNeverDeletesDesired(desired: set<Rule>, existing: set<Rule>, script: seq<Command<Rule>>, d: Rule)
    requires Target(desired, existing) && IsScript(script, Phases(desired, existing)) && d in desired
    ensures Del(d) !in script
  {
    assert d.source in Sources(desired);
    if d in Reclaimed(desired, existing) { LiveSlotNeverReclaimed(desired, existing, d); }
    if Del(d) in script {
      ScriptCommands(script, Phases(desired, existing), Del(d));
      var p :| p in Phases(desired, existing) && d in p.items && Del(d) == CommandOf(p, d);
      PhaseItems(Remaining(desired, existing), Reclaimed(desired, existing), desired, Guards(desired, existing),
                 Changing(desired, existing), p, d);
    }
  }

  /** The only lookups added are the planned ones. */
  lemma ScriptNeverAddsOther(desired: set<Rule>, existing: set<Rule>, script: seq<Command<Rule>>, r: Rule)
    requires IsScript(script, Phases(desired, existing)) && r !in desired && !r.IsGuard()
    ensures Add(r) !in script
  {
    if Add(r) in script {
      ScriptCommands(script, Phases(desired, existing), Add(r));
      var p :| p in Phases(desired, existing) && r in p.items && Add(r) == CommandOf(p, r);
      PhaseItems(Remaining(desired, existing), Reclaimed(desired, existing), desired, Guards(desired, existing),
                 Changing(desired, existing), p, r);
      GuardsAreGuards(desired, existing, r);
    }
  }

  /** Every lookup met on the way is an old one or a planned one. */
  lemma LookupOrigin(desired: set<Rule>, existing: set<Rule>, middle: set<Rule>, r: Rule)
    requires Between(existing, Phases(desired, existing), middle) && r in middle && !r.IsGuard()
    ensures r in existing || r in desired
  {
    var n := Located(desired, existing, middle);
    if r in Guards(desired, existing) { GuardsAreGuards(desired, existing, r); }
  }

  /** A source with rules before and after always has a rule. */
  lemma AlwaysCovered(desired: set<Rule>, existing: set<Rule>, middle: set<Rule>, s: Address)
    requires Target(desired, existing) && Between(existing, Phases(desired, existing), middle)
    requires s in Sources(existing) && s in Sources(desired)
    ensures HasLookup(middle, s) || HasGuard(middle, s)
  {
    var n := Located(desired, existing, middle);
    if n < 3 {
      var r :| r in existing && r.source == s;
      assert r in Remaining(desired, existing) by {
        if r in Reclaimed(desired, existing) { LiveSlotNeverReclaimed(desired, existing, r); }
      }
      assert r in middle;
    } else {
      var d :| d in desired && d.source == s;
      assert GuardOf(d) in desired && GuardOf(d) in Guards(desired, existing);
      assert GuardOf(d) in middle;
    }
  }

  lemma LookupDecides(rules: set<Rule>, r: Rule)
    requires Consistent(rules) && r in rules && !r.IsGuard()
    ensures Direct(rules, r.source) == Table(r.table.value)
  {
    var q :| q in rules && q.source == r.source && !q.IsGuard() && LookupTable(rules, r.source) == q.table.value;
    OneLookup(rules, r, q);
  }

  /** The lookup that makes the source go to a table. */
  lemma DecidingLookup(rules: set<Rule>, s: Address) returns (r: Rule)
    requires Direct(rules, s).Table?
    ensures r in rules && r.source == s && !r.IsGuard() && r.table.value == Direct(rules, s).n
  {
    r :| r in rules && r.source == s && !r.IsGuard() && LookupTable(rules, s) == r.table.value;
  }

  /** An old and a planned lookup of one source with one table are one rule. */
  lemma SameTableSameRule(desired: set<Rule>, existing: set<Rule>, d: Rule, r: Rule)
    requires Target(desired, existing) && d in desired && r in existing
    requires d.source == r.source && !d.IsGuard() && !r.IsGuard() && d.table == r.table
    ensures d == r
  {
    assert KeepsSlot(d, r);
  }

  /** At every state met, a continuing source is where it was, blocked, or where it will be:
      it never falls through to another rule. */
  lemma OutcomeOnTheWay(desired: set<Rule>, existing: set<Rule>, middle: set<Rule>, s: Address)
    requires Target(desired, existing) && Between(existing, Phases(desired, existing), middle)
    requires s in Sources(existing) && s in Sources(desired)
    ensures Direct(middle, s) in {Direct(existing, s), Blocked, Direct(desired, s)}
    ensures Direct(middle, s) != FallThrough
  {
    AlwaysCovered(desired, existing, middle, s);
    if HasLookup(middle, s) {
      var r := DecidingLookup(middle, s);
      LookupOrigin(desired, existing, middle, r);
      if r in existing { LookupDecides(existing, r); } else { LookupDecides(desired, r); }
    }
  }

  /** Once a source has left its old table it never returns to it. */
  lemma NeverBack(desired: set<Rule>, existing: set<Rule>, script: seq<Command<Rule>>, s: Address, i: nat, j: nat)
    requires Target(desired, existing) && IsScript(script, Phases(desired, existing)) && i <= j <= |script|
    requires s in Sources(existing) && s in Sources(desired) && Direct(existing, s) != Direct(desired, s)
    requires Direct(Run(existing, script[..j]), s) == Direct(existing, s)
    ensures Direct(Run(existing, script[..i]), s) == Direct(existing, s)
  {
    var earlier, later := Run(existing, script[..i]), Run(existing, script[..j]);
    ScriptReachesTarget(desired, existing, script, i);
    ScriptReachesTarget(desired, existing, script, j);
    MiddleConsistent(desired, existing, earlier);
    MiddleConsistent(desired, existing, later);
    OutcomeOnTheWay(desired, existing, earlier, s);
    if Direct(later, s).Table? {
      var r := DecidingLookup(later, s);
      LookupOrigin(desired, existing, later, r);
      if r in desired { LookupDecides(desired, r); }
      ScriptNeverAddsOther(desired, existing, script, r);
      NeverAdded(existing, script, r, i, j);
      LookupDecides(earlier, r);
    } else if Direct(earlier, s).Table? {
      OldBlocked(desired, existing, earlier, s);
      var r := DecidingLookup(earlier, s);
      ScriptNeverDeletesDesired(desired, existing, script, r);
      NeverDeleted(existing, script, r, i, j);
      LookupDecides(later, r);
    } else {
      AlwaysCovered(desired, existing, later, s);
    }
  }

  /** If the source had no table, any lookup met on the way is the planned one. */
  lemma OldBlocked(desired: set<Rule>, existing: set<Rule>, middle: set<Rule>, s: Address)
    requires Target(desired, existing) && Between(existing, Phases(desired, existing), middle)
    requires s in Sources(existing) && !Direct(existing, s).Table?
    ensures forall r :: r in middle && r.source == s && !r.IsGuard() ==> r in desired
  {
    forall r | r in middle && r.source == s && !r.IsGuard()
      ensures r in desired
    {
      LookupOrigin(desired, existing, middle, r);
      if r in existing { LookupDecides(existing, r); }
    }
  }

  /** Once a source has reached its new table, or its new block, it stays there. */
  lemma NeverLost(desired: set<Rule>, existing: set<Rule>, script: seq<Command<Rule>>, s: Address, i: nat, j: nat)
    requires Target(desired, existing) && IsScript(script, Phases(desired, existing)) && i <= j <= |script|
    requires s in Sources(existing) && s in Sources(desired)
    requires Direct(Run(existing, script[..i]), s) == Direct(desired, s)
    ensures Direct(Run(existing, script[..j]), s) == Direct(desired, s)
  {
    var earlier, later := Run(existing, script[..i]), Run(existing, script[..j]);
    ScriptReachesTarget(desired, existing, script, i);
    ScriptReachesTarget(desired, existing, script, j);
    MiddleConsistent(desired, existing, earlier);
    MiddleConsistent(desired, existing, later);
    OutcomeOnTheWay(desired, existing, later, s);
    if Direct(desired, s).Table? {
      var d := DecidingLookup(desired, s);
      var r := DecidingLookup(earlier, s);
      LookupOrigin(desired, existing, earlier, r);
      if r in existing { SameTableSameRule(desired, existing, d, r); } else { OneLookup(desired, d, r); }
      ScriptNeverDeletesDesired(desired, existing, script, d);
      NeverDeleted(existing, script, d, i, j);
      LookupDecides(later, d);
    } else {
      DesiredBlocked(desired, s);
      if Direct(later, s).Table? {
        var r := DecidingLookup(later, s);
        LookupOrigin(desired, existing, later, r);
        ScriptNeverAddsOther(desired, existing, script, r);
        NeverAdded(existing, script, r, i, j);
        LookupDecides(earlier, r);
      }
    }
  }

  lemma DesiredBlocked(desired: set<Rule>, s: Address)
    requires Consistent(desired) && (forall r :: r in desired ==> GuardOf(r) in desired)
    requires s in Sources(desired) && !Direct(desired, s).Table?
    ensures Direct(desired, s) == Blocked
    ensures forall r :: r in desired && r.source == s ==> r.IsGuard()
  {
    var d :| d in desired && d.source == s;
    assert GuardOf(d) in desired;
  }

  /** The three facts together. */
  lemma OutcomesMoveForward(desired: set<Rule>, existing: set<Rule>, script: seq<Command<Rule>>, s: Address, i: nat,
                            j: nat)
    requires Target(desired, existing) && IsScript(script, Phases(desired, existing)) && i <= j <= |script|
    requires s in Sources(existing) && s in Sources(desired)
    ensures var first, last := Direct(existing, s), Direct(Run(existing, script), s);
            var early, late := Direct(Run(existing, script[..i]), s), Direct(Run(existing, script[..j]), s);
            && early in {first, Blocked, last} && late in {first, Blocked, last}
            && (first != last && late == first ==> early == first) && (early == last ==> late == last)
  {
    ScriptReachesTarget(desired, existing, script, i);
    ScriptReachesTarget(desired, existing, script, j);
    OutcomeOnTheWay(desired, existing, Run(existing, script[..i]), s);
    OutcomeOnTheWay(desired, existing, Run(existing, script[..j]), s);
    if Direct(existing, s) != Direct(desired, s) && Direct(Run(existing, script[..j]), s) == Direct(existing, s) {
      NeverBack(desired, existing, script, s, i, j);
    }
    if Direct(Run(existing, script[..i]), s) == Direct(desired, s) { NeverLost(desired, existing, script, s, i, j); }
  }

  /** Where the kernel sends a continuing source, part way through a plan. */
  lemma PlanRoute(kernel: set<KernelRule>, desired: set<Rule>, now: set<KernelRule>, s: Address, d: Address, o: Outcome)
    requires Target(desired, PairRules(kernel)) && Others(now) == Others(kernel)
    requires Between(PairRules(kernel), Phases(desired, PairRules(kernel)), PairRules(now))
    requires s in Sources(PairRules(kernel)) && s in Sources(desired)
    requires forall q :: q in kernel && q.Legacy? ==> !Matches(q, s, d)
    ensures Resolves(now, s, d, o) <==> o == Direct(PairRules(now), s)
  {
    MiddleConsistent(desired, PairRules(kernel), PairRules(now));
    OutcomeOnTheWay(desired, PairRules(kernel), PairRules(now), s);
    forall q | q in now && q.Legacy?
      ensures q in kernel
    {
      assert q in Others(now);
      assert q in Others(kernel);
    }
    PairsDecide(now, s, d, o);
  }

  lemma PrefixRoute(kernel: set<KernelRule>, desired: set<Rule>, commands: seq<Command<KernelRule>>, k: nat,
                    s: Address, d: Address, o: Outcome)
    requires Target(desired, PairRules(kernel)) && k <= |commands|
    requires IsScript(commands, LiftAll(Phases(desired, PairRules(kernel))))
    requires forall i :: 0 <= i < |commands| ==> commands[i].item.Pair?
    requires s in Sources(PairRules(kernel)) && s in Sources(desired)
    requires forall q :: q in kernel && q.Legacy? ==> !Matches(q, s, d)
    requires Resolves(Run(kernel, commands[..k]), s, d, o)
    ensures o == Direct(Run(PairRules(kernel), Lower(commands)[..k]), s)
  {
    KernelPrefix(kernel, commands, Phases(desired, PairRules(kernel)), k);
    ScriptReachesTarget(desired, PairRules(kernel), Lower(commands), k);
    PlanRoute(kernel, desired, Run(kernel, commands[..k]), s, d, o);
  }

  lemma EndRoutes(kernel: set<KernelRule>, desired: set<Rule>, commands: seq<Command<KernelRule>>,
                  s: Address, d: Address, first: Outcome, last: Outcome)
    requires Target(desired, PairRules(kernel)) && IsScript(commands, LiftAll(Phases(desired, PairRules(kernel))))
    requires forall i :: 0 <= i < |commands| ==> commands[i].item.Pair?
    requires s in Sources(PairRules(kernel)) && s in Sources(desired)
    requires forall q :: q in kernel && q.Legacy? ==> !Matches(q, s, d)
    requires Resolves(kernel, s, d, first) && Resolves(Run(kernel, commands), s, d, last)
    ensures first == Direct(PairRules(kernel), s) && last == Direct(Run(PairRules(kernel), Lower(commands)), s)
  {
    assert commands[..0] == [] && commands[..|commands|] == commands;
    PrefixRoute(kernel, desired, commands, 0, s, d, first);
    PrefixRoute(kernel, desired, commands, |commands|, s, d, last);
    assert Lower(commands)[..0] == [] && Lower(commands)[..|commands|] == Lower(commands);
  }

  /** Old table, then unreachable, then new table: while a plan is applied, the kernel sends a continuing source where
      it went first, nowhere, or where it goes last. What has left its first outcome does not return to it,
      and what has reached its last outcome stays there. */
  lemma RoutesMoveForward(kernel: set<KernelRule>, desired: set<Rule>, commands: seq<Command<KernelRule>>,
                          i: nat, j: nat, s: Address, d: Address,
                          first: Outcome, early: Outcome, late: Outcome, last: Outcome)
    requires Target(desired, PairRules(kernel)) && i <= j <= |commands|
    requires IsScript(commands, LiftAll(Phases(desired, PairRules(kernel))))
    requires s in Sources(PairRules(kernel)) && s in Sources(desired)
    requires forall q :: q in kernel && q.Legacy? ==> !Matches(q, s, d)
    requires Resolves(kernel, s, d, first) && Resolves(Run(kernel, commands), s, d, last)
    requires Resolves(Run(kernel, commands[..i]), s, d, early) && Resolves(Run(kernel, commands[..j]), s, d, late)
    ensures early in {first, Blocked, last} && late in {first, Blocked, last}
    ensures first != last && late == first ==> early == first
    ensures early == last ==> late == last
  {
    KernelPrefix(kernel, commands, Phases(desired, PairRules(kernel)), 0);
    EndRoutes(kernel, desired, commands, s, d, first, last);
    PrefixRoute(kernel, desired, commands, i, s, d, early);
    PrefixRoute(kernel, desired, commands, j, s, d, late);
    OutcomesMoveForward(desired, PairRules(kernel), Lower(commands), s, i, j);
  }

  // ---------------------------------------------------------------------
  // Guards

  /** Every source that has a rule has its guard. */
  ghost predicate Guarded(rules: set<Rule>) {
    forall r :: r in rules ==> GuardOf(r) in rules
  }

  /** If every source had its guard, no state met has a lookup without one. */
  lemma LookupsStayGuarded(desired: set<Rule>, existing: set<Rule>, middle: set<Rule>, r: Rule)
    requires Target(desired, existing) && Guarded(existing)
    requires Between(existing, Phases(desired, existing), middle) && r in middle && !r.IsGuard()
    ensures GuardOf(r) in middle
  {
    var n := Located(desired, existing, middle);
    LookupOrigin(desired, existing, middle, r);
    if r in Guards(desired, existing) { GuardsAreGuards(desired, existing, r); }
    assert r in LookupsIn(middle);
    if n >= 6 {
      assert GuardOf(r) in desired;
    } else if n < 3 {
      GuardSharesSlot(desired, existing, r);
      assert GuardOf(r) in GuardsIn(Reclaimed(desired, existing)) || GuardOf(r) in Remaining(desired, existing);
    } else {
      assert r in Remaining(desired, existing) + desired;
    }
  }

  lemma GuardSharesSlot(desired: set<Rule>, existing: set<Rule>, r: Rule)
    requires Consistent(existing) && r in existing && GuardOf(r) in existing
    ensures r in Reclaimed(desired, existing) <==> GuardOf(r) in Reclaimed(desired, existing)
  {
    assert Where(GuardOf(r)) == Where(r);
  }

  lemma NothingReclaimed(desired: set<Rule>, existing: set<Rule>)
    requires Target(desired, existing) && Sources(existing) <= Sources(desired)
    ensures Reclaimed(desired, existing) == {} && Remaining(desired, existing) == existing
  {
    forall r | r in existing
      ensures r !in Reclaimed(desired, existing)
    {
      assert r.source in Sources(existing);
      if r in Reclaimed(desired, existing) { LiveSlotNeverReclaimed(desired, existing, r); }
    }
  }
}
