/** Applying a plan: guards first, working rules kept, stale state retired last. */
module Application {
  import opened Wrappers
  import opened Addresses
  import opened PolicyRules
  import opened Allocation
  import opened Scripts
  import opened Kernel

  // ---------------------------------------------------------------------
  // The command script

  /** Existing rules whose slot the plan gives to another source. */
  function Reclaimed(desired: set<Rule>, existing: set<Rule>): set<Rule> {
    set r | r in existing && exists d :: d in desired && Where(d) == Where(r) && d.source != r.source
  }

  function Remaining(desired: set<Rule>, existing: set<Rule>): set<Rule> {
    existing - Reclaimed(desired, existing)
  }

  function Guards(desired: set<Rule>, existing: set<Rule>): set<Rule> {
    set r | r in Remaining(desired, existing) + desired :: GuardOf(r)
  }

  /** Lookups that move to another table or go away while their source stays. */
  function Changing(desired: set<Rule>, existing: set<Rule>): set<Rule> {
    set r | r in Remaining(desired, existing) - desired && !r.IsGuard() && r.source in Sources(desired)
  }

  function LookupsIn(rules: set<Rule>): set<Rule> { set r | r in rules && !r.IsGuard() }

  function GuardsIn(rules: set<Rule>): set<Rule> { set r | r in rules && r.IsGuard() }

  /** The eight phases, from the sets that the writer computes first. */
  function PhasesOf(remaining: set<Rule>, reclaimed: set<Rule>, desired: set<Rule>, guards: set<Rule>,
                    changing: set<Rule>): seq<Phase<Rule>> {
    [ Phase(false, LookupsIn(reclaimed)),
      Phase(false, GuardsIn(reclaimed)),
      Phase(true, guards - remaining),
      Phase(false, changing),
      Phase(true, desired - remaining - guards),
      Phase(false, LookupsIn(remaining - desired - changing)),
      Phase(false, GuardsIn(remaining - desired - changing)),
      Phase(false, guards - remaining - desired) ]
  }

  function Phases(desired: set<Rule>, existing: set<Rule>): seq<Phase<Rule>> {
    PhasesOf(Remaining(desired, existing), Reclaimed(desired, existing), desired, Guards(desired, existing),
      Changing(desired, existing))
  }

  /** The plan fits the rules it replaces: what every planner output meets. */
  ghost predicate Target(desired: set<Rule>, existing: set<Rule>) {
    && Consistent(desired) && Consistent(existing) && KeepsSlots(desired, existing)
    && forall r :: r in desired ==> GuardOf(r) in desired
  }

  lemma PlanIsTarget(sources: SourceMap, desired: set<Rule>, existing: set<Rule>)
    requires Realises(desired, sources) && Consistent(existing) && KeepsSlots(desired, existing)
    ensures Target(desired, existing)
    ensures Sources(desired) == sources.Keys
  {
    forall r | r in desired
      ensures GuardOf(r) in desired
    {
      assert HasGuard(desired, r.source);
      var g :| g in desired && g.source == r.source && g.IsGuard();
      assert Agree(g, r);
      assert g == GuardOf(r);
    }
    forall s | s in sources
      ensures s in Sources(desired)
    {
      assert HasGuard(desired, s);
    }
  }

  /** A plan never takes the slot of a source that it keeps: that refusal of the writer cannot occur. */
  lemma LiveSlotNeverReclaimed(desired: set<Rule>, existing: set<Rule>, r: Rule)
    requires Target(desired, existing) && r in Reclaimed(desired, existing)
    ensures r.source !in Sources(desired)
  {
    var e :| e in desired && Where(e) == Where(r) && e.source != r.source;
    forall d | d in desired
      ensures d.source != r.source
    {
      assert Agree(d, e) && KeepsSlot(d, r);
    }
  }

  // ---------------------------------------------------------------------
  // The states on the way

  /** What a phase boundary looks like: `n` phases are done. */
  function StageOf(remaining: set<Rule>, reclaimed: set<Rule>, desired: set<Rule>, guards: set<Rule>,
                   changing: set<Rule>, n: nat): set<Rule>
    requires n <= 8
  {
    if n == 0 then remaining + reclaimed
    else if n == 1 then remaining + GuardsIn(reclaimed)
    else if n == 2 then remaining
    else if n == 3 then remaining + guards
    else if n == 4 then (remaining - changing) + guards
    else if n == 5 then (remaining - changing) + guards + desired
    else if n == 6 then GuardsIn(remaining) + guards + desired
    else if n == 7 then (guards - remaining) + desired
    else desired
  }

  lemma StageOfNext(remaining: set<Rule>, reclaimed: set<Rule>, desired: set<Rule>, guards: set<Rule>,
                    changing: set<Rule>, n: nat)
    requires n < 8 && remaining !! reclaimed
    requires changing <= remaining - desired
    requires forall r :: r in changing ==> !r.IsGuard()
    requires forall r :: r in guards ==> r.IsGuard()
    ensures var p := PhasesOf(remaining, reclaimed, desired, guards, changing)[n];
            && After(StageOf(remaining, reclaimed, desired, guards, changing, n), p)
               == StageOf(remaining, reclaimed, desired, guards, changing, n + 1)
            && (if p.add then p.items !! StageOf(remaining, reclaimed, desired, guards, changing, n)
                else p.items <= StageOf(remaining, reclaimed, desired, guards, changing, n))
  {
  }

  function Stage(desired: set<Rule>, existing: set<Rule>, n: nat): set<Rule>
    requires n <= 8
  {
    StageOf(Remaining(desired, existing), Reclaimed(desired, existing), desired, Guards(desired, existing),
      Changing(desired, existing), n)
  }

  function Stages(desired: set<Rule>, existing: set<Rule>): seq<set<Rule>> {
    seq(9, n requires 0 <= n < 9 => Stage(desired, existing, n))
  }

  lemma PhasesAreStaged(desired: set<Rule>, existing: set<Rule>)
    ensures Staged(Stages(desired, existing), Phases(desired, existing))
    ensures Stages(desired, existing)[0] == existing && Stages(desired, existing)[8] == desired
  {
    forall n | 0 <= n < 8
      ensures var p := Phases(desired, existing)[n];
              && After(Stage(desired, existing, n), p) == Stage(desired, existing, n + 1)
              && (if p.add then p.items !! Stage(desired, existing, n) else p.items <= Stage(desired, existing, n))
    {
      StageOfNext(Remaining(desired, existing), Reclaimed(desired, existing), desired, Guards(desired, existing),
        Changing(desired, existing), n);
    }
    assert Remaining(desired, existing) + Reclaimed(desired, existing) == existing;
  }

  /** From any rules to any target: after every prefix of every script the next command is enabled,
      and a complete script ends with exactly the target. */
  lemma ScriptReachesTarget(desired: set<Rule>, existing: set<Rule>, script: seq<Command<Rule>>, k: nat)
    requires IsScript(script, Phases(desired, existing)) && k <= |script|
    ensures Between(existing, Phases(desired, existing), Run(existing, script[..k]))
    ensures k < |script| ==> Enabled(Run(existing, script[..k]), script[k])
    ensures Run(existing, script) == desired
  {
    PhasesAreStaged(desired, existing);
    StagedRuns(Stages(desired, existing), Phases(desired, existing));
    ScriptPrefix(existing, script, Phases(desired, existing), k);
    ScriptPrefix(existing, script, Phases(desired, existing), |script|);
    assert script[..|script|] == script;
  }

  // ---------------------------------------------------------------------
  // Every intermediate state is consistent

  /** Rules kept and rules planned agree on who has which slot. */
  lemma KeptAgrees(desired: set<Rule>, existing: set<Rule>, r: Rule, q: Rule)
    requires Target(desired, existing)
    requires r in Remaining(desired, existing) + desired && q in Remaining(desired, existing) + desired
    ensures Agree(r, q)
  {
    assert r in desired && q !in desired ==> KeepsSlot(r, q);
    assert q in desired && r !in desired ==> KeepsSlot(q, r);
  }

  lemma GuardCanonical(r: Rule)
    requires Canonical(r)
    ensures Canonical(GuardOf(r)) && GuardOf(r).Slot() == r.Slot()
  {
  }

  /** Every rule of the later phases stems from a kept or planned rule of the same source and slot. */
  lemma Origin(desired: set<Rule>, existing: set<Rule>, r: Rule) returns (base: Rule)
    requires Target(desired, existing)
    requires r in Remaining(desired, existing) + Guards(desired, existing) + desired
    ensures base in Remaining(desired, existing) + desired && base.source == r.source && base.Slot() == r.Slot()
    ensures Canonical(r)
  {
    if r in Remaining(desired, existing) + desired {
      base := r;
    } else {
      base :| base in Remaining(desired, existing) + desired && r == GuardOf(base);
      GuardCanonical(base);
    }
  }

  /** Lookups still to be added once all guards are in. */
  function Incoming(desired: set<Rule>, existing: set<Rule>): set<Rule> {
    desired - Remaining(desired, existing) - Guards(desired, existing)
  }

  lemma GuardsAreGuards(desired: set<Rule>, existing: set<Rule>, g: Rule)
    requires g in Guards(desired, existing)
    ensures g.IsGuard()
  {
  }

  lemma SameLookup(desired: set<Rule>, existing: set<Rule>, r: Rule, q: Rule)
    requires Target(desired, existing) && r in Remaining(desired, existing) && q in desired
    requires r !in Changing(desired, existing) || q !in Incoming(desired, existing)
    requires r.source == q.source && !r.IsGuard() && !q.IsGuard()
    ensures r == q
  {
    if q in Guards(desired, existing) { GuardsAreGuards(desired, existing, q); }
    assert q.source in Sources(desired);
    OneLookup(desired, q, if r in desired then r else q);
    OneLookup(existing, r, if q in existing then q else r);
  }

  lemma LateUnique(desired: set<Rule>, existing: set<Rule>, middle: set<Rule>, r: Rule, q: Rule)
    requires Target(desired, existing)
    requires middle <= Remaining(desired, existing) + Guards(desired, existing) + desired
    requires middle !! Changing(desired, existing) || middle !! Incoming(desired, existing)
    requires r in middle && q in middle && r.source == q.source && r.priority == q.priority
    requires Canonical(r) && Canonical(q)
    ensures r == q
  {
    if !r.IsGuard() {
      if r in Guards(desired, existing) { GuardsAreGuards(desired, existing, r); }
      if q in Guards(desired, existing) { GuardsAreGuards(desired, existing, q); }
      if r in Remaining(desired, existing) && q in desired {
        SameLookup(desired, existing, r, q);
      } else if q in Remaining(desired, existing) && r in desired {
        SameLookup(desired, existing, q, r);
      } else if r in desired {
        OneLookup(desired, r, q);
      } else {
        OneLookup(existing, r, q);
      }
    }
  }

  lemma LateAgree(desired: set<Rule>, existing: set<Rule>, r: Rule, q: Rule)
    requires Target(desired, existing)
    requires r in Remaining(desired, existing) + Guards(desired, existing) + desired
    requires q in Remaining(desired, existing) + Guards(desired, existing) + desired
    ensures Agree(r, q) && Canonical(r) && Canonical(q)
  {
    var a := Origin(desired, existing, r);
    var b := Origin(desired, existing, q);
    KeptAgrees(desired, existing, a, b);
  }

  lemma LatePair(desired: set<Rule>, existing: set<Rule>, middle: set<Rule>, r: Rule, q: Rule)
    requires Target(desired, existing)
    requires middle <= Remaining(desired, existing) + Guards(desired, existing) + desired
    requires middle !! Changing(desired, existing) || middle !! Incoming(desired, existing)
    requires r in middle && q in middle
    ensures Agree(r, q) && Canonical(r)
    ensures Collide(r, q) ==> r == q
  {
    LateAgree(desired, existing, r, q);
    if Collide(r, q) { LateUnique(desired, existing, middle, r, q); }
  }

  lemma LateConsistent(desired: set<Rule>, existing: set<Rule>, middle: set<Rule>)
    requires Target(desired, existing)
    requires middle <= Remaining(desired, existing) + Guards(desired, existing) + desired
    requires middle !! Changing(desired, existing) || middle !! Incoming(desired, existing)
    ensures Consistent(middle)
  {
    forall r, q | r in middle && q in middle { LatePair(desired, existing, middle, r, q); }
    forall r | r in middle { LatePair(desired, existing, middle, r, r); }
  }

  lemma ConsistentSubset(some: set<Rule>, all: set<Rule>)
    requires some <= all && Consistent(all)
    ensures Consistent(some)
  {
  }

  /** Where the rules of a mid-phase state come from. */
  lemma WithinBound(remaining: set<Rule>, reclaimed: set<Rule>, desired: set<Rule>, guards: set<Rule>,
                    changing: set<Rule>, n: nat, middle: set<Rule>)
    requires n < 8 && changing <= remaining - desired && guards !! changing
    requires forall r :: r in changing ==> !r.IsGuard()
    requires Within(StageOf(remaining, reclaimed, desired, guards, changing, n),
                    PhasesOf(remaining, reclaimed, desired, guards, changing)[n], middle)
    ensures n < 2 ==> middle <= remaining + reclaimed
    ensures n >= 2 ==> middle <= remaining + guards + desired
    ensures 2 <= n < 4 ==> middle !! desired - remaining - guards
    ensures n >= 4 ==> middle !! changing
  {
  }

  /** Whatever state the writer stops in is one that it accepts when it starts again. */
  lemma MiddleConsistent(desired: set<Rule>, existing: set<Rule>, middle: set<Rule>)
    requires Target(desired, existing) && Between(existing, Phases(desired, existing), middle)
    ensures Consistent(middle)
  {
    PhasesAreStaged(desired, existing);
    var n := StagedBetween(Stages(desired, existing), Phases(desired, existing), middle);
    assert Guards(desired, existing) !! Changing(desired, existing);
    WithinBound(Remaining(desired, existing), Reclaimed(desired, existing), desired, Guards(desired, existing),
                Changing(desired, existing), n, middle);
    if n < 2 {
      ConsistentSubset(middle, existing);
    } else {
      LateConsistent(desired, existing, middle);
    }
  }

  // ---------------------------------------------------------------------
  // The writer as it runs

  datatype ApplyResult = Applied | CommandFailed | LiveSlotReclaimed

  /** Issues a prefix of a script of the plan, all of it when every command succeeds. It refuses, without a
      command, exactly when a reclaimed rule belongs to a source of the plan. */
  method ApplyRules(device: Device<KernelRule>, desired: set<Rule>, existing: set<Rule>)
    returns (r: ApplyResult, ghost commands: seq<Command<KernelRule>>, ghost done: nat)
    requires PairRules(device.state) == existing && Unambiguous(desired)
    modifies device
    ensures r.LiveSlotReclaimed? <==> exists q :: q in Reclaimed(desired, existing) && q.source in Sources(desired)
    ensures r.LiveSlotReclaimed? ==> device.state == old(device.state) && device.log == old(device.log)
    ensures !r.LiveSlotReclaimed? ==>
      && IsScript(commands, LiftAll(Phases(desired, existing))) && done <= |commands|
      && device.log == old(device.log) + commands[..done] && device.state == Run(old(device.state), commands[..done])
    ensures r.Applied? ==> done == |commands| && PairRules(device.state) == desired
    ensures device.reliable ==> !r.CommandFailed?
  {
    var desiredSources := set d | d in desired :: d.source;
    var reclaimed := set q | q in existing && exists d :: d in desired && Where(d) == Where(q) && d.source != q.source;
    commands, done := [], 0;
    if exists q :: q in reclaimed && q.source in desiredSources {
      return LiveSlotReclaimed, commands, done;
    }
    var remaining := existing - reclaimed;
    var guards := set q | q in remaining + desired :: GuardOf(q);
    var changing := set q | q in remaining - desired && !q.IsGuard() && q.source in desiredSources;
    var retired := remaining - desired - changing;
    var phases :=
      [ Phase(false, LookupsIn(reclaimed)),
        Phase(false, GuardsIn(reclaimed)),
        Phase(true, guards - remaining),
        Phase(false, changing),
        Phase(true, desired - remaining - guards),
        Phase(false, LookupsIn(retired)),
        Phase(false, GuardsIn(retired)),
        Phase(false, guards - remaining - desired) ];
    assert phases == Phases(desired, existing) by {
      assert remaining == Remaining(desired, existing) && guards == Guards(desired, existing);
      assert changing == Changing(desired, existing);
    }
    PhasesLiftable(device.state, desired);
    var ok;
    ok, commands, done := RunPhases(device, LiftAll(phases));
    r := if ok then Applied else CommandFailed;
  }

  lemma PhasesLiftable(kernel: set<KernelRule>, desired: set<Rule>)
    ensures var phases := LiftAll(Phases(desired, PairRules(kernel)));
            && Applicable(kernel, phases)
            && Final(kernel, phases) == Others(kernel) + Pairs(desired)
            && PairRules(Final(kernel, phases)) == desired
  {
    var existing := PairRules(kernel);
    PhasesAreStaged(desired, existing);
    StagedRuns(Stages(desired, existing), Phases(desired, existing));
    KernelSplits(kernel);
    LiftedApplicable(Others(kernel), existing, Phases(desired, existing));
    KernelParts(Others(kernel), desired);
  }
}
