/** One reconciliation: the guard on, the sources planned, the rules replaced. */
module Reconcile {
  import opened Wrappers
  import opened Addresses
  import opened PolicyRules
  import opened Allocation
  import opened Scripts
  import opened Kernel
  import opened Application
  import opened RuleSafety
  import opened Transition
  import opened Turns

  /** The previous tables of a source. */
  function PreviousTables(existing: set<Rule>, s: Address): set<int> {
    set r | r in existing && r.source == s && r.table.Some? :: r.table.value
  }

  /** With an incomplete inventory a known source keeps its table only if the inventory still proves it;
      otherwise it is quarantined. No known source is dropped. */
  function FailClosed(sources: SourceMap, existing: set<Rule>): SourceMap {
    map s | s in sources.Keys + Sources(existing) ::
      if s !in Sources(existing) then sources[s]
      else if s in sources && sources[s].Some? && sources[s].value in PreviousTables(existing, s) then sources[s]
      else None
  }

  function Effective(sources: SourceMap, existing: set<Rule>, incomplete: bool): SourceMap {
    if incomplete then FailClosed(sources, existing) else sources
  }

  lemma FailClosedValid(sources: SourceMap, existing: set<Rule>)
    requires ValidSources(sources) && Consistent(existing)
    ensures ValidSources(FailClosed(sources, existing))
    ensures Sources(existing) <= FailClosed(sources, existing).Keys
  {
    var closed := FailClosed(sources, existing);
    forall s | s in closed
      ensures Usable(s) && (closed[s].Some? ==> KnownTable(closed[s].value))
    {
      if s in Sources(existing) {
        var r :| r in existing && r.source == s;
        assert Canonical(r);
      }
    }
  }

  /** A known source that keeps a table keeps the one it had. */
  lemma KeptTable(sources: SourceMap, existing: set<Rule>, desired: set<Rule>, s: Address)
    requires Consistent(existing) && Realises(desired, FailClosed(sources, existing)) && s in Sources(existing)
    ensures Direct(desired, s) in {Direct(existing, s), Blocked}
  {
    assert s in FailClosed(sources, existing);
    assert HasGuard(desired, s);
    if HasLookup(desired, s) {
      var d := DecidingLookup(desired, s);
      assert d.table == FailClosed(sources, existing)[s];
      var r :| r in existing && r.source == s && r.table == d.table;
      LookupDecides(existing, r);
    }
  }

  /** What a reconciliation plans. A source looks up the table that the inventory proves; with an incomplete inventory a
      source that has rules does so only if it did before. Every source proved, and with an incomplete inventory every
      source that has rules, is guarded. */
  lemma EffectiveRules(sources: SourceMap, existing: set<Rule>, incomplete: bool, desired: set<Rule>, s: Address,
                       t: int)
    requires Realises(desired, Effective(sources, existing, incomplete))
    ensures (exists r :: r in desired && r.source == s && r.table == Some(t)) <==>
      && s in sources && sources[s] == Some(t)
      && (incomplete && (exists r :: r in existing && r.source == s) ==>
            exists r :: r in existing && r.source == s && r.table == Some(t))
    ensures (exists r :: r in desired && r.source == s && r.table == None) <==>
      s in sources || (incomplete && exists r :: r in existing && r.source == s)
  {
    RealisesMeans(desired, Effective(sources, existing, incomplete), s, t);
    assert (exists r :: r in existing && r.source == s) <==> s in Sources(existing);
    assert (exists r :: r in existing && r.source == s && r.table == Some(t)) <==> t in PreviousTables(existing, s);
  }

  lemma ExistingGuardPlanned(desired: set<Rule>, existing: set<Rule>, g: Rule)
    requires Target(desired, existing) && g in existing && g.IsGuard() && g.source in Sources(desired)
    ensures g in desired && GuardOf(g) == g
  {
    var d :| d in desired && d.source == g.source;
    assert KeepsSlot(d, g);
    assert Canonical(g);
    assert GuardOf(d) == g;
  }

  /** Incomplete inventory, at every state met: no guard is removed, no slot is reclaimed, and every known
      source keeps its table or is blocked. */
  lemma IncompleteIsFailClosed(sources: SourceMap, existing: set<Rule>, desired: set<Rule>, middle: set<Rule>,
                               s: Address)
    requires Consistent(existing) && Realises(desired, FailClosed(sources, existing)) && KeepsSlots(desired, existing)
    requires Between(existing, Phases(desired, existing), middle)
    ensures Reclaimed(desired, existing) == {}
    ensures GuardsIn(existing) <= middle
    ensures s in Sources(existing) ==> Direct(middle, s) in {Direct(existing, s), Blocked}
  {
    PlanIsTarget(FailClosed(sources, existing), desired, existing);
    NothingReclaimed(desired, existing);
    var n := Located(desired, existing, middle);
    forall g | g in GuardsIn(existing)
      ensures g in middle
    {
      assert g.source in Sources(existing);
      ExistingGuardPlanned(desired, existing, g);
      assert g in Guards(desired, existing);
    }
    if s in Sources(existing) {
      OutcomeOnTheWay(desired, existing, middle, s);
      KeptTable(sources, existing, desired, s);
    }
  }

  // ---------------------------------------------------------------------
  // The reconciler as it runs

  datatype Ending = Reconciled | Quarantined | Refused | Stopped

  /** The dictionary update that an incomplete inventory calls for. */
  method CloseOver(sources: SourceMap, existing: set<Rule>) returns (closed: SourceMap)
    ensures closed == FailClosed(sources, existing)
  {
    closed := sources;
    var known := set r | r in existing :: r.source;
    var todo := known;
    while todo != {}
      invariant todo <= known
      invariant closed.Keys == sources.Keys + (known - todo)
      invariant forall s :: s in sources && s !in known - todo ==> closed[s] == sources[s]
      invariant forall s :: s in known - todo ==> closed[s] == FailClosed(sources, existing)[s]
      decreases todo
    {
      var s :| s in todo;
      var previous := set r | r in existing && r.source == s && r.table.Some? :: r.table.value;
      assert previous == PreviousTables(existing, s);
      if !(s in closed && closed[s].Some? && closed[s].value in previous) {
        closed := closed[s := None];
      }
      todo := todo - {s};
    }
    assert known == Sources(existing);
  }

  /** The rules in place are consistent, and the effective sources fit. */
  predicate Plannable(rules: set<Rule>, sources: SourceMap, incomplete: bool) {
    Consistent(rules) && Fits(Effective(sources, rules, incomplete).Keys)
  }

  /** What the state of the source rules may be when a reconciliation stops. */
  ghost predicate Safe(before: set<Rule>, incomplete: bool, after: set<Rule>) {
    && (Consistent(before) ==> Consistent(after))
    && (Consistent(before) && incomplete ==>
          && GuardsIn(before) <= after
          && forall s :: s in Sources(before) ==> Direct(after, s) in {Direct(before, s), Blocked})
  }

  /** Wherever a plan for the effective sources is stopped, the source rules are safe. */
  lemma SafeWhenStopped(before: set<Rule>, sources: SourceMap, incomplete: bool, desired: set<Rule>,
                        script: seq<Command<Rule>>, done: nat)
    requires Consistent(before) && ValidSources(sources) && done <= |script|
    requires Realises(desired, Effective(sources, before, incomplete)) && KeepsSlots(desired, before)
    requires IsScript(script, Phases(desired, before))
    ensures Safe(before, incomplete, Run(before, script[..done]))
  {
    var after := Run(before, script[..done]);
    PlanIsTarget(Effective(sources, before, incomplete), desired, before);
    ScriptReachesTarget(desired, before, script, done);
    MiddleConsistent(desired, before, after);
    if incomplete {
      forall s | s in Sources(before)
        ensures Direct(after, s) in {Direct(before, s), Blocked}
      {
        IncompleteIsFailClosed(sources, before, desired, after, s);
      }
      IncompleteIsFailClosed(sources, before, desired, after, Address(V4, 0));
    }
  }

  /** Whatever command fails, the rules left are safe. Inconsistent rules and sources that do not fit are refused, and
      nothing else; then the source rules stay as they were. Success and quarantine leave exactly the rules of the
      effective sources, behind both terminal guards. */
  method RunReconcile(device: Device<KernelRule>, sources: SourceMap, incomplete: bool, hash: Address -> nat)
    returns (r: Ending, ghost turns: seq<Turn>)
    requires ValidSources(sources)
    modifies device
    ensures Leads(old(device.state), turns, device.state)
    ensures Safe(PairRules(old(device.state)), incomplete, PairRules(device.state))
    ensures r.Refused? ==> !Plannable(PairRules(old(device.state)), sources, incomplete)
    ensures !Plannable(PairRules(old(device.state)), sources, incomplete) ==>
      (r.Refused? || r.Stopped?) && PairRules(device.state) == PairRules(old(device.state))
    ensures r.Reconciled? || r.Quarantined? ==>
      && Realises(PairRules(device.state), Effective(sources, PairRules(old(device.state)), incomplete))
      && GuardRules(V4) + GuardRules(V6) <= device.state
    ensures r.Reconciled? ==> !incomplete && forall s :: s in sources ==> sources[s].Some?
    ensures r.Quarantined? ==> incomplete || exists s :: s in sources && sources[s].None?
    ensures device.reliable ==> !r.Stopped?
  {
    ghost var before := PairRules(device.state);
    ghost var first := device.state;
    var guarding;
    guarding, turns := GuardBoth(device);
    if !guarding.Guarded? { return if guarding.Unreadable? then Refused else Stopped, turns; }
    var existing := PairRules(device.state);
    var wanted := sources;
    if incomplete { wanted := CloseOver(sources, existing); }
    var order := Listing(wanted.Keys);
    var plan := PlanRules(wanted, order, existing, hash);
    if Unambiguous(existing) { PlanSucceeds(wanted, order, existing, hash); }
    if plan.Failure? { return Refused, turns; }
    if incomplete { FailClosedValid(sources, existing); }
    PlanRealises(wanted, order, existing, hash);
    ghost var guarded := device.state;
    ghost var turn;
    r, turn := ApplyPlan(device, plan.value, existing, wanted, sources, incomplete);
    LeadsNext(first, turns, guarded, turn);
    turns := turns + [turn];
  }

  lemma GuardStays(kernel: set<KernelRule>, now: set<KernelRule>)
    requires Others(now) == Others(kernel) && GuardRules(V4) + GuardRules(V6) <= kernel
    ensures GuardRules(V4) + GuardRules(V6) <= now
  {
    forall k | k in GuardRules(V4) + GuardRules(V6)
      ensures k in now
    {
      assert k in Others(kernel);
    }
  }

  method ApplyPlan(device: Device<KernelRule>, desired: set<Rule>, existing: set<Rule>, wanted: SourceMap,
                   ghost sources: SourceMap, incomplete: bool) returns (r: Ending, ghost turn: Turn)
    requires GuardRules(V4) + GuardRules(V6) <= device.state
    requires PairRules(device.state) == existing && Consistent(existing) && ValidSources(sources)
    requires wanted == Effective(sources, existing, incomplete)
    requires Realises(desired, wanted) && KeepsSlots(desired, existing)
    modifies device
    ensures turn.move == Replace(desired) && Possible(old(device.state), turn)
    ensures device.state == AfterTurn(old(device.state), turn)
    ensures Safe(existing, incomplete, PairRules(device.state)) && !r.Refused?
    ensures r.Reconciled? || r.Quarantined? ==> PairRules(device.state) == desired
    ensures GuardRules(V4) + GuardRules(V6) <= device.state
    ensures r.Reconciled? ==> !incomplete && forall s :: s in wanted ==> wanted[s].Some?
    ensures r.Quarantined? ==> incomplete || exists s :: s in wanted && wanted[s].None?
    ensures device.reliable ==> !r.Stopped?
  {
    ghost var kernel := device.state;
    PlanIsTarget(wanted, desired, existing);
    var applied, commands, done := ApplyRules(device, desired, existing);
    if applied.LiveSlotReclaimed? {
      var q :| q in Reclaimed(desired, existing) && q.source in Sources(desired);
      LiveSlotNeverReclaimed(desired, existing, q);
      assert false;
    }
    KernelPrefix(kernel, commands, Phases(desired, existing), done);
    SafeWhenStopped(existing, sources, incomplete, desired, Lower(commands), done);
    GuardStays(kernel, device.state);
    turn := Turn(Replace(desired), commands, done);
    if !applied.Applied? { return Stopped, turn; }
    r := if incomplete || exists s :: s in wanted && wanted[s].None? then Quarantined else Reconciled;
  }
}
