/** The terminal guard of a family and its four exemptions. */
module Transition {
  import opened Wrappers
  import opened Addresses
  import opened PolicyRules
  import opened Scripts
  import opened Kernel
  import opened Application

  function Exemptions(f: Family): set<KernelRule> {
    {SourceExemption(f, 0), SourceExemption(f, 1), SourceExemption(f, 2), DestinationExemption(f)}
  }

  function GuardRules(f: Family): set<KernelRule> {
    {Terminal(f)} + Exemptions(f)
  }

  /** The catch-all first, then the exemptions that are missing. */
  function EnablePhases(kernel: set<KernelRule>, f: Family): seq<Phase<KernelRule>> {
    [ Phase(true, {Terminal(f)} - kernel),
      Phase(true, {SourceExemption(f, 0)} - kernel),
      Phase(true, {SourceExemption(f, 1)} - kernel),
      Phase(true, {SourceExemption(f, 2)} - kernel),
      Phase(true, {DestinationExemption(f)} - kernel) ]
  }

  /** The exemptions that are present, then the catch-all. */
  function DisablePhases(kernel: set<KernelRule>, f: Family): seq<Phase<KernelRule>> {
    [ Phase(false, {SourceExemption(f, 0)} * kernel),
      Phase(false, {SourceExemption(f, 1)} * kernel),
      Phase(false, {SourceExemption(f, 2)} * kernel),
      Phase(false, {DestinationExemption(f)} * kernel),
      Phase(false, {Terminal(f)} * kernel) ]
  }

  function EnableStages(kernel: set<KernelRule>, f: Family): seq<set<KernelRule>> {
    [ kernel,
      kernel + {Terminal(f)},
      kernel + {Terminal(f), SourceExemption(f, 0)},
      kernel + {Terminal(f), SourceExemption(f, 0), SourceExemption(f, 1)},
      kernel + {Terminal(f), SourceExemption(f, 0), SourceExemption(f, 1), SourceExemption(f, 2)},
      kernel + GuardRules(f) ]
  }

  function DisableStages(kernel: set<KernelRule>, f: Family): seq<set<KernelRule>> {
    [ kernel,
      kernel - {SourceExemption(f, 0)},
      kernel - {SourceExemption(f, 0), SourceExemption(f, 1)},
      kernel - {SourceExemption(f, 0), SourceExemption(f, 1), SourceExemption(f, 2)},
      kernel - Exemptions(f),
      kernel - GuardRules(f) ]
  }

  lemma EnableStaged(kernel: set<KernelRule>, f: Family)
    ensures Staged(EnableStages(kernel, f), EnablePhases(kernel, f))
  {
    var stages, phases := EnableStages(kernel, f), EnablePhases(kernel, f);
    assert stages[0] + phases[0].items == stages[1];
    assert stages[1] + phases[1].items == stages[2];
    assert stages[2] + phases[2].items == stages[3];
    assert stages[3] + phases[3].items == stages[4];
    assert stages[4] + phases[4].items == stages[5];
  }

  lemma DisableStaged(kernel: set<KernelRule>, f: Family)
    ensures Staged(DisableStages(kernel, f), DisablePhases(kernel, f))
  {
    var stages, phases := DisableStages(kernel, f), DisablePhases(kernel, f);
    assert stages[0] - phases[0].items == stages[1];
    assert stages[1] - phases[1].items == stages[2];
    assert stages[2] - phases[2].items == stages[3];
    assert stages[3] - phases[3].items == stages[4];
    assert stages[4] - phases[4].items == stages[5];
  }

  /** Exemptions are present only while the catch-all is. */
  predicate Sheltered(kernel: set<KernelRule>, f: Family) {
    kernel !! Exemptions(f) || Terminal(f) in kernel
  }

  /** Enabling only adds; the first thing it adds is the catch-all; it converges from any partial set. */
  lemma EnableOnTheWay(kernel: set<KernelRule>, f: Family, middle: set<KernelRule>)
    ensures Applicable(kernel, EnablePhases(kernel, f))
    ensures Final(kernel, EnablePhases(kernel, f)) == kernel + GuardRules(f)
    ensures Between(kernel, EnablePhases(kernel, f), middle) ==>
      && kernel <= middle <= kernel + GuardRules(f)
      && (middle == kernel || Terminal(f) in middle)
  {
    EnableStaged(kernel, f);
    StagedRuns(EnableStages(kernel, f), EnablePhases(kernel, f));
    if Between(kernel, EnablePhases(kernel, f), middle) {
      var n := StagedBetween(EnableStages(kernel, f), EnablePhases(kernel, f), middle);
      if n == 0 { assert middle == kernel || Terminal(f) in middle; }
    }
  }

  /** Disabling only removes rules of the guard, and the catch-all last. */
  lemma DisableOnTheWay(kernel: set<KernelRule>, f: Family, middle: set<KernelRule>)
    ensures Applicable(kernel, DisablePhases(kernel, f))
    ensures Final(kernel, DisablePhases(kernel, f)) == kernel - GuardRules(f)
    ensures Between(kernel, DisablePhases(kernel, f), middle) ==>
      && kernel - GuardRules(f) <= middle <= kernel
      && (Terminal(f) in kernel && Terminal(f) !in middle ==> middle !! Exemptions(f))
  {
    DisableStaged(kernel, f);
    StagedRuns(DisableStages(kernel, f), DisablePhases(kernel, f));
    if Between(kernel, DisablePhases(kernel, f), middle) {
      var n := StagedBetween(DisableStages(kernel, f), DisablePhases(kernel, f), middle);
      if n == 4 { assert middle <= kernel - Exemptions(f); }
    }
  }

  /** The source rules of both families together: canonical, one a priority. */
  predicate Admissible(rules: set<Rule>) {
    (forall r :: r in rules ==> Canonical(r)) && UniquePriorities(rules)
  }

  lemma ReadableBoth(rules: set<Rule>)
    ensures Readable(rules, V4) && Readable(rules, V6) <==> Admissible(rules)
  {
    if Readable(rules, V4) && Readable(rules, V6) {
      forall r | r in rules
        ensures Canonical(r)
      {
        assert r.Family() == V4 || r.Family() == V6;
      }
      forall r, q | r in rules && q in rules && Collide(r, q)
        ensures r == q
      {
        assert r.Family() == V4 || r.Family() == V6;
      }
    }
  }

  /** The source rules of one family as they are read: canonical, one a priority. */
  predicate Readable(rules: set<Rule>, f: Family) {
    Admissible(set r | r in rules && r.Family() == f)
  }

  /** Enables or disables one family, if its rules can be read; stops at the first failure. */
  method SetGuard(device: Device<KernelRule>, f: Family, enable: bool)
    returns (ok: bool, ghost commands: seq<Command<KernelRule>>, ghost done: nat)
    modifies device
    ensures IsScript(commands, if enable then EnablePhases(old(device.state), f)
      else DisablePhases(old(device.state), f))
    ensures done <= |commands| && device.log == old(device.log) + commands[..done]
    ensures device.state == Run(old(device.state), commands[..done])
    ensures ok ==>
      device.state == if enable then old(device.state) + GuardRules(f) else old(device.state) - GuardRules(f)
    ensures !Readable(PairRules(old(device.state)), f) ==> !ok && done == 0
    ensures device.reliable && Readable(PairRules(old(device.state)), f) ==> ok
  {
    if !Readable(PairRules(device.state), f) {
      ghost var script := SomeScript(if enable then EnablePhases(device.state, f) else DisablePhases(device.state, f));
      return false, script, 0;
    }
    ok, commands, done := IssueGuard(device, f, enable);
  }

  method IssueGuard(device: Device<KernelRule>, f: Family, enable: bool)
    returns (ok: bool, ghost commands: seq<Command<KernelRule>>, ghost done: nat)
    modifies device
    ensures IsScript(commands, if enable then EnablePhases(old(device.state), f)
      else DisablePhases(old(device.state), f))
    ensures done <= |commands| && device.log == old(device.log) + commands[..done]
    ensures device.state == Run(old(device.state), commands[..done])
    ensures ok ==>
      device.state == if enable then old(device.state) + GuardRules(f) else old(device.state) - GuardRules(f)
    ensures device.reliable ==> ok
  {
    if enable {
      EnableOnTheWay(device.state, f, device.state);
      ok, commands, done := RunPhases(device, EnablePhases(device.state, f));
    } else {
      DisableOnTheWay(device.state, f, device.state);
      ok, commands, done := RunPhases(device, DisablePhases(device.state, f));
    }
  }

  // ---------------------------------------------------------------------
  // Routing behind the terminal guard

  /** Behind the catch-all a usable source with a destination that is not link-local never reaches main
      and never falls out of the owned priorities, whatever else is installed. */
  lemma NeverMain(kernel: set<KernelRule>, s: Address, d: Address, o: Outcome)
    requires Terminal(s.family) in kernel && Usable(s) && !Inside(d, LinkLocal(s.family))
    requires Resolves(kernel, s, d, o)
    ensures o.Table? || o.Blocked?
  {
    assert Matches(Terminal(s.family), s, d);
    var k :| FirstMatch(kernel, s, d, k) && o == Verdict(k);
    assert !k.SourceExemption? && !k.DestinationExemption?;
  }

  /** Packets that the guard leaves to the main table: from the unspecified address, from a link-local or a loopback
      address, and to a link-local one. */
  predicate Exempt(s: Address, d: Address) {
    match s.family
    case V4 =>
      || s.value == 0 || 0xa9fe_0000 <= s.value <= 0xa9fe_ffff || 0x7f00_0000 <= s.value <= 0x7fff_ffff
      || (d.family == V4 && 0xa9fe_0000 <= d.value <= 0xa9fe_ffff)
    case V6 =>
      var first, last := 0xfe80_0000_0000_0000_0000_0000_0000_0000, 0xfebf_ffff_ffff_ffff_ffff_ffff_ffff_ffff;
      || s.value == 0 || first <= s.value <= last || s.value == 1
      || (d.family == V6 && first <= d.value <= last)
  }

  /** With the guard complete, a packet that no source rule and no selector matches goes to the main table if it is
      exempt, and nowhere otherwise. */
  lemma GuardDecides(kernel: set<KernelRule>, s: Address, d: Address, o: Outcome)
    requires GuardRules(s.family) <= kernel
    requires forall k :: k in kernel && (k.Pair? || k.Legacy?) ==> !Matches(k, s, d)
    ensures Resolves(kernel, s, d, o) <==> o == if Exempt(s, d) then Main else Blocked
  {
    var f := s.family;
    var first := if Inside(s, Unspecified(f)) then SourceExemption(f, 0)
                 else if Inside(s, LinkLocal(f)) then SourceExemption(f, 1)
                 else if Inside(s, Loopback(f)) then SourceExemption(f, 2)
                 else if Inside(d, LinkLocal(f)) then DestinationExemption(f)
                 else Terminal(f);
    assert first in kernel && Matches(first, s, d);
    forall k | k in kernel && Matches(k, s, d)
      ensures Priority(first) <= Priority(k) && (Exempt(s, d) && Priority(k) == Priority(first) ==> Verdict(k) == Main)
      ensures !Exempt(s, d) ==> k == first
    {
    }
    assert FirstMatch(kernel, s, d, first);
  }

  // ---------------------------------------------------------------------
  // What the commands of a guard leave alone

  lemma EnableKeeps(kernel: set<KernelRule>, g: Family, f: Family, now: set<KernelRule>)
    requires Between(kernel, EnablePhases(kernel, g), now)
    ensures Sheltered(kernel, f) ==> Sheltered(now, f)
    ensures Terminal(f) in kernel ==> Terminal(f) in now
  {
    EnableOnTheWay(kernel, g, now);
    if f != g { assert GuardRules(g) !! Exemptions(f); }
  }

  lemma DisableKeeps(kernel: set<KernelRule>, g: Family, f: Family, now: set<KernelRule>)
    requires Between(kernel, DisablePhases(kernel, g), now)
    ensures Sheltered(kernel, f) ==> Sheltered(now, f)
    ensures Terminal(f) in kernel && f != g ==> Terminal(f) in now
  {
    DisableOnTheWay(kernel, g, now);
    if f != g { assert Terminal(f) !in GuardRules(g); }
  }

  lemma ReplaceKeeps(kernel: set<KernelRule>, f: Family, now: set<KernelRule>)
    requires Others(now) == Others(kernel)
    ensures Sheltered(kernel, f) ==> Sheltered(now, f)
    ensures Terminal(f) in kernel ==> Terminal(f) in now
  {
    assert forall k: KernelRule :: !k.Pair? ==>
      (k in now <==> k in Others(now)) && (k in kernel <==> k in Others(kernel));
  }

  /** Commands of a guard leave the source rules alone. */
  lemma GuardLeavesPairs(kernel: set<KernelRule>, f: Family, now: set<KernelRule>)
    requires kernel <= now <= kernel + GuardRules(f) || kernel - GuardRules(f) <= now <= kernel
    ensures PairRules(now) == PairRules(kernel)
  {
    SamePairs(kernel, now);
  }

  lemma SamePairs(kernel: set<KernelRule>, now: set<KernelRule>)
    requires forall k: KernelRule :: k.Pair? ==> (k in now <==> k in kernel)
    ensures PairRules(now) == PairRules(kernel)
  {
    forall r: Rule
      ensures r in PairRules(now) <==> r in PairRules(kernel)
    {
      assert Pair(r) in now <==> Pair(r) in kernel;
    }
  }
}
