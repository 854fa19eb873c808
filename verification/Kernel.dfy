/** The whole rule set of the kernel: source pairs next to guards, exemptions and legacy selectors.
    A writer of source pairs is a script over rules; the kernel sees it as a script over kernel rules. */
module Kernel {
  import opened Wrappers
  import opened Addresses
  import opened PolicyRules
  import opened Scripts

  function PairRules(kernel: set<KernelRule>): set<Rule> {
    set k | k in kernel && k.Pair? :: k.rule
  }

  function Others(kernel: set<KernelRule>): set<KernelRule> {
    set k | k in kernel && !k.Pair?
  }

  lemma KernelSplits(kernel: set<KernelRule>)
    ensures kernel == Others(kernel) + Pairs(PairRules(kernel))
  {
    forall k | k in kernel
      ensures k in Others(kernel) + Pairs(PairRules(kernel))
    {
      if k.Pair? { assert k.rule in PairRules(kernel); }
    }
  }

  lemma KernelParts(others: set<KernelRule>, rules: set<Rule>)
    requires forall k :: k in others ==> !k.Pair?
    ensures PairRules(others + Pairs(rules)) == rules && Others(others + Pairs(rules)) == others
  {
    forall r | r in rules
      ensures r in PairRules(others + Pairs(rules))
    {
      assert Pair(r) in others + Pairs(rules);
    }
  }

  // ---------------------------------------------------------------------
  // Lifting

  function Lift(phase: Phase<Rule>): Phase<KernelRule> {
    Phase(phase.add, Pairs(phase.items))
  }

  function LiftAll(phases: seq<Phase<Rule>>): seq<Phase<KernelRule>> {
    seq(|phases|, i requires 0 <= i < |phases| => Lift(phases[i]))
  }

  lemma LiftAllCons(phases: seq<Phase<Rule>>)
    requires phases != []
    ensures LiftAll(phases)[0] == Lift(phases[0]) && LiftAll(phases)[1..] == LiftAll(phases[1..])
  {
  }

  lemma PairsMember(rules: set<Rule>, r: Rule)
    ensures Pair(r) in Pairs(rules) <==> r in rules
  {
  }

  lemma {:induction false} PairsSize(rules: set<Rule>)
    ensures |Pairs(rules)| == |rules|
    decreases rules
  {
    if rules == {} {
    } else {
      var r :| r in rules;
      PairsSize(rules - {r});
      assert Pairs(rules) == Pairs(rules - {r}) + {Pair(r)};
    }
  }

  lemma LiftedAfter(others: set<KernelRule>, rules: set<Rule>, phase: Phase<Rule>)
    requires forall k :: k in others ==> !k.Pair?
    ensures After(others + Pairs(rules), Lift(phase)) == others + Pairs(After(rules, phase))
  {
    var left, right := After(others + Pairs(rules), Lift(phase)), others + Pairs(After(rules, phase));
    forall k
      ensures k in left <==> k in right
    {
      if k.Pair? {
        PairsMember(rules, k.rule);
        PairsMember(phase.items, k.rule);
        PairsMember(After(rules, phase), k.rule);
      }
    }
  }

  lemma {:induction false} LiftedApplicable(others: set<KernelRule>, rules: set<Rule>, phases: seq<Phase<Rule>>)
    requires (forall k :: k in others ==> !k.Pair?) && Applicable(rules, phases)
    ensures Applicable(others + Pairs(rules), LiftAll(phases))
    ensures Final(others + Pairs(rules), LiftAll(phases)) == others + Pairs(Final(rules, phases))
    decreases |phases|
  {
    if phases == [] {
    } else {
      LiftAllCons(phases);
      LiftedAfter(others, rules, phases[0]);
      LiftedApplicable(others, After(rules, phases[0]), phases[1..]);
      forall k | k in Pairs(phases[0].items)
        ensures k.Pair? && k.rule in phases[0].items
      {
      }
    }
  }

  function Lower(commands: seq<Command<KernelRule>>): seq<Command<Rule>>
    requires forall i :: 0 <= i < |commands| ==> commands[i].item.Pair?
  {
    seq(|commands|, i requires 0 <= i < |commands| =>
      if commands[i].Add? then Add(commands[i].item.rule) else Del(commands[i].item.rule))
  }

  lemma LoweredEnumerates(commands: seq<Command<KernelRule>>, phase: Phase<Rule>)
    requires Enumerates(commands, Lift(phase))
    ensures forall i :: 0 <= i < |commands| ==> commands[i].item.Pair?
    ensures Enumerates(Lower(commands), phase)
  {
    PairsSize(phase.items);
  }

  /** A kernel script of lifted phases is a script of the phases, seen through `Pair`. */
  lemma {:induction false} LoweredScript(commands: seq<Command<KernelRule>>, phases: seq<Phase<Rule>>)
    requires IsScript(commands, LiftAll(phases))
    ensures forall i :: 0 <= i < |commands| ==> commands[i].item.Pair?
    ensures IsScript(Lower(commands), phases)
    decreases |phases|
  {
    if phases != [] {
      LiftAllCons(phases);
      PairsSize(phases[0].items);
      var n := |phases[0].items|;
      LoweredEnumerates(commands[..n], phases[0]);
      LoweredScript(commands[n..], phases[1..]);
      forall i | 0 <= i < |commands|
        ensures commands[i].item.Pair?
      {
        if i < n { assert commands[i] == commands[..n][i]; } else { assert commands[i] == commands[n..][i - n]; }
      }
      assert Lower(commands)[..n] == Lower(commands[..n]);
      assert Lower(commands)[n..] == Lower(commands[n..]);
    }
  }

  /** Running lifted commands changes the pairs as the commands say, and nothing else. */
  lemma {:induction false} LoweredRun(others: set<KernelRule>, rules: set<Rule>, commands: seq<Command<KernelRule>>)
    requires forall k :: k in others ==> !k.Pair?
    requires forall i :: 0 <= i < |commands| ==> commands[i].item.Pair?
    ensures Run(others + Pairs(rules), commands) == others + Pairs(Run(rules, Lower(commands)))
    decreases |commands|
  {
    if commands == [] {
    } else {
      var first := Lower(commands)[0];
      var phase := Phase(first.Add?, {first.item});
      LiftedAfter(others, rules, phase);
      assert Pairs({first.item}) == {commands[0].item};
      assert Lower(commands)[1..] == Lower(commands[1..]);
      LoweredRun(others, Execute(rules, first), commands[1..]);
      assert Execute(others + Pairs(rules), commands[0]) == others + Pairs(Execute(rules, first));
    }
  }

  /** After any prefix of a lifted script only the pairs have changed, as the same prefix of the script says. */
  lemma KernelPrefix(kernel: set<KernelRule>, commands: seq<Command<KernelRule>>, phases: seq<Phase<Rule>>, k: nat)
    requires IsScript(commands, LiftAll(phases)) && k <= |commands|
    ensures forall i :: 0 <= i < |commands| ==> commands[i].item.Pair?
    ensures IsScript(Lower(commands), phases)
    ensures var now := Run(kernel, commands[..k]);
            Others(now) == Others(kernel) && PairRules(now) == Run(PairRules(kernel), Lower(commands)[..k])
  {
    LoweredScript(commands, phases);
    KernelSplits(kernel);
    assert Lower(commands[..k]) == Lower(commands)[..k];
    LoweredRun(Others(kernel), PairRules(kernel), commands[..k]);
    KernelParts(Others(kernel), Run(PairRules(kernel), Lower(commands)[..k]));
  }

  /** Lifting the states: while a plan is applied in the kernel its pairs are a state of the plan. */
  lemma {:induction false} LiftedBetween(kernel: set<KernelRule>, phases: seq<Phase<Rule>>, now: set<KernelRule>)
    requires Between(kernel, LiftAll(phases), now)
    ensures Others(now) == Others(kernel) && Between(PairRules(kernel), phases, PairRules(now))
    decreases |phases|
  {
    if phases != [] {
      LiftAllCons(phases);
      if Within(kernel, LiftAll(phases)[0], now) {
        LiftedWithin(kernel, phases[0], now);
      } else {
        KernelSplits(kernel);
        LiftedAfter(Others(kernel), PairRules(kernel), phases[0]);
        KernelParts(Others(kernel), After(PairRules(kernel), phases[0]));
        LiftedBetween(After(kernel, Lift(phases[0])), phases[1..], now);
      }
    }
  }

  lemma LiftedWithin(kernel: set<KernelRule>, phase: Phase<Rule>, now: set<KernelRule>)
    requires Within(kernel, Lift(phase), now)
    ensures Others(now) == Others(kernel) && Within(PairRules(kernel), phase, PairRules(now))
  {
    forall k: KernelRule
      ensures !k.Pair? ==> (k in now <==> k in kernel)
      ensures k.Pair? ==> (k in Pairs(phase.items) <==> k.rule in phase.items)
    {
      if k.Pair? { PairsMember(phase.items, k.rule); }
    }
    forall r: Rule
      ensures r in PairRules(kernel) <==> Pair(r) in kernel
      ensures r in PairRules(now) <==> Pair(r) in now
    {
    }
  }

  // ---------------------------------------------------------------------
  // Routing over the whole set

  /** No two tables apart, the kernel's verdict depends on the first match only. */
  lemma FirstMatchDecides(kernel: set<KernelRule>, s: Address, d: Address, k: KernelRule, o: Outcome)
    requires FirstMatch(kernel, s, d, k)
    requires forall q :: q in kernel && Matches(q, s, d) && Priority(q) == Priority(k) ==> Verdict(q) == Verdict(k)
    ensures Resolves(kernel, s, d, o) <==> o == Verdict(k)
  {
    forall q | FirstMatch(kernel, s, d, q)
      ensures Verdict(q) == Verdict(k)
    {
    }
  }

  /** Source pairs come before exemptions and the terminal guard: a source with a rule goes where its pair sends it. */
  lemma PairsDecide(kernel: set<KernelRule>, s: Address, d: Address, o: Outcome)
    requires Consistent(PairRules(kernel))
    requires forall k :: k in kernel && k.Legacy? ==> !Matches(k, s, d)
    requires Direct(PairRules(kernel), s) != FallThrough
    ensures Resolves(kernel, s, d, o) <==> o == Direct(PairRules(kernel), s)
  {
    var rules := PairRules(kernel);
    var r := BestRule(rules, s);
    assert Pair(r) in kernel;
    forall q | q in kernel && Matches(q, s, d)
      ensures q == Pair(r) || Priority(Pair(r)) < Priority(q)
    {
      if q.Pair? { assert q.rule in rules; assert Agree(q.rule, r); }
    }
    FirstMatchDecides(kernel, s, d, Pair(r), o);
  }

  /** The rule of a source that is matched first. */
  lemma BestRule(rules: set<Rule>, s: Address) returns (r: Rule)
    requires Consistent(rules) && Direct(rules, s) != FallThrough
    ensures r in rules && r.source == s && Verdict(Pair(r)) == Direct(rules, s)
    ensures forall q :: q in rules && q.source == s ==> q == r || r.priority < q.priority
  {
    if HasLookup(rules, s) {
      r :| r in rules && r.source == s && !r.IsGuard() && LookupTable(rules, s) == r.table.value;
    } else {
      r :| r in rules && r.source == s && r.IsGuard();
    }
    forall q | q in rules && q.source == s
      ensures q == r || r.priority < q.priority
    {
      if q.IsGuard() == r.IsGuard() { OneLookup(rules, q, r); } else { assert Agree(q, r); }
    }
  }
}
