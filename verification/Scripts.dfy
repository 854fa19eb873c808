/** Command scripts made of phases.

    Every writer of the routing rule set works in phases: a phase adds, or
    deletes, each rule of a set, one command at a time. A writer can stop after
    any command, so what matters is what holds after every prefix of every
    script. Inside one phase the commands may come in any order: the order the
    program sorts them into is one of the orders covered. */
module Scripts {

  datatype Command<T> = Add(item: T) | Del(item: T)

  datatype Phase<T> = Phase(add: bool, items: set<T>)

  /** The command is neither an add of a present item nor a delete of an absent one. */
  predicate Enabled<T(==)>(state: set<T>, command: Command<T>) {
    match command
    case Add(x) => x !in state
    case Del(x) => x in state
  }

  function Execute<T>(state: set<T>, command: Command<T>): set<T> {
    match command
    case Add(x) => state + {x}
    case Del(x) => state - {x}
  }

  function Run<T>(state: set<T>, commands: seq<Command<T>>): set<T>
    decreases |commands|
  {
    if commands == [] then state
    else Run(Execute(state, commands[0]), commands[1..])
  }

  function After<T>(state: set<T>, phase: Phase<T>): set<T> {
    if phase.add then state + phase.items else state - phase.items
  }

  function Final<T>(state: set<T>, phases: seq<Phase<T>>): set<T>
    decreases |phases|
  {
    if phases == [] then state else Final(After(state, phases[0]), phases[1..])
  }

  function CommandOf<T>(phase: Phase<T>, x: T): Command<T> {
    if phase.add then Add(x) else Del(x)
  }

  /** `commands` performs every item of the phase exactly once, in some order. */
  ghost predicate Enumerates<T>(commands: seq<Command<T>>, phase: Phase<T>) {
    && |commands| == |phase.items|
    && (forall i :: 0 <= i < |commands| ==>
          commands[i].item in phase.items && commands[i] == CommandOf(phase, commands[i].item))
    && (forall i, j :: 0 <= i < j < |commands| ==> commands[i].item != commands[j].item)
  }

  /** `commands` performs the phases one after the other. */
  ghost predicate IsScript<T>(commands: seq<Command<T>>, phases: seq<Phase<T>>)
    decreases |phases|
  {
    if phases == [] then commands == []
    else
      var n := |phases[0].items|;
      && n <= |commands|
      && Enumerates(commands[..n], phases[0])
      && IsScript(commands[n..], phases[1..])
  }

  /** Each add phase adds absent items only, each delete phase present ones only. */
  ghost predicate Applicable<T>(state: set<T>, phases: seq<Phase<T>>)
    decreases |phases|
  {
    phases == [] ||
    (&& (if phases[0].add then phases[0].items !! state else phases[0].items <= state)
     && Applicable(After(state, phases[0]), phases[1..]))
  }

  /** The states a phase passes through lie between its first and its last state. */
  predicate Within<T(==)>(state: set<T>, phase: Phase<T>, middle: set<T>) {
    if phase.add then state <= middle <= state + phase.items
    else state - phase.items <= middle <= state
  }

  /** `middle` can be met while the phases run from `state`. */
  predicate Between<T(==)>(state: set<T>, phases: seq<Phase<T>>, middle: set<T>)
    decreases |phases|
  {
    if phases == [] then middle == state
    else Within(state, phases[0], middle) || Between(After(state, phases[0]), phases[1..], middle)
  }

  lemma {:induction false} RunSplit<T>(state: set<T>, commands: seq<Command<T>>, k: nat)
    requires k <= |commands|
    ensures Run(state, commands) == Run(Run(state, commands[..k]), commands[k..])
    decreases k
  {
    if k == 0 {
      assert commands[k..] == commands;
    } else {
      RunSplit(Execute(state, commands[0]), commands[1..], k - 1);
      assert commands[..k][1..] == commands[1..][..k - 1];
      assert commands[1..][k - 1..] == commands[k..];
    }
  }

  lemma RunNext<T>(state: set<T>, commands: seq<Command<T>>, k: nat)
    requires k < |commands|
    ensures Run(state, commands[..k + 1]) == Execute(Run(state, commands[..k]), commands[k])
  {
    RunSplit(state, commands[..k + 1], k);
    assert commands[..k + 1][..k] == commands[..k];
    assert commands[..k + 1][k..] == [commands[k]];
    assert Run(Run(state, commands[..k]), [commands[k]])
        == Run(Execute(Run(state, commands[..k]), commands[k]), []);
  }

  function Items<T>(commands: seq<Command<T>>): set<T> {
    set i | 0 <= i < |commands| :: commands[i].item
  }

  lemma ItemsNext<T>(commands: seq<Command<T>>, k: nat)
    requires 0 < k <= |commands|
    ensures Items(commands[..k]) == Items(commands[..k - 1]) + {commands[k - 1].item}
  {
    assert commands[..k] == commands[..k - 1] + [commands[k - 1]];
    assert commands[..k][k - 1].item in Items(commands[..k]);
    assert forall i :: 0 <= i < k - 1 ==> commands[..k][i] == commands[..k - 1][i];
  }

  lemma {:induction false} ItemsSize<T>(commands: seq<Command<T>>, phase: Phase<T>, k: nat)
    requires Enumerates(commands, phase) && k <= |commands|
    ensures |Items(commands[..k])| == k
    ensures Items(commands[..k]) <= phase.items
    ensures k < |commands| ==> commands[k].item !in Items(commands[..k])
  {
    if k == 0 {
    } else {
      ItemsSize(commands, phase, k - 1);
      ItemsNext(commands, k);
    }
  }

  lemma SubsetOfSameSize<T>(a: set<T>, b: set<T>)
    requires a <= b && |a| == |b|
    ensures a == b
  {
    assert |b - a| == |b| - |a|;
  }

  /** Part way through one phase exactly the items of the first k commands are done. */
  lemma {:induction false} PhaseState<T>(state: set<T>, commands: seq<Command<T>>, phase: Phase<T>, k: nat)
    requires Enumerates(commands, phase) && k <= |commands|
    ensures Run(state, commands[..k]) == After(state, Phase(phase.add, Items(commands[..k])))
  {
    if k == 0 {
    } else {
      PhaseState(state, commands, phase, k - 1);
      RunNext(state, commands, k - 1);
      ItemsNext(commands, k);
    }
  }

  lemma PhasePrefix<T>(state: set<T>, commands: seq<Command<T>>, phase: Phase<T>, k: nat)
    requires Enumerates(commands, phase) && k <= |commands|
    requires if phase.add then phase.items !! state else phase.items <= state
    ensures Within(state, phase, Run(state, commands[..k]))
    ensures k < |commands| ==> Enabled(Run(state, commands[..k]), commands[k])
    ensures k == |commands| ==> Run(state, commands[..k]) == After(state, phase)
  {
    PhaseState(state, commands, phase, k);
    ItemsSize(commands, phase, k);
    if k == |commands| {
      SubsetOfSameSize(Items(commands[..k]), phase.items);
    }
  }

  /** After any prefix of any script: the next command is enabled and the state is a mid-phase state. */
  lemma {:induction false} ScriptPrefix<T>(state: set<T>, commands: seq<Command<T>>, phases: seq<Phase<T>>, k: nat)
    requires IsScript(commands, phases) && Applicable(state, phases) && k <= |commands|
    ensures Between(state, phases, Run(state, commands[..k]))
    ensures k < |commands| ==> Enabled(Run(state, commands[..k]), commands[k])
    ensures k == |commands| ==> Run(state, commands[..k]) == Final(state, phases)
    decreases |phases|
  {
    if phases != [] {
      var n := |phases[0].items|;
      var head := commands[..n];
      if k < n {
        PhasePrefix(state, head, phases[0], k);
        assert head[..k] == commands[..k];
      } else {
        PhasePrefix(state, head, phases[0], n);
        assert head[..n] == head;
        ScriptPrefix(After(state, phases[0]), commands[n..], phases[1..], k - n);
        RunSplit(state, commands[..k], n);
        assert commands[..k][..n] == head;
        assert commands[..k][n..] == commands[n..][..k - n];
      }
    }
  }

  /** An item that no phase adds is present later only if it was present earlier. */
  lemma {:induction false} NeverAdded<T>(state: set<T>, commands: seq<Command<T>>, x: T, i: nat, j: nat)
    requires i <= j <= |commands|
    requires Add(x) !in commands
    requires x in Run(state, commands[..j])
    ensures x in Run(state, commands[..i])
    decreases j - i
  {
    if i == j {
    } else {
      RunNext(state, commands, j - 1);
      assert commands[j - 1] in commands;
      NeverAdded(state, commands, x, i, j - 1);
    }
  }

  /** An item that no phase deletes stays once it is present. */
  lemma {:induction false} NeverDeleted<T>(state: set<T>, commands: seq<Command<T>>, x: T, i: nat, j: nat)
    requires i <= j <= |commands|
    requires Del(x) !in commands
    requires x in Run(state, commands[..i])
    ensures x in Run(state, commands[..j])
    decreases j - i
  {
    if i == j {
    } else {
      RunNext(state, commands, j - 1);
      assert commands[j - 1] in commands;
      NeverDeleted(state, commands, x, i, j - 1);
    }
  }

  /** A script holds only commands of its phases. */
  lemma {:induction false} ScriptCommands<T>(commands: seq<Command<T>>, phases: seq<Phase<T>>, command: Command<T>)
    requires IsScript(commands, phases) && command in commands
    ensures exists p :: p in phases && command.item in p.items && command == CommandOf(p, command.item)
    decreases |phases|
  {
    if phases != [] {
      var n := |phases[0].items|;
      assert commands == commands[..n] + commands[n..];
      if command in commands[..n] {
        assert phases[0] in phases;
      } else {
        ScriptCommands(commands[n..], phases[1..], command);
        var p :| p in phases[1..] && command.item in p.items && command == CommandOf(p, command.item);
        assert p in phases;
      }
    }
  }

  /** Some order of the items of a phase. */
  ghost function SomeOrder<T>(phase: Phase<T>): (commands: seq<Command<T>>)
    ensures Enumerates(commands, phase)
    decreases phase.items
  {
    if phase.items == {} then []
    else
      var x :| x in phase.items;
      var rest := SomeOrder(Phase(phase.add, phase.items - {x}));
      [CommandOf(phase, x)] + rest
  }

  /** Some script of the given phases. */
  ghost function SomeScript<T>(phases: seq<Phase<T>>): (commands: seq<Command<T>>)
    ensures IsScript(commands, phases)
    decreases |phases|
  {
    if phases == [] then []
    else
      var head, tail := SomeOrder(phases[0]), SomeScript(phases[1..]);
      assert (head + tail)[..|head|] == head && (head + tail)[|head|..] == tail;
      head + tail
  }

  /** `stages` lists the states at the phase boundaries, and every phase can run from its own. */
  ghost predicate Staged<T>(stages: seq<set<T>>, phases: seq<Phase<T>>) {
    && |stages| == |phases| + 1
    && forall n :: 0 <= n < |phases| ==>
         && After(stages[n], phases[n]) == stages[n + 1]
         && (if phases[n].add then phases[n].items !! stages[n] else phases[n].items <= stages[n])
  }

  lemma StagedTail<T>(stages: seq<set<T>>, phases: seq<Phase<T>>)
    requires Staged(stages, phases) && phases != []
    ensures Staged(stages[1..], phases[1..])
  {
    var s, p := stages[1..], phases[1..];
    forall n | 0 <= n < |p|
      ensures After(s[n], p[n]) == s[n + 1]
      ensures if p[n].add then p[n].items !! s[n] else p[n].items <= s[n]
    {
      assert s[n] == stages[n + 1] && p[n] == phases[n + 1] && s[n + 1] == stages[n + 2];
    }
  }

  lemma {:induction false} StagedRuns<T>(stages: seq<set<T>>, phases: seq<Phase<T>>)
    requires Staged(stages, phases)
    ensures Applicable(stages[0], phases) && Final(stages[0], phases) == stages[|phases|]
    decreases |phases|
  {
    if phases == [] {
    } else {
      StagedTail(stages, phases);
      StagedRuns(stages[1..], phases[1..]);
    }
  }

  /** A state met on the way lies inside one of the phases. */
  lemma {:induction false} StagedBetween<T>(stages: seq<set<T>>, phases: seq<Phase<T>>, middle: set<T>) returns (n: nat)
    requires Staged(stages, phases) && phases != [] && Between(stages[0], phases, middle)
    ensures n < |phases| && Within(stages[n], phases[n], middle)
    decreases |phases|
  {
    assert Within(stages[0], phases[0], After(stages[0], phases[0]));
    if Within(stages[0], phases[0], middle) {
      n := 0;
    } else {
      StagedTail(stages, phases);
      var m := StagedBetween(stages[1..], phases[1..], middle);
      n := m + 1;
    }
  }

  lemma EnumerateNext<T>(phase: Phase<T>, todo: set<T>, issued: seq<Command<T>>, x: T)
    requires x in todo && todo <= phase.items && Enumerates(issued, Phase(phase.add, phase.items - todo))
    ensures Enumerates(issued + [CommandOf(phase, x)], Phase(phase.add, phase.items - (todo - {x})))
  {
    assert phase.items - (todo - {x}) == (phase.items - todo) + {x};
  }

  lemma AfterNext<T>(state: set<T>, phase: Phase<T>, todo: set<T>, x: T)
    requires x in todo && todo <= phase.items
    requires if phase.add then phase.items !! state else phase.items <= state
    ensures var now := After(state, Phase(phase.add, phase.items - todo));
            && Enabled(now, CommandOf(phase, x))
            && Execute(now, CommandOf(phase, x)) == After(state, Phase(phase.add, phase.items - (todo - {x})))
  {
    assert phase.items - (todo - {x}) == (phase.items - todo) + {x};
  }

  lemma RunSnoc<T>(state: set<T>, commands: seq<Command<T>>, command: Command<T>)
    ensures Run(state, commands + [command]) == Execute(Run(state, commands), command)
  {
    var all := commands + [command];
    RunNext(state, all, |commands|);
    assert all[..|commands|] == commands && all[..|commands| + 1] == all;
  }

  lemma PhaseNext<T>(state: set<T>, phase: Phase<T>, todo: set<T>, issued: seq<Command<T>>, x: T)
    requires x in todo && todo <= phase.items && Enumerates(issued, Phase(phase.add, phase.items - todo))
    requires if phase.add then phase.items !! state else phase.items <= state
    requires Run(state, issued) == After(state, Phase(phase.add, phase.items - todo))
    ensures var next := issued + [CommandOf(phase, x)];
            && Enabled(Run(state, issued), CommandOf(phase, x))
            && Run(state, next) == Execute(Run(state, issued), CommandOf(phase, x))
            && Run(state, next) == After(state, Phase(phase.add, phase.items - (todo - {x})))
            && Enumerates(next, Phase(phase.add, phase.items - (todo - {x})))
  {
    EnumerateNext(phase, todo, issued, x);
    RunSnoc(state, issued, CommandOf(phase, x));
    AfterNext(state, phase, todo, x);
  }

  /** A store of items that is changed by one command at a time. A command may fail, and a
      failed command may still have taken effect. */
  class Device<T(==)> {
    /** No command fails. */
    const reliable: bool

    var state: set<T>
    ghost var log: seq<Command<T>>

    constructor (initial: set<T>, reliable: bool)
      ensures state == initial && log == [] && this.reliable == reliable
    {
      this.reliable, state, log := reliable, initial, [];
    }

    method Issue(command: Command<T>) returns (ok: bool)
      requires Enabled(state, command)
      modifies this
      ensures (reliable ==> ok) && (ok ==> log == old(log) + [command])
      ensures log == old(log) || log == old(log) + [command]
      ensures state == if log == old(log) then old(state) else Execute(old(state), command)
    {
      var fails := *;
      var effective := *;
      ok := reliable || !fails;
      if ok || effective {
        state := Execute(state, command);
        log := log + [command];
      }
    }

    /** Performs a phase in some order; stops at the first failure. */
    method Perform(phase: Phase<T>) returns (ok: bool, ghost order: seq<Command<T>>, ghost done: nat)
      requires if phase.add then phase.items !! state else phase.items <= state
      modifies this
      ensures Enumerates(order, phase) && done <= |order|
      ensures log == old(log) + order[..done] && state == Run(old(state), order[..done])
      ensures (reliable ==> ok) && (ok ==> done == |order| && state == After(old(state), phase))
    {
      var todo := phase.items;
      ghost var issued: seq<Command<T>> := [];
      assert Enumerates(issued, Phase(phase.add, {}));
      assert After(state, Phase(phase.add, {})) == state;
      ok := true;
      while todo != {}
        invariant ok && todo <= phase.items && Enumerates(issued, Phase(phase.add, phase.items - todo))
        invariant log == old(log) + issued && state == Run(old(state), issued)
        invariant state == After(old(state), Phase(phase.add, phase.items - todo))
        decreases todo
      {
        var x :| x in todo;
        ghost var before := log;
        ghost var next := issued + [CommandOf(phase, x)];
        PhaseNext(old(state), phase, todo, issued, x);
        ok := Issue(CommandOf(phase, x));
        if !ok {
          if log == before {
            order := Completed(phase, todo, issued);
            done := |issued|;
          } else {
            order := Completed(phase, todo - {x}, next);
            done := |next|;
          }
          return;
        }
        issued, todo := next, todo - {x};
      }
      assert phase.items - todo == phase.items;
      order, done := issued, |issued|;
      assert order[..done] == order;
    }
  }

  /** Some full order of a phase that starts with what was issued. */
  ghost function Completed<T>(phase: Phase<T>, todo: set<T>, issued: seq<Command<T>>): (order: seq<Command<T>>)
    requires todo <= phase.items && Enumerates(issued, Phase(phase.add, phase.items - todo))
    ensures Enumerates(order, phase) && |issued| <= |order| && order[..|issued|] == issued
  {
    var rest := SomeOrder(Phase(phase.add, todo));
    assert phase.items == (phase.items - todo) + todo;
    issued + rest
  }

  /** Performs the phases one after the other; stops at the first failure. What was issued is
      a prefix of a script, all of it on success. */
  method RunPhases<T(==)>(device: Device<T>, phases: seq<Phase<T>>)
    returns (ok: bool, ghost script: seq<Command<T>>, ghost done: nat)
    requires Applicable(device.state, phases)
    modifies device
    ensures IsScript(script, phases) && done <= |script|
    ensures device.log == old(device.log) + script[..done]
    ensures device.state == Run(old(device.state), script[..done])
    ensures (device.reliable ==> ok) && (ok ==> done == |script| && device.state == Final(old(device.state), phases))
    decreases |phases|
  {
    if phases == [] {
      return true, [], 0;
    }
    ghost var first := device.state;
    var good, order, n := device.Perform(phases[0]);
    if good {
      ghost var rest, m;
      ok, rest, m := RunPhases(device, phases[1..]);
      script, done := order + rest, |order| + m;
      assert order[..n] == order;
      ScriptCons(order, rest, phases);
      RunJoined(first, order, rest, m);
    } else {
      ghost var rest := SomeScript(phases[1..]);
      ok, script, done := false, order + rest, n;
      TakeFirst(order, rest, n);
      ScriptCons(order, rest, phases);
    }
  }

  lemma TakeFirst<T>(a: seq<T>, b: seq<T>, n: nat)
    requires n <= |a|
    ensures (a + b)[..n] == a[..n]
  {
  }

  lemma RunJoined<T>(state: set<T>, order: seq<Command<T>>, rest: seq<Command<T>>, m: nat)
    requires m <= |rest|
    ensures (order + rest)[..|order| + m] == order + rest[..m]
    ensures Run(state, order + rest[..m]) == Run(Run(state, order), rest[..m])
  {
    RunSplit(state, order + rest[..m], |order|);
    assert (order + rest[..m])[..|order|] == order && (order + rest[..m])[|order|..] == rest[..m];
  }

  lemma ScriptCons<T>(order: seq<Command<T>>, rest: seq<Command<T>>, phases: seq<Phase<T>>)
    requires phases != [] && Enumerates(order, phases[0]) && IsScript(rest, phases[1..])
    ensures IsScript(order + rest, phases)
  {
    assert (order + rest)[..|order|] == order && (order + rest)[|order|..] == rest;
  }
}
