/** A cleanup as it runs: straight through the program, with a world that others may change and a process that may
    be killed at any point. When nobody interferes the run follows its script; whoever interferes, nothing is
    destroyed ahead of the journal. */
module CleanupRun {
  import opened Wrappers
  import opened Journal
  import opened CleanupProgram
  import opened CleanupLaw

  datatype Progress = Fine | Refuse | Dead

  datatype Ending = Complete | MemberDone | Refused | Killed

  predicate NotesBefore(h: Handoff, n: nat, gates: Gates)
    requires n <= Size(h)
  {
    forall i :: 0 <= i < n && StepAt(h, i).Note? ==> StepAt(h, i).gate in gates
  }

  lemma NotesBeforeGrow(h: Handoff, n: nat, gates: Gates, g: Gate)
    requires n <= Size(h) && NotesBefore(h, n, gates)
    ensures NotesBefore(h, n, gates + [g])
  {
  }

  lemma NotesBeforeNext(h: Handoff, n: nat, gates: Gates)
    requires n < Size(h) && NotesBefore(h, n, gates) && (StepAt(h, n).Note? ==> StepAt(h, n).gate in gates)
    ensures NotesBefore(h, n + 1, gates)
  {
  }

  /** The journal has grown, and not by a gate of the whole batch. */
  predicate OwnGrowth(before: seq<Gates>, after: seq<Gates>) {
    before <= after && forall g :: g in BATCH_GATES && g in Latest(after) ==> g in Latest(before)
  }

  /** A journal from which a run can resume. */
  ghost predicate Recoverable(h: Handoff, records: seq<Gates>) {
    Chain(records) && KnownGates(h, Latest(records))
  }

  /** Undisturbed, the script so far has led from the first state to this one. */
  ghost predicate Follows(h: Handoff, first: Disk, script: seq<Action>, d: Disk) {
    Sound(h, d) && d == Perform(h, first, script) && script <= Script(h, first)
  }

  lemma RecoverableGrows(h: Handoff, records: seq<Gates>, gate: Gate)
    requires Recoverable(h, records) && gate !in Latest(records) && gate in Universe(h.ids)
    ensures var next := records + [Latest(records) + [gate]];
            Recoverable(h, next) && Latest(next) == Latest(records) + [gate]
  {
    ChainGrows(records, gate);
    assert Latest(records + [Latest(records) + [gate]]) == Latest(records) + [gate];
  }

  /** Undisturbed, the run is still on its script after one more action. */
  ghost predicate Continues(h: Handoff, first: Disk, script: seq<Action>, d: Disk, j: nat, a: Action) {
    var next := Effect(h, d, a);
    OnScript(h, first, script + [a], next, j) && Follows(h, first, script + [a], next)
  }

  lemma ContinuesAct(h: Handoff, first: Disk, script: seq<Action>, d: Disk, j: nat)
    requires OnScript(h, first, script, d, j) && j < Size(h) && !Done(h, d, StepAt(h, j))
    ensures StepActions(h, d, StepAt(h, j)) != []
    ensures Continues(h, first, script, d, j, StepActions(h, d, StepAt(h, j))[0])
  {
    OnScriptAct(h, first, script, d, j);
  }

  lemma FollowsStart(h: Handoff, d: Disk)
    requires Sound(h, d)
    ensures Follows(h, d, [], d)
  {
    assert [] + Script(h, d) == Script(h, d);
  }

  /** A state in which nothing is left to do. */
  ghost predicate Rests(h: Handoff, d: Disk) {
    Follows(h, d, [], d) && OnScript(h, d, [], d, Size(h))
  }

  // ---------------------------------------------------------------------
  // The title

  /** A member of a batch leaves the title alone. */
  lemma MemberKeepsTitle(h: Handoff, first: Disk, script: seq<Action>)
    requires h.batch && script <= Script(h, first)
    ensures Perform(h, first, script).world.title == first.world.title
  {
    RunSparesOthers(h, first, |script|);
    assert Script(h, first)[..|script|] == script;
  }

  /** With all steps done, the final title may appear. */
  lemma TitleOnScript(h: Handoff, d: Disk)
    requires Sound(h, d) && forall i :: 0 <= i < Size(h) ==> Done(h, d, StepAt(h, i))
    ensures Rests(h, Disk(d.world.(title := h.expected), d.records))
  {
    var next := Effect(h, d, SetTitle);
    assert StepAt(h, RefsAt(h) + 1) == Destroy(RemoteRef) && StepAt(h, RefsAt(h) + 3) == Destroy(Worktree);
    assert StepAt(h, RefsAt(h) + 4) == Destroy(LocalRef);
    forall i | 0 <= i < Size(h)
      ensures Done(h, next, StepAt(h, i))
    {
      EffectKeepsDone(h, d, SetTitle, StepAt(h, i));
    }
    OnScriptStart(h, next);
    OnScriptJump(h, next, [], next, 0, Size(h));
  }

  // ---------------------------------------------------------------------
  // The run

  class Machine {
    const h: Handoff
    /** Nobody else changes the world, and the controller approves. */
    const quiet: bool

    var world: World
    var records: seq<Gates>
    var pending: bool
    var gates: Gates
    /** The batch has read the final title back. */
    var settled: bool

    /** What was recorded, destroyed and asked for, in all runs. */
    ghost var log: Log
    /** The last check that this run passed, and what it has seen. */
    ghost var cleared: Option<Check>
    ghost var seen: seq<World>
    /** Where the first of all runs began; the state in which this run began. */
    ghost var origin: Disk
    ghost var first: Disk
    ghost var script: seq<Action>
    ghost var step: nat

    ghost function Now(): Disk
      reads this`world, this`records
    {
      Disk(world, records)
    }

    /** What holds even when the process is killed. */
    ghost predicate Journaled()
      reads this`world, this`records, this`settled, this`log, this`first, this`script
    {
      && UniqueIds(h) && |h.ids| <= 100
      && Recoverable(h, records) && Lawful(h, log) && Accounted(log.noted, Latest(records))
      && (quiet ==> Follows(h, first, script, Now()))
      && (quiet && settled ==> world.title == h.expected)
    }

    /** Undisturbed, this run ends where the first run would have ended. */
    ghost predicate Resumes()
      reads this`origin, this`first
    {
      quiet ==> SameEnd(h, origin, first)
    }

    /** What every run finds and leaves. */
    ghost predicate Resumable()
      reads this
    {
      Journaled() && Resumes()
    }

    /** What holds while a run is at `step`. */
    ghost predicate Valid()
      reads this`world, this`records, this`settled, this`log, this`first, this`script
      reads this`pending, this`gates, this`step, this`cleared
    {
      && Journaled() && !pending && gates == Latest(records)
      && step < Size(h) + 1 && NotesBefore(h, step, gates)
      && (cleared.Some? ==> cleared.value in log.checks && cleared.value.gates <= gates)
      && (quiet ==> OnScript(h, first, script, Now(), step))
    }

    /** Leave to destroy the target, with what has been checked and seen by now. */
    ghost predicate Warranted(t: Target)
      reads this`log, this`cleared, this`seen
    {
      cleared.Some? && Warrant(t, cleared.value, seen) in log.warrants
    }

    /** Grounds to record the gate next, with what has been checked and seen by now. */
    ghost predicate Grounded(g: Gate)
      reads this`log, this`cleared, this`seen, this`gates
    {
      cleared.Some? && Entry(g, gates, cleared.value, seen) in log.grounds
    }

    /** A cleanup that has not begun: an empty journal, and in an undisturbed world intact refs. */
    constructor (h: Handoff, quiet: bool, world: World)
      requires UniqueIds(h) && |h.ids| <= 100 && (quiet ==> RefsIntact(h, world))
      ensures Valid() && Resumes() && this.h == h && this.quiet == quiet && this.world == world
      ensures records == [] && step == 0 && log == NOTHING && !settled && origin == Disk(world, [])
    {
      this.h, this.quiet, this.world := h, quiet, world;
      records, pending, gates, settled := [], false, [], false;
      log, cleared, seen, script, step := NOTHING, None, [], [], 0;
      origin, first := Disk(world, []), Disk(world, []);
      new;
      if quiet {
        FreshIsSound(h, world);
        OnScriptStart(h, first);
      }
    }

    /** Others may change the world at any time. */
    method Interfere()
      requires Valid()
      modifies this`world
      ensures Valid() && (quiet ==> world == old(world))
    {
      if !quiet {
        world := *;
      }
    }

    /** The checks before a transition: the controller approves and the live state is as recorded. */
    method Eligible() returns (ok: bool)
      requires Valid()
      modifies this`world, this`cleared, this`log
      ensures Valid() && (quiet ==> ok && world == old(world))
      ensures ok ==> cleared == Some(Check(world, gates, true)) && (settled ==> world.title == h.expected)
      ensures ok ==> (RemoteAbsent in gates ==> world.remote.None?) && (LocalAbsent in gates ==> world.local.None?)
      ensures ok ==> (WorktreeRemoved in gates ==> !world.worktree)
      ensures !ok ==> cleared == old(cleared)
    {
      Interfere();
      var approved := *;
      if quiet {
        SoundPassesChecks(h, Now());
        approved := true;
      }
      ok := approved && LocalState(h, world, gates) && (settled ==> world.title == h.expected);
      if ok { Clear(approved); }
    }

    ghost method Clear(approved: bool)
      requires Valid() && approved && LocalState(h, world, gates)
      modifies this`cleared, this`log
      ensures Valid() && cleared == Some(Check(world, gates, true))
    {
      LocalStatePasses(h, world, gates);
      CheckGrows(h, log, Check(world, gates, true));
      log := log.(checks := log.checks + {Check(world, gates, true)});
      cleared := Some(Check(world, gates, true));
    }

    ghost method Permit(t: Target)
      requires Valid() && cleared.Some? && Due(h, Warrant(t, cleared.value, seen))
      modifies this`log
      ensures Valid() && Warranted(t) && old(log.warrants) <= log.warrants
    {
      WarrantGrows(h, log, Warrant(t, cleared.value, seen));
      log := log.(warrants := log.warrants + {Warrant(t, cleared.value, seen)});
    }

    ghost method Justify(g: Gate)
      requires Valid() && cleared.Some? && Justified(h, Entry(g, gates, cleared.value, seen))
      modifies this`log
      ensures Valid() && Grounded(g) && log.warrants == old(log.warrants)
    {
      GroundGrows(h, log, Entry(g, gates, cleared.value, seen));
      log := log.(grounds := log.grounds + {Entry(g, gates, cleared.value, seen)});
    }

    /** The run has seen the world as it is. */
    ghost method Look()
      modifies this`seen
      ensures seen == old(seen) + [world]
    {
      seen := seen + [world];
    }

    /** It has seen a target that it may destroy. */
    ghost method LookAt(t: Target)
      requires Valid() && Warranted(t) && Amount(world, t) > 0 && (t == LocalRef ==> world.local == Some(h.head))
      modifies this`seen, this`log
      ensures Valid() && Warranted(t) && Grounded(Prepared(t)) && seen == old(seen) + [world]
      ensures old(log.warrants) <= log.warrants
    {
      SeenIsPreparable(h, log, t, cleared.value, seen, gates, world);
      Look();
      Permit(t);
      Justify(Prepared(t));
    }

    // What the run has checked and seen gives it leave and grounds

    ghost method GroundBegin()
      requires Valid() && cleared.Some? && step == 0
      modifies this`log
      ensures Valid() && Grounded(CleanupPrepared)
    {
      BeginGround(h, gates, cleared.value, seen, log);
      Justify(CleanupPrepared);
    }

    ghost method GroundAncestry(i: nat)
      requires Valid() && cleared.Some? && i < |h.ids| && step == 1 + i
      modifies this`log
      ensures Valid() && Grounded(AncestryVerified(h.ids[i]))
    {
      AncestryGround(h, i, gates, cleared.value, seen, log);
      Justify(AncestryVerified(h.ids[i]));
    }

    ghost method PermitTree(i: nat)
      requires Valid() && cleared.Some? && i < |h.ids| && step == ReleaseAt(h) + 2 * i && cleared.value.gates == gates
      modifies this`log
      ensures Valid() && Warranted(Tree(h.ids[i]))
    {
      TurnComes(h, i, gates);
      TreeDue(h, h.ids[i], cleared.value, seen, log);
      Permit(Tree(h.ids[i]));
    }

    ghost method GroundReleased(i: nat)
      requires Valid() && cleared.Some? && i < |h.ids| && step == ReleaseAt(h) + 2 * i + 1
        && seen != [] && Amount(seen[|seen| - 1], Tree(h.ids[i])) == 0
      modifies this`log
      ensures Valid() && Grounded(Released(h.ids[i]))
    {
      TurnComes(h, i, gates);
      ReleasedGround(h, i, gates, cleared.value, seen, log);
      Justify(Released(h.ids[i]));
    }

    ghost method GroundAllReleased()
      requires Valid() && cleared.Some? && step == RefsAt(h) && seen != []
        && forall i :: 0 <= i < |h.ids| ==> Amount(seen[|seen| - 1], Tree(h.ids[i])) == 0
      modifies this`log
      ensures Valid() && Grounded(ResourcesReleased)
    {
      AllReleasedGround(h, gates, cleared.value, seen, log);
      Justify(ResourcesReleased);
    }

    ghost method PermitRemote()
      requires Valid() && cleared.Some? && step == RefsAt(h) + 1 && cleared.value.gates == gates
      modifies this`log
      ensures Valid() && Warranted(RemoteRef)
    {
      ReleaseGate(h, gates);
      RemoteDue(h, cleared.value, seen, log);
      Permit(RemoteRef);
    }

    ghost method GroundRemote()
      requires Valid() && cleared.Some? && step == RefsAt(h) + 2
      requires seen != [] && Amount(seen[|seen| - 1], RemoteRef) == 0
      modifies this`log
      ensures Valid() && Grounded(RemoteAbsent)
    {
      RemoteGround(h, gates, cleared.value, seen, log);
      Justify(RemoteAbsent);
    }

    ghost method PermitWorktree()
      requires Valid() && cleared.Some? && step == RefsAt(h) + 3 && cleared.value.gates == gates
      modifies this`log
      ensures Valid() && Warranted(Worktree)
    {
      RefGates(h, gates);
      WorktreeDue(h, cleared.value, seen, log);
      Permit(Worktree);
    }

    ghost method PermitLocal(w: Warrant)
      requires Valid() && cleared.Some? && w in log.warrants && w.target == Worktree && w.check == cleared.value
        && seen != [] && Amount(seen[|seen| - 1], Worktree) == 0
      modifies this`log
      ensures Valid() && Warranted(LocalRef)
    {
      LocalDue(h, w, cleared.value, seen, log);
      Permit(LocalRef);
    }

    ghost method GroundLocal()
      requires Valid() && cleared.Some? && step == RefsAt(h) + 5 && (exists w :: w in seen && w.local.None?)
      modifies this`log
      ensures Valid() && Grounded(LocalAbsent)
    {
      LocalGround(h, gates, cleared.value, seen, log);
      Justify(LocalAbsent);
    }

    ghost method GroundWorktree()
      requires Valid() && cleared.Some? && LocalAbsent in gates && (exists w :: w in seen && !w.worktree)
      modifies this`log
      ensures Valid() && Grounded(WorktreeRemoved)
    {
      WorktreeGround(h, gates, cleared.value, seen, log);
      Justify(WorktreeRemoved);
    }

    ghost method GroundMember()
      requires Valid() && cleared.Some? && AllRemoved(cleared.value.gates)
      modifies this`log
      ensures Valid() && Grounded(MemberComplete)
    {
      MemberGround(h, gates, cleared.value, seen, log);
      Justify(MemberComplete);
    }

    ghost method GroundTitle()
      requires Valid() && cleared.Some? && AllRemoved(cleared.value.gates)
        && (h.renames ==> seen != [] && seen[|seen| - 1].title == h.expected)
      modifies this`log
      ensures Valid() && Grounded(TitleGate(h))
    {
      TitleGround(h, gates, cleared.value, seen, log);
      Justify(TitleGate(h));
    }

    ghost method GroundDone()
      requires Valid() && cleared.Some? && TitleGate(h) in cleared.value.gates
      modifies this`log
      ensures Valid() && Grounded(TitleDone)
    {
      DoneGround(h, gates, cleared.value, seen, log);
      Justify(TitleDone);
    }

    /** The staged record appears in the journal. */
    method Commit(gate: Gate)
      requires Valid() && gate !in gates && gate in Universe(h.ids)
      requires Grounded(gate)
      requires quiet ==> Continues(h, first, script, Now(), step, Record(gate))
      modifies this`records, this`gates, this`script, this`log
      ensures Valid() && records == old(records) + [gates] && gates == old(gates) + [gate]
        && script == old(script) + [Record(gate)]
      ensures log.warrants == old(log.warrants)
    {
      RecoverableGrows(h, records, gate);
      NotesBeforeGrow(h, step, gates, gate);
      if cleared.Some? { PrefixTransitive(cleared.value.gates, gates, gates + [gate]); }
      NoteGrows(h, log, gates, Entry(gate, gates, cleared.value, seen));
      records := records + [gates + [gate]];
      log := log.(noted := log.noted + [Entry(gate, gates, cleared.value, seen)]);
      gates, script := gates + [gate], script + [Record(gate)];
    }

    /** Stages and publishes a record; the process may be killed before, between and after. */
    method Publish(gate: Gate) returns (alive: bool)
      requires Valid() && gate !in gates && gate in Universe(h.ids)
      requires gate !in BATCH_GATES && Grounded(gate)
      requires quiet ==> Continues(h, first, script, Now(), step, Record(gate))
      modifies this`records, this`pending, this`gates, this`script, this`log
      ensures Journaled() && OwnGrowth(old(records), records) && old(script) <= script
      ensures alive ==> Valid() && gates == old(gates) + [gate] && log.warrants == old(log.warrants)
    {
      pending := true;
      var killed := *;
      if killed { return false; }
      pending := false;
      Commit(gate);
      alive := *;
    }

    /** Leaves a step that is done. */
    ghost method Advance()
      requires Valid() && step < Size(h) && (StepAt(h, step).Note? ==> StepAt(h, step).gate in gates)
      requires quiet ==> Done(h, Now(), StepAt(h, step))
      modifies this`step
      ensures Valid() && step == old(step) + 1
    {
      if quiet { OnScriptSkip(h, first, script, Now(), step); }
      NotesBeforeNext(h, step, gates);
      step := step + 1;
    }

    /** Publishes the gate of the current step. */
    method PublishNote(gate: Gate) returns (alive: bool)
      requires Valid() && step < Size(h) && StepAt(h, step) == Note(gate) && gate !in gates
      requires Grounded(gate)
      modifies this`records, this`pending, this`gates, this`script, this`log
      ensures Journaled() && old(script) <= script && OwnGrowth(old(records), records)
      ensures alive ==> Valid() && gates == old(gates) + [gate]
    {
      RecordedGateKnown(h, step);
      if quiet { ContinuesAct(h, first, script, Now(), step); }
      alive := Publish(gate);
    }

    /** Records the gate of the current step, unless it is recorded already. */
    method NoteStep(gate: Gate) returns (alive: bool)
      requires Valid() && step < Size(h) && StepAt(h, step) == Note(gate)
      requires Grounded(gate)
      modifies this`records, this`pending, this`gates, this`script, this`step, this`log
      ensures Journaled() && old(script) <= script && OwnGrowth(old(records), records)
      ensures alive ==> Valid() && step == old(step) + 1 && old(gates) <= gates && gate in gates
    {
      if gate !in gates {
        alive := PublishNote(gate);
        if !alive { return; }
      }
      Advance();
      alive := true;
    }

    /** Records that the target of the current step is about to be destroyed, unless that is recorded already. */
    method Prepare(t: Target) returns (alive: bool)
      requires Valid() && step < Size(h) && StepAt(h, step) == Destroy(t) && (quiet ==> Amount(world, t) > 0)
      requires Grounded(Prepared(t))
      modifies this`records, this`pending, this`gates, this`script, this`log
      ensures Journaled() && old(script) <= script && OwnGrowth(old(records), records)
      ensures alive ==> Valid() && old(gates) <= gates && Prepared(t) in gates && log.warrants == old(log.warrants)
    {
      if Prepared(t) in gates { return true; }
      RecordedGateKnown(h, step);
      if quiet { ContinuesAct(h, first, script, Now(), step); }
      alive := Publish(Prepared(t));
    }

    /** One destructive command. A ref is deleted only if it still is the recorded head; whatever is gone already
        makes the command fail. */
    method RemovePiece(t: Target) returns (p: Progress)
      requires Valid() && step < Size(h) && StepAt(h, step) == Destroy(t) && Prepared(t) in gates
      requires Warranted(t)
      requires quiet ==> Amount(world, t) > 0
      modifies this`world, this`script, this`log
      ensures Journaled() && old(script) <= script
      ensures !p.Dead? ==> Valid()
      ensures quiet ==> !p.Refuse?
      ensures quiet && p.Fine? ==> Amount(world, t) == Amount(old(world), t) - 1
      ensures log.warrants == old(log.warrants)
    {
      Interfere();
      if Amount(world, t) == 0 { return Refuse; }
      if t == RemoteRef && world.remote != Some(h.head) { return Refuse; }
      if t == LocalRef && world.local != Some(h.head) { return Refuse; }
      if quiet { ContinuesAct(h, first, script, Now(), step); }
      RemovesOne(world, t);
      Strike(t);
      var killed := *;
      p := if killed then Dead else Fine;
    }

    /** The command takes effect, and is noted with the world and the journal that it met. */
    method Strike(t: Target)
      requires Valid() && Warranted(t) && Prepared(t) in gates && Amount(world, t) > 0
      requires (t == RemoteRef ==> world.remote == Some(h.head)) && (t == LocalRef ==> world.local == Some(h.head))
      requires quiet ==> Continues(h, first, script, Now(), step, Remove(t))
      modifies this`world, this`script, this`log
      ensures Valid() && world == RemoveOne(old(world), t) && script == old(script) + [Remove(t)]
      ensures log == old(log).(issued := old(log).issued + [Issue(t, old(world), gates, cleared.value, seen)])
    {
      IssueGrows(h, log, Issue(t, world, gates, cleared.value, seen));
      RemovesOne(world, t);
      log := log.(issued := log.issued + [Issue(t, world, gates, cleared.value, seen)]);
      world, script := RemoveOne(world, t), script + [Remove(t)];
    }

    /** Removes the pieces that are there now, one by one. */
    method RemovePieces(t: Target) returns (p: Progress)
      requires Valid() && step < Size(h) && StepAt(h, step) == Destroy(t) && Prepared(t) in gates
      requires Warranted(t)
      modifies this`world, this`script, this`log
      ensures Journaled() && old(script) <= script
      ensures !p.Dead? ==> Valid()
      ensures quiet ==> !p.Refuse? && (p.Fine? ==> Amount(world, t) == 0)
      ensures log.warrants == old(log.warrants)
    {
      var n := Amount(world, t);
      while n > 0
        invariant Valid() && log.warrants == old(log.warrants) && old(script) <= script
        invariant quiet ==> n == Amount(world, t)
      {
        p := RemovePiece(t);
        if !p.Fine? { return; }
        n := n - 1;
      }
      p := Fine;
    }

    /** Destroys a target that was seen to be there. */
    method DestroyTarget(t: Target) returns (p: Progress)
      requires Valid() && step < Size(h) && StepAt(h, step) == Destroy(t) && (quiet ==> Amount(world, t) > 0)
      requires Warranted(t) && Grounded(Prepared(t))
      modifies this`world, this`records, this`pending, this`gates, this`script, this`log
      ensures Journaled() && old(script) <= script && OwnGrowth(old(records), records)
      ensures !p.Dead? ==> Valid()
      ensures p.Fine? ==> old(gates) <= gates && log.warrants == old(log.warrants)
      ensures quiet ==> !p.Refuse? && (p.Fine? ==> Amount(world, t) == 0)
    {
      var alive := Prepare(t);
      if !alive { return Dead; }
      p := RemovePieces(t);
    }

    /** Destroys the target of the current step if it is there, and verifies that it is gone. */
    method DestroyStep(t: Target) returns (p: Progress)
      requires Valid() && step < Size(h) && StepAt(h, step) == Destroy(t) && !t.Tree? && Warranted(t)
      modifies this`world, this`records, this`pending, this`gates, this`script, this`step, this`log, this`seen
      ensures Journaled() && old(script) <= script && OwnGrowth(old(records), records)
      ensures !p.Dead? ==> Valid()
      ensures p.Fine? ==> step == old(step) + 1 && old(gates) <= gates && old(log.warrants) <= log.warrants
      ensures p.Fine? ==> old(seen) < seen && Amount(seen[|seen| - 1], t) == 0
      ensures quiet ==> !p.Refuse?
    {
      p := DestroyPresent(t);
      if p.Fine? { p := Vanished(t); }
    }

    /** Looks for a ref or the worktree, and destroys it if it is there. */
    method DestroyPresent(t: Target) returns (p: Progress)
      requires Valid() && step < Size(h) && StepAt(h, step) == Destroy(t) && !t.Tree? && Warranted(t)
      modifies this`world, this`records, this`pending, this`gates, this`script, this`log, this`seen
      ensures Journaled() && old(script) <= script && OwnGrowth(old(records), records)
      ensures !p.Dead? ==> Valid()
      ensures p.Fine? ==> old(gates) <= gates && old(seen) <= seen && old(log.warrants) <= log.warrants
      ensures quiet ==> !p.Refuse? && (p.Fine? ==> Amount(world, t) == 0)
    {
      Interfere();
      if Amount(world, t) == 0 { return Fine; }
      if t == LocalRef && world.local != Some(h.head) { return Refuse; }
      LookAt(t);
      p := DestroyTarget(t);
    }

    /** Verifies that the target of the current step is gone. */
    method Vanished(t: Target) returns (p: Progress)
      requires Valid() && step < Size(h) && StepAt(h, step) == Destroy(t)
      requires quiet ==> Amount(world, t) == 0
      modifies this`world, this`step, this`seen
      ensures Valid() && !p.Dead? && (p.Fine? ==> step == old(step) + 1)
      ensures p.Fine? ==> seen == old(seen) + [world] && Amount(world, t) == 0
      ensures quiet ==> p.Fine?
    {
      Interfere();
      if Amount(world, t) > 0 { return Refuse; }
      Look();
      Advance();
      p := Fine;
    }

    /** Passes over steps that the journal proves done. */
    ghost method PassOver(n: nat)
      requires Valid() && step <= n <= Size(h) && NotesBefore(h, n, gates)
      requires quiet ==> forall i :: step <= i < n ==> Done(h, Now(), StepAt(h, i))
      modifies this`step
      ensures Valid() && step == n
    {
      if quiet { OnScriptJump(h, first, script, Now(), step, n); }
      step := n;
    }

    /** Asks for the final title, whether or not an earlier run has asked. */
    method RequestTitle() returns (alive: bool)
      requires Valid() && step < Size(h) && StepAt(h, step) == Rename
      requires cleared.Some? && Asked(h, Ask(gates, cleared.value))
      modifies this`world, this`script, this`log
      ensures Journaled() && old(script) <= script
      ensures alive ==> Valid() && (h.renames ==> world.title == h.expected)
      ensures log == old(log).(asked := old(log).asked + [Ask(gates, cleared.value)])
    {
      AskGrows(h, log, Ask(gates, cleared.value));
      log := log.(asked := log.asked + [Ask(gates, cleared.value)]);
      if !h.renames || world.title == h.expected { return true; }
      if quiet { ContinuesAct(h, first, script, Now(), step); }
      world := world.(title := h.expected);
      script := script + [SetTitle];
      alive := *;
    }

    /** Asks for the final title and reads it back. */
    method RenameStep() returns (p: Progress)
      requires Valid() && step < Size(h) && StepAt(h, step) == Rename
      requires cleared.Some? && Asked(h, Ask(gates, cleared.value))
      modifies this`world, this`script, this`step, this`log, this`seen
      ensures Journaled() && old(script) <= script
      ensures !p.Dead? ==> Valid()
      ensures p.Fine? ==> step == old(step) + 1
      ensures p.Fine? && h.renames ==> seen != [] && seen[|seen| - 1].title == h.expected
      ensures quiet ==> !p.Refuse?
    {
      var alive := RequestTitle();
      if !alive { return Dead; }
      Interfere();
      if h.renames && world.title != h.expected { return Refuse; }
      Look();
      Advance();
      p := Fine;
    }

    /** Nothing that the journal has as released was there when this run last looked. */
    ghost predicate Revisited()
      reads this`seen, this`gates
    {
      seen != [] && forall i :: 0 <= i < |h.ids| && (ResourcesReleased in gates || Released(h.ids[i]) in gates) ==>
        Absent(seen[|seen| - 1], h.ids[i])
    }

    /** Looks whether anything that was released has come back. */
    method ReleasedStayAway() returns (ok: bool)
      requires Valid()
      modifies this`world, this`seen
      ensures Valid() && (quiet ==> ok) && (ok ==> Revisited())
    {
      Interfere();
      ok := forall i :: 0 <= i < |h.ids| && (ResourcesReleased in gates || Released(h.ids[i]) in gates) ==>
        Amount(world, Tree(h.ids[i])) == 0;
      if quiet { SoundPassesChecks(h, Now()); }
      Look();
    }

    /** Records the ancestry of every resource. */
    method VerifyAncestry() returns (p: Progress)
      requires Valid() && step == 1 && cleared.Some?
      modifies this`records, this`pending, this`gates, this`script, this`step, this`log
      ensures Journaled() && old(script) <= script && OwnGrowth(old(records), records) && !p.Refuse?
      ensures p.Fine? ==> Valid() && step == ReleaseAt(h)
    {
      for i := 0 to |h.ids|
        invariant Valid() && step == 1 + i && old(script) <= script && OwnGrowth(old(records), records)
      {
        GroundAncestry(i);
        var alive := NoteStep(AncestryVerified(h.ids[i]));
        if !alive { return Dead; }
      }
      p := Fine;
    }

    /** Verifies that a resource is gone, and records that. */
    method NoteReleased(i: nat) returns (p: Progress)
      requires Valid() && i < |h.ids| && step == ReleaseAt(h) + 2 * i && cleared.Some?
      requires quiet ==> Amount(world, Tree(h.ids[i])) == 0
      modifies this`world, this`records, this`pending, this`gates, this`script, this`step, this`log, this`seen
      ensures Journaled() && old(script) <= script && OwnGrowth(old(records), records)
      ensures !p.Dead? ==> Valid()
      ensures p.Fine? ==> step == old(step) + 2
      ensures quiet ==> !p.Refuse?
    {
      ReleaseSteps(h, i);
      p := Vanished(Tree(h.ids[i]));
      if !p.Fine? { return; }
      GroundReleased(i);
      var alive := NoteStep(Released(h.ids[i]));
      p := if alive then Fine else Dead;
    }

    ghost method PassReleased(i: nat)
      requires Valid() && i < |h.ids| && step == ReleaseAt(h) + 2 * i && Released(h.ids[i]) in gates
      modifies this`step
      ensures Valid() && step == old(step) + 2
    {
      ReleasedIsNoted(h, i, gates);
      if quiet { ReleasedIsDone(h, Now(), i); }
      PassOver(step + 2);
    }

    /** Checks again, and releases one resource through its owning tool if it is still there. */
    method ReleaseTree(i: nat) returns (p: Progress)
      requires Valid() && i < |h.ids| && step == ReleaseAt(h) + 2 * i
      requires quiet ==> Amount(world, Tree(h.ids[i])) > 0
      modifies this`world, this`records, this`pending, this`gates, this`script, this`log, this`seen, this`cleared
      ensures Journaled() && old(script) <= script && OwnGrowth(old(records), records)
      ensures !p.Dead? ==> Valid()
      ensures p.Fine? ==> cleared.Some?
      ensures quiet ==> !p.Refuse? && (p.Fine? ==> Amount(world, Tree(h.ids[i])) == 0)
    {
      var ok := Eligible();
      if !ok { return Refuse; }
      PermitTree(i);
      p := ReleaseChecked(i);
    }

    /** Releases one resource through its owning tool, after the check. */
    method ReleaseChecked(i: nat) returns (p: Progress)
      requires Valid() && i < |h.ids| && step == ReleaseAt(h) + 2 * i && Warranted(Tree(h.ids[i]))
      requires quiet ==> Amount(world, Tree(h.ids[i])) > 0
      modifies this`world, this`records, this`pending, this`gates, this`script, this`log, this`seen
      ensures Journaled() && old(script) <= script && OwnGrowth(old(records), records)
      ensures !p.Dead? ==> Valid()
      ensures quiet ==> !p.Refuse? && (p.Fine? ==> Amount(world, Tree(h.ids[i])) == 0)
    {
      ReleaseSteps(h, i);
      Interfere();
      if Amount(world, Tree(h.ids[i])) == 0 { return Refuse; }
      LookAt(Tree(h.ids[i]));
      p := DestroyTarget(Tree(h.ids[i]));
    }

    /** Releases one resource, unless the journal says that it is released. */
    method ReleaseResource(i: nat) returns (p: Progress)
      requires Valid() && i < |h.ids| && step == ReleaseAt(h) + 2 * i && cleared.Some?
      modifies this`world, this`records, this`pending, this`gates, this`script, this`step
      modifies this`log, this`seen, this`cleared
      ensures Journaled() && old(script) <= script && OwnGrowth(old(records), records)
      ensures !p.Dead? ==> Valid()
      ensures p.Fine? ==> step == ReleaseAt(h) + 2 * (i + 1) && cleared.Some?
      ensures quiet ==> !p.Refuse?
    {
      if Released(h.ids[i]) in gates {
        PassReleased(i);
        return Fine;
      }
      p := RemoveResource(i);
      if !p.Fine? { return; }
      p := NoteReleased(i);
    }

    /** Looks for a resource, and releases it if it is there. */
    method RemoveResource(i: nat) returns (p: Progress)
      requires Valid() && i < |h.ids| && step == ReleaseAt(h) + 2 * i && cleared.Some?
      modifies this`world, this`records, this`pending, this`gates, this`script
      modifies this`log, this`seen, this`cleared
      ensures Journaled() && old(script) <= script && OwnGrowth(old(records), records)
      ensures !p.Dead? ==> Valid()
      ensures p.Fine? ==> cleared.Some?
      ensures quiet ==> !p.Refuse? && (p.Fine? ==> Amount(world, Tree(h.ids[i])) == 0)
    {
      Interfere();
      p := Fine;
      if Amount(world, Tree(h.ids[i])) > 0 { p := ReleaseTree(i); }
    }

    /** Releases all resources, and verifies that none is left. */
    method ReleaseResources() returns (p: Progress)
      requires Valid() && step == ReleaseAt(h) && cleared.Some? && Revisited()
      modifies this`world, this`records, this`pending, this`gates, this`script, this`step
      modifies this`log, this`seen, this`cleared
      ensures Journaled() && old(script) <= script && OwnGrowth(old(records), records)
      ensures !p.Dead? ==> Valid()
      ensures p.Fine? ==> step == RefsAt(h) + 1
      ensures quiet ==> !p.Refuse?
    {
      if ResourcesReleased in gates {
        ReleasedAll(h, log, gates);
        AllNoted(h, gates);
        if quiet { AllReleaseStepsDone(h, Now()); }
        PassOver(RefsAt(h) + 1);
        return Fine;
      }
      for i := 0 to |h.ids|
        invariant Valid() && step == ReleaseAt(h) + 2 * i && cleared.Some?
        invariant old(script) <= script && OwnGrowth(old(records), records)
      {
        p := ReleaseResource(i);
        if !p.Fine? { return; }
      }
      p := NoteAllReleased();
    }

    /** Verifies that no resource is left, and records that. */
    method NoteAllReleased() returns (p: Progress)
      requires Valid() && step == RefsAt(h) && cleared.Some?
      modifies this`world, this`records, this`pending, this`gates, this`script, this`step, this`log, this`seen
      ensures Journaled() && old(script) <= script && OwnGrowth(old(records), records)
      ensures !p.Dead? ==> Valid()
      ensures p.Fine? ==> step == RefsAt(h) + 1
      ensures quiet ==> !p.Refuse?
    {
      Interfere();
      if exists i :: 0 <= i < |h.ids| && Amount(world, Tree(h.ids[i])) > 0 {
        if quiet { NothingLeft(); }
        return Refuse;
      }
      Look();
      GroundAllReleased();
      var alive := NoteStep(ResourcesReleased);
      p := if alive then Fine else Dead;
    }

    /** Undisturbed, finished release steps leave no resource. */
    lemma NothingLeft()
      requires Valid() && quiet && step == RefsAt(h)
      ensures forall i :: 0 <= i < |h.ids| ==> Amount(world, Tree(h.ids[i])) == 0
    {
      forall i | 0 <= i < |h.ids|
        ensures Amount(world, Tree(h.ids[i])) == 0
      {
        var n := ReleaseAt(h) + 2 * i;
        assert StepAt(h, n) == Destroy(Tree(h.ids[i]));
        assert Done(h, Now(), StepAt(h, n));
      }
    }

    /** Deletes the remote ref. */
    method RemoveRemote() returns (p: Progress)
      requires Valid() && step == RefsAt(h) + 1 && Warranted(RemoteRef)
      modifies this`world, this`records, this`pending, this`gates, this`script, this`step, this`log, this`seen
      ensures Journaled() && old(script) <= script && OwnGrowth(old(records), records)
      ensures !p.Dead? ==> Valid()
      ensures p.Fine? ==> step == RefsAt(h) + 3 && old(gates) <= gates && RemoteAbsent in gates
      ensures quiet ==> !p.Refuse?
    {
      p := DestroyStep(RemoteRef);
      if !p.Fine? { return; }
      GroundRemote();
      var alive := NoteStep(RemoteAbsent);
      p := if alive then Fine else Dead;
    }

    /** Removes the worktree, then the local ref that it used. */
    method RemoveLocal() returns (p: Progress)
      requires Valid() && step == RefsAt(h) + 3 && Warranted(Worktree)
      modifies this`world, this`records, this`pending, this`gates, this`script, this`step, this`log, this`seen
      ensures Journaled() && old(script) <= script && OwnGrowth(old(records), records)
      ensures !p.Dead? ==> Valid()
      ensures p.Fine? ==> step == RefsAt(h) + 5
      ensures p.Fine? ==> (exists w :: w in seen && !w.worktree) && exists w :: w in seen && w.local.None?
      ensures quiet ==> !p.Refuse?
    {
      ghost var leave := Warrant(Worktree, cleared.value, seen);
      p := DestroyStep(Worktree);
      if !p.Fine? { return; }
      p := RemoveLocalRef(leave);
    }

    /** Removes the local ref, with the worktree seen to be gone. */
    method RemoveLocalRef(ghost leave: Warrant) returns (p: Progress)
      requires Valid() && step == RefsAt(h) + 4 && cleared.Some? && leave in log.warrants
      requires leave.target == Worktree && leave.check == cleared.value
      requires seen != [] && Amount(seen[|seen| - 1], Worktree) == 0
      modifies this`world, this`records, this`pending, this`gates, this`script, this`step, this`log, this`seen
      ensures Journaled() && old(script) <= script && OwnGrowth(old(records), records)
      ensures !p.Dead? ==> Valid()
      ensures p.Fine? ==> step == RefsAt(h) + 5
      ensures p.Fine? ==> (exists w :: w in seen && !w.worktree) && exists w :: w in seen && w.local.None?
      ensures quiet ==> !p.Refuse?
    {
      PermitLocal(leave);
      ghost var w := seen[|seen| - 1];
      p := DestroyStep(LocalRef);
      if p.Fine? { SeenBoth(seen, w); }
    }

    method NoteRemoval() returns (p: Progress)
      requires Valid() && step == RefsAt(h) + 5 && cleared.Some?
      requires (exists w :: w in seen && !w.worktree) && exists w :: w in seen && w.local.None?
      modifies this`records, this`pending, this`gates, this`script, this`step, this`log
      ensures Journaled() && old(script) <= script && OwnGrowth(old(records), records) && !p.Refuse?
      ensures p.Fine? ==> Valid() && step == LastAt(h)
    {
      GroundLocal();
      var alive := NoteStep(LocalAbsent);
      if !alive { return Dead; }
      GroundWorktree();
      alive := NoteStep(WorktreeRemoved);
      p := if alive then Fine else Dead;
    }

    /** Removes the remote ref, the worktree and the local ref, in that order. */
    method RemoveRefs() returns (p: Progress)
      requires Valid() && step == RefsAt(h) + 1 && Warranted(RemoteRef)
      modifies this`world, this`records, this`pending, this`gates, this`script, this`step
      modifies this`log, this`seen, this`cleared
      ensures Journaled() && old(script) <= script && OwnGrowth(old(records), records)
      ensures !p.Dead? ==> Valid()
      ensures p.Fine? ==> step == LastAt(h)
      ensures quiet ==> !p.Refuse?
    {
      p := RemoveRemote();
      if !p.Fine? { return; }
      p := RemoveRest();
    }

    method CheckForWorktree() returns (ok: bool)
      requires Valid() && step == RefsAt(h) + 3
      modifies this`world, this`cleared, this`log
      ensures Valid() && (quiet ==> ok) && (ok ==> Warranted(Worktree))
    {
      ok := Eligible();
      if ok { PermitWorktree(); }
    }

    /** Checks again, then removes the worktree and the local ref. */
    method RemoveRest() returns (p: Progress)
      requires Valid() && step == RefsAt(h) + 3
      modifies this`world, this`records, this`pending, this`gates, this`script, this`step
      modifies this`log, this`seen, this`cleared
      ensures Journaled() && old(script) <= script && OwnGrowth(old(records), records)
      ensures !p.Dead? ==> Valid()
      ensures p.Fine? ==> step == LastAt(h)
      ensures quiet ==> !p.Refuse?
    {
      var ok := CheckForWorktree();
      if !ok { return Refuse; }
      p := RemoveLocal();
      if p.Fine? { p := NoteRemoval(); }
    }

    /** Sets the title, or leaves that to the batch. */
    method FinishTitle() returns (p: Progress)
      requires Valid() && step == LastAt(h) && cleared.Some? && AllRemoved(cleared.value.gates)
      modifies this`world, this`records, this`pending, this`gates, this`script, this`step
      modifies this`log, this`seen, this`cleared
      ensures Journaled() && old(script) <= script && OwnGrowth(old(records), records)
      ensures !p.Dead? ==> Valid()
      ensures p.Fine? ==> step == Size(h)
      ensures quiet ==> !p.Refuse?
    {
      if h.batch {
        GroundMember();
        var done := NoteStep(MemberComplete);
        return if done then Fine else Dead;
      }
      AskDue(h, gates, cleared.value, log);
      p := RenameStep();
      if p.Fine? { p := NoteTitle(); }
    }

    /** Records what became of the title, checks once more, and records the end. */
    method NoteTitle() returns (p: Progress)
      requires Valid() && !h.batch && step == LastAt(h) + 1 && cleared.Some? && AllRemoved(cleared.value.gates)
      requires h.renames ==> seen != [] && seen[|seen| - 1].title == h.expected
      modifies this`world, this`records, this`pending, this`gates, this`script, this`step, this`log, this`cleared
      ensures Journaled() && old(script) <= script && OwnGrowth(old(records), records)
      ensures !p.Dead? ==> Valid()
      ensures p.Fine? ==> step == Size(h)
      ensures quiet ==> !p.Refuse?
    {
      GroundTitle();
      var alive := NoteStep(TitleGate(h));
      if !alive { return Dead; }
      p := NoteDone();
    }

    method NoteDone() returns (p: Progress)
      requires Valid() && !h.batch && step == LastAt(h) + 2 && TitleGate(h) in gates
      modifies this`world, this`records, this`pending, this`gates, this`script, this`step, this`log, this`cleared
      ensures Journaled() && old(script) <= script && OwnGrowth(old(records), records)
      ensures !p.Dead? ==> Valid()
      ensures p.Fine? ==> step == Size(h)
      ensures quiet ==> !p.Refuse?
    {
      var ok := Eligible();
      if !ok { return Refuse; }
      GroundDone();
      var alive := NoteStep(TitleDone);
      p := if alive then Fine else Dead;
    }

    method CheckToBegin() returns (ok: bool)
      requires Valid() && step == 0
      modifies this`world, this`cleared, this`log
      ensures Valid() && (quiet ==> ok) && (ok ==> Grounded(CleanupPrepared))
    {
      ok := Eligible();
      if ok { GroundBegin(); }
    }

    /** Checks for the first time, and records the beginning and the ancestry of the resources. */
    method OpenJournal() returns (p: Progress)
      requires Valid() && step == 0
      modifies this`world, this`records, this`pending, this`gates, this`script, this`step, this`log, this`cleared
      ensures Journaled() && old(script) <= script && OwnGrowth(old(records), records)
      ensures !p.Dead? ==> Valid()
      ensures p.Fine? ==> step == ReleaseAt(h) && cleared.Some?
      ensures quiet ==> !p.Refuse?
    {
      var ok := CheckToBegin();
      if !ok { return Refuse; }
      var alive := NoteStep(CleanupPrepared);
      if !alive { return Dead; }
      p := VerifyAncestry();
    }

    /** First half: journal opened, resources released. */
    method ReleasePhase() returns (p: Progress)
      requires Valid() && step == 0
      modifies this`world, this`records, this`pending, this`gates, this`script, this`step
      modifies this`log, this`seen, this`cleared
      ensures Journaled() && old(script) <= script && OwnGrowth(old(records), records)
      ensures !p.Dead? ==> Valid()
      ensures p.Fine? ==> step == RefsAt(h) + 1
      ensures quiet ==> !p.Refuse?
    {
      p := OpenJournal();
      if !p.Fine? { return; }
      var ok := ReleasedStayAway();
      if !ok { return Refuse; }
      p := ReleaseResources();
    }

    /** Second half: refs and worktree removed, title set. */
    method RemovalPhase() returns (p: Progress)
      requires Valid() && step == RefsAt(h) + 1
      modifies this`world, this`records, this`pending, this`gates, this`script, this`step
      modifies this`log, this`seen, this`cleared
      ensures Journaled() && old(script) <= script && OwnGrowth(old(records), records)
      ensures !p.Dead? ==> Valid()
      ensures p.Fine? ==> step == Size(h)
      ensures quiet ==> !p.Refuse?
    {
      var ok := Eligible();
      if !ok { return Refuse; }
      PermitRemote();
      p := RemoveRefs();
      if !p.Fine? { return; }
      ok := Eligible();
      if !ok { return Refuse; }
      RemovalGates(h, gates);
      p := FinishTitle();
    }

    /** The whole run. However it ends, nothing was destroyed ahead of the journal. Undisturbed it is never refused:
        it does a prefix of its script, and all of it when it completes. */
    method Reconcile() returns (r: Ending)
      requires Valid() && step == 0
      modifies this`world, this`records, this`pending, this`gates, this`script, this`step
      modifies this`log, this`seen, this`cleared
      ensures Journaled() && old(script) <= script && OwnGrowth(old(records), records)
      ensures r.Complete? || r.MemberDone? ==> Valid() && step == Size(h) && NotesBefore(h, Size(h), gates)
      ensures Lawful(h, log) && Accounted(log.noted, Latest(records))
      ensures r.Complete? || r.MemberDone? ==> AllRemoved(gates)
      ensures if r.Complete? then !h.batch && TitleDone in gates else r.MemberDone? ==> MemberComplete in gates
      ensures quiet ==> !r.Refused?
      ensures quiet && Resumes() && (r.Complete? || r.MemberDone?) ==> Now() == Perform(h, origin, Script(h, origin))
    {
      var p := ReleasePhase();
      if p.Fine? { p := RemovalPhase(); }
      if p.Dead? { return Killed; }
      if p.Refuse? { return Refused; }
      EndGates(h, gates);
      if quiet { OnScriptEnd(h, first, script, Now()); }
      r := if h.batch then MemberDone else Complete;
    }

    /** Publishes a gate of the batch once all steps of this member are done. */
    method PublishBatchGate(gate: Gate)
      requires Valid() && step == Size(h) && gate !in gates && gate in BATCH_GATES
      modifies this`records, this`gates, this`first, this`script, this`origin, this`cleared
      ensures Valid() && records == old(records) + [old(gates) + [gate]] && gates == old(gates) + [gate]
    {
      BatchGateFits(h, records, gate);
      BatchGateGrows(log.noted, gates, gate);
      NotesBeforeGrow(h, step, gates, gate);
      if quiet { BatchGateOnScript(h, Now(), gate); }
      Extend(records + [gates + [gate]]);
    }

    /** Every step is done, and the journal goes on from here. */
    method Extend(r: seq<Gates>)
      requires UniqueIds(h) && |h.ids| <= 100 && !pending && step == Size(h)
      requires Recoverable(h, r) && NotesBefore(h, Size(h), Latest(r))
      requires Lawful(h, log) && Accounted(log.noted, Latest(r)) && (quiet && settled ==> world.title == h.expected)
      requires quiet ==> Rests(h, Disk(world, r))
      modifies this`records, this`gates, this`first, this`script, this`origin, this`cleared
      ensures Valid() && records == r && gates == Latest(r)
    {
      records, gates, cleared := r, Latest(r), None;
      first, origin, script := Disk(world, r), Disk(world, r), [];
      assert Now() == first;
    }

    /** The final title of the batch appears. */
    method SeeTitle()
      requires Valid() && step == Size(h)
      modifies this`world, this`first, this`script, this`origin
      ensures Valid() && world == old(world).(title := h.expected)
    {
      if quiet { TitleOnScript(h, Now()); }
      world := world.(title := h.expected);
      first, origin, script := Now(), Now(), [];
    }

    /** The batch has read the final title back, or has not. */
    method Settle(final: bool)
      requires Valid() && (final && quiet ==> world.title == h.expected)
      modifies this`settled
      ensures Valid() && settled == final
    {
      settled := final;
    }

    /** Records a gate of the batch, unless it is recorded already; may be killed while staging or afterwards. */
    method RecordBatchGate(gate: Gate) returns (alive: bool)
      requires Valid() && step == Size(h) && gate in BATCH_GATES
      modifies this`records, this`pending, this`gates, this`first, this`script, this`origin, this`cleared
      ensures Journaled() && old(records) <= records
      ensures records == old(records) || records == old(records) + [old(gates) + [gate]]
      ensures alive ==> Valid() && old(gates) <= gates && gate in gates
    {
      if gate in gates { return true; }
      var killed := *;
      if killed {
        pending := true;
        return false;
      }
      PublishBatchGate(gate);
      alive := *;
    }

    /** A new run: the gates are restored from the journal files, listed in any order. A pending write is the only
        reason to refuse. Undisturbed, the new run ends where the first run would have ended. */
    method Restart(files: seq<Gates>) returns (ok: bool)
      requires Journaled() && |files| == |records| && forall x :: x in files <==> x in records
      modifies this`gates, this`first, this`script, this`step, this`seen, this`cleared
      ensures old(Resumes()) ==> Resumes()
      ensures ok <==> !pending
      ensures ok ==> Valid() && step == 0 && first == Now() && script == []
      ensures !ok ==> Journaled()
    {
      JournalStaysRecoverable(records, h.ids);
      ChainRestores(records, files, []);
      var restored := RestoreGates(files, pending);
      if restored.Failure? { return false; }
      ChainRestores(records, files, restored.value);
      Begin(restored.value);
      ok := true;
    }

    /** A run from the first step, which has checked and seen nothing yet. */
    method Begin(restored: Gates)
      requires Journaled() && !pending && restored == Latest(records)
      modifies this`gates, this`first, this`script, this`step, this`seen, this`cleared
      ensures Valid() && step == 0 && first == Now() && script == [] && seen == [] && cleared == None
      ensures old(Resumes()) ==> Resumes()
    {
      if quiet {
        ScriptKeepsEnd(h, first, script);
        OnScriptStart(h, Now());
        FollowsStart(h, Now());
      }
      gates := restored;
      first, script, step, seen, cleared := Now(), [], 0, [], None;
      assert Now() == old(Now());
    }
  }

  /** A cleanup from its beginning, run again after every kill, at most `attempts` times. Undisturbed, it ends where one
      run would have ended, and only a write left pending by a kill refuses it. */
  method RunAttempts(h: Handoff, quiet: bool, world: World, attempts: nat) returns (r: Ending, m: Machine)
    requires UniqueIds(h) && |h.ids| <= 100 && (quiet ==> RefsIntact(h, world))
    ensures m.Resumable() && m.h == h && m.quiet == quiet
    ensures quiet && (r.Complete? || r.MemberDone?) ==>
      m.Now() == Perform(h, Disk(world, []), Script(h, Disk(world, [])))
    ensures quiet && r.Refused? ==> m.pending
  {
    m := new Machine(h, quiet, world);
    r := Killed;
    for n := 0 to attempts
      invariant fresh(m) && m.Resumable() && r.Killed?
      invariant m.h == h && m.quiet == quiet && m.origin == Disk(world, [])
    {
      r := Attempt(m);
      if !r.Killed? { return; }
    }
  }

  /** One attempt: the journal is read, and the cleanup runs from its first step. */
  method Attempt(m: Machine) returns (r: Ending)
    requires m.Resumable()
    modifies m
    ensures m.Resumable() && m.origin == old(m.origin)
    ensures m.quiet && (r.Complete? || r.MemberDone?) ==> m.Now() == Perform(m.h, m.origin, Script(m.h, m.origin))
    ensures m.quiet && r.Refused? ==> m.pending
  {
    var ok := m.Restart(m.records);
    if !ok { return Refused; }
    r := m.Reconcile();
  }

  lemma ReleasedIsDone(h: Handoff, d: Disk, i: nat)
    requires Sound(h, d) && i < |h.ids| && Released(h.ids[i]) in Latest(d.records)
    ensures var n := ReleaseAt(h) + 2 * i; Done(h, d, StepAt(h, n)) && Done(h, d, StepAt(h, n + 1))
  {
    ReleaseSteps(h, i);
    var n := ReleaseAt(h) + 2 * i;
    assert Done(h, d, StepAt(h, n + 1)) && Done(h, d, StepAt(h, n));
  }

  lemma ReleasedIsNoted(h: Handoff, i: nat, gates: Gates)
    requires i < |h.ids| && NotesBefore(h, ReleaseAt(h) + 2 * i, gates) && Released(h.ids[i]) in gates
    ensures NotesBefore(h, ReleaseAt(h) + 2 * i + 2, gates)
  {
    ReleaseSteps(h, i);
  }

  lemma RemovesOne(w: World, t: Target)
    ensures RemoveOne(w, t).title == w.title
    ensures Amount(RemoveOne(w, t), t) == if Amount(w, t) == 0 then 0 else Amount(w, t) - 1
  {
  }

  lemma PrefixTransitive(a: Gates, b: Gates, c: Gates)
    requires a <= b && b <= c
    ensures a <= c
  {
  }

  lemma ReleaseSteps(h: Handoff, i: nat)
    requires i < |h.ids|
    ensures StepAt(h, ReleaseAt(h) + 2 * i) == Destroy(Tree(h.ids[i]))
    ensures StepAt(h, ReleaseAt(h) + 2 * i + 1) == Note(Released(h.ids[i]))
  {
  }

  lemma SeenBoth(seen: seq<World>, w: World)
    requires seen != [] && w in seen && !w.worktree && Amount(seen[|seen| - 1], LocalRef) == 0
    ensures (exists x :: x in seen && !x.worktree) && exists x :: x in seen && x.local.None?
  {
    assert seen[|seen| - 1] in seen;
  }

  /** When the program comes to a resource, the ones before it are released and all ancestries recorded. */
  lemma TurnComes(h: Handoff, i: nat, gates: Gates)
    requires UniqueIds(h) && i < |h.ids| && NotesBefore(h, ReleaseAt(h) + 2 * i, gates)
    ensures TurnOf(h, h.ids[i], gates)
  {
    forall other | other in h.ids
      ensures AncestryVerified(other) in gates
    {
      var k :| 0 <= k < |h.ids| && h.ids[k] == other;
      assert StepAt(h, 1 + k) == Note(AncestryVerified(h.ids[k]));
    }
    forall k, j | 0 <= k < j < |h.ids| && h.ids[j] == h.ids[i]
      ensures Released(h.ids[k]) in gates
    {
      assert i == j;
      var n := ReleaseAt(h) + 2 * k + 1;
      assert StepAt(h, n) == Note(Released(h.ids[k]));
    }
  }

  lemma AllReleaseStepsDone(h: Handoff, d: Disk)
    requires Sound(h, d) && ResourcesReleased in Latest(d.records)
    ensures forall i :: 0 <= i <= RefsAt(h) ==> Done(h, d, StepAt(h, i))
  {
    assert StepAt(h, RefsAt(h)) == Note(ResourcesReleased) && Done(h, d, StepAt(h, RefsAt(h)));
  }

  lemma AllNoted(h: Handoff, gates: Gates)
    requires NotesBefore(h, ReleaseAt(h), gates) && ResourcesReleased in gates
    requires forall id :: id in h.ids ==> Released(id) in gates
    ensures NotesBefore(h, RefsAt(h) + 1, gates)
  {
    forall n | ReleaseAt(h) <= n <= RefsAt(h) && StepAt(h, n).Note?
      ensures StepAt(h, n).gate in gates
    {
      if n < RefsAt(h) { assert h.ids[(n - ReleaseAt(h)) / 2] in h.ids; }
    }
  }

  // ---------------------------------------------------------------------
  // The grounds of every gate and the warrant of every removal

  lemma BeginGround(h: Handoff, gates: Gates, check: Check, seen: seq<World>, log: Log)
    requires Lawful(h, log) && check in log.checks
    ensures Justified(h, Entry(CleanupPrepared, gates, check, seen))
  {
    assert Passed(h, check);
  }

  lemma AncestryGround(h: Handoff, i: nat, gates: Gates, check: Check, seen: seq<World>, log: Log)
    requires Lawful(h, log) && check in log.checks && i < |h.ids| && NotesBefore(h, 1 + i, gates)
    ensures Justified(h, Entry(AncestryVerified(h.ids[i]), gates, check, seen))
  {
    assert Passed(h, check);
    assert StepAt(h, 0) == Note(CleanupPrepared);
  }

  lemma TreeDue(h: Handoff, id: string, check: Check, seen: seq<World>, log: Log)
    requires Lawful(h, log) && check in log.checks && TurnOf(h, id, check.gates)
    ensures Due(h, Warrant(Tree(id), check, seen))
  {
    assert Passed(h, check);
  }

  lemma ReleasedGround(h: Handoff, i: nat, gates: Gates, check: Check, seen: seq<World>, log: Log)
    requires Lawful(h, log) && check in log.checks && i < |h.ids| && TurnOf(h, h.ids[i], gates)
    requires seen != [] && Amount(seen[|seen| - 1], Tree(h.ids[i])) == 0
    ensures Justified(h, Entry(Released(h.ids[i]), gates, check, seen))
  {
    assert Passed(h, check);
    assert seen[|seen| - 1] in seen;
  }

  lemma AllReleasedGround(h: Handoff, gates: Gates, check: Check, seen: seq<World>, log: Log)
    requires Lawful(h, log) && check in log.checks && NotesBefore(h, RefsAt(h), gates) && seen != []
    requires forall i :: 0 <= i < |h.ids| ==> Amount(seen[|seen| - 1], Tree(h.ids[i])) == 0
    ensures Justified(h, Entry(ResourcesReleased, gates, check, seen))
  {
    assert Passed(h, check);
    var w := seen[|seen| - 1];
    assert w in seen;
    forall id | id in h.ids
      ensures Absent(w, id) && Released(id) in gates
    {
      var i :| 0 <= i < |h.ids| && h.ids[i] == id;
      ReleaseSteps(h, i);
      assert Amount(w, Tree(h.ids[i])) == 0;
    }
  }

  lemma RemoteDue(h: Handoff, check: Check, seen: seq<World>, log: Log)
    requires Lawful(h, log) && check in log.checks && ResourcesReleased in check.gates
    ensures Due(h, Warrant(RemoteRef, check, seen))
  {
    assert Passed(h, check);
  }

  lemma RemoteGround(h: Handoff, gates: Gates, check: Check, seen: seq<World>, log: Log)
    requires Lawful(h, log) && check in log.checks && NotesBefore(h, RefsAt(h) + 1, gates)
    requires seen != [] && Amount(seen[|seen| - 1], RemoteRef) == 0
    ensures Justified(h, Entry(RemoteAbsent, gates, check, seen))
  {
    assert Passed(h, check);
    ReleaseGate(h, gates);
    assert seen[|seen| - 1] in seen;
  }

  lemma WorktreeDue(h: Handoff, check: Check, seen: seq<World>, log: Log)
    requires Lawful(h, log) && check in log.checks && ResourcesReleased in check.gates && RemoteAbsent in check.gates
    ensures Due(h, Warrant(Worktree, check, seen))
  {
    assert Passed(h, check);
  }

  lemma LocalDue(h: Handoff, leave: Warrant, check: Check, seen: seq<World>, log: Log)
    requires Lawful(h, log) && leave in log.warrants && leave.target == Worktree && leave.check == check
    requires seen != [] && Amount(seen[|seen| - 1], Worktree) == 0
    ensures Due(h, Warrant(LocalRef, check, seen))
  {
    assert Due(h, leave);
    assert seen[|seen| - 1] in seen;
  }

  lemma LocalGround(h: Handoff, gates: Gates, check: Check, seen: seq<World>, log: Log)
    requires Lawful(h, log) && check in log.checks && NotesBefore(h, RefsAt(h) + 3, gates)
    requires exists w :: w in seen && w.local.None?
    ensures Justified(h, Entry(LocalAbsent, gates, check, seen))
  {
    assert Passed(h, check);
    RefGates(h, gates);
  }

  lemma WorktreeGround(h: Handoff, gates: Gates, check: Check, seen: seq<World>, log: Log)
    requires Lawful(h, log) && check in log.checks && LocalAbsent in gates
    requires exists w :: w in seen && !w.worktree
    ensures Justified(h, Entry(WorktreeRemoved, gates, check, seen))
  {
    assert Passed(h, check);
  }

  lemma MemberGround(h: Handoff, gates: Gates, check: Check, seen: seq<World>, log: Log)
    requires Lawful(h, log) && check in log.checks && AllRemoved(check.gates)
    ensures Justified(h, Entry(MemberComplete, gates, check, seen))
  {
    assert Passed(h, check);
  }

  lemma AskDue(h: Handoff, gates: Gates, check: Check, log: Log)
    requires Lawful(h, log) && check in log.checks && AllRemoved(check.gates) && !h.batch
    ensures Asked(h, Ask(gates, check))
  {
    assert Passed(h, check);
  }

  lemma TitleGround(h: Handoff, gates: Gates, check: Check, seen: seq<World>, log: Log)
    requires Lawful(h, log) && check in log.checks && AllRemoved(check.gates)
    requires h.renames ==> seen != [] && seen[|seen| - 1].title == h.expected
    ensures Justified(h, Entry(TitleGate(h), gates, check, seen))
  {
    assert Passed(h, check);
    if h.renames { assert seen[|seen| - 1] in seen; }
  }

  lemma DoneGround(h: Handoff, gates: Gates, check: Check, seen: seq<World>, log: Log)
    requires Lawful(h, log) && check in log.checks && TitleGate(h) in check.gates
    ensures Justified(h, Entry(TitleDone, gates, check, seen))
  {
    assert Passed(h, check);
  }

  // ---------------------------------------------------------------------
  // The gates recorded when the program comes to a step

  lemma ReleaseGate(h: Handoff, gates: Gates)
    requires NotesBefore(h, RefsAt(h) + 1, gates)
    ensures ResourcesReleased in gates
  {
    assert StepAt(h, RefsAt(h)) == Note(ResourcesReleased);
  }

  lemma RefGates(h: Handoff, gates: Gates)
    requires NotesBefore(h, RefsAt(h) + 3, gates)
    ensures ResourcesReleased in gates && RemoteAbsent in gates
  {
    assert StepAt(h, RefsAt(h)) == Note(ResourcesReleased) && StepAt(h, RefsAt(h) + 2) == Note(RemoteAbsent);
  }

  lemma EndGates(h: Handoff, gates: Gates)
    requires NotesBefore(h, Size(h), gates)
    ensures AllRemoved(gates) && (if h.batch then MemberComplete else TitleDone) in gates
  {
    RemovalGates(h, gates);
    assert StepAt(h, Size(h) - 1) == if h.batch then Note(MemberComplete) else Note(TitleDone);
  }

  lemma RemovalGates(h: Handoff, gates: Gates)
    requires NotesBefore(h, LastAt(h), gates)
    ensures AllRemoved(gates)
  {
    assert StepAt(h, RefsAt(h)) == Note(ResourcesReleased) && StepAt(h, RefsAt(h) + 2) == Note(RemoteAbsent);
    assert StepAt(h, RefsAt(h) + 5) == Note(LocalAbsent) && StepAt(h, RefsAt(h) + 6) == Note(WorktreeRemoved);
  }

  lemma BatchGateFits(h: Handoff, records: seq<Gates>, gate: Gate)
    requires Recoverable(h, records) && gate !in Latest(records) && gate in BATCH_GATES
    ensures var next := records + [Latest(records) + [gate]];
            Recoverable(h, next) && Latest(next) == Latest(records) + [gate]
  {
    FixedGatesKnown(h.ids);
    RecoverableGrows(h, records, gate);
  }

  /** A batch gate belongs to no step: with all steps done it leaves nothing to do. */
  lemma BatchGateOnScript(h: Handoff, d: Disk, g: Gate)
    requires Sound(h, d) && g in BATCH_GATES && g !in Latest(d.records)
    requires forall i :: 0 <= i < Size(h) ==> Done(h, d, StepAt(h, i))
    ensures Rests(h, Disk(d.world, d.records + [Latest(d.records) + [g]]))
  {
    var next := Effect(h, d, Record(g));
    ChainGrows(d.records, g);
    FixedGatesKnown(h.ids);
    assert Latest(next.records) == Latest(d.records) + [g];
    forall i | 0 <= i < Size(h)
      ensures Done(h, next, StepAt(h, i))
    {
      EffectKeepsDone(h, d, Record(g), StepAt(h, i));
    }
    OnScriptStart(h, next);
    OnScriptJump(h, next, [], next, 0, Size(h));
  }
}
