/** What a cleanup owes: which checks, observations and gates must come before a gate is recorded, before something is
    destroyed and before the title is asked for. Nothing here refers to the order of the program. */
module CleanupLaw {
  import opened Wrappers
  import opened Journal
  import opened CleanupProgram

  /** A state of the world, and the gates recorded then, in which all checks passed and the controller approved. */
  datatype Check = Check(world: World, gates: Gates, approved: bool)

  /** Leave to destroy a target, after a check and with what the run has seen. */
  datatype Warrant = Warrant(target: Target, check: Check, seen: seq<World>)

  /** A destructive command that took effect, with the world and the journal it met, the last check of its run and
      what its run had seen. */
  datatype Issue = Issue(target: Target, before: World, durable: Gates, check: Check, seen: seq<World>)

  /** A gate that was recorded, with the gates before it. */
  datatype Entry = Entry(gate: Gate, durable: Gates, check: Check, seen: seq<World>)

  /** A request for the final title. */
  datatype Ask = Ask(durable: Gates, check: Check)

  /** What a cleanup has done, in all its runs, and on what grounds. */
  datatype Log = Log(checks: set<Check>, warrants: set<Warrant>, grounds: set<Entry>, noted: seq<Entry>,
                     issued: seq<Issue>, asked: seq<Ask>)

  const NOTHING := Log({}, {}, {}, [], [], [])

  /** What is recorded for the batch as a whole. */
  const BATCH_GATES := {BatchTitleUnavailable, BatchTitleVerified, BatchTitleDone}

  // ---------------------------------------------------------------------
  // The law

  predicate Absent(w: World, id: string) {
    id in w.pieces ==> w.pieces[id] == 0
  }

  /** What a passed check says: refs are the recorded head, nothing recorded as removed is back, and the title is the
      old one or, with everything gone, the final one. */
  ghost predicate Passed(h: Handoff, c: Check) {
    && c.approved
    && (c.world.remote.Some? ==> c.world.remote.value == h.head)
    && (c.world.local.Some? ==> c.world.local.value == h.head)
    && (c.world.worktree ==> c.world.local.Some?)
    && (RemoteAbsent in c.gates ==> c.world.remote.None?)
    && (LocalAbsent in c.gates ==> c.world.local.None?)
    && (WorktreeRemoved in c.gates ==> !c.world.worktree)
    && (forall id :: id in h.ids && (ResourcesReleased in c.gates || Released(id) in c.gates) ==> Absent(c.world, id))
    && (c.world.title == h.title
        || (c.world.title == h.expected && c.world.remote.None? && c.world.local.None? && !c.world.worktree))
  }

  /** The resources before `id` are recorded as released, and the ancestry of all is recorded. */
  ghost predicate TurnOf(h: Handoff, id: string, gates: Gates) {
    && id in h.ids
    && (forall other :: other in h.ids ==> AncestryVerified(other) in gates)
    && (forall i, j :: 0 <= i < j < |h.ids| && h.ids[j] == id ==> Released(h.ids[i]) in gates)
  }

  predicate AllRemoved(gates: Gates) {
    ResourcesReleased in gates && RemoteAbsent in gates && LocalAbsent in gates && WorktreeRemoved in gates
  }

  /** What a run must have checked and seen before it touches a target: resources in order, then the remote ref, then
      the worktree, then, with the worktree gone, the local ref. */
  ghost predicate Due(h: Handoff, w: Warrant) {
    && Passed(h, w.check)
    && match w.target
       case Tree(id) => TurnOf(h, id, w.check.gates)
       case RemoteRef => ResourcesReleased in w.check.gates
       case Worktree => ResourcesReleased in w.check.gates && RemoteAbsent in w.check.gates
       case LocalRef => ResourcesReleased in w.check.gates && RemoteAbsent in w.check.gates
                        && exists x :: x in w.seen && !x.worktree
  }

  /** Everything that is destroyed was due, its prepared gate was in the journal, and a ref still was the recorded
      head. */
  ghost predicate Ahead(h: Handoff, e: Issue) {
    && Due(h, Warrant(e.target, e.check, e.seen)) && e.check.gates <= e.durable
    && match e.target
       case Tree(id) => ReleasePrepared(id) in e.durable && !Absent(e.before, id)
       case RemoteRef => RemotePrepared in e.durable && e.before.remote == Some(h.head)
       case Worktree => WorktreePrepared in e.durable && e.before.worktree
       case LocalRef => LocalPrepared in e.durable && e.before.local == Some(h.head)
  }

  /** Everything recorded had been seen: what is prepared was there and due, what is gone was gone, and its gates came
      in order. */
  ghost predicate Justified(h: Handoff, e: Entry) {
    && Passed(h, e.check)
    && match e.gate
       case CleanupPrepared => true
       case AncestryVerified(id) => CleanupPrepared in e.durable && id in h.ids
       case ReleasePrepared(id) =>
         Due(h, Warrant(Tree(id), e.check, e.seen)) && exists w :: w in e.seen && !Absent(w, id)
       case Released(id) => TurnOf(h, id, e.durable) && exists w :: w in e.seen && Absent(w, id)
       case ResourcesReleased =>
         && (forall id :: id in h.ids ==> Released(id) in e.durable)
         && exists w :: w in e.seen && forall id :: id in h.ids ==> Absent(w, id)
       case RemotePrepared => Due(h, Warrant(RemoteRef, e.check, e.seen)) && exists w :: w in e.seen && w.remote.Some?
       case RemoteAbsent => ResourcesReleased in e.durable && exists w :: w in e.seen && w.remote.None?
       case WorktreePrepared => Due(h, Warrant(Worktree, e.check, e.seen)) && exists w :: w in e.seen && w.worktree
       case LocalPrepared =>
         Due(h, Warrant(LocalRef, e.check, e.seen)) && exists w :: w in e.seen && w.local == Some(h.head)
       case LocalAbsent => RemoteAbsent in e.durable && exists w :: w in e.seen && w.local.None?
       case WorktreeRemoved => LocalAbsent in e.durable && exists w :: w in e.seen && !w.worktree
       case TitleVerified => AllRemoved(e.check.gates) && exists w :: w in e.seen && w.title == h.expected
       case TitleUnavailable => AllRemoved(e.check.gates) && !h.renames
       case TitleDone => TitleVerified in e.check.gates || TitleUnavailable in e.check.gates
       case MemberComplete => AllRemoved(e.check.gates)
       case _ => false
  }

  /** The title of a single cleanup is asked for when a check has found every removal recorded. */
  ghost predicate Asked(h: Handoff, a: Ask) {
    !h.batch && Passed(h, a.check) && AllRemoved(a.check.gates)
  }

  ghost predicate Lawful(h: Handoff, log: Log) {
    && (forall c {:trigger Passed(h, c)} :: c in log.checks ==> Passed(h, c))
    && (forall w {:trigger Due(h, w)} :: w in log.warrants ==> Due(h, w))
    && (forall e {:trigger Justified(h, e)} :: e in log.grounds || e in log.noted ==> Justified(h, e))
    && (forall e {:trigger Ahead(h, e)} :: e in log.issued ==> Ahead(h, e))
    && (forall a {:trigger Asked(h, a)} :: a in log.asked ==> Asked(h, a))
  }

  ghost predicate HasEntry(noted: seq<Entry>, gates: Gates, g: Gate) {
    exists e :: e in noted && e.gate == g && e.durable <= gates
  }

  /** Every gate in the journal, other than those of the batch, has its entry. */
  ghost predicate Accounted(noted: seq<Entry>, gates: Gates) {
    forall g {:trigger HasEntry(noted, gates, g)} :: g in gates && g !in BATCH_GATES ==> HasEntry(noted, gates, g)
  }

  /** In a lawful log every command met a journal with its own prepared gate and with all that comes before it: the
      ancestry of every resource before a resource goes, the release of all before the remote ref goes, and the
      absence of the remote ref before the worktree or the local ref goes. */
  lemma RemovalsInOrder(h: Handoff, log: Log, e: Issue)
    requires Lawful(h, log) && e in log.issued
    ensures e.target.Tree? ==> ReleasePrepared(e.target.id) in e.durable
    ensures e.target.Tree? ==> forall id :: id in h.ids ==> AncestryVerified(id) in e.durable
    ensures e.target.RemoteRef? ==> RemotePrepared in e.durable && e.before.remote == Some(h.head)
    ensures e.target.Worktree? ==> WorktreePrepared in e.durable
    ensures e.target.LocalRef? ==> LocalPrepared in e.durable && e.before.local == Some(h.head)
    ensures !e.target.Tree? ==> ResourcesReleased in e.durable
    ensures e.target.Worktree? || e.target.LocalRef? ==> RemoteAbsent in e.durable
  {
    assert Ahead(h, e);
  }

  // ---------------------------------------------------------------------
  // The log grows

  lemma CheckGrows(h: Handoff, log: Log, c: Check)
    requires Lawful(h, log) && Passed(h, c)
    ensures Lawful(h, log.(checks := log.checks + {c}))
  {
  }

  lemma WarrantGrows(h: Handoff, log: Log, w: Warrant)
    requires Lawful(h, log) && Due(h, w)
    ensures Lawful(h, log.(warrants := log.warrants + {w}))
  {
  }

  lemma GroundGrows(h: Handoff, log: Log, e: Entry)
    requires Lawful(h, log) && Justified(h, e)
    ensures Lawful(h, log.(grounds := log.grounds + {e}))
  {
  }

  lemma EntryStays(noted: seq<Entry>, gates: Gates, next: seq<Entry>, more: Gates, g: Gate)
    requires HasEntry(noted, gates, g) && gates <= more && forall e :: e in noted ==> e in next
    ensures HasEntry(next, more, g)
  {
    var e :| e in noted && e.gate == g && e.durable <= gates;
    assert e in next && e.durable <= more;
  }

  lemma NoteGrows(h: Handoff, log: Log, gates: Gates, e: Entry)
    requires Lawful(h, log) && Accounted(log.noted, gates) && e in log.grounds && e.durable == gates
    ensures Lawful(h, log.(noted := log.noted + [e])) && Accounted(log.noted + [e], gates + [e.gate])
  {
    var next := log.noted + [e];
    assert forall x :: x in next <==> x in log.noted || x == e;
    forall g | g in gates + [e.gate] && g !in BATCH_GATES
      ensures HasEntry(next, gates + [e.gate], g)
    {
      if g == e.gate {
        assert e in next && e.durable <= gates + [e.gate];
      } else {
        assert HasEntry(log.noted, gates, g);
        EntryStays(log.noted, gates, next, gates + [e.gate], g);
      }
    }
  }

  /** A gate of the batch needs no entry. */
  lemma BatchGateGrows(noted: seq<Entry>, gates: Gates, gate: Gate)
    requires Accounted(noted, gates) && gate in BATCH_GATES
    ensures Accounted(noted, gates + [gate])
  {
    forall g | g in gates + [gate] && g !in BATCH_GATES
      ensures HasEntry(noted, gates + [gate], g)
    {
      assert HasEntry(noted, gates, g);
      EntryStays(noted, gates, noted, gates + [gate], g);
    }
  }

  /** A warranted command whose prepared gate is recorded. */
  lemma IssueGrows(h: Handoff, log: Log, e: Issue)
    requires Lawful(h, log) && Warrant(e.target, e.check, e.seen) in log.warrants && e.check.gates <= e.durable
    requires Prepared(e.target) in e.durable && Amount(e.before, e.target) > 0
    requires e.target == RemoteRef ==> e.before.remote == Some(h.head)
    requires e.target == LocalRef ==> e.before.local == Some(h.head)
    ensures Lawful(h, log.(issued := log.issued + [e]))
  {
    assert Due(h, Warrant(e.target, e.check, e.seen));
    assert Ahead(h, e);
  }

  lemma AskGrows(h: Handoff, log: Log, a: Ask)
    requires Lawful(h, log) && Asked(h, a)
    ensures Lawful(h, log.(asked := log.asked + [a]))
  {
  }

  // ---------------------------------------------------------------------
  // Grounds

  /** The checks as they are made find what a passed check says. */
  lemma LocalStatePasses(h: Handoff, w: World, gates: Gates)
    requires LocalState(h, w, gates)
    ensures Passed(h, Check(w, gates, true))
  {
    forall id | id in h.ids && (ResourcesReleased in gates || Released(id) in gates)
      ensures Absent(w, id)
    {
      var i :| 0 <= i < |h.ids| && h.ids[i] == id;
      assert Amount(w, Tree(h.ids[i])) == 0;
    }
  }

  /** A target that is due, and seen to be there, may be prepared. */
  lemma SeenIsPreparable(h: Handoff, log: Log, t: Target, check: Check, seen: seq<World>, durable: Gates, w: World)
    requires Lawful(h, log) && Warrant(t, check, seen) in log.warrants && Amount(w, t) > 0
    requires t == LocalRef ==> w.local == Some(h.head)
    ensures Due(h, Warrant(t, check, seen + [w])) && Justified(h, Entry(Prepared(t), durable, check, seen + [w]))
  {
    assert Due(h, Warrant(t, check, seen));
    var more := seen + [w];
    assert more[|seen|] == w && w in more;
    if t == LocalRef {
      var x :| x in seen && !x.worktree;
      assert x in more;
    }
  }

  /** The gate of all resources stands for those of each. */
  lemma ReleasedAll(h: Handoff, log: Log, gates: Gates)
    requires Lawful(h, log) && Accounted(log.noted, gates) && ResourcesReleased in gates
    ensures forall id :: id in h.ids ==> Released(id) in gates
  {
    assert HasEntry(log.noted, gates, ResourcesReleased);
    var e :| e in log.noted && e.gate == ResourcesReleased && e.durable <= gates;
    assert Justified(h, e);
  }
}
