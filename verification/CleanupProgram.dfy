/** What a cleanup does, as a program of idempotent steps.

    A run always starts at the first step and looks at the live world before every step, so a run that follows a
    killed one finds the finished steps done and takes up the rest. */
module CleanupProgram {
  import opened Wrappers
  import opened Journal

  /** What may be destroyed. A resource may consist of many pieces; its tree is removed piece by piece. */
  datatype Target = Tree(id: string) | RemoteRef | Worktree | LocalRef

  datatype Step = Note(gate: Gate) | Destroy(target: Target) | Rename

  type Sha = string

  datatype Handoff = Handoff(ids: seq<string>, head: Sha, title: string, expected: string, renames: bool, batch: bool)

  datatype World = World(pieces: map<string, nat>, remote: Option<Sha>, worktree: bool, local: Option<Sha>,
                         title: string)

  /** Everything that survives the process. */
  datatype Disk = Disk(world: World, records: seq<Gates>)

  function Prepared(t: Target): Gate {
    match t
    case Tree(id) => ReleasePrepared(id)
    case RemoteRef => RemotePrepared
    case Worktree => WorktreePrepared
    case LocalRef => LocalPrepared
  }

  /** How much of a target is there. */
  function Amount(w: World, t: Target): nat {
    match t
    case Tree(id) => if id in w.pieces then w.pieces[id] else 0
    case RemoteRef => if w.remote.Some? then 1 else 0
    case Worktree => if w.worktree then 1 else 0
    case LocalRef => if w.local.Some? then 1 else 0
  }

  function RemoveOne(w: World, t: Target): World {
    match t
    case Tree(id) => if Amount(w, t) > 0 then w.(pieces := w.pieces[id := w.pieces[id] - 1]) else w
    case RemoteRef => w.(remote := None)
    case Worktree => w.(worktree := false)
    case LocalRef => w.(local := None)
  }

  // ---------------------------------------------------------------------
  // The program of a handoff

  /** Where the parts of the program begin. */
  function ReleaseAt(h: Handoff): nat { 1 + |h.ids| }

  function RefsAt(h: Handoff): nat { 1 + 3 * |h.ids| }

  function LastAt(h: Handoff): nat { RefsAt(h) + 7 }

  function Size(h: Handoff): nat { LastAt(h) + if h.batch then 1 else 3 }

  function TitleGate(h: Handoff): Gate { if h.renames then TitleVerified else TitleUnavailable }

  function StepAt(h: Handoff, n: nat): Step
    requires n < Size(h)
  {
    if n == 0 then Note(CleanupPrepared)
    else if n < ReleaseAt(h) then Note(AncestryVerified(h.ids[n - 1]))
    else if n < RefsAt(h) then
      var m := n - ReleaseAt(h);
      if m % 2 == 0 then Destroy(Tree(h.ids[m / 2])) else Note(Released(h.ids[m / 2]))
    else if n == RefsAt(h) then Note(ResourcesReleased)
    else if n == RefsAt(h) + 1 then Destroy(RemoteRef)
    else if n == RefsAt(h) + 2 then Note(RemoteAbsent)
    else if n == RefsAt(h) + 3 then Destroy(Worktree)
    else if n == RefsAt(h) + 4 then Destroy(LocalRef)
    else if n == RefsAt(h) + 5 then Note(LocalAbsent)
    else if n == RefsAt(h) + 6 then Note(WorktreeRemoved)
    else if h.batch then Note(MemberComplete)
    else if n == LastAt(h) then Rename
    else if n == LastAt(h) + 1 then Note(TitleGate(h))
    else Note(TitleDone)
  }

  /** The whole cleanup: resources, remote ref, worktree, local ref, title. */
  function Program(h: Handoff): seq<Step> {
    seq(Size(h), n requires 0 <= n < Size(h) => StepAt(h, n))
  }

  // ---------------------------------------------------------------------
  // Effects

  datatype Action = Record(gate: Gate) | Remove(target: Target) | SetTitle

  function Effect(h: Handoff, d: Disk, a: Action): Disk {
    match a
    case Record(g) => d.(records := d.records + [Latest(d.records) + [g]])
    case Remove(t) => d.(world := RemoveOne(d.world, t))
    case SetTitle => d.(world := d.world.(title := h.expected))
  }

  function Perform(h: Handoff, d: Disk, actions: seq<Action>): Disk
    decreases |actions|
  {
    if actions == [] then d else Perform(h, Effect(h, d, actions[0]), actions[1..])
  }

  function Repeat(a: Action, n: nat): (r: seq<Action>)
    ensures |r| == n && forall i :: 0 <= i < n ==> r[i] == a
  {
    seq(n, _ => a)
  }

  /** The step has nothing left to do. */
  predicate Done(h: Handoff, d: Disk, s: Step) {
    match s
    case Note(g) => g in Latest(d.records)
    case Destroy(t) => Amount(d.world, t) == 0
    case Rename => !h.renames || d.world.title == h.expected
  }

  function PrepareActions(d: Disk, t: Target): seq<Action> {
    if Prepared(t) in Latest(d.records) then [] else [Record(Prepared(t))]
  }

  /** What a step does in a given state, undisturbed. */
  function StepActions(h: Handoff, d: Disk, s: Step): seq<Action> {
    if Done(h, d, s) then []
    else
      match s
      case Note(g) => [Record(g)]
      case Destroy(t) => PrepareActions(d, t) + Repeat(Remove(t), Amount(d.world, t))
      case Rename => [SetTitle]
  }

  /** What a run of the steps does in a given state, undisturbed. */
  function Exec(h: Handoff, d: Disk, steps: seq<Step>): seq<Action>
    decreases |steps|
  {
    if steps == [] then []
    else
      var first := StepActions(h, d, steps[0]);
      first + Exec(h, Perform(h, d, first), steps[1..])
  }

  // ---------------------------------------------------------------------
  // Finished steps stay finished

  lemma {:induction false} PerformSplit(h: Handoff, d: Disk, actions: seq<Action>, k: nat)
    requires k <= |actions|
    ensures Perform(h, d, actions) == Perform(h, Perform(h, d, actions[..k]), actions[k..])
    decreases k
  {
    if k == 0 {
      assert actions[k..] == actions;
    } else {
      PerformSplit(h, Effect(h, d, actions[0]), actions[1..], k - 1);
      assert actions[..k][1..] == actions[1..][..k - 1] && actions[1..][k - 1..] == actions[k..];
    }
  }

  lemma EffectKeepsDone(h: Handoff, d: Disk, a: Action, s: Step)
    requires Done(h, d, s)
    ensures Done(h, Effect(h, d, a), s)
  {
  }

  lemma {:induction false} PerformKeepsDone(h: Handoff, d: Disk, actions: seq<Action>, s: Step)
    requires Done(h, d, s)
    ensures Done(h, Perform(h, d, actions), s)
    decreases |actions|
  {
    if actions == [] {
    } else {
      EffectKeepsDone(h, d, actions[0], s);
      PerformKeepsDone(h, Effect(h, d, actions[0]), actions[1..], s);
    }
  }

  /** One action into a step, the rest of the step is what the step does from there. */
  lemma StepUnfolds(h: Handoff, d: Disk, s: Step)
    requires !Done(h, d, s)
    ensures var a := StepActions(h, d, s);
            a != [] && StepActions(h, Effect(h, d, a[0]), s) == a[1..]
  {
    var a := StepActions(h, d, s);
    match s {
      case Note(g) =>
      case Rename =>
      case Destroy(t) =>
        var n := Amount(d.world, t);
        if Prepared(t) in Latest(d.records) {
          assert a == Repeat(Remove(t), n);
          assert a[1..] == Repeat(Remove(t), n - 1);
          assert Amount(Effect(h, d, a[0]).world, t) == n - 1;
        } else {
          assert a[0] == Record(Prepared(t)) && a[1..] == Repeat(Remove(t), n);
          assert Prepared(t) in Latest(Effect(h, d, a[0]).records);
        }
    }
  }

  lemma PerformFirst(h: Handoff, d: Disk, a: seq<Action>, k: nat)
    requires 0 < k <= |a|
    ensures Perform(h, d, a[..k]) == Perform(h, Effect(h, d, a[0]), a[1..][..k - 1]) && a[1..][k - 1..] == a[k..]
  {
    assert a[..k][0] == a[0] && a[..k][1..] == a[1..][..k - 1];
  }

  lemma {:induction false} StepResumes(h: Handoff, d: Disk, s: Step, k: nat)
    requires k <= |StepActions(h, d, s)|
    ensures var a := StepActions(h, d, s); StepActions(h, Perform(h, d, a[..k]), s) == a[k..]
    decreases k
  {
    var a := StepActions(h, d, s);
    if k > 0 {
      StepUnfolds(h, d, s);
      StepResumes(h, Effect(h, d, a[0]), s, k - 1);
      PerformFirst(h, d, a, k);
    } else {
      assert a[..0] == [] && a[0..] == a;
    }
  }

  /** A complete step is done. */
  lemma StepCompletes(h: Handoff, d: Disk, s: Step)
    ensures Done(h, Perform(h, d, StepActions(h, d, s)), s)
  {
    var a := StepActions(h, d, s);
    StepResumes(h, d, s, |a|);
    assert a[..|a|] == a;
    if !Done(h, Perform(h, d, a), s) { StepUnfolds(h, Perform(h, d, a), s); }
  }

  lemma DoneDoesNothing(h: Handoff, d: Disk, steps: seq<Step>)
    requires steps != [] && Done(h, d, steps[0])
    ensures Exec(h, d, steps) == Exec(h, d, steps[1..])
  {
    assert [] + Exec(h, d, steps[1..]) == Exec(h, d, steps[1..]);
  }

  /** Killed inside the first step. */
  lemma ResumeInside(h: Handoff, d: Disk, steps: seq<Step>, k: nat)
    requires steps != [] && k <= |StepActions(h, d, steps[0])|
    ensures var a := StepActions(h, d, steps[0]);
            Exec(h, Perform(h, d, a[..k]), steps) == a[k..] + Exec(h, Perform(h, d, a), steps[1..])
  {
    StepResumes(h, d, steps[0], k);
    PerformSplit(h, d, StepActions(h, d, steps[0]), k);
  }

  /** Killed after the first step. */
  lemma ResumeAfter(h: Handoff, d: Disk, steps: seq<Step>, more: seq<Action>)
    requires steps != []
    ensures var a := StepActions(h, d, steps[0]);
            && Perform(h, d, a + more) == Perform(h, Perform(h, d, a), more)
            && Exec(h, Perform(h, d, a + more), steps) == Exec(h, Perform(h, d, a + more), steps[1..])
  {
    var a := StepActions(h, d, steps[0]);
    PerformSplit(h, d, a + more, |a|);
    assert (a + more)[..|a|] == a && (a + more)[|a|..] == more;
    StepCompletes(h, d, steps[0]);
    PerformKeepsDone(h, Perform(h, d, a), more, steps[0]);
    DoneDoesNothing(h, Perform(h, d, a + more), steps);
  }

  lemma SplitAt(a: seq<Action>, rest: seq<Action>, k: nat)
    requires k <= |a + rest|
    ensures k <= |a| ==> (a + rest)[..k] == a[..k] && (a + rest)[k..] == a[k..] + rest
    ensures k > |a| ==> (a + rest)[..k] == a + rest[..k - |a|] && (a + rest)[k..] == rest[k - |a|..]
  {
  }

  /** Resumability: killed after any number of actions, a run from the first step does exactly the actions that are
      left. */
  lemma {:induction false} RunResumes(h: Handoff, d: Disk, steps: seq<Step>, k: nat)
    requires k <= |Exec(h, d, steps)|
    ensures var script := Exec(h, d, steps); Exec(h, Perform(h, d, script[..k]), steps) == script[k..]
    decreases |steps|
  {
    if steps != [] {
      var a := StepActions(h, d, steps[0]);
      var rest := Exec(h, Perform(h, d, a), steps[1..]);
      SplitAt(a, rest, k);
      if k <= |a| {
        ResumeInside(h, d, steps, k);
      } else {
        ResumeAfter(h, d, steps, rest[..k - |a|]);
        RunResumes(h, Perform(h, d, a), steps[1..], k - |a|);
      }
    }
  }

  // ---------------------------------------------------------------------
  // The order of the journal

  predicate UniqueIds(h: Handoff) {
    forall i, j :: 0 <= i < j < |h.ids| ==> h.ids[i] != h.ids[j]
  }

  predicate IsPreparedGate(g: Gate) {
    g.ReleasePrepared? || g.RemotePrepared? || g.WorktreePrepared? || g.LocalPrepared?
  }

  lemma NotesAreDistinct(h: Handoff, i: nat, j: nat)
    requires UniqueIds(h) && i < j < Size(h) && StepAt(h, i).Note? && StepAt(h, j).Note?
    ensures StepAt(h, i) != StepAt(h, j)
  {
  }

  lemma NotesAreNotPrepared(h: Handoff, i: nat)
    requires i < Size(h) && StepAt(h, i).Note?
    ensures !IsPreparedGate(StepAt(h, i).gate)
  {
  }

  /** A gate is in the journal only if everything before it is done. */
  ghost predicate Aligned(h: Handoff, d: Disk) {
    forall i, j :: 0 <= i < j < Size(h) && StepAt(h, j).Note? && Done(h, d, StepAt(h, j)) ==> Done(h, d, StepAt(h, i))
  }

  /** The first step that is not done. */
  ghost predicate FirstUndone(h: Handoff, d: Disk, j: nat) {
    j < Size(h) && !Done(h, d, StepAt(h, j)) && forall i :: 0 <= i < j ==> Done(h, d, StepAt(h, i))
  }

  /** The first action of a run belongs to the first step that is not done. */
  lemma {:induction false} FirstAction(h: Handoff, d: Disk, steps: seq<Step>) returns (j: nat)
    requires Exec(h, d, steps) != []
    ensures j < |steps| && !Done(h, d, steps[j]) && (forall i :: 0 <= i < j ==> Done(h, d, steps[i]))
    ensures StepActions(h, d, steps[j]) != [] && Exec(h, d, steps)[0] == StepActions(h, d, steps[j])[0]
    decreases |steps|
  {
    if Done(h, d, steps[0]) {
      DoneDoesNothing(h, d, steps);
      var k := FirstAction(h, d, steps[1..]);
      j := k + 1;
    } else {
      StepUnfolds(h, d, steps[0]);
      j := 0;
    }
  }

  lemma AlignedNext(h: Handoff, d: Disk, j: nat)
    requires UniqueIds(h) && Aligned(h, d) && FirstUndone(h, d, j)
    ensures StepActions(h, d, StepAt(h, j)) != []
    ensures Aligned(h, Effect(h, d, StepActions(h, d, StepAt(h, j))[0]))
  {
    StepUnfolds(h, d, StepAt(h, j));
    var a := StepActions(h, d, StepAt(h, j))[0];
    var next := Effect(h, d, a);
    forall i, k | 0 <= i < k < Size(h) && StepAt(h, k).Note? && Done(h, next, StepAt(h, k))
      ensures Done(h, next, StepAt(h, i))
    {
      if Done(h, d, StepAt(h, k)) {
        assert Done(h, d, StepAt(h, i));
      } else {
        NotesAreNotPrepared(h, k);
        assert a == Record(StepAt(h, k).gate);
        if k != j { NewGateIsOwn(h, d, j, k); }
      }
      EffectKeepsDone(h, d, a, StepAt(h, i));
    }
  }

  /** The gate that a step records is not the gate of another step. */
  lemma NewGateIsOwn(h: Handoff, d: Disk, j: nat, k: nat)
    requires UniqueIds(h) && j < Size(h) && k < Size(h) && j != k && StepAt(h, k).Note?
    requires StepActions(h, d, StepAt(h, j)) != []
    ensures StepActions(h, d, StepAt(h, j))[0] != Record(StepAt(h, k).gate)
  {
    NotesAreNotPrepared(h, k);
    if StepAt(h, j).Note? {
      if j < k { NotesAreDistinct(h, j, k); } else { NotesAreDistinct(h, k, j); }
    }
  }

  // ---------------------------------------------------------------------
  // What every run finds

  /** What the checks before every transition demand of the live state. */
  predicate LocalState(h: Handoff, w: World, gates: Gates) {
    && (w.remote.Some? ==> w.remote.value == h.head) && (w.local.Some? ==> w.local.value == h.head)
    && (w.worktree ==> w.local.Some?)
    && (RemoteAbsent in gates ==> w.remote.None?)
    && (LocalAbsent in gates ==> w.local.None?)
    && (WorktreeRemoved in gates ==> !w.worktree)
    && (forall i :: 0 <= i < |h.ids| && (ResourcesReleased in gates || Released(h.ids[i]) in gates) ==>
        Amount(w, Tree(h.ids[i])) == 0)
    && (forall i :: 0 <= i < |h.ids| && Released(h.ids[i]) in gates ==> AncestryVerified(h.ids[i]) in gates)
    && TitleAllowed(h, w)
  }

  /** The final title may be seen only when nothing is left to remove. */
  predicate TitleAllowed(h: Handoff, w: World) {
    w.title == h.title || (w.title == h.expected && w.remote.None? && !w.worktree && w.local.None?)
  }

  predicate RefsIntact(h: Handoff, w: World) {
    && (w.remote.Some? ==> w.remote.value == h.head) && (w.local.Some? ==> w.local.value == h.head)
    && (w.worktree ==> w.local.Some?) && TitleAllowed(h, w)
  }

  predicate KnownGates(h: Handoff, gates: Gates) {
    forall g :: g in gates ==> g in Universe(h.ids)
  }

  /** The invariant of all runs of one handoff. */
  ghost predicate Sound(h: Handoff, d: Disk) {
    UniqueIds(h) && Chain(d.records) && KnownGates(h, Latest(d.records)) && Aligned(h, d) && RefsIntact(h, d.world)
  }

  lemma {:induction false} ResourceGatesKnown(ids: seq<string>, i: nat)
    requires i < |ids|
    ensures AncestryVerified(ids[i]) in Universe(ids) && ReleasePrepared(ids[i]) in Universe(ids)
      && Released(ids[i]) in Universe(ids)
  {
    if i == 0 {
    } else {
      ResourceGatesKnown(ids[1..], i - 1);
      assert ids[1..][i - 1] == ids[i];
    }
  }

  lemma {:induction false} FixedGatesKnown(ids: seq<string>)
    ensures FIXED_GATES <= Universe(ids)
  {
    if ids == [] {
    } else {
      FixedGatesKnown(ids[1..]);
    }
  }

  lemma RecordedGateKnown(h: Handoff, j: nat)
    requires j < Size(h)
    ensures StepAt(h, j).Note? ==> StepAt(h, j).gate in Universe(h.ids)
    ensures StepAt(h, j).Destroy? ==> Prepared(StepAt(h, j).target) in Universe(h.ids)
  {
    FixedGatesKnown(h.ids);
    if 0 < j < ReleaseAt(h) {
      ResourceGatesKnown(h.ids, j - 1);
    } else if ReleaseAt(h) <= j < RefsAt(h) {
      ResourceGatesKnown(h.ids, (j - ReleaseAt(h)) / 2);
    }
  }

  /** An action of the first undone step keeps the refs and the title in order. */
  lemma RefsIntactNext(h: Handoff, d: Disk, j: nat)
    requires RefsIntact(h, d.world) && FirstUndone(h, d, j) && StepActions(h, d, StepAt(h, j)) != []
    ensures RefsIntact(h, Effect(h, d, StepActions(h, d, StepAt(h, j))[0]).world)
  {
    var s := StepAt(h, j);
    if s == Destroy(LocalRef) {
      assert StepAt(h, j - 1) == Destroy(Worktree);
      assert Done(h, d, StepAt(h, j - 1));
    } else if s == Rename {
      assert StepAt(h, RefsAt(h) + 1) == Destroy(RemoteRef) && Done(h, d, StepAt(h, RefsAt(h) + 1));
      assert StepAt(h, RefsAt(h) + 3) == Destroy(Worktree) && Done(h, d, StepAt(h, RefsAt(h) + 3));
      assert StepAt(h, RefsAt(h) + 4) == Destroy(LocalRef) && Done(h, d, StepAt(h, RefsAt(h) + 4));
    }
  }

  lemma ChainNext(h: Handoff, d: Disk, j: nat)
    requires Chain(d.records) && KnownGates(h, Latest(d.records)) && j < Size(h) && !Done(h, d, StepAt(h, j))
    ensures StepActions(h, d, StepAt(h, j)) != []
    ensures var next := Effect(h, d, StepActions(h, d, StepAt(h, j))[0]);
            Chain(next.records) && KnownGates(h, Latest(next.records))
  {
    StepUnfolds(h, d, StepAt(h, j));
    RecordedGateKnown(h, j);
    var a := StepActions(h, d, StepAt(h, j))[0];
    if a.Record? {
      ChainGrows(d.records, a.gate);
      assert Latest(Effect(h, d, a).records) == Latest(d.records) + [a.gate];
    }
  }

  lemma SoundNext(h: Handoff, d: Disk, j: nat)
    requires Sound(h, d) && FirstUndone(h, d, j)
    ensures StepActions(h, d, StepAt(h, j)) != []
    ensures Sound(h, Effect(h, d, StepActions(h, d, StepAt(h, j))[0]))
  {
    AlignedNext(h, d, j);
    ChainNext(h, d, j);
    RefsIntactNext(h, d, j);
  }

  /** The invariant gives every check what it demands: an undisturbed run is never refused. */
  lemma SoundPassesChecks(h: Handoff, d: Disk)
    requires Sound(h, d)
    ensures LocalState(h, d.world, Latest(d.records))
  {
    var gates := Latest(d.records);
    assert StepAt(h, RefsAt(h) + 2) == Note(RemoteAbsent) && StepAt(h, RefsAt(h) + 1) == Destroy(RemoteRef);
    assert StepAt(h, RefsAt(h) + 5) == Note(LocalAbsent) && StepAt(h, RefsAt(h) + 4) == Destroy(LocalRef);
    assert StepAt(h, RefsAt(h) + 6) == Note(WorktreeRemoved) && StepAt(h, RefsAt(h) + 3) == Destroy(Worktree);
    forall i | 0 <= i < |h.ids|
      ensures ResourcesReleased in gates || Released(h.ids[i]) in gates ==> Amount(d.world, Tree(h.ids[i])) == 0
      ensures Released(h.ids[i]) in gates ==> AncestryVerified(h.ids[i]) in gates
    {
      var n := ReleaseAt(h) + 2 * i;
      assert StepAt(h, n) == Destroy(Tree(h.ids[i])) && StepAt(h, n + 1) == Note(Released(h.ids[i]));
      assert StepAt(h, RefsAt(h)) == Note(ResourcesReleased) && StepAt(h, 1 + i) == Note(AncestryVerified(h.ids[i]));
      assert Done(h, d, StepAt(h, n + 1)) ==> Done(h, d, StepAt(h, n)) && Done(h, d, StepAt(h, 1 + i));
      assert Done(h, d, StepAt(h, RefsAt(h))) ==> Done(h, d, StepAt(h, n));
    }
  }

  // ---------------------------------------------------------------------
  // Runs

  function Script(h: Handoff, d: Disk): seq<Action> { Exec(h, d, Program(h)) }

  /** After any number of actions: the next one belongs to the first undone step. */
  lemma NextAction(h: Handoff, d: Disk, k: nat) returns (j: nat)
    requires k < |Script(h, d)|
    ensures var now := Perform(h, d, Script(h, d)[..k]);
            FirstUndone(h, now, j) && StepActions(h, now, StepAt(h, j)) != []
              && Script(h, d)[k] == StepActions(h, now, StepAt(h, j))[0]
  {
    var now := Perform(h, d, Script(h, d)[..k]);
    RunResumes(h, d, Program(h), k);
    assert Exec(h, now, Program(h)) == Script(h, d)[k..];
    j := FirstAction(h, now, Program(h));
    forall i | 0 <= i < j
      ensures Done(h, now, StepAt(h, i))
    {
      assert Program(h)[i] == StepAt(h, i);
    }
  }

  lemma {:induction false} SoundThroughout(h: Handoff, d: Disk, k: nat)
    requires Sound(h, d) && k <= |Script(h, d)|
    ensures Sound(h, Perform(h, d, Script(h, d)[..k]))
  {
    var script := Script(h, d);
    if k == 0 {
      assert script[..0] == [];
    } else {
      SoundThroughout(h, d, k - 1);
      var j := NextAction(h, d, k - 1);
      SoundNext(h, Perform(h, d, script[..k - 1]), j);
      PerformSnoc(h, d, script, k);
    }
  }

  lemma PerformSnoc(h: Handoff, d: Disk, script: seq<Action>, k: nat)
    requires 0 < k <= |script|
    ensures Perform(h, d, script[..k]) == Effect(h, Perform(h, d, script[..k - 1]), script[k - 1])
  {
    PerformSplit(h, d, script[..k], k - 1);
    assert script[..k][..k - 1] == script[..k - 1] && script[..k][k - 1..] == [script[k - 1]];
    assert Perform(h, Perform(h, d, script[..k - 1]), [script[k - 1]])
        == Perform(h, Effect(h, Perform(h, d, script[..k - 1]), script[k - 1]), []);
  }

  /** A complete run leaves every step done. */
  lemma {:induction false} ExecCompletes(h: Handoff, d: Disk, steps: seq<Step>, i: nat)
    requires i < |steps|
    ensures Done(h, Perform(h, d, Exec(h, d, steps)), steps[i])
    decreases |steps|
  {
    var a := StepActions(h, d, steps[0]);
    var rest := Exec(h, Perform(h, d, a), steps[1..]);
    PerformSplit(h, d, a + rest, |a|);
    assert (a + rest)[..|a|] == a && (a + rest)[|a|..] == rest;
    if i == 0 {
      StepCompletes(h, d, steps[0]);
      PerformKeepsDone(h, Perform(h, d, a), rest, steps[0]);
    } else {
      ExecCompletes(h, Perform(h, d, a), steps[1..], i - 1);
    }
  }

  lemma DoneAt(h: Handoff, d: Disk, i: nat, s: Step)
    requires i < Size(h) && StepAt(h, i) == s
    ensures Done(h, Perform(h, d, Script(h, d)), s)
  {
    ExecCompletes(h, d, Program(h), i);
    assert Program(h)[i] == StepAt(h, i);
  }

  /** A complete run has removed the resources, both refs and the worktree, and has set the title of a single
      cleanup. */
  lemma CompleteMeansGone(h: Handoff, d: Disk)
    ensures var w := Perform(h, d, Script(h, d)).world;
            && w.remote.None? && w.local.None? && !w.worktree
            && (forall i :: 0 <= i < |h.ids| && h.ids[i] in w.pieces ==> w.pieces[h.ids[i]] == 0)
            && (!h.batch && h.renames ==> w.title == h.expected)
  {
    var end := Perform(h, d, Script(h, d));
    DoneAt(h, d, RefsAt(h) + 1, Destroy(RemoteRef));
    DoneAt(h, d, RefsAt(h) + 3, Destroy(Worktree));
    DoneAt(h, d, RefsAt(h) + 4, Destroy(LocalRef));
    if !h.batch { DoneAt(h, d, LastAt(h), Rename); }
    forall i | 0 <= i < |h.ids|
      ensures Amount(end.world, Tree(h.ids[i])) == 0
    {
      DoneAt(h, d, ReleaseAt(h) + 2 * i, Destroy(Tree(h.ids[i])));
    }
  }

  /** And it has recorded all of that. */
  lemma CompleteMeansRecorded(h: Handoff, d: Disk)
    ensures var gates := Latest(Perform(h, d, Script(h, d)).records);
            && CleanupPrepared in gates && ResourcesReleased in gates && RemoteAbsent in gates && LocalAbsent in gates
            && WorktreeRemoved in gates
            && (forall i :: 0 <= i < |h.ids| ==> AncestryVerified(h.ids[i]) in gates && Released(h.ids[i]) in gates)
            && (if h.batch then MemberComplete in gates
                else TitleDone in gates && (if h.renames then TitleVerified else TitleUnavailable) in gates)
  {
    DoneAt(h, d, 0, Note(CleanupPrepared));
    DoneAt(h, d, RefsAt(h), Note(ResourcesReleased));
    DoneAt(h, d, RefsAt(h) + 2, Note(RemoteAbsent));
    DoneAt(h, d, RefsAt(h) + 5, Note(LocalAbsent));
    DoneAt(h, d, RefsAt(h) + 6, Note(WorktreeRemoved));
    forall i | 0 <= i < |h.ids|
      ensures var gates := Latest(Perform(h, d, Script(h, d)).records);
              AncestryVerified(h.ids[i]) in gates && Released(h.ids[i]) in gates
    {
      DoneAt(h, d, 1 + i, Note(AncestryVerified(h.ids[i])));
      DoneAt(h, d, ReleaseAt(h) + 2 * i + 1, Note(Released(h.ids[i])));
    }
    if h.batch {
      DoneAt(h, d, LastAt(h), Note(MemberComplete));
    } else {
      DoneAt(h, d, LastAt(h) + 1, Note(TitleGate(h)));
      DoneAt(h, d, LastAt(h) + 2, Note(TitleDone));
    }
  }

  /** A run removes nothing but the pieces of its resources, the refs and the worktree, and a member of a batch does not
      touch the title. */
  lemma {:induction false} PerformSpares(h: Handoff, d: Disk, actions: seq<Action>)
    requires forall a :: a in actions ==> Ours(h, a)
    ensures var w := Perform(h, d, actions).world;
            && (forall id :: id !in h.ids ==> Spared(d.world, w, id))
            && (h.batch ==> w.title == d.world.title)
    decreases |actions|
  {
    if actions == [] {
    } else {
      var next := Effect(h, d, actions[0]);
      assert actions[0] in actions;
      assert forall id :: id !in h.ids ==> Spared(d.world, next.world, id);
      PerformSpares(h, next, actions[1..]);
    }
  }

  predicate Spared(before: World, after: World, id: string) {
    (id in before.pieces <==> id in after.pieces) && (id in before.pieces ==> after.pieces[id] == before.pieces[id])
  }

  predicate Ours(h: Handoff, a: Action) {
    (a.Remove? && a.target.Tree? ==> a.target.id in h.ids) && (a.SetTitle? ==> !h.batch)
  }

  lemma StepIsOurs(h: Handoff, d: Disk, n: nat)
    requires n < Size(h)
    ensures forall a :: a in StepActions(h, d, StepAt(h, n)) ==> Ours(h, a)
  {
  }

  lemma {:induction false} ExecIsOurs(h: Handoff, d: Disk, j: nat)
    requires j <= Size(h)
    ensures forall a :: a in Exec(h, d, Program(h)[j..]) ==> Ours(h, a)
    decreases Size(h) - j
  {
    if j == Size(h) {
    } else {
      var steps := Program(h)[j..];
      assert steps[0] == StepAt(h, j) && steps[1..] == Program(h)[j + 1..];
      StepIsOurs(h, d, j);
      ExecIsOurs(h, Perform(h, d, StepActions(h, d, steps[0])), j + 1);
    }
  }

  lemma RunSparesOthers(h: Handoff, d: Disk, k: nat)
    requires k <= |Script(h, d)|
    ensures var w := Perform(h, d, Script(h, d)[..k]).world;
            && (forall id :: id !in h.ids ==> Spared(d.world, w, id))
            && (h.batch ==> w.title == d.world.title)
  {
    assert Program(h)[0..] == Program(h);
    ExecIsOurs(h, d, 0);
    assert forall a :: a in Script(h, d)[..k] ==> a in Script(h, d);
    PerformSpares(h, d, Script(h, d)[..k]);
  }

  /** Nothing recorded yet and the refs intact: every run of a handoff starts from a sound state. */
  lemma FreshIsSound(h: Handoff, w: World)
    requires UniqueIds(h) && RefsIntact(h, w)
    ensures Sound(h, Disk(w, []))
  {
  }

  /** Two states whose undisturbed runs end in the same state. */
  ghost predicate SameEnd(h: Handoff, a: Disk, b: Disk) {
    Perform(h, a, Script(h, a)) == Perform(h, b, Script(h, b))
  }

  /** Part of a run does not change where it ends. */
  lemma ScriptKeepsEnd(h: Handoff, d: Disk, script: seq<Action>)
    requires script <= Script(h, d)
    ensures SameEnd(h, d, Perform(h, d, script))
  {
    RunResumes(h, d, Program(h), |script|);
    PerformSplit(h, d, Script(h, d), |script|);
    assert Script(h, d)[..|script|] == script;
  }

  /** Killed any number of times, each time after some of its actions. */
  function AfterKills(h: Handoff, d: Disk, kills: seq<nat>): Disk
    decreases |kills|
  {
    if kills == [] then d
    else
      var script := Script(h, d);
      AfterKills(h, Perform(h, d, script[..if kills[0] <= |script| then kills[0] else |script|]), kills[1..])
  }

  /** Resumability over any number of kills: the last, undisturbed run passes every check and ends in the same world
      with the same journal as one undisturbed run would have. */
  lemma {:induction false} ResumedRunsAgree(h: Handoff, d: Disk, kills: seq<nat>)
    requires Sound(h, d)
    ensures var left := AfterKills(h, d, kills);
            Sound(h, left) && Perform(h, left, Script(h, left)) == Perform(h, d, Script(h, d))
    decreases |kills|
  {
    if kills != [] {
      var script := Script(h, d);
      var k := if kills[0] <= |script| then kills[0] else |script|;
      SoundThroughout(h, d, k);
      RunResumes(h, d, Program(h), k);
      PerformSplit(h, d, script, k);
      ResumedRunsAgree(h, Perform(h, d, script[..k]), kills[1..]);
    }
  }

  /** Write-ahead, and in order: a resource is removed when all ancestries and the releases before it are recorded, the
      remote ref when no resource is left and that is recorded, the worktree when moreover the remote ref is gone and
      that is recorded, the local ref when moreover the worktree is gone. The prepared gate is in the journal, and a ref
      still is the recorded head. */
  lemma WriteAhead(h: Handoff, d: Disk, k: nat, t: Target)
    requires Sound(h, d) && k < |Script(h, d)| && Script(h, d)[k] == Remove(t)
    ensures var now := Perform(h, d, Script(h, d)[..k]);
            var w, gates := now.world, Latest(now.records);
            match t
            case Tree(id) =>
              && id in h.ids && ReleasePrepared(id) in gates
              && (forall i :: 0 <= i < |h.ids| ==> AncestryVerified(h.ids[i]) in gates)
              && (forall i, j :: 0 <= i < j < |h.ids| && h.ids[j] == id ==> Released(h.ids[i]) in gates)
            case RemoteRef =>
              && RemotePrepared in gates && ResourcesReleased in gates && w.remote == Some(h.head)
              && (forall i :: 0 <= i < |h.ids| && h.ids[i] in w.pieces ==> w.pieces[h.ids[i]] == 0)
            case Worktree =>
              && WorktreePrepared in gates && ResourcesReleased in gates && RemoteAbsent in gates && w.remote.None?
            case LocalRef =>
              && LocalPrepared in gates && ResourcesReleased in gates && RemoteAbsent in gates
              && w.remote.None? && !w.worktree && w.local == Some(h.head)
  {
    SoundThroughout(h, d, k);
    var j := NextAction(h, d, k);
    var now := Perform(h, d, Script(h, d)[..k]);
    if t.Tree? { TreeOrder(h, now, j, t.id); } else { RefOrder(h, now, j, t); }
  }

  /** What is done when the program comes to a resource. */
  lemma TreeOrder(h: Handoff, now: Disk, j: nat, id: string)
    requires UniqueIds(h) && FirstUndone(h, now, j) && StepAt(h, j) == Destroy(Tree(id))
    ensures id in h.ids
    ensures forall i :: 0 <= i < |h.ids| ==> AncestryVerified(h.ids[i]) in Latest(now.records)
    ensures forall i, m :: 0 <= i < m < |h.ids| && h.ids[m] == id ==> Released(h.ids[i]) in Latest(now.records)
  {
    var at := (j - ReleaseAt(h)) / 2;
    assert h.ids[at] == id;
    forall i | 0 <= i < |h.ids|
      ensures AncestryVerified(h.ids[i]) in Latest(now.records)
    {
      assert StepAt(h, 1 + i) == Note(AncestryVerified(h.ids[i])) && Done(h, now, StepAt(h, 1 + i));
    }
    forall i | 0 <= i < at
      ensures Released(h.ids[i]) in Latest(now.records)
    {
      var n := ReleaseAt(h) + 2 * i + 1;
      assert StepAt(h, n) == Note(Released(h.ids[i])) && Done(h, now, StepAt(h, n));
    }
  }

  /** What is done when the program comes to the refs and the worktree. */
  lemma RefOrder(h: Handoff, now: Disk, j: nat, t: Target)
    requires FirstUndone(h, now, j) && StepAt(h, j) == Destroy(t) && !t.Tree?
    ensures ResourcesReleased in Latest(now.records)
    ensures forall i :: 0 <= i < |h.ids| && h.ids[i] in now.world.pieces ==> now.world.pieces[h.ids[i]] == 0
    ensures t != RemoteRef ==> RemoteAbsent in Latest(now.records) && now.world.remote.None?
    ensures t == LocalRef ==> !now.world.worktree
  {
    assert j > RefsAt(h) && Done(h, now, StepAt(h, RefsAt(h)));
    forall i | 0 <= i < |h.ids|
      ensures Amount(now.world, Tree(h.ids[i])) == 0
    {
      var n := ReleaseAt(h) + 2 * i;
      assert StepAt(h, n) == Destroy(Tree(h.ids[i])) && Done(h, now, StepAt(h, n));
    }
    if t != RemoteRef { assert Done(h, now, StepAt(h, RefsAt(h) + 1)) && Done(h, now, StepAt(h, RefsAt(h) + 2)); }
    if t == LocalRef { assert Done(h, now, StepAt(h, RefsAt(h) + 3)); }
  }

  // ---------------------------------------------------------------------
  // Being part way through a run

  /** Undisturbed so far: `script` has been done, the first j steps are finished, and the rest is still to do. */
  ghost predicate OnScript(h: Handoff, first: Disk, script: seq<Action>, d: Disk, j: nat) {
    && j <= Size(h) && Sound(h, d) && d == Perform(h, first, script)
    && Script(h, first) == script + Exec(h, d, Program(h)[j..])
    && forall i :: 0 <= i < j ==> Done(h, d, StepAt(h, i))
  }

  lemma OnScriptStart(h: Handoff, d: Disk)
    requires Sound(h, d)
    ensures OnScript(h, d, [], d, 0)
  {
    assert Program(h)[0..] == Program(h);
    assert [] + Script(h, d) == Script(h, d);
  }

  lemma OnScriptAct(h: Handoff, first: Disk, script: seq<Action>, d: Disk, j: nat)
    requires OnScript(h, first, script, d, j) && j < Size(h) && !Done(h, d, StepAt(h, j))
    ensures StepActions(h, d, StepAt(h, j)) != []
    ensures var a := StepActions(h, d, StepAt(h, j))[0]; OnScript(h, first, script + [a], Effect(h, d, a), j)
  {
    SoundNext(h, d, j);
    ScriptMoves(h, d, script, j);
    var a := StepActions(h, d, StepAt(h, j))[0];
    PerformAppend(h, first, script, a);
    EffectKeepsAllDone(h, d, a, j);
  }

  lemma EffectKeepsAllDone(h: Handoff, d: Disk, a: Action, j: nat)
    requires j <= Size(h) && forall i :: 0 <= i < j ==> Done(h, d, StepAt(h, i))
    ensures forall i :: 0 <= i < j ==> Done(h, Effect(h, d, a), StepAt(h, i))
  {
    forall i | 0 <= i < j
      ensures Done(h, Effect(h, d, a), StepAt(h, i))
    {
      EffectKeepsDone(h, d, a, StepAt(h, i));
    }
  }

  /** The first action still to do moves over to what has been done. */
  lemma ScriptMoves(h: Handoff, d: Disk, script: seq<Action>, j: nat)
    requires j < Size(h) && StepActions(h, d, StepAt(h, j)) != []
    ensures var a, steps := StepActions(h, d, StepAt(h, j))[0], Program(h)[j..];
            script + Exec(h, d, steps) == (script + [a]) + Exec(h, Effect(h, d, a), steps)
  {
    var steps := Program(h)[j..];
    assert steps[0] == StepAt(h, j);
    ExecHead(h, d, steps);
    Reassociate(script, StepActions(h, d, steps[0])[0], Exec(h, Effect(h, d, StepActions(h, d, steps[0])[0]), steps));
  }

  lemma Reassociate(script: seq<Action>, a: Action, rest: seq<Action>)
    ensures script + ([a] + rest) == (script + [a]) + rest
  {
  }

  lemma ExecHead(h: Handoff, d: Disk, steps: seq<Step>)
    requires steps != [] && StepActions(h, d, steps[0]) != []
    ensures var a := StepActions(h, d, steps[0])[0]; Exec(h, d, steps) == [a] + Exec(h, Effect(h, d, a), steps)
  {
    var script := Exec(h, d, steps);
    RunResumes(h, d, steps, 1);
    assert script[..1] == [script[0]] && script == [script[0]] + script[1..];
    assert Perform(h, d, [script[0]]) == Perform(h, Effect(h, d, script[0]), []);
  }

  lemma PerformAppend(h: Handoff, d: Disk, script: seq<Action>, a: Action)
    ensures Perform(h, d, script + [a]) == Effect(h, Perform(h, d, script), a)
  {
    PerformSnoc(h, d, script + [a], |script| + 1);
    assert (script + [a])[..|script| + 1] == script + [a] && (script + [a])[..|script|] == script;
  }

  lemma OnScriptSkip(h: Handoff, first: Disk, script: seq<Action>, d: Disk, j: nat)
    requires OnScript(h, first, script, d, j) && j < Size(h) && Done(h, d, StepAt(h, j))
    ensures OnScript(h, first, script, d, j + 1)
  {
    var steps := Program(h)[j..];
    assert steps[0] == StepAt(h, j) && steps[1..] == Program(h)[j + 1..];
    DoneDoesNothing(h, d, steps);
  }

  /** Steps that the journal proves done may be passed over. */
  lemma {:induction false} OnScriptJump(h: Handoff, first: Disk, script: seq<Action>, d: Disk, j: nat, k: nat)
    requires OnScript(h, first, script, d, j) && j <= k <= Size(h)
    requires forall i :: j <= i < k ==> Done(h, d, StepAt(h, i))
    ensures OnScript(h, first, script, d, k)
    decreases k - j
  {
    if j == k {
    } else {
      OnScriptSkip(h, first, script, d, j);
      OnScriptJump(h, first, script, d, j + 1, k);
    }
  }

  lemma OnScriptEnd(h: Handoff, first: Disk, script: seq<Action>, d: Disk)
    requires OnScript(h, first, script, d, Size(h))
    ensures script == Script(h, first) && d == Perform(h, first, Script(h, first))
  {
    assert Program(h)[Size(h)..] == [];
    assert script + [] == script;
  }
}
