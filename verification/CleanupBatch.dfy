/** Several cleanups of one task under one title. */
module CleanupBatch {
  import opened Wrappers
  import opened Journal
  import opened CleanupProgram
  import opened CleanupLaw
  import opened CleanupRun

  datatype BatchEnding = BatchComplete | BatchRefused | BatchKilled

  /** What every member must have recorded before the batch may be marked done. */
  const REQUIRED := {ResourcesReleased, RemoteAbsent, LocalAbsent, WorktreeRemoved}

  predicate HasRequired(gates: Gates) {
    forall g :: g in REQUIRED ==> g in gates
  }

  /** Nobody interferes with any member, and the controller approves. */
  predicate AllQuiet(members: seq<Machine>) {
    forall i :: 0 <= i < |members| ==> members[i].quiet
  }

  ghost predicate NonePending(members: seq<Machine>)
    reads (set m | m in members)`pending
  {
    forall i :: 0 <= i < |members| ==> !members[i].pending
  }

  ghost predicate Distinct(members: seq<Machine>) {
    forall i, j :: 0 <= i < j < |members| ==> members[i] != members[j]
  }

  ghost predicate AllJournaled(members: seq<Machine>)
    reads set m | m in members
  {
    forall i :: 0 <= i < |members| ==> members[i].Journaled()
  }

  ghost function Journals(members: seq<Machine>): (r: seq<seq<Gates>>)
    reads set m | m in members
    ensures |r| == |members| && forall i :: 0 <= i < |members| ==> r[i] == members[i].records
  {
    seq(|members|, i requires 0 <= i < |members| reads set m | m in members => members[i].records)
  }

  /** The batch is marked done, in the journal of its first member, only when this member has its resource, ref and
      worktree gates in its own journal. */
  ghost predicate Earns(anchor: seq<Gates>, own: seq<Gates>) {
    BatchTitleDone in Latest(anchor) ==> HasRequired(Latest(own))
  }

  ghost predicate Earned(journals: seq<seq<Gates>>) {
    forall i :: 0 <= i < |journals| ==> Earns(journals[0], journals[i])
  }

  /** A journal that only grows keeps its gates. */
  lemma GrownKeepsGates(before: seq<Gates>, after: seq<Gates>, g: Gate)
    requires Chain(after) && before <= after && g in Latest(before)
    ensures g in Latest(after)
  {
    ChainPrefixes(after, |before| - 1, |after| - 1);
    assert Latest(before) == after[|before| - 1];
  }

  /** A member that has gone through its program has the required gates. */
  lemma FinishedHasRequired(h: Handoff, gates: Gates)
    requires NotesBefore(h, Size(h), gates)
    ensures HasRequired(gates)
  {
    assert StepAt(h, RefsAt(h)) == Note(ResourcesReleased) && StepAt(h, RefsAt(h) + 2) == Note(RemoteAbsent);
    assert StepAt(h, RefsAt(h) + 5) == Note(LocalAbsent) && StepAt(h, RefsAt(h) + 6) == Note(WorktreeRemoved);
  }

  lemma EarnedAfterGrowth(before: seq<Gates>, after: seq<Gates>)
    requires Chain(after) && before <= after && HasRequired(Latest(before))
    ensures HasRequired(Latest(after))
  {
    forall g | g in REQUIRED
      ensures g in Latest(after)
    {
      GrownKeepsGates(before, after, g);
    }
  }

  /** One journal growing by its own gates keeps the mark earned. */
  lemma EarnedKept(before: seq<seq<Gates>>, after: seq<seq<Gates>>, i: nat)
    requires |before| == |after| && i < |before| && Earned(before) && Chain(after[i]) && OwnGrowth(before[i], after[i])
    requires forall k :: 0 <= k < |before| && k != i ==> after[k] == before[k]
    ensures Earned(after)
  {
    if HasRequired(Latest(before[i])) { EarnedAfterGrowth(before[i], after[i]); }
  }

  // ---------------------------------------------------------------------
  // The title of the batch

  /** The journal says that the final title has been read back. */
  predicate SettledBy(gates: Gates) {
    BatchTitleVerified in gates || (BatchTitleDone in gates && BatchTitleUnavailable !in gates)
  }

  /** A member's own gates do not settle the title. */
  lemma SettledKept(before: seq<Gates>, after: seq<Gates>)
    requires Chain(after) && OwnGrowth(before, after)
    ensures SettledBy(Latest(after)) ==> SettledBy(Latest(before))
  {
    if BatchTitleUnavailable in Latest(before) { GrownKeepsGates(before, after, BatchTitleUnavailable); }
  }

  /** Undisturbed members see the final title. */
  ghost predicate Titled(members: seq<Machine>)
    reads (set m | m in members)`world
  {
    forall k :: 0 <= k < |members| && members[k].quiet ==> members[k].world.title == members[k].h.expected
  }

  /** Once the journal of the first member says that the title was read back, undisturbed members see it. */
  ghost predicate TitleKept(members: seq<Machine>)
    reads (set m | m in members)`records, (set m | m in members)`world
  {
    members != [] && SettledBy(Latest(members[0].records)) ==> Titled(members)
  }

  ghost predicate MarkEarned(members: seq<Machine>)
    reads (set m | m in members)`records
  {
    forall i :: 0 <= i < |members| ==> Earns(members[0].records, members[i].records)
  }

  /** A mark that is earned, and a title that is kept. */
  ghost predicate Steady(members: seq<Machine>)
    reads (set m | m in members)`records, (set m | m in members)`world
  {
    && Distinct(members) && MarkEarned(members) && TitleKept(members)
    && forall i :: 0 <= i < |members| ==> members[i].h.batch
  }

  /** What every run of a batch finds and leaves. */
  ghost predicate BatchJournaled(members: seq<Machine>)
    reads set m | m in members
  {
    Steady(members) && AllJournaled(members)
  }

  function Without<T>(s: seq<T>, i: nat): (r: seq<T>)
    requires i < |s|
    ensures |r| == |s| - 1
  {
    s[..i] + s[i + 1..]
  }

  /** A member that runs, at its beginning or at its end. */
  ghost predicate At(m: Machine, finished: bool)
    reads m
  {
    m.Valid() && m.step == if finished then Size(m.h) else 0
  }

  ghost predicate AllAt(members: seq<Machine>, finished: seq<bool>)
    reads set m | m in members
  {
    |finished| == |members| && forall k :: 0 <= k < |members| ==> At(members[k], finished[k])
  }

  function Reaching(size: nat, n: nat): (r: seq<bool>)
    ensures |r| == size && forall k :: 0 <= k < size ==> r[k] == (k < n)
  {
    seq(size, k => k < n)
  }

  /** Of the members, those before `n` have gone through their programs and the others are about to start. */
  ghost predicate Reached(members: seq<Machine>, n: nat)
    reads set m | m in members
  {
    AllAt(members, Reaching(|members|, n))
  }

  // One member acts while the others stay as they are: it is taken out, and put back.

  lemma TakeOut(members: seq<Machine>, finished: seq<bool>, i: nat)
    requires Distinct(members) && AllAt(members, finished) && i < |members|
    ensures At(members[i], finished[i]) && AllAt(Without(members, i), Without(finished, i))
    ensures members[i] !in Without(members, i)
  {
    var others, marks := Without(members, i), Without(finished, i);
    forall k | 0 <= k < |others|
      ensures At(others[k], marks[k]) && others[k] != members[i]
    {
      var j := if k < i then k else k + 1;
      assert others[k] == members[j] && marks[k] == finished[j] && At(members[j], finished[j]);
    }
  }

  lemma PutBack(members: seq<Machine>, finished: seq<bool>, i: nat)
    requires |finished| == |members| && i < |members|
    requires At(members[i], finished[i]) && AllAt(Without(members, i), Without(finished, i))
    ensures AllAt(members, finished)
  {
    var others, marks := Without(members, i), Without(finished, i);
    forall j | 0 <= j < |members|
      ensures At(members[j], finished[j])
    {
      if j != i {
        var k := if j < i then j else j - 1;
        assert others[k] == members[j] && marks[k] == finished[j] && At(others[k], marks[k]);
      }
    }
  }

  /** A member that was killed is put back. */
  lemma PutBackJournaled(members: seq<Machine>, marks: seq<bool>, i: nat)
    requires i < |members| && members[i].Journaled() && AllAt(Without(members, i), marks)
    ensures AllJournaled(members)
  {
    var others := Without(members, i);
    forall j | 0 <= j < |members|
      ensures members[j].Journaled()
    {
      if j != i {
        var k := if j < i then j else j - 1;
        assert others[k] == members[j] && At(others[k], marks[k]);
      }
    }
  }

  lemma ReachingNext(size: nat, i: nat)
    requires i < size
    ensures Without(Reaching(size, i), i) == Without(Reaching(size, i + 1), i)
  {
  }

  /** A batch that runs. */
  ghost predicate Running(members: seq<Machine>, i: nat)
    reads set m | m in members
  {
    Steady(members) && Reached(members, i)
  }

  lemma RunningIsJournaled(members: seq<Machine>, i: nat)
    requires Running(members, i)
    ensures BatchJournaled(members)
  {
    assert forall k :: 0 <= k < |members| ==> At(members[k], k < i);
  }

  lemma AllRequired(members: seq<Machine>)
    requires Reached(members, |members|)
    ensures forall k :: 0 <= k < |members| ==> HasRequired(Latest(members[k].records)) && HasRequired(members[k].gates)
  {
    forall k | 0 <= k < |members|
      ensures HasRequired(Latest(members[k].records)) && HasRequired(members[k].gates)
    {
      assert At(members[k], true);
      FinishedHasRequired(members[k].h, members[k].gates);
    }
  }

  // ---------------------------------------------------------------------
  // Beginning

  ghost predicate Begins(m: Machine, h: Handoff, quiet: bool)
    reads m
  {
    && m.Journaled() && m.records == [] && !m.pending
    && m.h == h && m.h.batch && m.quiet == quiet
  }

  method NewMember(h: Handoff, quiet: bool, world: World) returns (m: Machine)
    requires UniqueIds(h) && |h.ids| <= 100 && h.batch && (quiet ==> RefsIntact(h, world))
    ensures fresh(m) && Begins(m, h, quiet)
  {
    m := new Machine(h, quiet, world);
  }

  /** The members of a batch that has not begun. */
  method NewBatch(handoffs: seq<Handoff>, worlds: seq<World>, quiet: bool) returns (members: seq<Machine>)
    requires |worlds| == |handoffs|
    requires forall i :: 0 <= i < |handoffs| ==> UniqueIds(handoffs[i]) && |handoffs[i].ids| <= 100 && handoffs[i].batch
    requires quiet ==> forall i :: 0 <= i < |handoffs| ==> RefsIntact(handoffs[i], worlds[i])
    ensures |members| == |handoffs| && BatchJournaled(members) && NonePending(members)
    ensures forall i :: 0 <= i < |members| ==> members[i].h == handoffs[i] && members[i].quiet == quiet
  {
    members := [];
    for n := 0 to |handoffs|
      invariant |members| == n && Distinct(members)
      invariant forall i :: 0 <= i < n ==> fresh(members[i]) && Begins(members[i], handoffs[i], quiet)
    {
      var m := NewMember(handoffs[n], quiet, worlds[n]);
      members := members + [m];
    }
    NewIsJournaled(members, handoffs, quiet);
  }

  lemma NewIsJournaled(members: seq<Machine>, handoffs: seq<Handoff>, quiet: bool)
    requires Distinct(members) && |members| == |handoffs|
    requires forall i :: 0 <= i < |members| ==> Begins(members[i], handoffs[i], quiet)
    ensures BatchJournaled(members) && NonePending(members)
    ensures forall i :: 0 <= i < |members| ==> members[i].h == handoffs[i] && members[i].quiet == quiet
  {
    if members != [] { assert Begins(members[0], handoffs[0], quiet); }
  }

  // ---------------------------------------------------------------------
  // Running the members

  /** A member runs; undisturbed, it leaves the title as it was. */
  method RunOne(m: Machine) returns (r: BatchEnding)
    requires m.Valid() && m.step == 0 && m.h.batch
    modifies m
    ensures m.Journaled() && OwnGrowth(old(m.records), m.records)
    ensures m.quiet ==> m.world.title == old(m.world.title) && !r.BatchRefused?
    ensures r.BatchComplete? ==> m.Valid() && m.step == Size(m.h)
  {
    if m.quiet { MemberKeepsTitle(m.h, m.first, m.script); }
    var ending := m.Reconcile();
    if m.quiet { MemberKeepsTitle(m.h, m.first, m.script); }
    r := if ending.Killed? then BatchKilled else if ending.Refused? then BatchRefused else BatchComplete;
  }

  /** One journal growing by its own gates neither makes an unearned mark nor settles the title. */
  lemma GrowthKeeps(before: seq<seq<Gates>>, after: seq<seq<Gates>>, i: nat)
    requires |before| == |after| && i < |before| && Earned(before) && Chain(after[i]) && OwnGrowth(before[i], after[i])
    requires forall k :: 0 <= k < |before| && k != i ==> after[k] == before[k]
    ensures Earned(after) && (SettledBy(Latest(after[0])) ==> SettledBy(Latest(before[0])))
  {
    EarnedKept(before, after, i);
    if i == 0 { SettledKept(before[0], after[0]); }
  }

  /** Member `i` runs, and no other is touched. */
  method RunMember(members: seq<Machine>, i: nat) returns (r: BatchEnding)
    requires Running(members, i) && i < |members| && CheckedTo(members, |members|)
    modifies members[i]
    ensures BatchJournaled(members)
    ensures (r.BatchComplete? ==> Running(members, i + 1)) && (members[i].quiet ==> !r.BatchRefused?)
  {
    ghost var others, marks := Without(members, i), Without(Reaching(|members|, i), i);
    TakeOut(members, Reaching(|members|, i), i);
    r := RunSteady(members, i);
    PutBackJournaled(members, marks, i);
    if r.BatchComplete? {
      ReachingNext(|members|, i);
      PutBack(members, Reaching(|members|, i + 1), i);
    }
  }

  method RunSteady(members: seq<Machine>, i: nat) returns (r: BatchEnding)
    requires Steady(members) && i < |members| && members[i].Valid() && members[i].step == 0
    modifies members[i]
    ensures Steady(members) && members[i].Journaled() && (members[i].quiet ==> !r.BatchRefused?)
    ensures r.BatchComplete? ==> members[i].Valid() && members[i].step == Size(members[i].h)
  {
    ghost var before, titled := Journals(members), Titled(members);
    r := RunOne(members[i]);
    assert forall k :: 0 <= k < |members| && k != i ==> members[k] != members[i];
    GrowthKeeps(before, Journals(members), i);
    assert titled ==> Titled(members);
  }

  /** The first `i` members have restored their gates. */
  ghost predicate Restored(members: seq<Machine>, i: nat)
    requires i <= |members|
    reads set m | m in members
  {
    AllAt(members[..i], Reaching(i, 0)) && AllJournaled(members[i..])
  }

  lemma RestoredStart(members: seq<Machine>)
    requires AllJournaled(members)
    ensures Restored(members, 0)
  {
    assert members[0..] == members;
  }

  lemma RestoredEnd(members: seq<Machine>)
    requires Restored(members, |members|)
    ensures Reached(members, 0)
  {
    assert members[..|members|] == members;
  }

  lemma RestoredNext(members: seq<Machine>, i: nat)
    requires i < |members| && AllAt(members[..i], Reaching(i, 0)) && At(members[i], false)
    requires AllJournaled(members[i + 1..])
    ensures Restored(members, i + 1)
  {
    var more := members[..i + 1];
    forall k | 0 <= k < i + 1
      ensures At(more[k], Reaching(i + 1, 0)[k])
    {
      if k < i { assert more[k] == members[..i][k] && At(members[..i][k], Reaching(i, 0)[k]); }
    }
  }

  lemma RestoredRest(members: seq<Machine>, i: nat)
    requires Distinct(members) && i < |members| && Restored(members, i)
    ensures members[i].Journaled() && AllJournaled(members[i + 1..])
    ensures members[i] !in members[..i] && members[i] !in members[i + 1..]
  {
    assert members[i..][0] == members[i];
    assert members[i + 1..] == members[i..][1..];
  }

  /** The files of a journal directory, in any order. */
  ghost predicate Listed(files: seq<Gates>, records: seq<Gates>) {
    |files| == |records| && forall x :: x in files <==> x in records
  }

  ghost predicate AllListed(files: seq<seq<Gates>>, members: seq<Machine>)
    reads (set m | m in members)`records
  {
    |files| == |members| && forall i :: 0 <= i < |members| ==> Listed(files[i], members[i].records)
  }

  ghost predicate NoneBefore(members: seq<Machine>, i: nat)
    requires i <= |members|
    reads (set m | m in members)`pending
  {
    forall k :: 0 <= k < i ==> !members[k].pending
  }

  /** Member `i` restores its gates from its journal files. */
  method RestoreMember(m: Machine, files: seq<Gates>, ghost members: seq<Machine>, ghost i: nat) returns (ok: bool)
    requires Distinct(members) && i < |members| && members[i] == m && Restored(members, i)
    requires Listed(files, m.records) && NoneBefore(members, i)
    modifies m`gates, m`first, m`script, m`step, m`seen, m`cleared
    ensures (ok <==> !m.pending) && if ok then Restored(members, i + 1) else AllJournaled(members)
    ensures ok ==> NoneBefore(members, i + 1)
  {
    RestoredRest(members, i);
    ok := m.Restart(files);
    if ok {
      RestoredNext(members, i);
    } else {
      KilledRestore(members, i);
    }
  }

  lemma KilledRestore(members: seq<Machine>, i: nat)
    requires i < |members| && AllAt(members[..i], Reaching(i, 0)) && members[i].Journaled()
    requires AllJournaled(members[i + 1..])
    ensures AllJournaled(members)
  {
    forall k | 0 <= k < |members|
      ensures members[k].Journaled()
    {
      if k < i {
        assert members[..i][k] == members[k] && At(members[..i][k], Reaching(i, 0)[k]);
      } else if k > i {
        assert members[i + 1..][k - i - 1] == members[k];
      }
    }
  }

  /** Every member restores its gates; a pending write of one of them refuses the batch. */
  method RestoreAll(members: seq<Machine>, files: seq<seq<Gates>>) returns (ok: bool)
    requires Distinct(members) && AllJournaled(members)
    requires AllListed(files, members)
    modifies (set m | m in members)`gates, (set m | m in members)`first
    modifies (set m | m in members)`script, (set m | m in members)`step
    modifies (set m | m in members)`seen, (set m | m in members)`cleared
    ensures if ok then Reached(members, 0) else AllJournaled(members)
    ensures ok <==> NonePending(members)
  {
    RestoredStart(members);
    for i := 0 to |members|
      invariant Restored(members, i) && NoneBefore(members, i)
    {
      ok := RestoreMember(members[i], files[i], members, i);
      if !ok { return; }
    }
    RestoredEnd(members);
    ok := true;
  }

  ghost predicate SettledTo(members: seq<Machine>, i: nat, final: bool)
    requires i <= |members|
    reads (set m | m in members)`settled
  {
    forall k :: 0 <= k < i ==> members[k].settled == final
  }

  method SettleMember(m: Machine, final: bool, ghost members: seq<Machine>, ghost i: nat, ghost n: nat)
    requires Running(members, n) && i < |members| && m == members[i] && (final ==> Titled(members))
    requires SettledTo(members, i, final)
    modifies m`settled
    ensures Running(members, n) && SettledTo(members, i + 1, final)
  {
    TakeOut(members, Reaching(|members|, n), i);
    SettleOne(m, final, members, i);
    PutBack(members, Reaching(|members|, n), i);
  }

  method SettleOne(m: Machine, final: bool, ghost members: seq<Machine>, ghost i: nat)
    requires Steady(members) && i < |members| && m == members[i] && (final ==> Titled(members)) && m.Valid()
    requires SettledTo(members, i, final)
    modifies m`settled
    ensures Steady(members) && m.Valid() && m.step == old(m.step) && SettledTo(members, i + 1, final)
  {
    assert forall k :: 0 <= k < i ==> members[k] != m;
    m.Settle(final);
  }

  /** Every member learns whether the final title has been read back. */
  method SettleAll(members: seq<Machine>, final: bool, ghost n: nat)
    requires Running(members, n) && (final ==> Titled(members))
    modifies (set m | m in members)`settled
    ensures Running(members, n) && SettledTo(members, |members|, final)
  {
    for i := 0 to |members|
      invariant Running(members, n) && (final ==> Titled(members)) && SettledTo(members, i, final)
    {
      SettleMember(members[i], final, members, i, n);
    }
  }

  /** The last check of the member is as recent as its journal. */
  ghost predicate Checked(m: Machine)
    reads m`cleared, m`gates
  {
    m.cleared.Some? && m.cleared.value.gates == m.gates
  }

  ghost predicate CheckedTo(members: seq<Machine>, i: nat)
    requires i <= |members|
    reads (set m | m in members)`cleared, (set m | m in members)`gates
  {
    forall k :: 0 <= k < i ==> Checked(members[k])
  }

  method CheckSteady(m: Machine, ghost members: seq<Machine>, ghost i: nat) returns (ok: bool)
    requires Steady(members) && i < |members| && m == members[i] && m.Valid() && CheckedTo(members, i)
    modifies m`world, m`cleared, m`log
    ensures Steady(members) && m.Valid() && m.step == old(m.step) && (m.quiet ==> ok && m.world == old(m.world))
    ensures ok ==> CheckedTo(members, i + 1) && (m.settled ==> m.world.title == m.h.expected)
  {
    ghost var titled := Titled(members);
    assert forall k :: 0 <= k < i ==> members[k] != m;
    ok := m.Eligible();
    assert titled ==> Titled(members);
  }

  method CheckMember(m: Machine, ghost members: seq<Machine>, ghost i: nat, ghost n: nat) returns (ok: bool)
    requires Running(members, n) && i < |members| && m == members[i] && CheckedTo(members, i)
    modifies m`world, m`cleared, m`log
    ensures Running(members, n) && (m.quiet ==> ok && m.world == old(m.world))
    ensures ok ==> CheckedTo(members, i + 1) && (m.settled ==> m.world.title == m.h.expected)
  {
    TakeOut(members, Reaching(|members|, n), i);
    ok := CheckSteady(m, members, i);
    PutBack(members, Reaching(|members|, n), i);
  }

  /** Every member is checked before any of them passes a transition. */
  method Preflight(members: seq<Machine>, ghost n: nat) returns (ok: bool)
    requires Running(members, n)
    modifies (set m | m in members)`world, (set m | m in members)`cleared, (set m | m in members)`log
    ensures Running(members, n) && (AllQuiet(members) ==> ok) && (ok ==> CheckedTo(members, |members|))
    ensures forall k :: 0 <= k < |members| && members[k].quiet ==> members[k].world == old(members[k].world)
  {
    for i := 0 to |members|
      invariant Running(members, n) && CheckedTo(members, i)
      invariant forall k :: 0 <= k < |members| && members[k].quiet ==> members[k].world == old(members[k].world)
    {
      ok := CheckMember(members[i], members, i, n);
      if !ok { return; }
    }
    ok := true;
  }

  /** The members run one after the other, each only after a check of all of them. */
  method RunMembers(members: seq<Machine>) returns (r: BatchEnding)
    requires Running(members, 0)
    modifies set m | m in members
    ensures BatchJournaled(members)
    ensures (r.BatchComplete? ==> Running(members, |members|)) && (AllQuiet(members) ==> !r.BatchRefused?)
  {
    for i := 0 to |members|
      invariant Running(members, i)
    {
      var ok := Preflight(members, i);
      RunningIsJournaled(members, i);
      if !ok { return BatchRefused; }
      r := RunMember(members, i);
      if !r.BatchComplete? { return; }
    }
    RunningIsJournaled(members, |members|);
    r := BatchComplete;
  }

  // ---------------------------------------------------------------------
  // Finishing

  method ShowTitle(m: Machine, ghost members: seq<Machine>, ghost i: nat)
    requires Running(members, |members|) && i < |members| && m == members[i]
    modifies m`world, m`first, m`script, m`origin
    ensures Running(members, |members|) && m.world.title == m.h.expected
  {
    TakeOut(members, Reaching(|members|, |members|), i);
    ShowSteady(m, members);
    PutBack(members, Reaching(|members|, |members|), i);
  }

  method ShowSteady(m: Machine, ghost members: seq<Machine>)
    requires Steady(members) && m in members && m.Valid() && m.step == Size(m.h)
    modifies m`world, m`first, m`script, m`origin
    ensures Steady(members) && m.Valid() && m.world.title == m.h.expected
  {
    ghost var titled := Titled(members);
    m.SeeTitle();
    assert titled ==> Titled(members);
  }

  /** The controller sets the final title, which every member sees. */
  method RenameAll(members: seq<Machine>)
    requires Running(members, |members|)
    modifies (set m | m in members)`world, (set m | m in members)`first
    modifies (set m | m in members)`script, (set m | m in members)`origin
    ensures Running(members, |members|) && Titled(members)
  {
    for i := 0 to |members|
      invariant Running(members, |members|)
      invariant forall k :: 0 <= k < i ==> members[k].world.title == members[k].h.expected
    {
      ShowTitle(members[i], members, i);
    }
  }

  /** Asks for the final title, unless it has been read back before, and reads it back. */
  method SetTitle(members: seq<Machine>) returns (r: BatchEnding)
    requires Running(members, |members|) && members != []
    modifies (set m | m in members)`world, (set m | m in members)`first
    modifies (set m | m in members)`script, (set m | m in members)`origin
    ensures Running(members, |members|) && (AllQuiet(members) ==> !r.BatchRefused?)
    ensures r.BatchComplete? ==> Titled(members) && members[0].world.title == members[0].h.expected
  {
    if BatchTitleVerified !in members[0].gates {
      RenameAll(members);
      var killed := *;
      if killed { return BatchKilled; }
    }
    r := ReadTitle(members[0], members);
  }

  /** Reads the title back. */
  method ReadTitle(m: Machine, ghost members: seq<Machine>) returns (r: BatchEnding)
    requires Running(members, |members|) && members != [] && m == members[0] && Titled(members)
    modifies m`world
    ensures Running(members, |members|) && Titled(members)
    ensures !r.BatchKilled? && (m.quiet ==> r.BatchComplete?) && (r.BatchComplete? ==> m.world.title == m.h.expected)
  {
    TakeOut(members, Reaching(|members|, |members|), 0);
    m.Interfere();
    PutBack(members, Reaching(|members|, |members|), 0);
    r := if m.world.title == m.h.expected then BatchComplete else BatchRefused;
  }

  /** Every member has the required gates; those that ran to their end do. */
  method CheckRequired(members: seq<Machine>) returns (ok: bool)
    requires Reached(members, |members|)
    ensures ok
  {
    AllRequired(members);
    ok := forall i :: 0 <= i < |members| ==> HasRequired(members[i].gates);
  }

  /** Records a gate of the batch in the journal of the first member. */
  method RecordGate(m: Machine, gate: Gate, ghost members: seq<Machine>) returns (alive: bool)
    requires Running(members, |members|) && members != [] && m == members[0] && CheckedTo(members, |members|)
    requires gate in BATCH_GATES && (gate == BatchTitleVerified ==> Titled(members))
    requires gate == BatchTitleDone ==> BatchTitleVerified in m.gates || BatchTitleUnavailable in m.gates
    modifies m`records, m`pending, m`gates, m`first, m`script, m`origin, m`cleared
    ensures BatchJournaled(members)
    ensures alive ==> Running(members, |members|) && old(m.gates) <= m.gates && gate in m.gates
  {
    AllRequired(members);
    alive := RecordEarned(m, gate, members);
  }

  method RecordEarned(m: Machine, gate: Gate, ghost members: seq<Machine>) returns (alive: bool)
    requires Running(members, |members|) && members != [] && m == members[0]
    requires gate in BATCH_GATES && (gate == BatchTitleVerified ==> Titled(members))
    requires gate == BatchTitleDone ==> BatchTitleVerified in m.gates || BatchTitleUnavailable in m.gates
    requires forall k :: 0 <= k < |members| ==> HasRequired(Latest(members[k].records))
    modifies m`records, m`pending, m`gates, m`first, m`script, m`origin, m`cleared
    ensures BatchJournaled(members)
    ensures alive ==> Running(members, |members|) && old(m.gates) <= m.gates && gate in m.gates
  {
    ghost var marks := Without(Reaching(|members|, |members|), 0);
    TakeOut(members, Reaching(|members|, |members|), 0);
    alive := RecordSteady(m, gate, members);
    PutBackJournaled(members, marks, 0);
    if alive { PutBack(members, Reaching(|members|, |members|), 0); }
  }

  method RecordSteady(m: Machine, gate: Gate, ghost members: seq<Machine>) returns (alive: bool)
    requires Steady(members) && members != [] && m == members[0] && m.Valid() && m.step == Size(m.h)
    requires forall k :: 0 <= k < |members| ==> HasRequired(Latest(members[k].records))
    requires gate in BATCH_GATES && (gate == BatchTitleVerified ==> Titled(members))
    requires gate == BatchTitleDone ==> BatchTitleVerified in m.gates || BatchTitleUnavailable in m.gates
    modifies m`records, m`pending, m`gates, m`first, m`script, m`origin, m`cleared
    ensures Steady(members) && m.Journaled()
    ensures alive ==> m.Valid() && old(m.gates) <= m.gates && gate in m.gates
  {
    ghost var before := Journals(members);
    alive := m.RecordBatchGate(gate);
    SteadyAfter(members, before, gate);
  }

  lemma SteadyAfter(members: seq<Machine>, before: seq<seq<Gates>>, gate: Gate)
    requires Distinct(members) && forall k :: 0 <= k < |members| ==> members[k].h.batch
    requires |before| == |members| > 0 && forall k :: 0 < k < |before| ==> members[k].records == before[k]
    requires members[0].records == before[0] || members[0].records == before[0] + [Latest(before[0]) + [gate]]
    requires forall k :: 0 <= k < |before| ==> HasRequired(Latest(before[k]))
    requires gate == BatchTitleDone ==>
      BatchTitleVerified in Latest(before[0]) || BatchTitleUnavailable in Latest(before[0])
    requires SettledBy(Latest(before[0])) || gate == BatchTitleVerified ==> Titled(members)
    ensures Steady(members)
  {
    MarkKept(before, Journals(members), gate);
  }

  /** With the required gates in every journal, a gate of the batch keeps the mark earned. */
  lemma MarkKept(before: seq<seq<Gates>>, after: seq<seq<Gates>>, gate: Gate)
    requires |before| == |after| > 0 && forall k :: 0 < k < |before| ==> after[k] == before[k]
    requires after[0] == before[0] || after[0] == before[0] + [Latest(before[0]) + [gate]]
    requires forall k :: 0 <= k < |before| ==> HasRequired(Latest(before[k]))
    requires gate == BatchTitleDone ==>
      BatchTitleVerified in Latest(before[0]) || BatchTitleUnavailable in Latest(before[0])
    ensures forall k :: 0 <= k < |before| ==> HasRequired(Latest(after[k]))
    ensures SettledBy(Latest(after[0])) ==> SettledBy(Latest(before[0])) || gate == BatchTitleVerified
  {
    assert after[0] != before[0] ==> Latest(after[0]) == Latest(before[0]) + [gate];
    SettledByGate(before[0], after[0], gate);
  }

  /** A gate of the batch settles the title only if it says that the title was read back. */
  lemma SettledByGate(before: seq<Gates>, after: seq<Gates>, gate: Gate)
    requires after == before || after == before + [Latest(before) + [gate]]
    requires gate == BatchTitleDone ==> BatchTitleVerified in Latest(before) || BatchTitleUnavailable in Latest(before)
    ensures SettledBy(Latest(after)) ==> SettledBy(Latest(before)) || gate == BatchTitleVerified
  {
    if after != before { assert Latest(after) == Latest(before) + [gate]; }
  }

  /** Marks the batch done after its title. The check of the required gates refuses no member that ran to its end. */
  method FinishBatch(members: seq<Machine>, renames: bool) returns (r: BatchEnding)
    requires Running(members, |members|) && members != []
    modifies set m | m in members
    ensures BatchJournaled(members) && (AllQuiet(members) ==> !r.BatchRefused?)
    ensures r.BatchComplete? ==> BatchTitleDone in Latest(members[0].records)
    ensures r.BatchComplete? && renames ==> BatchTitleVerified in Latest(members[0].records) && Titled(members)
  {
    var ok := Preflight(members, |members|);
    RunningIsJournaled(members, |members|);
    if !ok { return BatchRefused; }
    ok := CheckRequired(members);
    assert ok;
    r := SettleTitle(members, renames);
    if r.BatchComplete? { r := MarkDone(members); }
  }

  /** Sets and reads back the title, or records that it cannot be set. */
  method SettleTitle(members: seq<Machine>, renames: bool) returns (r: BatchEnding)
    requires Running(members, |members|) && members != [] && CheckedTo(members, |members|)
    modifies set m | m in members
    ensures BatchJournaled(members) && (AllQuiet(members) ==> !r.BatchRefused?)
    ensures r.BatchComplete? ==> Running(members, |members|)
    ensures r.BatchComplete? ==> (if renames then BatchTitleVerified else BatchTitleUnavailable) in members[0].gates
  {
    if renames {
      r := SetTitle(members);
      RunningIsJournaled(members, |members|);
      if !r.BatchComplete? { return; }
    }
    var alive := RecordGate(members[0], if renames then BatchTitleVerified else BatchTitleUnavailable, members);
    r := if alive then BatchComplete else BatchKilled;
  }

  /** A last check of every member, and the mark. */
  method MarkDone(members: seq<Machine>) returns (r: BatchEnding)
    requires Running(members, |members|) && members != []
    requires BatchTitleVerified in members[0].gates || BatchTitleUnavailable in members[0].gates
    modifies set m | m in members
    ensures BatchJournaled(members) && (AllQuiet(members) ==> !r.BatchRefused?)
    ensures r.BatchComplete? ==> BatchTitleDone in Latest(members[0].records)
    ensures r.BatchComplete? && BatchTitleVerified in old(members[0].gates) ==>
      BatchTitleVerified in Latest(members[0].records) && Titled(members)
  {
    SettleAll(members, SettledBy(members[0].gates), |members|);
    var ok := Preflight(members, |members|);
    RunningIsJournaled(members, |members|);
    if !ok { return BatchRefused; }
    var alive := RecordGate(members[0], BatchTitleDone, members);
    r := if alive then BatchComplete else BatchKilled;
  }

  /** Every member restores its gates and learns whether the final title has been read back. */
  method BeginBatch(members: seq<Machine>, files: seq<seq<Gates>>) returns (ok: bool)
    requires BatchJournaled(members) && members != []
    requires AllListed(files, members)
    modifies (set m | m in members)`gates, (set m | m in members)`first, (set m | m in members)`settled
    modifies (set m | m in members)`script, (set m | m in members)`step
    modifies (set m | m in members)`seen, (set m | m in members)`cleared
    ensures if ok then Running(members, 0) else BatchJournaled(members)
    ensures ok <==> NonePending(members)
  {
    ok := RestoreSteady(members, files);
    if ok { SettleRestored(members); }
  }

  method RestoreSteady(members: seq<Machine>, files: seq<seq<Gates>>) returns (ok: bool)
    requires BatchJournaled(members) && members != []
    requires AllListed(files, members)
    modifies (set m | m in members)`gates, (set m | m in members)`first
    modifies (set m | m in members)`script, (set m | m in members)`step
    modifies (set m | m in members)`seen, (set m | m in members)`cleared
    ensures if ok then Running(members, 0) else BatchJournaled(members)
    ensures ok <==> NonePending(members)
  {
    ok := RestoreAll(members, files);
    assert MarkEarned(members);
    assert TitleKept(members);
    assert Steady(members);
  }

  method SettleRestored(members: seq<Machine>)
    requires Running(members, 0) && members != []
    modifies (set m | m in members)`settled
    ensures Running(members, 0)
  {
    AnchorGates(members);
    SettleAll(members, SettledBy(members[0].gates), 0);
  }

  /** The gates of the first member are those of its journal. */
  lemma AnchorGates(members: seq<Machine>)
    requires members != [] && Reached(members, 0)
    ensures members[0].gates == Latest(members[0].records)
  {
    assert At(members[0], false);
  }

  /** A batch that is marked done has, in the journal of every member, its resources released, both refs absent and its
      worktree removed, and undisturbed members show the final title once the marks say that it was read back. */
  lemma MarkMeans(members: seq<Machine>)
    requires members != [] && BatchJournaled(members)
    ensures forall m :: m in members && BatchTitleDone in Latest(members[0].records) ==>
      && ResourcesReleased in Latest(m.records) && RemoteAbsent in Latest(m.records)
      && LocalAbsent in Latest(m.records) && WorktreeRemoved in Latest(m.records)
    ensures var marks := Latest(members[0].records);
      BatchTitleVerified in marks || (BatchTitleDone in marks && BatchTitleUnavailable !in marks) ==> Titled(members)
  {
    forall m | m in members && BatchTitleDone in Latest(members[0].records)
      ensures ResourcesReleased in Latest(m.records) && RemoteAbsent in Latest(m.records)
      ensures LocalAbsent in Latest(m.records) && WorktreeRemoved in Latest(m.records)
    {
      var i :| 0 <= i < |members| && members[i] == m;
      assert Earns(members[0].records, members[i].records);
    }
  }

  /** Runs every member, then sets the aggregate title and marks the batch done. However it ends, and whatever ran or
      was killed before, the mark is in the journal only if every member has its required gates. */
  method RunBatch(members: seq<Machine>, files: seq<seq<Gates>>, renames: bool) returns (r: BatchEnding)
    requires BatchJournaled(members) && members != []
    requires AllListed(files, members)
    modifies set m | m in members
    ensures BatchJournaled(members)
    ensures forall m :: m in members && BatchTitleDone in Latest(members[0].records) ==>
      && ResourcesReleased in Latest(m.records) && RemoteAbsent in Latest(m.records)
      && LocalAbsent in Latest(m.records) && WorktreeRemoved in Latest(m.records)
    ensures var marks := Latest(members[0].records);
      BatchTitleVerified in marks || (BatchTitleDone in marks && BatchTitleUnavailable !in marks) ==> Titled(members)
    ensures r.BatchComplete? ==> BatchTitleDone in Latest(members[0].records)
    ensures r.BatchComplete? && renames ==> BatchTitleVerified in Latest(members[0].records) && Titled(members)
    ensures AllQuiet(members) && old(NonePending(members)) ==> !r.BatchRefused?
  {
    var ok := BeginBatch(members, files);
    if !ok {
      r := BatchRefused;
    } else {
      r := RunMembers(members);
      if r.BatchComplete? { r := FinishBatch(members, renames); }
    }
    MarkMeans(members);
  }
}
