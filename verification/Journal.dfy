/** The cleanup journal: one file a gate, each holding the whole list of gates up to it. */
module Journal {
  import opened Wrappers

  datatype Gate =
    | CleanupPrepared
    | AncestryVerified(id: string)
    | ReleasePrepared(id: string)
    | Released(id: string)
    | ResourcesReleased
    | RemotePrepared
    | RemoteAbsent
    | WorktreePrepared
    | LocalPrepared
    | LocalAbsent
    | WorktreeRemoved
    | TitleUnavailable
    | TitleVerified
    | TitleDone
    | MemberComplete
    | BatchTitleUnavailable
    | BatchTitleVerified
    | BatchTitleDone

  type Gates = seq<Gate>

  const MAX_RECORDS := 1000

  datatype Refusal = PendingWrite | OversizedJournal | ConflictingHistories

  predicate Distinct(gates: Gates) {
    forall i, j :: 0 <= i < j < |gates| ==> gates[i] != gates[j]
  }

  /** Published records, oldest first: every record extends the one before it by one new gate. */
  predicate Chain(records: seq<Gates>) {
    forall i :: 0 <= i < |records| ==>
      |records[i]| == i + 1 && Distinct(records[i]) && (i > 0 ==> records[i][..i] == records[i - 1])
  }

  function Latest(records: seq<Gates>): Gates {
    if records == [] then [] else records[|records| - 1]
  }

  lemma ChainLength(records: seq<Gates>)
    requires Chain(records)
    ensures |Latest(records)| == |records| && Distinct(Latest(records))
  {
  }

  /** Recording a new gate keeps the chain. */
  lemma ChainGrows(records: seq<Gates>, gate: Gate)
    requires Chain(records) && gate !in Latest(records)
    ensures Chain(records + [Latest(records) + [gate]])
  {
  }

  /** Older records are prefixes of newer ones. */
  lemma {:induction false} ChainPrefixes(records: seq<Gates>, i: nat, j: nat)
    requires Chain(records) && i <= j < |records|
    ensures records[i] <= records[j]
    decreases j - i
  {
    if i == j {
    } else {
      ChainPrefixes(records, i, j - 1);
    }
  }

  // ---------------------------------------------------------------------
  // Recovery

  predicate SortedByLength(files: seq<Gates>) {
    forall i, j :: 0 <= i < j < |files| ==> |files[i]| <= |files[j]|
  }

  function InsertByLength(files: seq<Gates>, x: Gates): (r: seq<Gates>)
    requires SortedByLength(files)
    ensures SortedByLength(r) && forall y :: y in r <==> y in files || y == x
  {
    if files == [] then [x]
    else if |x| < |files[0]| then
      assert forall y :: y in [x] + files <==> y in files || y == x;
      [x] + files
    else
      var rest := InsertByLength(files[1..], x);
      assert files == [files[0]] + files[1..];
      assert forall y :: y in files[1..] ==> |files[0]| <= |y|;
      assert forall y :: y in rest ==> |files[0]| <= |y|;
      [files[0]] + rest
  }

  method SortByLength(files: seq<Gates>) returns (r: seq<Gates>)
    ensures SortedByLength(r) && forall y :: y in r <==> y in files
  {
    r := [];
    for i := 0 to |files|
      invariant SortedByLength(r) && forall y :: y in r <==> y in files[..i]
    {
      assert files[..i + 1] == files[..i] + [files[i]];
      r := InsertByLength(r, files[i]);
    }
    assert files[..|files|] == files;
  }

  /** Of any two histories one continues the other. */
  ghost predicate Comparable(files: seq<Gates>) {
    forall x, y :: x in files && y in files ==> x <= y || y <= x
  }

  /** `gates` is the longest history, of which all others are prefixes. */
  ghost predicate Longest(files: seq<Gates>, gates: Gates) {
    && (forall x :: x in files ==> x <= gates)
    && (files == [] ==> gates == [])
    && (files != [] ==> gates in files)
  }

  /** Restores the gates from the files of the journal directory, listed in any order. It refuses exactly when a write
      is pending, there are too many files, or two histories conflict; otherwise it yields the longest history. */
  method RestoreGates(files: seq<Gates>, pending: bool) returns (r: Result<Gates, Refusal>)
    ensures r.Success? <==> !pending && |files| <= MAX_RECORDS && Comparable(files)
    ensures r.Success? ==> Longest(files, r.value)
    ensures r == Failure(PendingWrite) <==> pending
    ensures r == Failure(OversizedJournal) <==> !pending && |files| > 1000
  {
    if pending { return Failure(PendingWrite); }
    if |files| > MAX_RECORDS { return Failure(OversizedJournal); }
    var histories := SortByLength(files);
    var gates: Gates := [];
    for i := 0 to |histories|
      invariant i > 0 ==> gates == histories[i - 1]
      invariant i == 0 ==> gates == []
      invariant forall k :: 0 <= k < i ==> histories[k] <= gates
    {
      var record := histories[i];
      if !(gates <= record) {
        assert histories[i - 1] in files && record in files;
        assert |gates| <= |record|;
        return Failure(ConflictingHistories);
      }
      gates := record;
    }
    LongestIsComparable(histories, gates);
    SameMembers(files, histories, gates);
    r := Success(gates);
  }

  lemma LongestIsComparable(files: seq<Gates>, gates: Gates)
    requires forall k :: 0 <= k < |files| ==> files[k] <= gates
    ensures Comparable(files)
  {
    forall x, y | x in files && y in files
      ensures x <= y || y <= x
    {
      assert x <= gates && y <= gates;
    }
  }

  lemma SameMembers(files: seq<Gates>, histories: seq<Gates>, gates: Gates)
    requires forall y :: y in histories <==> y in files
    requires Comparable(histories) && forall k :: 0 <= k < |histories| ==> histories[k] <= gates
    requires histories == [] ==> gates == []
    requires histories != [] ==> gates == histories[|histories| - 1]
    ensures Comparable(files) && Longest(files, gates)
  {
    if files != [] { assert files[0] in files; }
    if histories != [] { assert histories[|histories| - 1] in histories; }
  }

  /** What a chain of records leaves in the directory is restored as its last record. */
  lemma ChainRestores(records: seq<Gates>, files: seq<Gates>, gates: Gates)
    requires Chain(records) && (forall x :: x in files <==> x in records)
    ensures Comparable(files)
    ensures Longest(files, gates) ==> gates == Latest(records)
  {
    forall x, y | x in files && y in files
      ensures x <= y || y <= x
    {
      var i :| 0 <= i < |records| && records[i] == x;
      var j :| 0 <= j < |records| && records[j] == y;
      if i <= j { ChainPrefixes(records, i, j); } else { ChainPrefixes(records, j, i); }
    }
    if records != [] {
      assert Latest(records) in files;
      if Longest(files, gates) {
        var j :| 0 <= j < |records| && records[j] == gates;
        ChainPrefixes(records, j, |records| - 1);
      }
    } else {
      assert files == [] || files[0] in files;
    }
  }

  // ---------------------------------------------------------------------
  // The number of records

  lemma {:induction false} DistinctFits(gates: Gates, universe: set<Gate>)
    requires Distinct(gates) && forall g :: g in gates ==> g in universe
    ensures |gates| <= |universe|
    decreases |gates|
  {
    if gates == [] {
    } else {
      var last := gates[|gates| - 1];
      var rest := gates[..|gates| - 1];
      assert forall g :: g in rest ==> g in gates && g != last;
      DistinctFits(rest, universe - {last});
    }
  }

  const FIXED_GATES :=
    {CleanupPrepared, ResourcesReleased, RemotePrepared, RemoteAbsent, WorktreePrepared, LocalPrepared,
     LocalAbsent, WorktreeRemoved, TitleUnavailable, TitleVerified, TitleDone, MemberComplete,
     BatchTitleUnavailable, BatchTitleVerified, BatchTitleDone}

  /** Every gate that a cleanup of the given resources can record. */
  function Universe(ids: seq<string>): set<Gate> {
    if ids == [] then FIXED_GATES
    else Universe(ids[1..]) + {AncestryVerified(ids[0]), ReleasePrepared(ids[0]), Released(ids[0])}
  }

  lemma {:induction false} UniverseSize(ids: seq<string>)
    ensures |Universe(ids)| <= 15 + 3 * |ids|
  {
    if ids == [] {
    } else {
      UniverseSize(ids[1..]);
    }
  }

  /** A handoff has at most 100 resources, so its journal never grows to the size that recovery refuses. */
  lemma JournalStaysRecoverable(records: seq<Gates>, ids: seq<string>)
    requires Chain(records) && |ids| <= 100 && forall g :: g in Latest(records) ==> g in Universe(ids)
    ensures |records| <= 315 < MAX_RECORDS
  {
    ChainLength(records);
    DistinctFits(Latest(records), Universe(ids));
    UniverseSize(ids);
  }
}
