/** The removal scopes of a batch: no scope of one member may reach another scope, the state that the batch keeps, or
    the worktree of a peer. */
module BatchScopes {
  import opened Wrappers
  import opened Scopes

  datatype Batch = Batch(handoff: Path, evidence: Path, members: seq<Job>)

  type Reports = seq<seq<Option<seq<Path>>>>

  /** Scope number `scope` of resource number `resource` of member number `member`. */
  datatype Place = Place(member: nat, resource: nat, scope: nat)

  predicate AdmissibleBatch(batch: Batch, reports: Reports) {
    && batch.members != [] && |reports| == |batch.members|
    && forall m :: 0 <= m < |batch.members| ==>
        Admissible(batch.members[m]) && |reports[m]| == |batch.members[m].resources|
  }

  /** What resource `k` of member `m` reports. */
  function ScopesOf(batch: Batch, reports: Reports, m: nat, k: nat): Option<seq<Path>>
    requires AdmissibleBatch(batch, reports) && m < |batch.members| && k < |batch.members[m].resources|
  {
    Reported(batch.members[m].resources[k], reports[m][k])
  }

  predicate Exists(batch: Batch, reports: Reports, l: Place)
    requires AdmissibleBatch(batch, reports)
  {
    && l.member < |batch.members| && l.resource < |batch.members[l.member].resources|
    && ScopesOf(batch, reports, l.member, l.resource).Some?
    && l.scope < |ScopesOf(batch, reports, l.member, l.resource).value|
  }

  function At(batch: Batch, reports: Reports, l: Place): Path
    requires AdmissibleBatch(batch, reports) && Exists(batch, reports, l)
  {
    ScopesOf(batch, reports, l.member, l.resource).value[l.scope]
  }

  /** Paths that must survive every removal of the batch. */
  predicate Kept(batch: Batch, p: Path)
    requires batch.members != []
  {
    || p in [batch.handoff, batch.evidence, batch.members[0].repo, batch.members[0].config]
    || (exists m ::
        0 <= m < |batch.members| && p in [batch.members[m].target, batch.members[m].handoff, batch.members[m].evidence])
    || (exists m :: 0 <= m < |batch.members| && IsManifest(batch.members[m], p))
  }

  predicate IsManifest(job: Job, p: Path) {
    exists k :: 0 <= k < |job.resources| && p == job.resources[k].manifest
  }

  /** A scope of member `m` leads to nothing that is kept, and does not lie in the worktree of a peer. */
  ghost predicate Harmless(batch: Batch, m: nat, s: Path)
    requires batch.members != []
  {
    && (forall p :: Kept(batch, p) ==> !(s <= p))
    && forall peer :: 0 <= peer < |batch.members| && peer != m ==> !(batch.members[peer].target <= s)
  }

  ghost predicate AllAcceptable(batch: Batch, host: Host, reports: Reports, n: nat)
    requires AdmissibleBatch(batch, reports) && n <= |batch.members|
  {
    forall m :: 0 <= m < n ==> Acceptable(batch.members[m], host, reports[m])
  }

  /** Every inventory is separated, every scope is harmless, and no two scopes of the batch are comparable. */
  ghost predicate Disjoint(batch: Batch, host: Host, reports: Reports)
    requires AdmissibleBatch(batch, reports)
  {
    && AllAcceptable(batch, host, reports, |batch.members|)
    && (forall l :: Exists(batch, reports, l) ==> Harmless(batch, l.member, At(batch, reports, l)))
    && forall a, b :: Exists(batch, reports, a) && Exists(batch, reports, b) && a != b ==>
         !Comparable(At(batch, reports, a), At(batch, reports, b))
  }

  // Inspection

  predicate Before(l: Place, m: nat, k: nat, s: nat) {
    l.member < m || (l.member == m && (l.resource < k || (l.resource == k && l.scope < s)))
  }

  /** Everything before a place has been checked, and `prior` holds its scopes, at the places `seen`. */
  ghost predicate Checked(batch: Batch, reports: Reports, prior: seq<Path>, seen: seq<Place>, m: nat, k: nat, s: nat)
    requires AdmissibleBatch(batch, reports)
  {
    && |prior| == |seen|
    && (forall x :: 0 <= x < |seen| ==>
         Exists(batch, reports, seen[x]) && Before(seen[x], m, k, s) && prior[x] == At(batch, reports, seen[x]))
    && (forall l :: Exists(batch, reports, l) && Before(l, m, k, s) ==>
        l in seen && Harmless(batch, l.member, At(batch, reports, l)))
    && forall a, b ::
        Exists(batch, reports, a) && Exists(batch, reports, b) && a != b && Before(a, m, k, s) && Before(b, m, k, s) ==>
         !Comparable(At(batch, reports, a), At(batch, reports, b))
  }

  method KeptPaths(batch: Batch) returns (kept: seq<Path>)
    requires batch.members != []
    ensures forall p :: p in kept <==> Kept(batch, p)
  {
    kept := [batch.handoff, batch.evidence, batch.members[0].repo, batch.members[0].config];
    for m := 0 to |batch.members|
      invariant forall p :: p in kept <==>
        || p in [batch.handoff, batch.evidence, batch.members[0].repo, batch.members[0].config]
        || (exists x ::
            0 <= x < m && p in [batch.members[x].target, batch.members[x].handoff, batch.members[x].evidence])
        || (exists x :: 0 <= x < m && IsManifest(batch.members[x], p))
    {
      var manifests := ManifestPaths(batch.members[m]);
      kept := kept + [batch.members[m].target, batch.members[m].handoff, batch.members[m].evidence] + manifests;
    }
  }

  method ManifestPaths(job: Job) returns (manifests: seq<Path>)
    ensures forall p :: p in manifests <==> IsManifest(job, p)
  {
    manifests := [];
    for k := 0 to |job.resources|
      invariant forall p :: p in manifests <==> exists x :: 0 <= x < k && p == job.resources[x].manifest
    {
      manifests := manifests + [job.resources[k].manifest];
    }
  }

  /** Checks one scope against everything that is kept, the worktrees of the peers and all earlier scopes. */
  method CheckScope(batch: Batch, kept: seq<Path>, m: nat, scope: Path, prior: seq<Path>) returns (ok: bool)
    requires batch.members != [] && forall p :: p in kept <==> Kept(batch, p)
    ensures ok <==> Harmless(batch, m, scope) && forall x :: 0 <= x < |prior| ==> !Comparable(scope, prior[x])
  {
    ok := !(exists x :: 0 <= x < |kept| && scope <= kept[x])
      && !(exists peer :: 0 <= peer < |batch.members| && peer != m && batch.members[peer].target <= scope)
      && !(exists x :: 0 <= x < |prior| && Comparable(scope, prior[x]));
    if x :| 0 <= x < |kept| && scope <= kept[x] { assert Kept(batch, kept[x]); }
  }

  lemma CheckedNext(batch: Batch, reports: Reports, prior: seq<Path>, seen: seq<Place>, l: Place)
    requires AdmissibleBatch(batch, reports) && Exists(batch, reports, l)
    requires Checked(batch, reports, prior, seen, l.member, l.resource, l.scope)
    requires Harmless(batch, l.member, At(batch, reports, l))
    requires forall x :: 0 <= x < |prior| ==> !Comparable(At(batch, reports, l), prior[x])
    ensures Checked(batch, reports, prior + [At(batch, reports, l)], seen + [l], l.member, l.resource, l.scope + 1)
  {
    var next, places := prior + [At(batch, reports, l)], seen + [l];
    forall q | Exists(batch, reports, q) && Before(q, l.member, l.resource, l.scope + 1)
      ensures q in places && Harmless(batch, q.member, At(batch, reports, q))
      ensures q != l ==> !Comparable(At(batch, reports, l), At(batch, reports, q))
    {
      if q != l {
        assert Before(q, l.member, l.resource, l.scope);
        var x :| 0 <= x < |seen| && seen[x] == q;
        assert prior[x] == At(batch, reports, q);
      }
    }
    forall a, b | Exists(batch, reports, a) && Exists(batch, reports, b) && a != b
                  && Before(a, l.member, l.resource, l.scope + 1) && Before(b, l.member, l.resource, l.scope + 1)
      ensures !Comparable(At(batch, reports, a), At(batch, reports, b))
    {
      if a != l && b != l {
        assert Before(a, l.member, l.resource, l.scope) && Before(b, l.member, l.resource, l.scope);
      }
    }
  }

  lemma CheckFails(batch: Batch, host: Host, reports: Reports, prior: seq<Path>, seen: seq<Place>, l: Place)
    requires AdmissibleBatch(batch, reports) && Exists(batch, reports, l)
    requires Checked(batch, reports, prior, seen, l.member, l.resource, l.scope)
    requires Harmless(batch, l.member, At(batch, reports, l)) ==>
      exists x :: 0 <= x < |prior| && Comparable(At(batch, reports, l), prior[x])
    ensures !Disjoint(batch, host, reports)
  {
    if Harmless(batch, l.member, At(batch, reports, l)) {
      var x :| 0 <= x < |prior| && Comparable(At(batch, reports, l), prior[x]);
      assert seen[x] != l;
    }
  }

  /** The scopes of one resource. */
  method CheckResource(batch: Batch, ghost host: Host, reports: Reports, kept: seq<Path>, m: nat, k: nat,
                       scopes: seq<Path>, prior0: seq<Path>, ghost seen0: seq<Place>)
    returns (ok: bool, prior: seq<Path>, ghost seen: seq<Place>)
    requires AdmissibleBatch(batch, reports) && m < |batch.members| && k < |batch.members[m].resources|
    requires forall p :: p in kept <==> Kept(batch, p)
    requires ScopesOf(batch, reports, m, k) == Some(scopes) && Checked(batch, reports, prior0, seen0, m, k, 0)
    ensures ok ==> Checked(batch, reports, prior, seen, m, k + 1, 0)
    ensures !ok ==> !Disjoint(batch, host, reports)
  {
    prior, seen := prior0, seen0;
    for s := 0 to |scopes|
      invariant Checked(batch, reports, prior, seen, m, k, s)
    {
      ghost var l := Place(m, k, s);
      assert Exists(batch, reports, l) && At(batch, reports, l) == scopes[s];
      ok := CheckScope(batch, kept, m, scopes[s], prior);
      if !ok {
        CheckFails(batch, host, reports, prior, seen, l);
        return;
      }
      CheckedNext(batch, reports, prior, seen, l);
      prior, seen := prior + [scopes[s]], seen + [l];
    }
    ok := true;
    assert forall l: Place :: Exists(batch, reports, l) && Before(l, m, k + 1, 0) ==> Before(l, m, k, |scopes|);
  }

  /** The scopes of one member, resource by resource. */
  method CheckMember(batch: Batch, ghost host: Host, reports: Reports, kept: seq<Path>, m: nat, inventory: Inventory,
    prior0: seq<Path>, ghost seen0: seq<Place>) returns (ok: bool, prior: seq<Path>, ghost seen: seq<Place>)
    requires AdmissibleBatch(batch, reports) && m < |batch.members| && forall p :: p in kept <==> Kept(batch, p)
    requires Answers(batch.members[m], reports[m], inventory, |reports[m]|)
      && Checked(batch, reports, prior0, seen0, m, 0, 0)
    ensures ok ==> Checked(batch, reports, prior, seen, m + 1, 0, 0)
    ensures !ok ==> !Disjoint(batch, host, reports)
  {
    prior, seen := prior0, seen0;
    var job := batch.members[m];
    for k := 0 to |job.resources|
      invariant Checked(batch, reports, prior, seen, m, k, 0)
    {
      ok, prior, seen := CheckResource(batch, host, reports, kept, m, k, inventory[job.resources[k].id], prior, seen);
      if !ok { return; }
    }
    ok := true;
    assert forall l: Place :: Exists(batch, reports, l) && Before(l, m + 1, 0, 0) ==> Before(l, m, |job.resources|, 0);
  }

  /** Inspects one member and checks its scopes. */
  method InspectMember(batch: Batch, host: Host, reports: Reports, kept: seq<Path>, m: nat, prior0: seq<Path>,
                       ghost seen0: seq<Place>)
    returns (ok: bool, prior: seq<Path>, ghost seen: seq<Place>)
    requires AdmissibleBatch(batch, reports) && m < |batch.members| && forall p :: p in kept <==> Kept(batch, p)
    requires Checked(batch, reports, prior0, seen0, m, 0, 0)
    ensures ok ==> Checked(batch, reports, prior, seen, m + 1, 0, 0) && Acceptable(batch.members[m], host, reports[m])
    ensures !ok ==> !Disjoint(batch, host, reports)
  {
    var inventory := InventoryScopes(batch.members[m], host, reports[m]);
    if inventory.None? { return false, prior0, seen0; }
    ok, prior, seen := CheckMember(batch, host, reports, kept, m, inventory.value, prior0, seen0);
  }

  /** Accepts the scopes of a batch exactly when they are disjoint. */
  method PreflightScopes(batch: Batch, host: Host, reports: Reports) returns (ok: bool)
    requires AdmissibleBatch(batch, reports)
    ensures ok <==> Disjoint(batch, host, reports)
  {
    var kept := KeptPaths(batch);
    var prior: seq<Path> := [];
    ghost var seen: seq<Place> := [];
    for m := 0 to |batch.members|
      invariant Checked(batch, reports, prior, seen, m, 0, 0) && AllAcceptable(batch, host, reports, m)
    {
      ok, prior, seen := InspectMember(batch, host, reports, kept, m, prior, seen);
      if !ok { return; }
    }
    AllChecked(batch, host, reports, prior, seen);
    ok := true;
  }

  lemma AllChecked(batch: Batch, host: Host, reports: Reports, prior: seq<Path>, seen: seq<Place>)
    requires AdmissibleBatch(batch, reports) && Checked(batch, reports, prior, seen, |batch.members|, 0, 0)
    requires AllAcceptable(batch, host, reports, |batch.members|)
    ensures Disjoint(batch, host, reports)
  {
    assert forall l: Place :: Exists(batch, reports, l) ==> Before(l, |batch.members|, 0, 0);
  }

  // Removal

  ghost predicate Known(batch: Batch, reports: Reports, run: seq<(nat, nat)>)
    requires AdmissibleBatch(batch, reports)
  {
    forall k :: 0 <= k < |run| ==>
      run[k].0 < |batch.members| && run[k].1 < |batch.members[run[k].0].resources|
        && ScopesOf(batch, reports, run[k].0, run[k].1).Some?
  }

  /** The tree after the resources in `run`, each given by its member and its number there, have been released. */
  ghost function AfterReleases(batch: Batch, reports: Reports, tree: set<Path>, run: seq<(nat, nat)>): set<Path>
    requires AdmissibleBatch(batch, reports) && Known(batch, reports, run)
  {
    if run == [] then tree
    else
      var n := |run| - 1;
      Cleared(AfterReleases(batch, reports, tree, run[..n]), ScopesOf(batch, reports, run[n].0, run[n].1).value)
  }

  /** What no released scope leads to stays. */
  lemma {:induction false} Untouched(batch: Batch, reports: Reports, tree: set<Path>, run: seq<(nat, nat)>, p: Path)
    requires AdmissibleBatch(batch, reports) && Known(batch, reports, run) && p in tree
    requires forall l :: Exists(batch, reports, l) && (l.member, l.resource) in run ==> !(At(batch, reports, l) <= p)
    ensures p in AfterReleases(batch, reports, tree, run)
  {
    if run == [] {
    } else {
      var n := |run| - 1;
      Untouched(batch, reports, tree, run[..n], p);
      var scopes := ScopesOf(batch, reports, run[n].0, run[n].1).value;
      forall s | 0 <= s < |scopes|
        ensures !(scopes[s] <= p)
      {
        var l := Place(run[n].0, run[n].1, s);
        assert Exists(batch, reports, l) && At(batch, reports, l) == scopes[s] && (l.member, l.resource) == run[n];
      }
    }
  }

  /** Whatever the members have released, in whatever order: the handoffs, the evidence, the manifests, the checkout and
      all worktree roots are still there, with everything that leads to them. */
  lemma KeptSurvive(batch: Batch, host: Host, reports: Reports, tree: set<Path>, run: seq<(nat, nat)>, p: Path, q: Path)
    requires AdmissibleBatch(batch, reports) && Disjoint(batch, host, reports) && Known(batch, reports, run)
    requires p in tree && p <= q && Kept(batch, q)
    ensures p in AfterReleases(batch, reports, tree, run)
  {
    forall l | Exists(batch, reports, l) && (l.member, l.resource) in run
      ensures !(At(batch, reports, l) <= p)
    {
      assert Harmless(batch, l.member, At(batch, reports, l));
    }
    Untouched(batch, reports, tree, run, p);
  }

  /** In particular the batch's own handoff and evidence, the checkout, the configuration, and the worktree, handoff,
      evidence and manifests of every member. */
  lemma NamedPathsSurvive(batch: Batch, host: Host, reports: Reports, tree: set<Path>, run: seq<(nat, nat)>, p: Path,
                          q: Path)
    requires AdmissibleBatch(batch, reports) && Disjoint(batch, host, reports) && Known(batch, reports, run)
    requires p in tree && p <= q
    requires || q == batch.handoff || q == batch.evidence
             || q == batch.members[0].repo || q == batch.members[0].config
             || (exists m :: m in batch.members && (q == m.target || q == m.handoff || q == m.evidence))
             || (exists m, r :: m in batch.members && r in m.resources && q == r.manifest)
    ensures p in AfterReleases(batch, reports, tree, run)
  {
    if job :| job in batch.members && (q == job.target || q == job.handoff || q == job.evidence) {
      var m :| 0 <= m < |batch.members| && batch.members[m] == job;
      assert q in [batch.members[m].target, batch.members[m].handoff, batch.members[m].evidence];
    } else if job, r :| job in batch.members && r in job.resources && q == r.manifest {
      var m :| 0 <= m < |batch.members| && batch.members[m] == job;
      var k :| 0 <= k < |job.resources| && job.resources[k] == r;
      assert IsManifest(batch.members[m], q);
    }
    assert Kept(batch, q);
    KeptSurvive(batch, host, reports, tree, run, p, q);
  }

  /** A resource that has not been released, of any member, keeps everything in its scopes. */
  lemma UnreleasedSurvive(batch: Batch, host: Host, reports: Reports, tree: set<Path>, run: seq<(nat, nat)>, p: Path,
                          mine: Place)
    requires AdmissibleBatch(batch, reports) && Disjoint(batch, host, reports) && Known(batch, reports, run)
    requires p in tree && Exists(batch, reports, mine) && (mine.member, mine.resource) !in run
    requires Comparable(At(batch, reports, mine), p)
    ensures p in AfterReleases(batch, reports, tree, run)
  {
    forall l | Exists(batch, reports, l) && (l.member, l.resource) in run
      ensures !(At(batch, reports, l) <= p)
    {
      var theirs := At(batch, reports, l);
      assert l != mine && !Comparable(theirs, At(batch, reports, mine));
      if theirs <= p && At(batch, reports, mine) <= p { PrefixesComparable(theirs, At(batch, reports, mine), p); }
    }
    Untouched(batch, reports, tree, run, p);
  }

  /** The worktree of a member that has released nothing is untouched. */
  lemma PeerWorktreeSurvives(batch: Batch, host: Host, reports: Reports, tree: set<Path>, run: seq<(nat, nat)>, p: Path,
                             peer: nat)
    requires AdmissibleBatch(batch, reports) && Disjoint(batch, host, reports) && Known(batch, reports, run)
    requires p in tree && peer < |batch.members| && batch.members[peer].target <= p
    requires forall k :: 0 <= k < |run| ==> run[k].0 != peer
    ensures p in AfterReleases(batch, reports, tree, run)
  {
    forall l | Exists(batch, reports, l) && (l.member, l.resource) in run
      ensures !(At(batch, reports, l) <= p)
    {
      var s, t := At(batch, reports, l), batch.members[peer].target;
      assert l.member != peer && Harmless(batch, l.member, s);
      assert Kept(batch, t) by {
        assert t in [batch.members[peer].target, batch.members[peer].handoff, batch.members[peer].evidence];
      }
      assert !(s <= t) && !(t <= s);
      if s <= p { PrefixesComparable(s, t, p); }
    }
    Untouched(batch, reports, tree, run, p);
  }
}
