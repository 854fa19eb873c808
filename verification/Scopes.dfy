/** Which directories an owning tool may remove: scopes are compared by whole path components, must stay clear of
    checkouts, evidence and other resources, and must not overlap across resources or members of a batch. */
module Scopes {
  import opened Wrappers

  /** The parts of an absolute path, the anchor first. `q <= p` says that `p` is `q` or lies below it. */
  type Path = seq<string>

  /** What decides whether a path is ordinary: the links, and on Windows also its names. */
  datatype Host = Host(links: set<Path>, windows: bool, reserved: set<Path>)

  datatype Resource = Resource(id: string, generated: bool, path: Option<Path>, manifest: Path)

  datatype Job = Job(root: Path, repo: Path, target: Path, evidence: Path, handoff: Path, config: Path,
                     resources: seq<Resource>)

  type Inventory = map<string, seq<Path>>

  const SCOPE_LIMIT := 100

  predicate Beneath(p: Path, root: Path) {
    p != root && root <= p
  }

  predicate Comparable(p: Path, q: Path) {
    p <= q || q <= p
  }

  /** A name that Windows does not take for another one: no trailing dot or space, and no short alias. */
  predicate PlainName(name: string) {
    && (name != [] ==> name[|name| - 1] != '.' && name[|name| - 1] != ' ')
    && forall i :: 0 <= i < |name| - 1 ==> !(name[i] == '~' && '0' <= name[i + 1] <= '9')
  }

  /** The path names a device or bypasses the normalisation of names. */
  predicate Unnormalised(p: Path) {
    p != [] && ("\\\\?\\" <= p[0] || "\\\\.\\" <= p[0])
  }

  /** No traversal component, on Windows no alias of another path, and neither the path nor one of its ancestors is a
      link. */
  predicate Ordinary(host: Host, p: Path) {
    && (forall i :: 0 <= i < |p| ==> p[i] != "." && p[i] != "..")
    && (host.windows ==>
          && !Unnormalised(p) && p !in host.reserved
          && forall i :: 1 <= i < |p| ==> PlainName(p[i]))
    && forall k :: 0 <= k <= |p| ==> p[..k] !in host.links
  }

  predicate Admissible(job: Job) {
    && (forall i, j :: 0 <= i < j < |job.resources| ==> job.resources[i].id != job.resources[j].id)
    && forall i :: 0 <= i < |job.resources| && job.resources[i].generated ==> job.resources[i].path.Some?
  }

  /** A path that must survive the removal of resource `r`: the checkouts, the evidence, the handoff, the
      configuration, every ownership manifest and every other resource. */
  predicate Protected(job: Job, r: Resource, p: Path) {
    || p in [job.repo, job.target, job.evidence, job.handoff, job.config]
    || (exists i :: 0 <= i < |job.resources| && p == job.resources[i].manifest)
    || (exists i :: 0 <= i < |job.resources| && job.resources[i].id != r.id && job.resources[i].path == Some(p))
  }

  /** Scope `s` lies beneath the root and leads to no protected path. */
  ghost predicate ClearScope(job: Job, host: Host, r: Resource, s: Path) {
    && Ordinary(host, s) && Beneath(s, job.root)
    && forall p :: Protected(job, r, p) ==> Ordinary(host, p) && !(s <= p)
  }

  ghost predicate ClearScopes(job: Job, host: Host, r: Resource, scopes: seq<Path>) {
    && |scopes| <= SCOPE_LIMIT && (scopes == [] ==> r.path.None?)
    && forall i :: 0 <= i < |scopes| ==> ClearScope(job, host, r, scopes[i])
  }

  predicate Apart(left: seq<Path>, right: seq<Path>) {
    forall i, j :: 0 <= i < |left| && 0 <= j < |right| ==> !Comparable(left[i], right[j])
  }

  /** Every resource has clear scopes, and the scopes of different resources are apart. */
  ghost predicate Separated(job: Job, host: Host, scopes: Inventory, n: nat)
    requires n <= |job.resources|
  {
    && (forall i :: 0 <= i < n ==>
         job.resources[i].id in scopes && ClearScopes(job, host, job.resources[i], scopes[job.resources[i].id]))
    && (forall i, j :: 0 <= i < j < n ==> Apart(scopes[job.resources[i].id], scopes[job.resources[j].id]))
    && forall id :: id in scopes ==> exists i :: 0 <= i < n && id == job.resources[i].id
  }

  /** What the inventory asks of one resource: its own path for a generated tree, and otherwise what its tool
      reports. */
  function Reported(r: Resource, report: Option<seq<Path>>): Option<seq<Path>>
    requires r.generated ==> r.path.Some?
  {
    if r.generated then Some([r.path.value]) else report
  }

  // Inspection

  /** The protected paths of a resource, in the order in which they are checked. */
  method ProtectedPaths(job: Job, r: Resource) returns (protected: seq<Path>)
    ensures forall p :: p in protected <==> Protected(job, r, p)
  {
    protected := [job.repo, job.target, job.evidence, job.handoff, job.config];
    for i := 0 to |job.resources|
      invariant forall p :: p in protected <==>
        p in [job.repo, job.target, job.evidence, job.handoff, job.config]
          || exists k :: 0 <= k < i && p == job.resources[k].manifest
    {
      protected := protected + [job.resources[i].manifest];
    }
    for i := 0 to |job.resources|
      invariant forall p :: p in protected <==>
        || p in [job.repo, job.target, job.evidence, job.handoff, job.config]
        || (exists k :: 0 <= k < |job.resources| && p == job.resources[k].manifest)
        || (exists k :: 0 <= k < i && job.resources[k].id != r.id && job.resources[k].path == Some(p))
    {
      var other := job.resources[i];
      if other.id != r.id && other.path.Some? {
        protected := protected + [other.path.value];
      }
    }
  }

  /** Accepts the reported scopes of one resource exactly when all of them are clear. */
  method RemovalScopes(job: Job, host: Host, r: Resource, report: Option<seq<Path>>) returns (scopes: Option<seq<Path>>)
    ensures scopes.Some? <==> report.Some? && ClearScopes(job, host, r, report.value)
    ensures scopes.Some? ==> scopes == report
    ensures scopes.Some? <==>
      && report.Some? && |report.value| <= 100 && (report.value == [] ==> r.path.None?)
      && forall s :: s in report.value ==>
           && Ordinary(host, s) && s != job.root && job.root <= s
           && (forall p :: p in [job.repo, job.target, job.evidence, job.handoff, job.config] ==>
                 Ordinary(host, p) && !(s <= p))
           && (forall o :: o in job.resources ==> Ordinary(host, o.manifest) && !(s <= o.manifest))
           && (forall o :: o in job.resources && o.id != r.id && o.path.Some? ==>
                 Ordinary(host, o.path.value) && !(s <= o.path.value))
    ensures scopes.Some? ==> forall s :: s in report.value ==>
      && "." !in s && ".." !in s && (forall k :: 0 <= k <= |s| ==> s[..k] !in host.links)
      && (host.windows ==> s !in host.reserved && forall i :: 1 <= i < |s| ==> PlainName(s[i]))
  {
    if report.Some? { forall s { ClearScopeIs(job, host, r, s); } }
    if report.None? || |report.value| > SCOPE_LIMIT || (report.value == [] && r.path.Some?) { return None; }
    var protected := ProtectedPaths(job, r);
    for i := 0 to |report.value|
      invariant forall k :: 0 <= k < i ==> ClearScope(job, host, r, report.value[k])
    {
      var scope := report.value[i];
      if !Ordinary(host, scope) || !Beneath(scope, job.root)
         || exists k :: 0 <= k < |protected| && (!Ordinary(host, protected[k]) || scope <= protected[k]) {
        if k :| 0 <= k < |protected| && (!Ordinary(host, protected[k]) || scope <= protected[k]) {
          assert Protected(job, r, protected[k]);
        }
        assert !ClearScope(job, host, r, scope);
        return None;
      }
    }
    return report;
  }

  lemma ClearScopeIs(job: Job, host: Host, r: Resource, s: Path)
    ensures ClearScope(job, host, r, s) <==>
      && Ordinary(host, s) && s != job.root && job.root <= s
      && (forall p :: p in [job.repo, job.target, job.evidence, job.handoff, job.config] ==>
            Ordinary(host, p) && !(s <= p))
      && (forall o :: o in job.resources ==> Ordinary(host, o.manifest) && !(s <= o.manifest))
      && (forall o :: o in job.resources && o.id != r.id && o.path.Some? ==>
            Ordinary(host, o.path.value) && !(s <= o.path.value))
  {
    forall o | o in job.resources
      ensures Protected(job, r, o.manifest) && (o.id != r.id && o.path.Some? ==> Protected(job, r, o.path.value))
    {
      var i :| 0 <= i < |job.resources| && job.resources[i] == o;
      assert o.manifest == job.resources[i].manifest && o.path == job.resources[i].path;
    }
  }

  /** The inventory holds what was reported for the first `n` resources. */
  ghost predicate Answers(job: Job, reports: seq<Option<seq<Path>>>, scopes: Inventory, n: nat)
    requires Admissible(job) && n <= |reports| == |job.resources|
  {
    forall i :: 0 <= i < n ==>
      job.resources[i].id in scopes && Some(scopes[job.resources[i].id]) == Reported(job.resources[i], reports[i])
  }

  /** Some inventory of what was reported is separated. */
  ghost predicate Acceptable(job: Job, host: Host, reports: seq<Option<seq<Path>>>)
    requires Admissible(job) && |reports| == |job.resources|
  {
    exists good: Inventory :: Answers(job, reports, good, |reports|) && Separated(job, host, good, |reports|)
  }

  /** Collects the scopes of all resources, and accepts them exactly when the inventory is separated. */
  method InventoryScopes(job: Job, host: Host, reports: seq<Option<seq<Path>>>) returns (scopes: Option<Inventory>)
    requires Admissible(job) && |reports| == |job.resources|
    ensures scopes.Some? <==> Acceptable(job, host, reports)
    ensures scopes.Some? ==>
      Separated(job, host, scopes.value, |reports|) && Answers(job, reports, scopes.value, |reports|)
  {
    var known: Inventory := map[];
    for i := 0 to |job.resources|
      invariant Separated(job, host, known, i) && Answers(job, reports, known, i)
    {
      var r := job.resources[i];
      var current := RemovalScopes(job, host, r, Reported(r, reports[i]));
      if current.None? {
        Unclear(job, host, reports, i);
        return None;
      }
      if exists id :: id in known && !Apart(known[id], current.value) {
        Clash(job, host, reports, known, i);
        return None;
      }
      SeparatedGrows(job, host, reports, known, i);
      known := known[r.id := current.value];
    }
    return Some(known);
  }

  lemma EntriesKept(job: Job, known: Inventory, i: nat, scopes: seq<Path>)
    requires Admissible(job) && i < |job.resources| && forall k :: 0 <= k < i ==> job.resources[k].id in known
    ensures forall k :: 0 <= k < i ==>
      known[job.resources[i].id := scopes][job.resources[k].id] == known[job.resources[k].id]
  {
    assert forall k :: 0 <= k < i ==> job.resources[k].id != job.resources[i].id;
  }

  lemma SeparatedGrows(job: Job, host: Host, reports: seq<Option<seq<Path>>>, known: Inventory, i: nat)
    requires Admissible(job) && |reports| == |job.resources| && i < |reports|
    requires Separated(job, host, known, i) && Answers(job, reports, known, i)
    requires var r := Reported(job.resources[i], reports[i]);
      r.Some? && ClearScopes(job, host, job.resources[i], r.value)
        && forall id :: id in known ==> Apart(known[id], r.value)
    ensures var next := known[job.resources[i].id := Reported(job.resources[i], reports[i]).value];
      Separated(job, host, next, i + 1) && Answers(job, reports, next, i + 1)
  {
    var next := known[job.resources[i].id := Reported(job.resources[i], reports[i]).value];
    forall j, k | 0 <= j < k < i + 1
      ensures job.resources[j].id in next && job.resources[k].id in next
        && Apart(next[job.resources[j].id], next[job.resources[k].id])
    {
      EntriesKept(job, known, i, next[job.resources[i].id]);
      if k < i { assert Apart(known[job.resources[j].id], known[job.resources[k].id]); }
    }
    forall k | 0 <= k < i + 1
      ensures job.resources[k].id in next && Some(next[job.resources[k].id]) == Reported(job.resources[k], reports[k])
      ensures ClearScopes(job, host, job.resources[k], next[job.resources[k].id])
    {
      EntriesKept(job, known, i, next[job.resources[i].id]);
    }
    forall id | id in next
      ensures exists k :: 0 <= k < i + 1 && id == job.resources[k].id
    {
      assert job.resources[i].id == id || id in known;
    }
  }

  lemma Unclear(job: Job, host: Host, reports: seq<Option<seq<Path>>>, i: nat)
    requires Admissible(job) && |reports| == |job.resources| && i < |reports|
    requires var r := Reported(job.resources[i], reports[i]); r.Some? ==>
      !ClearScopes(job, host, job.resources[i], r.value)
    ensures !Acceptable(job, host, reports)
  {
    forall good: Inventory | Answers(job, reports, good, |reports|)
      ensures !Separated(job, host, good, |reports|)
    {
      assert Some(good[job.resources[i].id]) == Reported(job.resources[i], reports[i]);
    }
  }

  lemma Clash(job: Job, host: Host, reports: seq<Option<seq<Path>>>, known: Inventory, i: nat)
    requires Admissible(job) && |reports| == |job.resources| && i < |reports|
    requires Separated(job, host, known, i) && Answers(job, reports, known, i)
    requires Reported(job.resources[i], reports[i]).Some?
    requires exists id :: id in known && !Apart(known[id], Reported(job.resources[i], reports[i]).value)
    ensures !Acceptable(job, host, reports)
  {
    var id :| id in known && !Apart(known[id], Reported(job.resources[i], reports[i]).value);
    var k :| 0 <= k < i && id == job.resources[k].id;
    forall good: Inventory | Answers(job, reports, good, |reports|)
      ensures !Separated(job, host, good, |reports|)
    {
      assert Some(good[job.resources[k].id]) == Reported(job.resources[k], reports[k]);
      assert Some(good[job.resources[i].id]) == Reported(job.resources[i], reports[i]);
      assert !Apart(good[job.resources[k].id], good[job.resources[i].id]);
    }
  }

  // Removal

  /** The tree without everything in the given scopes. */
  ghost function Cleared(tree: set<Path>, scopes: seq<Path>): set<Path> {
    set p | p in tree && forall i :: 0 <= i < |scopes| ==> !(scopes[i] <= p)
  }

  /** The tree after the resources numbered in `run` have been released, one after the other. */
  ghost function Released(job: Job, scopes: Inventory, tree: set<Path>, run: seq<nat>): set<Path>
    requires forall k :: 0 <= k < |run| ==> run[k] < |job.resources| && job.resources[run[k]].id in scopes
  {
    if run == [] then tree
    else Cleared(Released(job, scopes, tree, run[..|run| - 1]), scopes[job.resources[run[|run| - 1]].id])
  }

  /** Two scopes that lead to one path are comparable, so scopes that are apart share nothing. */
  lemma ApartShareNothing(left: seq<Path>, right: seq<Path>, tree: set<Path>, p: Path)
    requires Apart(left, right) && p in tree && exists j :: 0 <= j < |right| && Comparable(right[j], p)
    ensures p in Cleared(tree, left)
  {
    var j :| 0 <= j < |right| && Comparable(right[j], p);
    forall i | 0 <= i < |left|
      ensures !(left[i] <= p)
    {
      assert !Comparable(left[i], right[j]);
      if left[i] <= p && right[j] <= p { PrefixesComparable(left[i], right[j], p); }
    }
  }

  lemma PrefixesComparable(a: Path, b: Path, p: Path)
    requires a <= p && b <= p
    ensures Comparable(a, b)
  {
    if |a| <= |b| { assert a == b[..|a|]; } else { assert b == a[..|b|]; }
  }

  ghost predicate ProtectedAll(job: Job, run: seq<nat>, p: Path)
    requires forall k :: 0 <= k < |run| ==> run[k] < |job.resources|
  {
    forall k :: 0 <= k < |run| ==> Protected(job, job.resources[run[k]], p)
  }

  /** Whatever has been released, in whatever order: a path protected from all of it, and everything that leads there,
      is still there. */
  lemma {:induction false} ProtectedSurvive(job: Job, host: Host, scopes: Inventory, tree: set<Path>, run: seq<nat>,
                                            p: Path, q: Path)
    requires Separated(job, host, scopes, |job.resources|)
    requires forall k :: 0 <= k < |run| ==> run[k] < |job.resources|
    requires p in tree && p <= q && ProtectedAll(job, run, q)
    ensures p in Released(job, scopes, tree, run)
  {
    if run == [] {
    } else {
      var n := |run| - 1;
      var r := job.resources[run[n]];
      ProtectedSurvive(job, host, scopes, tree, run[..n], p, q);
      forall s | 0 <= s < |scopes[r.id]|
        ensures !(scopes[r.id][s] <= p)
      {
        assert ClearScope(job, host, r, scopes[r.id][s]) && Protected(job, job.resources[run[n]], q);
      }
    }
  }

  /** Whatever has been released: both checkouts, the evidence, the handoff, the configuration, every ownership manifest
      and the path of every resource that has not been released are still there, with everything that leads there. */
  lemma NamedPathsSurvive(job: Job, host: Host, scopes: Inventory, tree: set<Path>, run: seq<nat>, p: Path, q: Path)
    requires Admissible(job) && Separated(job, host, scopes, |job.resources|)
    requires forall k :: 0 <= k < |run| ==> run[k] < |job.resources|
    requires p in tree && p <= q
    requires || q == job.repo || q == job.target || q == job.evidence || q == job.handoff || q == job.config
             || (exists i :: 0 <= i < |job.resources| && q == job.resources[i].manifest)
             || (exists i :: 0 <= i < |job.resources| && i !in run && job.resources[i].path == Some(q))
    ensures p in Released(job, scopes, tree, run)
  {
    forall k | 0 <= k < |run|
      ensures Protected(job, job.resources[run[k]], q)
    {
      if i :| 0 <= i < |job.resources| && i !in run && job.resources[i].path == Some(q) {
        assert run[k] in run && i != run[k];
        if i < run[k] { assert job.resources[i].id != job.resources[run[k]].id; }
        if run[k] < i { assert job.resources[run[k]].id != job.resources[i].id; }
      }
    }
    ProtectedSurvive(job, host, scopes, tree, run, p, q);
  }

  /** Nothing is removed that does not lie beneath the configured root. */
  lemma {:induction false} OutsideSurvives(job: Job, host: Host, scopes: Inventory, tree: set<Path>, run: seq<nat>,
                                           p: Path)
    requires Separated(job, host, scopes, |job.resources|)
    requires forall k :: 0 <= k < |run| ==> run[k] < |job.resources|
    requires p in tree && !(job.root < p)
    ensures p in Released(job, scopes, tree, run)
  {
    if run == [] {
    } else {
      var n := |run| - 1;
      var r := job.resources[run[n]];
      OutsideSurvives(job, host, scopes, tree, run[..n], p);
      forall s | 0 <= s < |scopes[r.id]|
        ensures !(scopes[r.id][s] <= p)
      {
        assert ClearScope(job, host, r, scopes[r.id][s]);
        BeneathReaches(job.root, scopes[r.id][s], p);
      }
    }
  }

  lemma BeneathReaches(root: Path, s: Path, p: Path)
    requires Beneath(s, root)
    ensures s <= p ==> root < p
  {
    if s <= p { assert root == s[..|root|] == p[..|root|]; }
  }

  /** Whatever has been released, everything in the scopes of another resource, and everything that leads there, is
      still there. */
  lemma {:induction false} OthersSurvive(job: Job, host: Host, scopes: Inventory, tree: set<Path>, run: seq<nat>,
                                         p: Path, i: nat, j: nat)
    requires Separated(job, host, scopes, |job.resources|)
    requires forall k :: 0 <= k < |run| ==> run[k] < |job.resources|
    requires p in tree && i < |job.resources| && i !in run
    requires j < |scopes[job.resources[i].id]| && Comparable(scopes[job.resources[i].id][j], p)
    ensures p in Released(job, scopes, tree, run)
  {
    if run == [] {
    } else {
      var n := |run| - 1;
      var mine, theirs := scopes[job.resources[i].id], scopes[job.resources[run[n]].id];
      OthersSurvive(job, host, scopes, tree, run[..n], p, i, j);
      ApartBothWays(theirs, mine);
      assert i != run[n];
      ApartShareNothing(theirs, mine, Released(job, scopes, tree, run[..n]), p);
    }
  }

  lemma ApartBothWays(left: seq<Path>, right: seq<Path>)
    ensures Apart(left, right) <==> Apart(right, left)
  {
    if Apart(left, right) {
      assert forall j, i :: 0 <= j < |right| && 0 <= i < |left| ==> !Comparable(right[j], left[i]);
    } else {
      var i, j :| 0 <= i < |left| && 0 <= j < |right| && Comparable(left[i], right[j]);
      assert Comparable(right[j], left[i]);
    }
  }

  /** And a released scope is gone. */
  lemma {:induction false} ReleaseRemoves(job: Job, scopes: Inventory, tree: set<Path>, run: seq<nat>, p: Path)
    requires forall k :: 0 <= k < |run| ==> run[k] < |job.resources| && job.resources[run[k]].id in scopes
    ensures p in Released(job, scopes, tree, run) ==> p in tree
    ensures forall k, s ::
      0 <= k < |run| && 0 <= s < |scopes[job.resources[run[k]].id]| && scopes[job.resources[run[k]].id][s] <= p ==>
        p !in Released(job, scopes, tree, run)
  {
    if run == [] { return; }
    var last, rest := run[|run| - 1], run[..|run| - 1];
    assert run == rest + [last];
    ReleaseRemoves(job, scopes, tree, rest, p);
    assert forall k :: 0 <= k < |rest| ==> rest[k] == run[k];
  }
}
