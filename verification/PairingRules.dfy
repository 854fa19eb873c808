/** The pairs of a text by the rules of section 6.2 of CommonMark 0.31.2, written out: the rules have exactly one
    solution, and it is what the scans find. */
module PairingRules {
  import opened Delimiters
  import opened Strikethrough

  /** `a` may open what `b` closes: the same marker and link scope, two runs, and the rule of three. */
  predicate Fit(a: Delimiter, b: Delimiter) {
    && a.open && b.close && a.marker == b.marker && a.run != b.run && a.scope == b.scope
    && !((a.close || b.open) && (a.length + b.length) % 3 == 0 && !(a.length % 3 == 0 && b.length % 3 == 0))
  }

  /** The pair from `o` to `e` closes before `c`, and uses or encloses `k`. */
  predicate Spans(o: int, e: int, k: int, c: int) {
    e < c && (k == o || k == e || o < k < e)
  }

  /** A pair of the scope that closes before `c` uses or encloses `k`. */
  ghost predicate Taken(ds: seq<Delimiter>, m: Pairing, k: int, c: int)
    requires 0 <= k < |ds|
  {
    exists o :: o in m && 0 <= o < |ds| && ds[o].scope == ds[k].scope && Spans(o, m[o], k, c)
  }

  ghost predicate FitPairs(ds: seq<Delimiter>, m: Pairing) {
    forall o :: o in m ==> 0 <= o < m[o] < |ds| && Fit(ds[o], ds[m[o]]) && m[o] !in m
  }

  /** Pairs of one scope do not cross. */
  ghost predicate Nested(ds: seq<Delimiter>, m: Pairing)
    requires FitPairs(ds, m)
  {
    forall o, p :: o in m && p in m && o < p && ds[o].scope == ds[p].scope ==> m[o] < p || m[p] < m[o]
  }

  /** A closer with a fitting opener that is not taken is paired, no further away than that opener. */
  ghost predicate Closes(ds: seq<Delimiter>, m: Pairing, k: int, c: int)
    requires 0 <= k < c < |ds|
  {
    Fit(ds[k], ds[c]) && !Taken(ds, m, k, c) ==> exists o :: o in m && m[o] == c && k <= o
  }

  ghost predicate Follows(ds: seq<Delimiter>, m: Pairing) {
    && FitPairs(ds, m) && Nested(ds, m)
    && forall k, c :: 0 <= k < c < |ds| ==> Closes(ds, m, k, c)
  }

  // ---------------------------------------------------------------------
  // One scope

  predicate OneScope(ds: seq<Delimiter>) {
    forall i, j :: 0 <= i < |ds| && 0 <= j < |ds| ==> ds[i].scope == ds[j].scope
  }

  ghost predicate ClosesBelow(ds: seq<Delimiter>, m: Pairing, n: int) {
    forall k, c :: 0 <= k < c < n && c < |ds| ==> Closes(ds, m, k, c)
  }

  lemma EligibleIsFit(ds: seq<Delimiter>, m: Pairing, k: int, c: int)
    requires OneScope(ds) && Laminar(m, c) && 0 <= k < c < |ds| && ds[c].close
    ensures Eligible(ds, m, k, c) <==> Fit(ds[k], ds[c]) && !Taken(ds, m, k, c)
  {
    assert Dead(ds, m, k) <==> !ds[k].open || Taken(ds, m, k, c);
  }

  /** Pairs that close later do not matter. */
  lemma TakenEarlier(ds: seq<Delimiter>, m: Pairing, o: int, c: int, k: int, b: int)
    requires 0 <= k < b <= c && o !in m && k < |ds|
    ensures Taken(ds, m[o := c], k, b) <==> Taken(ds, m, k, b)
  {
  }

  lemma {:induction false} PlainFollows(ds: seq<Delimiter>, n: nat)
    requires OneScope(ds) && n <= |ds|
    ensures FitPairs(ds, Plain(ds, n)) && ClosesBelow(ds, Plain(ds, n), n)
  {
    if n == 0 {
    } else {
      PlainFollows(ds, n - 1);
      PairsNest(ds, n - 1);
      PairsNest(ds, n);
      FollowsNext(ds, n - 1);
    }
  }

  lemma LaminarIsNested(ds: seq<Delimiter>, m: Pairing, n: int)
    requires FitPairs(ds, m) && Laminar(m, n)
    ensures Nested(ds, m)
  {
  }

  lemma FollowsNext(ds: seq<Delimiter>, c: nat)
    requires OneScope(ds) && c < |ds| && Laminar(Plain(ds, c), c)
    requires FitPairs(ds, Plain(ds, c)) && ClosesBelow(ds, Plain(ds, c), c)
    requires Laminar(Plain(ds, c + 1), c + 1)
    ensures FitPairs(ds, Plain(ds, c + 1)) && ClosesBelow(ds, Plain(ds, c + 1), c + 1)
  {
    var m, next := Plain(ds, c), Plain(ds, c + 1);
    var o := if ds[c].close then Nearest(ds, m, c, c - 1) else -1;
    if ds[c].close { NearestEligible(ds, m, c, c - 1); }
    if o >= 0 { EligibleIsFit(ds, m, o, c); }
    forall k, b | 0 <= k < b < c + 1
      ensures Closes(ds, next, k, b)
    {
      if o >= 0 { TakenEarlier(ds, m, o, c, k, b); }
      if b < c {
        assert Closes(ds, m, k, b);
      } else if ds[c].close {
        EligibleIsFit(ds, m, k, c);
      }
    }
  }

  /** The pairs that close before `n`. */
  ghost function Before(m: Pairing, n: int): Pairing {
    map o | o in m && m[o] < n :: m[o]
  }

  lemma BeforeLaminar(ds: seq<Delimiter>, m: Pairing, n: nat)
    requires OneScope(ds) && FitPairs(ds, m) && Nested(ds, m)
    ensures Laminar(Before(m, n), n)
  {
  }

  /** The opener of a pair is not taken when its closer comes. */
  lemma OpenerFree(ds: seq<Delimiter>, m: Pairing, o: int)
    requires FitPairs(ds, m) && Nested(ds, m) && o in m
    ensures !Taken(ds, m, o, m[o])
  {
  }

  lemma {:induction false} OnlyPlainFollows(ds: seq<Delimiter>, m: Pairing, n: nat)
    requires OneScope(ds) && Follows(ds, m) && n <= |ds|
    ensures Before(m, n) == Plain(ds, n)
  {
    if n == 0 {
      assert forall o :: o in m ==> m[o] > 0;
    } else {
      OnlyPlainFollows(ds, m, n - 1);
      SamePairAt(ds, m, n - 1);
    }
  }

  lemma SamePairAt(ds: seq<Delimiter>, m: Pairing, c: nat)
    requires OneScope(ds) && Follows(ds, m) && c < |ds| && Before(m, c) == Plain(ds, c)
    ensures Before(m, c + 1) == Plain(ds, c + 1)
  {
    var o := if ds[c].close then Nearest(ds, Before(m, c), c, c - 1) else -1;
    SameOpener(ds, m, c, o);
    BeforeNext(m, c, o);
    PlainNext(ds, Before(m, c), c, o);
  }

  lemma BeforeNext(m: Pairing, c: int, o: int)
    requires (o >= 0 ==> o in m && m[o] == c) && forall p :: p in m && m[p] == c ==> p == o >= 0
    ensures Before(m, c + 1) == if o >= 0 then Before(m, c)[o := c] else Before(m, c)
  {
    var next := if o >= 0 then Before(m, c)[o := c] else Before(m, c);
    assert forall p :: p in Before(m, c + 1) <==> p in next;
  }

  /** The rules give a closer the opener that the scan finds, or none. */
  lemma SameOpener(ds: seq<Delimiter>, m: Pairing, c: nat, o: int)
    requires OneScope(ds) && Follows(ds, m) && c < |ds|
    requires o == if ds[c].close then Nearest(ds, Before(m, c), c, c - 1) else -1
    ensures (o >= 0 ==> o in m && m[o] == c) && forall p :: p in m && m[p] == c ==> p == o >= 0
  {
    var before := Before(m, c);
    BeforeLaminar(ds, m, c);
    if ds[c].close { NearestEligible(ds, before, c, c - 1); }
    if o >= 0 {
      EligibleIsFit(ds, before, o, c);
      SameTaken(ds, m, o, c);
      assert Closes(ds, m, o, c);
    }
    forall p | p in m && m[p] == c
      ensures p == o
    {
      OpenerFree(ds, m, p);
      SameTaken(ds, m, p, c);
      EligibleIsFit(ds, before, p, c);
    }
  }

  lemma SameTaken(ds: seq<Delimiter>, m: Pairing, k: int, c: int)
    requires 0 <= k < |ds|
    ensures Taken(ds, Before(m, c), k, c) <==> Taken(ds, m, k, c)
  {
    if Taken(ds, m, k, c) {
      var o :| o in m && 0 <= o < |ds| && ds[o].scope == ds[k].scope && Spans(o, m[o], k, c);
      assert o in Before(m, c);
    }
  }

  // ---------------------------------------------------------------------
  // All scopes of a text

  predicate Ascending(indices: seq<int>) {
    forall i, j :: 0 <= i < j < |indices| ==> indices[i] < indices[j]
  }

  /** `part` has the delimiters of one scope, which `indices` finds in the text. */
  ghost predicate Embeds(ds: seq<Delimiter>, part: seq<Delimiter>, indices: seq<int>, scope: seq<int>) {
    && Ascending(indices) && |part| == |indices|
    && (forall i :: 0 <= i < |part| ==> 0 <= indices[i] < |ds| && part[i] == ds[indices[i]] && part[i].scope == scope)
    && (forall g :: 0 <= g < |ds| && ds[g].scope == scope ==> g in indices)
  }

  /** `l` is the part of `m` in one scope, by the places of the delimiters within the scope. */
  ghost predicate Mirrors(indices: seq<int>, m: Pairing, l: Pairing) {
    && (forall i :: i in l ==> 0 <= i < |indices| && 0 <= l[i] < |indices|)
    && (forall i :: i in l ==> indices[i] in m && m[indices[i]] == indices[l[i]])
    && (forall i :: 0 <= i < |indices| && indices[i] in m ==> i in l)
  }

  lemma PlaceOf(ds: seq<Delimiter>, part: seq<Delimiter>, indices: seq<int>, scope: seq<int>, g: int) returns (i: int)
    requires Embeds(ds, part, indices, scope) && 0 <= g < |ds| && ds[g].scope == scope
    ensures 0 <= i < |indices| && indices[i] == g
  {
    i :| 0 <= i < |indices| && indices[i] == g;
  }

  lemma SameOrder(indices: seq<int>, i: int, j: int)
    requires Ascending(indices) && 0 <= i < |indices| && 0 <= j < |indices|
    ensures i < j <==> indices[i] < indices[j]
    ensures i == j <==> indices[i] == indices[j]
  {
  }

  /** A pair takes the same delimiters in the scope and in the text. */
  lemma SpanMirrors(indices: seq<int>, i: int, j: int, k: int, c: int)
    requires Ascending(indices) && 0 <= i < |indices| && 0 <= j < |indices| && 0 <= k < |indices| && 0 <= c < |indices|
    ensures Spans(i, j, k, c) <==> Spans(indices[i], indices[j], indices[k], indices[c])
  {
    SameOrder(indices, j, c);
    SameOrder(indices, k, i);
    SameOrder(indices, k, j);
    SameOrder(indices, i, k);
  }

  lemma TakenMirrors(ds: seq<Delimiter>, part: seq<Delimiter>, indices: seq<int>, scope: seq<int>, m: Pairing,
                     l: Pairing, k: int, c: int)
    requires Embeds(ds, part, indices, scope) && Mirrors(indices, m, l) && 0 <= k < |part| && 0 <= c < |part|
    ensures Taken(part, l, k, c) <==> Taken(ds, m, indices[k], indices[c])
  {
    if Taken(ds, m, indices[k], indices[c]) {
      var o :| o in m && 0 <= o < |ds| && ds[o].scope == ds[indices[k]].scope && Spans(o, m[o], indices[k], indices[c]);
      var i := PlaceOf(ds, part, indices, scope, o);
      assert i in l && part[i].scope == part[k].scope;
      SpanMirrors(indices, i, l[i], k, c);
    }
    if Taken(part, l, k, c) {
      var i :| i in l && 0 <= i < |part| && part[i].scope == part[k].scope && Spans(i, l[i], k, c);
      assert indices[i] in m && m[indices[i]] == indices[l[i]];
      SpanMirrors(indices, i, l[i], k, c);
    }
  }

  lemma FitMirrors(ds: seq<Delimiter>, part: seq<Delimiter>, indices: seq<int>, scope: seq<int>, m: Pairing,
                   l: Pairing)
    requires Embeds(ds, part, indices, scope) && Mirrors(indices, m, l) && FitPairs(ds, m) && Nested(ds, m)
    ensures FitPairs(part, l) && Nested(part, l)
  {
    forall i | i in l
      ensures 0 <= i < l[i] < |part| && Fit(part[i], part[l[i]]) && l[i] !in l
    {
      SameOrder(indices, i, l[i]);
    }
    forall i, j | i in l && j in l && i < j
      ensures l[i] < j || l[j] < l[i]
    {
      SameOrder(indices, i, j);
      SameOrder(indices, l[i], j);
      SameOrder(indices, l[j], l[i]);
    }
  }

  /** What follows the rules in the text follows them in every scope. */
  lemma MirrorFollows(ds: seq<Delimiter>, part: seq<Delimiter>, indices: seq<int>, scope: seq<int>, m: Pairing,
                      l: Pairing)
    requires Embeds(ds, part, indices, scope) && Mirrors(indices, m, l) && Follows(ds, m)
    ensures Follows(part, l)
  {
    FitMirrors(ds, part, indices, scope, m, l);
    forall k, c | 0 <= k < c < |part|
      ensures Closes(part, l, k, c)
    {
      TakenMirrors(ds, part, indices, scope, m, l, k, c);
      SameOrder(indices, k, c);
      assert Closes(ds, m, indices[k], indices[c]);
      if Fit(part[k], part[c]) && !Taken(part, l, k, c) {
        var o :| o in m && m[o] == indices[c] && indices[k] <= o;
        var i := PlaceOf(ds, part, indices, scope, o);
        SameOrder(indices, l[i], c);
        SameOrder(indices, i, k);
      }
    }
  }

  // ---------------------------------------------------------------------
  // The reference pairing

  ghost function Part(ds: seq<Delimiter>, scope: seq<int>): seq<Delimiter> {
    Select(ds, ScopeMembers(ds, scope))
  }

  lemma PartEmbeds(ds: seq<Delimiter>, scope: seq<int>)
    ensures Embeds(ds, Part(ds, scope), ScopeMembers(ds, scope), scope)
  {
  }

  lemma PairsFit(ds: seq<Delimiter>, scope: seq<int>, i: int)
    requires i in ScopePairs(ds, scope)
    ensures 0 <= i < ScopePairs(ds, scope)[i] < |ScopeMembers(ds, scope)|
  {
    var part := Part(ds, scope);
    PairsNest(part, |part|);
  }

  lemma PairAt(ds: seq<Delimiter>, scope: seq<int>, indices: seq<int>, i: int, c: int)
    requires indices == ScopeMembers(ds, scope) && 0 <= i < |indices| && Ascending(indices)
    requires 0 <= indices[i] < |ds| && ds[indices[i]].scope == scope
    ensures IsPair(ds, indices[i], c) <==>
      i in ScopePairs(ds, scope) && 0 <= ScopePairs(ds, scope)[i] < |indices| && indices[ScopePairs(ds, scope)[i]] == c
  {
    forall j | 0 <= j < |indices| && indices[j] == indices[i] { SameOrder(indices, i, j); }
  }

  lemma ReferenceMirrors(ds: seq<Delimiter>, scope: seq<int>)
    ensures Mirrors(ScopeMembers(ds, scope), Reference(ds), ScopePairs(ds, scope))
  {
    var indices, pairs := ScopeMembers(ds, scope), ScopePairs(ds, scope);
    PartEmbeds(ds, scope);
    forall i | i in pairs { PairsFit(ds, scope, i); }
    forall i | 0 <= i < |indices|
      ensures i in pairs <==> indices[i] in Reference(ds)
      ensures i in pairs ==> Reference(ds)[indices[i]] == indices[pairs[i]]
    {
      MirroredAt(ds, scope, indices, i);
    }
  }

  lemma MirroredAt(ds: seq<Delimiter>, scope: seq<int>, indices: seq<int>, i: int)
    requires indices == ScopeMembers(ds, scope) && 0 <= i < |indices| && Ascending(indices)
    requires 0 <= indices[i] < |ds| && ds[indices[i]].scope == scope
    ensures i in ScopePairs(ds, scope) <==> indices[i] in Reference(ds)
    ensures i in ScopePairs(ds, scope) ==>
      && 0 <= ScopePairs(ds, scope)[i] < |indices|
      && Reference(ds)[indices[i]] == indices[ScopePairs(ds, scope)[i]]
  {
    var pairs := ScopePairs(ds, scope);
    if i in pairs {
      PairsFit(ds, scope, i);
      PairAt(ds, scope, indices, i, indices[pairs[i]]);
    }
    if indices[i] in Reference(ds) { PairAt(ds, scope, indices, i, Reference(ds)[indices[i]]); }
  }

  lemma PartFollows(ds: seq<Delimiter>, scope: seq<int>)
    ensures OneScope(Part(ds, scope)) && Follows(Part(ds, scope), ScopePairs(ds, scope))
  {
    var part := Part(ds, scope);
    PartEmbeds(ds, scope);
    PlainFollows(part, |part|);
    PairsNest(part, |part|);
    LaminarIsNested(part, ScopePairs(ds, scope), |part|);
  }

  /** Pairs that follow the rules in every scope follow them in the text. */
  lemma LiftFits(ds: seq<Delimiter>, part: seq<Delimiter>, indices: seq<int>, scope: seq<int>, m: Pairing, l: Pairing,
                 o: int)
    requires Embeds(ds, part, indices, scope) && Mirrors(indices, m, l) && Follows(part, l)
    requires o in m && 0 <= o < |ds| && ds[o].scope == scope
    ensures 0 <= o < m[o] < |ds| && Fit(ds[o], ds[m[o]]) && m[o] !in m
  {
    var i := PlaceOf(ds, part, indices, scope, o);
    SameOrder(indices, i, l[i]);
  }

  lemma LiftNests(ds: seq<Delimiter>, part: seq<Delimiter>, indices: seq<int>, scope: seq<int>, m: Pairing, l: Pairing,
                  o: int, p: int)
    requires Embeds(ds, part, indices, scope) && Mirrors(indices, m, l) && Follows(part, l)
    requires o in m && p in m && 0 <= o < p < |ds| && ds[o].scope == ds[p].scope == scope
    ensures m[o] < p || m[p] < m[o]
  {
    var i := PlaceOf(ds, part, indices, scope, o);
    var j := PlaceOf(ds, part, indices, scope, p);
    SameOrder(indices, i, j);
    SameOrder(indices, l[i], j);
    SameOrder(indices, l[j], l[i]);
  }

  lemma LiftCloses(ds: seq<Delimiter>, part: seq<Delimiter>, indices: seq<int>, scope: seq<int>, m: Pairing, l: Pairing,
                   k: int, c: int)
    requires Embeds(ds, part, indices, scope) && Mirrors(indices, m, l) && Follows(part, l)
    requires 0 <= k < c < |ds| && ds[k].scope == scope
    ensures Closes(ds, m, k, c)
  {
    if Fit(ds[k], ds[c]) && !Taken(ds, m, k, c) {
      var i := PlaceOf(ds, part, indices, scope, k);
      var j := PlaceOf(ds, part, indices, scope, c);
      SameOrder(indices, i, j);
      TakenMirrors(ds, part, indices, scope, m, l, i, j);
      assert Closes(part, l, i, j);
      var h :| h in l && l[h] == j && i <= h;
      SameOrder(indices, h, i);
      assert indices[h] in m;
    }
  }

  lemma ScopeFollows(ds: seq<Delimiter>, scope: seq<int>)
    ensures Embeds(ds, Part(ds, scope), ScopeMembers(ds, scope), scope)
    ensures Mirrors(ScopeMembers(ds, scope), Reference(ds), ScopePairs(ds, scope))
    ensures Follows(Part(ds, scope), ScopePairs(ds, scope))
  {
    PartEmbeds(ds, scope);
    PartFollows(ds, scope);
    ReferenceMirrors(ds, scope);
  }

  lemma ReferenceFits(ds: seq<Delimiter>)
    ensures FitPairs(ds, Reference(ds))
  {
    var m := Reference(ds);
    forall o | o in m
      ensures 0 <= o < m[o] < |ds| && Fit(ds[o], ds[m[o]]) && m[o] !in m
    {
      var s := ds[o].scope;
      ScopeFollows(ds, s);
      LiftFits(ds, Part(ds, s), ScopeMembers(ds, s), s, m, ScopePairs(ds, s), o);
    }
  }

  lemma ReferenceNests(ds: seq<Delimiter>, o: int, p: int)
    requires o in Reference(ds) && p in Reference(ds) && o < p && ds[o].scope == ds[p].scope
    ensures Reference(ds)[o] < p || Reference(ds)[p] < Reference(ds)[o]
  {
    var s := ds[o].scope;
    ScopeFollows(ds, s);
    LiftNests(ds, Part(ds, s), ScopeMembers(ds, s), s, Reference(ds), ScopePairs(ds, s), o, p);
  }

  lemma ReferenceCloses(ds: seq<Delimiter>, k: int, c: int)
    requires 0 <= k < c < |ds|
    ensures Closes(ds, Reference(ds), k, c)
  {
    var s := ds[k].scope;
    ScopeFollows(ds, s);
    LiftCloses(ds, Part(ds, s), ScopeMembers(ds, s), s, Reference(ds), ScopePairs(ds, s), k, c);
  }

  /** The reference pairing follows the rules. */
  lemma ReferenceFollows(ds: seq<Delimiter>)
    ensures Follows(ds, Reference(ds))
  {
    var m := Reference(ds);
    ReferenceFits(ds);
    forall o, p | o in m && p in m && o < p && ds[o].scope == ds[p].scope
      ensures m[o] < p || m[p] < m[o]
    {
      ReferenceNests(ds, o, p);
    }
    forall k, c | 0 <= k < c < |ds| { ReferenceCloses(ds, k, c); }
  }

  ghost function PlaceIn(indices: seq<int>, g: int): int {
    if g in indices then (var i :| 0 <= i < |indices| && indices[i] == g; i) else -1
  }

  /** The part of a pairing in one scope. */
  ghost function Local(indices: seq<int>, m: Pairing): Pairing {
    map i | 0 <= i < |indices| && indices[i] in m :: PlaceIn(indices, m[indices[i]])
  }

  lemma LocalMirrors(ds: seq<Delimiter>, part: seq<Delimiter>, indices: seq<int>, scope: seq<int>, m: Pairing)
    requires Embeds(ds, part, indices, scope) && FitPairs(ds, m)
    ensures Mirrors(indices, m, Local(indices, m))
  {
    forall i | 0 <= i < |indices| && indices[i] in m
      ensures m[indices[i]] in indices
    {
      var c := m[indices[i]];
      assert Fit(ds[indices[i]], ds[c]);
      var j := PlaceOf(ds, part, indices, scope, c);
    }
  }

  /** Nothing else does: the rules leave no choice. */
  lemma OnlyReferenceFollows(ds: seq<Delimiter>, m: Pairing)
    requires Follows(ds, m)
    ensures m == Reference(ds)
  {
    forall o | 0 <= o < |ds|
      ensures o in m <==> o in Reference(ds)
      ensures o in m ==> m[o] == Reference(ds)[o]
    {
      SameCloser(ds, m, o);
    }
  }

  lemma OnlyPlainMirrors(ds: seq<Delimiter>, part: seq<Delimiter>, indices: seq<int>, scope: seq<int>, m: Pairing)
    requires Embeds(ds, part, indices, scope) && Follows(ds, m)
    ensures Mirrors(indices, m, Plain(part, |part|))
  {
    var local := Local(indices, m);
    LocalMirrors(ds, part, indices, scope, m);
    MirrorFollows(ds, part, indices, scope, m, local);
    OnlyPlainFollows(part, local, |part|);
    assert Before(local, |part|) == local;
  }

  lemma LocalIsScopePairs(ds: seq<Delimiter>, m: Pairing, scope: seq<int>)
    requires Follows(ds, m)
    ensures Mirrors(ScopeMembers(ds, scope), m, ScopePairs(ds, scope))
  {
    PartEmbeds(ds, scope);
    OnlyPlainMirrors(ds, Part(ds, scope), ScopeMembers(ds, scope), scope, m);
  }

  lemma SameCloser(ds: seq<Delimiter>, m: Pairing, o: int)
    requires Follows(ds, m) && 0 <= o < |ds|
    ensures o in m <==> o in Reference(ds)
    ensures o in m ==> m[o] == Reference(ds)[o]
  {
    var scope := ds[o].scope;
    PartEmbeds(ds, scope);
    LocalIsScopePairs(ds, m, scope);
    ReferenceMirrors(ds, scope);
    var i := PlaceOf(ds, Part(ds, scope), ScopeMembers(ds, scope), scope, o);
  }

  // ---------------------------------------------------------------------
  // What is left of a text

  /** A pair of tildes spans the position, and no line break is there. */
  ghost predicate Gone(text: string, ds: seq<Delimiter>, m: Pairing, p: int)
    requires 0 <= p < |text|
  {
    text[p] != '\r' && text[p] != '\n'
    && exists o :: o in m && 0 <= o < |ds| && 0 <= m[o] < |ds| && ds[o].marker == '~' && ds[o].start <= p < ds[m[o]].end
  }

  /** `kept` has the positions from `i` on that are not gone, and `r` what is there. */
  ghost predicate Spells(text: string, ds: seq<Delimiter>, m: Pairing, i: int, kept: seq<int>, r: string) {
    && Ascending(kept) && |kept| == |r|
    && (forall k :: 0 <= k < |kept| ==> 0 <= i <= kept[k] < |text| && r[k] == text[kept[k]])
    && (forall p :: 0 <= p < |text| ==> (p in kept <==> i <= p && !Gone(text, ds, m, p)))
  }

  lemma SpellsNext(text: string, ds: seq<Delimiter>, m: Pairing, i: int, kept: seq<int>, r: string)
    requires 0 <= i < |text| && Spells(text, ds, m, i + 1, kept, r)
    ensures if Gone(text, ds, m, i) then Spells(text, ds, m, i, kept, r)
            else Spells(text, ds, m, i, [i] + kept, [text[i]] + r)
  {
    assert forall p :: p in [i] + kept <==> p == i || p in kept;
  }

  lemma GoneIsStruck(text: string, ds: seq<Delimiter>, m: Pairing, i: int)
    requires 0 <= i < |text|
    ensures Gone(text, ds, m, i) <==> Struck(ds, m, i) && !LineBreak(text[i])
  {
  }

  lemma {:induction false} KeptPositions(text: string, ds: seq<Delimiter>, m: Pairing, i: nat) returns (kept: seq<int>)
    requires i <= |text|
    ensures Spells(text, ds, m, i, kept, Unstruck(text, ds, m, i))
    decreases |text| - i
  {
    if i == |text| {
      kept := [];
    } else {
      kept := KeptPositions(text, ds, m, i + 1);
      SpellsNext(text, ds, m, i, kept, Unstruck(text, ds, m, i + 1));
      GoneIsStruck(text, ds, m, i);
      if !Gone(text, ds, m, i) { kept := [i] + kept; }
    }
  }

  /** The pass keeps, in order, the characters outside every pair of tildes that the rules give, and all line breaks. */
  lemma StrippedText(text: string, ds: seq<Delimiter>, m: Pairing) returns (kept: seq<int>)
    requires Follows(ds, m)
    ensures Spells(text, ds, m, 0, kept, Unstruck(text, ds, Reference(ds), 0))
  {
    OnlyReferenceFollows(ds, m);
    kept := KeptPositions(text, ds, m, 0);
  }
}
