/** Removing struck-through text: delimiters are paired scope by scope, the spans of tilde pairs are merged,
    and their text is blanked except for line breaks. */
module Strikethrough {
  import opened Delimiters

  // ---------------------------------------------------------------------
  // Link scopes

  /** The delimiters of a scope among the first n, in order. */
  function Members(ds: seq<Delimiter>, scope: seq<int>, n: nat): (indices: seq<int>)
    requires n <= |ds|
    ensures forall i :: 0 <= i < |indices| ==> 0 <= indices[i] < n && ds[indices[i]].scope == scope
    ensures forall i, j :: 0 <= i < j < |indices| ==> indices[i] < indices[j]
    ensures forall g :: 0 <= g < n && ds[g].scope == scope ==> g in indices
  {
    if n == 0 then []
    else if ds[n - 1].scope == scope then Members(ds, scope, n - 1) + [n - 1]
    else Members(ds, scope, n - 1)
  }

  function Select(ds: seq<Delimiter>, indices: seq<int>): seq<Delimiter>
    requires forall i :: 0 <= i < |indices| ==> 0 <= indices[i] < |ds|
  {
    seq(|indices|, i requires 0 <= i < |indices| => ds[indices[i]])
  }

  function ScopeMembers(ds: seq<Delimiter>, scope: seq<int>): seq<int> {
    Members(ds, scope, |ds|)
  }

  function ScopePairs(ds: seq<Delimiter>, scope: seq<int>): Pairing {
    var sub := Select(ds, ScopeMembers(ds, scope));
    Plain(sub, |sub|)
  }

  /** The reference pairing of the whole text: `o` opens and `c` closes, in one scope, by the plain scan. */
  ghost predicate IsPair(ds: seq<Delimiter>, o: int, c: int) {
    0 <= o < |ds| &&
    var indices, pairs := ScopeMembers(ds, ds[o].scope), ScopePairs(ds, ds[o].scope);
    exists i ::
      0 <= i < |indices| && indices[i] == o && i in pairs && 0 <= pairs[i] < |indices| && indices[pairs[i]] == c
  }

  /** The pairs of the whole text as a map from opener to closer. */
  ghost function Reference(ds: seq<Delimiter>): Pairing {
    map o | 0 <= o < |ds| && (exists c :: IsPair(ds, o, c)) :: CloserOf(ds, o)
  }

  ghost function CloserOf(ds: seq<Delimiter>, o: int): int
    requires exists c :: IsPair(ds, o, c)
  {
    var c :| IsPair(ds, o, c); c
  }

  /** `matched` is the pairing as a table. */
  ghost predicate Tabulates(matched: seq<int>, pairs: Pairing) {
    && (forall o :: o in pairs ==> 0 <= o < pairs[o] < |matched|)
    && (forall o :: 0 <= o < |matched| ==> matched[o] == if o in pairs then pairs[o] else -1)
  }

  /** `matched` holds the closer of every opener of the scope and -1 for every other delimiter of it. */
  ghost predicate ScopeMatched(ds: seq<Delimiter>, matched: seq<int>, scope: seq<int>)
    requires |matched| == |ds|
  {
    var indices, pairs := ScopeMembers(ds, scope), ScopePairs(ds, scope);
    forall i :: 0 <= i < |indices| ==>
      matched[indices[i]] == if i in pairs && 0 <= pairs[i] < |indices| then indices[pairs[i]] else -1
  }

  lemma SelectKeepsRuns(ds: seq<Delimiter>, indices: seq<int>)
    requires RunsInOrder(ds)
    requires forall i :: 0 <= i < |indices| ==> 0 <= indices[i] < |ds|
    requires forall i, j :: 0 <= i < j < |indices| ==> indices[i] < indices[j]
    ensures RunsInOrder(Select(ds, indices))
  {
  }

  /** Groups the delimiters by scope, in order of appearance. */
  method GroupScopes(ds: seq<Delimiter>) returns (groups: map<seq<int>, seq<int>>)
    ensures forall scope :: scope in groups ==> groups[scope] == ScopeMembers(ds, scope)
    ensures forall g :: 0 <= g < |ds| ==> ds[g].scope in groups
  {
    groups := map[];
    for n := 0 to |ds|
      invariant forall scope :: Members(ds, scope, n) == if scope in groups then groups[scope] else []
      invariant forall g :: 0 <= g < n ==> ds[g].scope in groups
    {
      var scope := ds[n].scope;
      var previous := if scope in groups then groups[scope] else [];
      groups := groups[scope := previous + [n]];
    }
  }

  /** Copies the pairs of one scope into the table of the whole text. */
  method Scatter(matched: array<int>, indices: seq<int>, local: array<int>)
    requires matched != local && local.Length == |indices|
    requires forall i :: 0 <= i < |indices| ==> 0 <= indices[i] < matched.Length && -1 <= local[i] < |indices|
    requires forall i, j :: 0 <= i < j < |indices| ==> indices[i] < indices[j]
    modifies matched
    ensures forall k :: 0 <= k < |indices| ==> matched[indices[k]] == if local[k] >= 0 then indices[local[k]] else -1
    ensures forall g :: 0 <= g < matched.Length && g !in indices ==> matched[g] == old(matched[g])
  {
    for i := 0 to |indices|
      invariant forall k :: 0 <= k < i ==> matched[indices[k]] == if local[k] >= 0 then indices[local[k]] else -1
      invariant forall g :: 0 <= g < matched.Length && g !in indices ==> matched[g] == old(matched[g])
    {
      matched[indices[i]] := if local[i] >= 0 then indices[local[i]] else -1;
    }
  }

  lemma ScopePairsInside(ds: seq<Delimiter>, scope: seq<int>, i: int)
    requires i in ScopePairs(ds, scope)
    ensures 0 <= i < ScopePairs(ds, scope)[i] < |ScopeMembers(ds, scope)|
  {
    PairsNest(Select(ds, ScopeMembers(ds, scope)), |ScopeMembers(ds, scope)|);
  }

  /** Pairs one scope, and leaves the others as they are. */
  method MatchOneScope(ds: seq<Delimiter>, scope: seq<int>, indices: seq<int>, matched: array<int>)
    requires RunsInOrder(ds) && matched.Length == |ds| && indices == ScopeMembers(ds, scope)
    modifies matched
    ensures ScopeMatched(ds, matched[..], scope)
    ensures forall other :: other != scope && ScopeMatched(ds, old(matched[..]), other) ==>
      ScopeMatched(ds, matched[..], other)
  {
    SelectKeepsRuns(ds, indices);
    var local := MatchScope(Select(ds, indices));
    ghost var before := matched[..];
    LocalIsScope(ds, scope, local[..]);
    Scatter(matched, indices, local);
    ScopeScattered(ds, matched[..], scope, local[..]);
    forall other | other != scope && ScopeMatched(ds, before, other)
      ensures ScopeMatched(ds, matched[..], other)
    {
      OtherScope(ds, before, matched[..], scope, other);
    }
  }

  /** Pairs every scope on its own. */
  method MatchAll(ds: seq<Delimiter>) returns (matched: array<int>)
    requires RunsInOrder(ds)
    ensures fresh(matched) && matched.Length == |ds|
    ensures forall g :: 0 <= g < |ds| ==> ScopeMatched(ds, matched[..], ds[g].scope)
  {
    matched := new int[|ds|](i => -1);
    var groups := GroupScopes(ds);
    var todo := groups.Keys;
    while todo != {}
      invariant todo <= groups.Keys
      invariant forall scope :: scope in groups && scope !in todo ==> ScopeMatched(ds, matched[..], scope)
      decreases todo
    {
      var scope :| scope in todo;
      MatchOneScope(ds, scope, groups[scope], matched);
      todo := todo - {scope};
    }
  }

  lemma LocalIsScope(ds: seq<Delimiter>, scope: seq<int>, local: seq<int>)
    requires var sub := Select(ds, ScopeMembers(ds, scope));
             |local| == |sub|
               && forall j :: 0 <= j < |sub| ==> local[j] == if j in Plain(sub, |sub|) then Plain(sub, |sub|)[j] else -1
    ensures forall i :: 0 <= i < |local| ==> -1 <= local[i] < |ScopeMembers(ds, scope)|
    ensures forall i :: 0 <= i < |local| ==>
      local[i] == if i in ScopePairs(ds, scope) then ScopePairs(ds, scope)[i] else -1
  {
    forall i | 0 <= i < |local|
      ensures -1 <= local[i] < |ScopeMembers(ds, scope)|
    {
      if i in ScopePairs(ds, scope) { ScopePairsInside(ds, scope, i); }
    }
  }

  lemma ScopeScattered(ds: seq<Delimiter>, matched: seq<int>, scope: seq<int>, local: seq<int>)
    requires |matched| == |ds| && |local| == |ScopeMembers(ds, scope)|
    requires forall i :: 0 <= i < |local| ==>
      -1 <= local[i] < |local| && local[i] == if i in ScopePairs(ds, scope) then ScopePairs(ds, scope)[i] else -1
    requires forall k :: 0 <= k < |local| ==>
      matched[ScopeMembers(ds, scope)[k]] == if local[k] >= 0 then ScopeMembers(ds, scope)[local[k]] else -1
    ensures ScopeMatched(ds, matched, scope)
  {
    forall i | i in ScopePairs(ds, scope) { ScopePairsInside(ds, scope, i); }
  }

  lemma OtherScope(ds: seq<Delimiter>, before: seq<int>, after: seq<int>, scope: seq<int>, other: seq<int>)
    requires |before| == |after| == |ds| && scope != other && ScopeMatched(ds, before, other)
    requires forall g :: 0 <= g < |ds| && ds[g].scope != scope ==> after[g] == before[g]
    ensures ScopeMatched(ds, after, other)
  {
  }

  lemma SelectedPair(ds: seq<Delimiter>, scope: seq<int>, i: int)
    requires i in ScopePairs(ds, scope)
    ensures var indices, c := ScopeMembers(ds, scope), ScopePairs(ds, scope)[i];
            0 <= i < |indices| && 0 <= c < |indices| && Paired(ds, indices[i], indices[c])
  {
    var indices := ScopeMembers(ds, scope);
    PairsNest(Select(ds, indices), |indices|);
    assert Paired(Select(ds, indices), i, ScopePairs(ds, scope)[i]);
  }

  /** The table is exactly the reference pairing. */
  lemma MatchedIsPairing(ds: seq<Delimiter>, matched: seq<int>, o: int, c: int)
    requires |matched| == |ds| && (forall g :: 0 <= g < |ds| ==> ScopeMatched(ds, matched, ds[g].scope))
    ensures IsPair(ds, o, c) <==> 0 <= o < |ds| && c >= 0 && matched[o] == c
    ensures IsPair(ds, o, c) ==> Paired(ds, o, c) && ds[o].scope == ds[c].scope
  {
    if 0 <= o < |ds| {
      var scope := ds[o].scope;
      var indices, pairs := ScopeMembers(ds, scope), ScopePairs(ds, scope);
      assert ScopeMatched(ds, matched, scope);
      var i :| 0 <= i < |indices| && indices[i] == o;
      assert forall k :: 0 <= k < |indices| && indices[k] == o ==> k == i;
      if i in pairs { SelectedPair(ds, scope, i); }
    }
  }

  // ---------------------------------------------------------------------
  // Deleted intervals

  /** A half-open range of text positions. */
  datatype Interval = Interval(first: int, last: int)

  predicate Holds(v: Interval, i: int) { v.first <= i < v.last }

  predicate Covered(vs: seq<Interval>, i: int) {
    exists k :: 0 <= k < |vs| && Holds(vs[k], i)
  }

  predicate Before(u: Interval, v: Interval) {
    u.first < v.first || (u.first == v.first && u.last <= v.last)
  }

  predicate InOrder(vs: seq<Interval>) {
    forall i, j :: 0 <= i < j < |vs| ==> Before(vs[i], vs[j])
  }

  /** Puts an interval into its place of a sorted list. */
  function Insert(vs: seq<Interval>, v: Interval): (r: seq<Interval>)
    requires InOrder(vs)
    ensures InOrder(r) && forall u :: u in r <==> u in vs || u == v
  {
    if vs == [] then [v]
    else if Before(v, vs[0]) then
      assert forall u :: u in [v] + vs <==> u in vs || u == v;
      [v] + vs
    else
      var rest := Insert(vs[1..], v);
      assert vs == [vs[0]] + vs[1..];
      assert forall u :: u in vs[1..] ==> Before(vs[0], u);
      assert forall u :: u in rest ==> Before(vs[0], u);
      [vs[0]] + rest
  }

  ghost predicate DeletedBy(ds: seq<Delimiter>, matched: seq<int>, o: int, v: Interval)
    requires |matched| == |ds|
  {
    && 0 <= o < |ds| && 0 <= matched[o] < |ds| && ds[o].marker == '~'
    && v == Interval(ds[o].start, ds[matched[o]].end)
  }

  /** The spans of the tilde pairs, sorted. */
  method CollectIntervals(ds: seq<Delimiter>, matched: array<int>) returns (vs: seq<Interval>)
    requires matched.Length == |ds| && forall o :: 0 <= o < |ds| ==> -1 <= matched[o] < |ds|
    ensures InOrder(vs)
    ensures forall v :: v in vs <==> exists o :: DeletedBy(ds, matched[..], o, v)
  {
    vs := [];
    for n := 0 to |ds|
      invariant InOrder(vs)
      invariant forall v :: v in vs <==> exists o :: o < n && DeletedBy(ds, matched[..], o, v)
    {
      assert matched[..][n] == matched[n];
      if matched[n] >= 0 && ds[n].marker == '~' {
        var v := Interval(ds[n].start, ds[matched[n]].end);
        assert DeletedBy(ds, matched[..], n, v);
        vs := Insert(vs, v);
      }
    }
  }

  /** Increasing, with a gap between neighbours. */
  predicate Separate(vs: seq<Interval>) {
    && (forall i :: 0 <= i < |vs| ==> vs[i].first <= vs[i].last)
    && (forall i, j :: 0 <= i < j < |vs| ==> vs[i].last < vs[j].first)
  }

  predicate WithinText(vs: seq<Interval>, length: nat) {
    forall i :: 0 <= i < |vs| ==> 0 <= vs[i].first <= vs[i].last <= length
  }

  ghost predicate SameCover(us: seq<Interval>, vs: seq<Interval>) {
    forall i :: Covered(us, i) <==> Covered(vs, i)
  }

  lemma CoveredSnoc(vs: seq<Interval>, v: Interval, i: int)
    ensures Covered(vs + [v], i) <==> Covered(vs, i) || Holds(v, i)
  {
    var all := vs + [v];
    assert all[|vs|] == v;
    assert forall k :: 0 <= k < |vs| ==> all[k] == vs[k];
  }

  function Widen(top: Interval, v: Interval): Interval {
    Interval(top.first, if top.last < v.last then v.last else top.last)
  }

  lemma WidenCovers(body: seq<Interval>, top: Interval, v: Interval, done: seq<Interval>)
    requires SameCover(body + [top], done) && top.first <= v.first <= top.last
    ensures SameCover(body + [Widen(top, v)], done + [v])
  {
    forall i
      ensures Covered(body + [Widen(top, v)], i) <==> Covered(done + [v], i)
    {
      CoveredSnoc(body, Widen(top, v), i);
      CoveredSnoc(body, top, i);
      CoveredSnoc(done, v, i);
      assert Holds(Widen(top, v), i) <==> Holds(top, i) || Holds(v, i);
    }
  }

  lemma AppendCovers(merged: seq<Interval>, v: Interval, done: seq<Interval>)
    requires SameCover(merged, done)
    ensures SameCover(merged + [v], done + [v])
  {
    forall i
      ensures Covered(merged + [v], i) <==> Covered(done + [v], i)
    {
      CoveredSnoc(merged, v, i);
      CoveredSnoc(done, v, i);
    }
  }

  lemma MergeWidens(merged: seq<Interval>, v: Interval, done: seq<Interval>, length: nat)
    requires Separate(merged) && WithinText(merged, length) && WithinText([v], length) && SameCover(merged, done)
    requires merged != [] && merged[|merged| - 1].first <= v.first <= merged[|merged| - 1].last
    ensures var next := merged[..|merged| - 1] + [Widen(merged[|merged| - 1], v)];
            && Separate(next) && WithinText(next, length) && SameCover(next, done + [v])
            && next[|next| - 1].first == merged[|merged| - 1].first
  {
    var body, top := merged[..|merged| - 1], merged[|merged| - 1];
    assert merged == body + [top] && [v][0] == v;
    WidenCovers(body, top, v, done);
  }

  lemma MergeAppends(merged: seq<Interval>, v: Interval, done: seq<Interval>, length: nat)
    requires Separate(merged) && WithinText(merged, length) && WithinText([v], length) && SameCover(merged, done)
    requires merged != [] ==> merged[|merged| - 1].last < v.first
    ensures Separate(merged + [v]) && WithinText(merged + [v], length) && SameCover(merged + [v], done + [v])
  {
    assert [v][0] == v;
    AppendCovers(merged, v, done);
  }

  /** Merges touching and overlapping intervals: separate intervals with the same positions. */
  method Merge(vs: seq<Interval>, ghost length: nat) returns (merged: seq<Interval>)
    requires InOrder(vs) && WithinText(vs, length)
    ensures Separate(merged) && SameCover(merged, vs) && WithinText(merged, length)
  {
    merged := [];
    for n := 0 to |vs|
      invariant Separate(merged) && WithinText(merged, length)
      invariant merged != [] ==> forall k :: n <= k < |vs| ==> merged[|merged| - 1].first <= vs[k].first
      invariant SameCover(merged, vs[..n])
    {
      var v := vs[n];
      assert vs[..n + 1] == vs[..n] + [v];
      assert forall k :: n < k < |vs| ==> Before(v, vs[k]);
      if merged != [] && v.first <= merged[|merged| - 1].last {
        MergeWidens(merged, v, vs[..n], length);
        merged := merged[..|merged| - 1] + [Widen(merged[|merged| - 1], v)];
      } else {
        MergeAppends(merged, v, vs[..n], length);
        merged := merged + [v];
      }
    }
    assert vs[..|vs|] == vs;
  }

  // ---------------------------------------------------------------------
  // Blanking

  predicate LineBreak(c: char) { c == '\r' || c == '\n' }

  function LineBreaks(text: string): string {
    if text == "" then "" else (if LineBreak(text[0]) then [text[0]] else []) + LineBreaks(text[1..])
  }

  /** What is left of the text from position i: every position outside the intervals, and line breaks inside. */
  function Kept(text: string, vs: seq<Interval>, i: nat): string
    requires i <= |text|
    decreases |text| - i
  {
    if i == |text| then ""
    else (if !Covered(vs, i) || LineBreak(text[i]) then [text[i]] else []) + Kept(text, vs, i + 1)
  }

  lemma Regroup(a: string, b: string, c: string)
    ensures a + (b + c) == (a + b) + c
  {
  }

  lemma KeptStep(text: string, vs: seq<Interval>, i: nat)
    requires i < |text|
    ensures Kept(text, vs, i) == (if !Covered(vs, i) || LineBreak(text[i]) then [text[i]] else [])
      + Kept(text, vs, i + 1)
  {
  }

  lemma SliceStep(text: string, i: nat, j: nat)
    requires i < j <= |text|
    ensures text[i..j] == [text[i]] + text[i + 1..j]
  {
  }

  lemma {:induction false} KeptOutside(text: string, vs: seq<Interval>, i: nat, j: nat)
    requires i <= j <= |text| && forall k :: i <= k < j ==> !Covered(vs, k)
    ensures Kept(text, vs, i) == text[i..j] + Kept(text, vs, j)
    decreases j - i
  {
    if i == j {
      assert text[i..j] == "";
    } else {
      KeptOutside(text, vs, i + 1, j);
      KeptStep(text, vs, i);
      Regroup([text[i]], text[i + 1..j], Kept(text, vs, j));
      SliceStep(text, i, j);
    }
  }

  lemma {:induction false} KeptInside(text: string, vs: seq<Interval>, i: nat, j: nat)
    requires i <= j <= |text| && forall k :: i <= k < j ==> Covered(vs, k)
    ensures Kept(text, vs, i) == LineBreaks(text[i..j]) + Kept(text, vs, j)
    decreases j - i
  {
    if i == j {
      assert text[i..j] == "";
    } else {
      KeptInside(text, vs, i + 1, j);
      var head := if LineBreak(text[i]) then [text[i]] else [];
      KeptStep(text, vs, i);
      Regroup(head, LineBreaks(text[i + 1..j]), Kept(text, vs, j));
      assert text[i..j][0] == text[i] && text[i..j][1..] == text[i + 1..j];
      assert LineBreaks(text[i..j]) == head + LineBreaks(text[i + 1..j]);
    }
  }

  lemma SeparateCover(vs: seq<Interval>, n: nat, i: int)
    requires Separate(vs) && n < |vs|
    ensures vs[n].first <= i < vs[n].last ==> Covered(vs, i)
    ensures (n == 0 || vs[n - 1].last <= i) && i < vs[n].first ==> !Covered(vs, i)
  {
    if vs[n].first <= i < vs[n].last { assert Holds(vs[n], i); }
    forall k | 0 <= k < |vs|
      ensures (n == 0 || vs[n - 1].last <= i) && i < vs[n].first ==> !Holds(vs[k], i)
    {
    }
  }

  lemma BlankNext(text: string, vs: seq<Interval>, n: nat, cursor: nat)
    requires Separate(vs) && WithinText(vs, |text|) && n < |vs| && cursor == if n == 0 then 0 else vs[n - 1].last
    ensures cursor <= vs[n].first <= vs[n].last <= |text|
    ensures Kept(text, vs, cursor) == text[cursor..vs[n].first]
      + (LineBreaks(text[vs[n].first..vs[n].last]) + Kept(text, vs, vs[n].last))
  {
    var v := vs[n];
    assert cursor <= v.first <= v.last <= |text|;
    forall i | cursor <= i < v.last
      ensures Covered(vs, i) <==> v.first <= i
    {
      SeparateCover(vs, n, i);
    }
    KeptOutside(text, vs, cursor, v.first);
    KeptInside(text, vs, v.first, v.last);
  }

  lemma BlankEnd(text: string, vs: seq<Interval>, cursor: nat)
    requires Separate(vs) && WithinText(vs, |text|) && cursor == if vs == [] then 0 else vs[|vs| - 1].last
    requires cursor <= |text|
    ensures Kept(text, vs, cursor) == text[cursor..]
  {
    forall i | cursor <= i < |text|
      ensures !Covered(vs, i)
    {
    }
    KeptOutside(text, vs, cursor, |text|);
    assert text[cursor..|text|] + "" == text[cursor..];
  }

  /** Blanks the intervals, keeping their line breaks. */
  method Blank(text: string, vs: seq<Interval>) returns (r: string)
    requires Separate(vs) && WithinText(vs, |text|)
    ensures r == Kept(text, vs, 0)
  {
    r := "";
    var cursor := 0;
    for n := 0 to |vs|
      invariant 0 <= cursor <= |text| && cursor == if n == 0 then 0 else vs[n - 1].last
      invariant Kept(text, vs, 0) == r + Kept(text, vs, cursor)
    {
      var v := vs[n];
      BlankNext(text, vs, n, cursor);
      Regroup(r, text[cursor..v.first], LineBreaks(text[v.first..v.last]) + Kept(text, vs, v.last));
      r := r + text[cursor..v.first];
      Regroup(r, LineBreaks(text[v.first..v.last]), Kept(text, vs, v.last));
      r := r + LineBreaks(text[v.first..v.last]);
      cursor := v.last;
    }
    BlankEnd(text, vs, cursor);
    r := r + text[cursor..];
  }

  // ---------------------------------------------------------------------
  // The whole pass

  /** Delimiters lie in the text, one after the other. */
  predicate Placed(ds: seq<Delimiter>, length: nat) {
    && (forall i :: 0 <= i < |ds| ==> 0 <= ds[i].start <= ds[i].end <= length)
    && (forall i, j :: 0 <= i < j < |ds| ==> ds[i].end <= ds[j].start)
  }

  /** The position lies in the span of a tilde pair. */
  predicate Struck(ds: seq<Delimiter>, pairs: Pairing, i: int) {
    exists o ::
      o in pairs && 0 <= o < |ds| && 0 <= pairs[o] < |ds| && ds[o].marker == '~' && ds[o].start <= i < ds[pairs[o]].end
  }

  /** What must be left of a text: everything that is not struck through, and every line break. */
  function Unstruck(text: string, ds: seq<Delimiter>, pairs: Pairing, i: nat): string
    requires i <= |text|
    decreases |text| - i
  {
    if i == |text| then ""
    else (if !Struck(ds, pairs, i) || LineBreak(text[i]) then [text[i]] else []) + Unstruck(text, ds, pairs, i + 1)
  }

  lemma {:induction false} KeptIsUnstruck(text: string, ds: seq<Delimiter>, pairs: Pairing, vs: seq<Interval>, i: nat)
    requires i <= |text| && forall k :: Covered(vs, k) <==> Struck(ds, pairs, k)
    ensures Kept(text, vs, i) == Unstruck(text, ds, pairs, i)
    decreases |text| - i
  {
    if i == |text| {
    } else {
      KeptIsUnstruck(text, ds, pairs, vs, i + 1);
    }
  }

  lemma CoveredIsStruck(ds: seq<Delimiter>, matched: seq<int>, pairs: Pairing, vs: seq<Interval>, i: int)
    requires |matched| == |ds| && Tabulates(matched, pairs)
    requires forall v :: v in vs <==> exists o :: DeletedBy(ds, matched, o, v)
    ensures Covered(vs, i) <==> Struck(ds, pairs, i)
  {
    if Covered(vs, i) {
      var k :| 0 <= k < |vs| && Holds(vs[k], i);
      assert vs[k] in vs;
      var o :| DeletedBy(ds, matched, o, vs[k]);
      assert o in pairs;
    }
    if Struck(ds, pairs, i) {
      var o :| o in pairs && 0 <= o < |ds| && 0 <= pairs[o] < |ds| && ds[o].marker == '~'
        && ds[o].start <= i < ds[pairs[o]].end;
      var v := Interval(ds[o].start, ds[pairs[o]].end);
      assert DeletedBy(ds, matched, o, v);
      assert v in vs;
      var k :| 0 <= k < |vs| && vs[k] == v;
      assert Holds(vs[k], i);
    }
  }

  lemma ReferencePair(ds: seq<Delimiter>, matched: seq<int>, o: int)
    requires |matched| == |ds|
      && (forall g :: 0 <= g < |ds| ==> ScopeMatched(ds, matched, ds[g].scope)) && 0 <= o < |ds|
    ensures matched[o] == if o in Reference(ds) then Reference(ds)[o] else -1
    ensures o in Reference(ds) ==> o < Reference(ds)[o] < |ds|
  {
    if o in Reference(ds) {
      MatchedIsPairing(ds, matched, o, Reference(ds)[o]);
    } else {
      MatchedIsPairing(ds, matched, o, matched[o]);
      MatchedAtLeast(ds, matched, o);
    }
  }

  lemma MatchedAtLeast(ds: seq<Delimiter>, matched: seq<int>, o: int)
    requires |matched| == |ds| && 0 <= o < |ds| && ScopeMatched(ds, matched, ds[o].scope)
    ensures -1 <= matched[o]
  {
    var indices := ScopeMembers(ds, ds[o].scope);
    var i :| 0 <= i < |indices| && indices[i] == o;
  }

  lemma MatchedTabulates(ds: seq<Delimiter>, matched: seq<int>)
    requires |matched| == |ds| && (forall g :: 0 <= g < |ds| ==> ScopeMatched(ds, matched, ds[g].scope))
    ensures Tabulates(matched, Reference(ds))
  {
    forall o | 0 <= o < |ds| { ReferencePair(ds, matched, o); }
  }

  lemma IntervalsFit(ds: seq<Delimiter>, matched: seq<int>, pairs: Pairing, vs: seq<Interval>, length: nat)
    requires |matched| == |ds| && Tabulates(matched, pairs) && Placed(ds, length)
    requires forall v :: v in vs <==> exists o :: DeletedBy(ds, matched, o, v)
    ensures WithinText(vs, length)
  {
    forall k | 0 <= k < |vs|
      ensures 0 <= vs[k].first <= vs[k].last <= length
    {
      assert vs[k] in vs;
      var o :| DeletedBy(ds, matched, o, vs[k]);
      assert o in pairs;
    }
  }

  /** The pass removes exactly the text that the reference pairing strikes through, and keeps every line break. */
  method StripDeleted(text: string, ds: seq<Delimiter>) returns (r: string)
    requires RunsInOrder(ds) && Placed(ds, |text|)
    ensures r == Unstruck(text, ds, Reference(ds), 0)
  {
    var matched := MatchAll(ds);
    MatchedTabulates(ds, matched[..]);
    r := StripPairs(text, ds, matched, Reference(ds));
  }

  method StripPairs(text: string, ds: seq<Delimiter>, matched: array<int>, ghost pairs: Pairing) returns (r: string)
    requires matched.Length == |ds| && Tabulates(matched[..], pairs) && Placed(ds, |text|)
    ensures r == Unstruck(text, ds, pairs, 0)
  {
    assert forall o :: 0 <= o < |ds| ==> matched[o] == matched[..][o];
    var vs := CollectIntervals(ds, matched);
    IntervalsFit(ds, matched[..], pairs, vs, |text|);
    var merged := Merge(vs, |text|);
    r := Blank(text, merged);
    forall i { CoveredIsStruck(ds, matched[..], pairs, vs, i); }
    KeptIsUnstruck(text, ds, pairs, merged, 0);
  }
}
