/** Pairing emphasis and strikethrough delimiters of one link scope.

    The reference is a plain scan: every closer looks backwards, one delimiter at a time, for the nearest
    opener that is still free. The program finds the same pairs with a jump table and with lower bounds
    for each class of closer. */
module Delimiters {

  /** One delimiter. `run` is where its delimiter run starts, `length` the length of the run (0 for tildes). */
  datatype Delimiter = Delimiter(start: int, end: int, open: bool, close: bool, marker: char, run: int, length: nat,
                                 scope: seq<int>)

  /** Pairs found so far: opener to closer. */
  type Pairing = map<int, int>

  predicate IsCloser(m: Pairing, j: int) {
    exists o :: o in m && m[o] == j
  }

  predicate Enclosed(m: Pairing, j: int) {
    exists o :: o in m && o < j < m[o]
  }

  /** The rule of three of section 6.2 of CommonMark 0.31.2, for a closer of the given class. */
  predicate OddMatch(opener: Delimiter, open: bool, length: nat) {
    && (opener.close || open)
    && (opener.length + length) % 3 == 0
    && (opener.length % 3 != 0 || length % 3 != 0)
  }

  /** The delimiter can no longer open: it never could, or it is used or enclosed. */
  predicate Dead(ds: seq<Delimiter>, m: Pairing, j: int)
    requires 0 <= j < |ds|
  {
    !ds[j].open || j in m || IsCloser(m, j) || Enclosed(m, j)
  }

  predicate Eligible(ds: seq<Delimiter>, m: Pairing, j: int, c: int)
    requires 0 <= j < |ds| && 0 <= c < |ds|
  {
    && ds[j].run != ds[c].run
    && ds[j].marker == ds[c].marker
    && !Dead(ds, m, j)
    && !OddMatch(ds[j], ds[c].open, ds[c].length)
  }

  /** The plain scan: the nearest eligible opener at or before `j`, or -1. */
  function Nearest(ds: seq<Delimiter>, m: Pairing, c: int, j: int): (o: int)
    requires 0 <= c < |ds| && -1 <= j < |ds|
    ensures -1 <= o <= j
    decreases j
  {
    if j < 0 then -1
    else if Eligible(ds, m, j, c) then j
    else Nearest(ds, m, c, j - 1)
  }

  /** The reference: closers in order, each by the plain scan. */
  function Plain(ds: seq<Delimiter>, n: nat): Pairing
    requires n <= |ds|
  {
    if n == 0 then map[]
    else
      var m := Plain(ds, n - 1);
      var o := if ds[n - 1].close then Nearest(ds, m, n - 1, n - 2) else -1;
      if o >= 0 then m[o := n - 1] else m
  }

  // ---------------------------------------------------------------------
  // The pairs of the reference are nested

  ghost predicate Laminar(m: Pairing, n: int) {
    && (forall o :: o in m ==> 0 <= o < m[o] < n && m[o] !in m)
    && (forall o, p :: o in m && p in m && o < p ==> m[o] < p || m[p] < m[o])
  }

  lemma {:induction false} NearestEligible(ds: seq<Delimiter>, m: Pairing, c: int, j: int)
    requires 0 <= c < |ds| && -1 <= j < |ds|
    ensures var o := Nearest(ds, m, c, j);
            && (o >= 0 ==> Eligible(ds, m, o, c))
            && (forall k :: o < k <= j ==> !Eligible(ds, m, k, c))
    decreases j
  {
    if j >= 0 && !Eligible(ds, m, j, c) { NearestEligible(ds, m, c, j - 1); }
  }

  lemma NearestIs(ds: seq<Delimiter>, m: Pairing, c: int, j: int, o: int)
    requires 0 <= c < |ds| && -1 <= o <= j < |ds|
    requires o >= 0 ==> Eligible(ds, m, o, c)
    requires forall k :: o < k <= j ==> !Eligible(ds, m, k, c)
    ensures Nearest(ds, m, c, j) == o
  {
    NearestEligible(ds, m, c, j);
  }

  lemma LaminarNext(m: Pairing, o: int, c: int)
    requires Laminar(m, c) && 0 <= o < c && o !in m && !IsCloser(m, o) && !Enclosed(m, o)
    ensures Laminar(m[o := c], c + 1)
  {
    var next := m[o := c];
    forall p | p in m
      ensures m[p] != o && !(p < o < m[p])
    {
    }
  }

  /** An opener before a closer of the same marker and of another run. */
  predicate Paired(ds: seq<Delimiter>, o: int, c: int) {
    0 <= o < c < |ds| && ds[o].open && ds[c].close && ds[o].marker == ds[c].marker && ds[o].run != ds[c].run
  }

  /** No pairs cross, and no delimiter is used twice. */
  lemma {:induction false} PairsNest(ds: seq<Delimiter>, n: nat)
    requires n <= |ds|
    ensures Laminar(Plain(ds, n), n)
    ensures forall o :: o in Plain(ds, n) ==> Paired(ds, o, Plain(ds, n)[o])
  {
    if n == 0 {
    } else {
      PairsNest(ds, n - 1);
      var m := Plain(ds, n - 1);
      if ds[n - 1].close {
        NearestEligible(ds, m, n - 1, n - 2);
        var o := Nearest(ds, m, n - 1, n - 2);
        if o >= 0 { LaminarNext(m, o, n - 1); }
      }
    }
  }

  // ---------------------------------------------------------------------
  // The tables of the program

  /** Delimiters come run by run. */
  predicate RunsInOrder(ds: seq<Delimiter>) {
    forall i, j :: 0 <= i < j < |ds| ==> ds[i].run <= ds[j].run
  }

  /** The region that a jump from `j` skips holds dead delimiters only. */
  predicate SkipsDead(ds: seq<Delimiter>, m: Pairing, jumps: seq<int>, j: int)
    requires 0 <= j < |ds| == |jumps|
  {
    && 0 <= jumps[j] <= j
    && forall k :: j - jumps[j] <= k < j ==> Dead(ds, m, k)
  }

  /** A jump from outside every pair lands outside every pair. */
  predicate LandsOutside(m: Pairing, jumps: seq<int>, j: int)
    requires 0 <= j < |jumps|
  {
    !Enclosed(m, j) && jumps[j] < j ==> !Enclosed(m, j - jumps[j] - 1)
  }

  ghost predicate Tables(ds: seq<Delimiter>, m: Pairing, open: seq<bool>, close: seq<bool>, matched: seq<int>,
                         jumps: seq<int>, n: int) {
    && 0 <= n <= |ds| == |open| == |close| == |matched| == |jumps|
    && Laminar(m, n)
    && (forall j :: 0 <= j < |ds| ==> open[j] == (ds[j].open && !IsCloser(m, j)))
    && (forall j :: 0 <= j < |ds| ==> close[j] == (ds[j].close && j !in m))
    && (forall j :: 0 <= j < |ds| ==> matched[j] == if j in m then m[j] else -1)
    && (forall j :: 0 <= j < n ==> SkipsDead(ds, m, jumps, j) && LandsOutside(m, jumps, j))
    && (forall j :: n <= j < |ds| ==> jumps[j] == 0)
  }

  /** A closer of class `slot` (rule-of-three residue, plus 3 if it can also open) cannot match `j`. */
  predicate Barred(ds: seq<Delimiter>, m: Pairing, j: int, marker: char, slot: int)
    requires 0 <= j < |ds| && 0 <= slot < 6
  {
    Dead(ds, m, j) || ds[j].marker != marker || OddMatch(ds[j], slot >= 3, slot % 3)
  }

  ghost predicate Bounded(ds: seq<Delimiter>, m: Pairing, marker: char, slot: int, bottom: int)
    requires 0 <= slot < 6
  {
    -1 <= bottom < |ds| && forall j :: 0 <= j <= bottom ==> Barred(ds, m, j, marker, slot)
  }

  ghost predicate Bounds(ds: seq<Delimiter>, m: Pairing, bottoms: map<char, seq<int>>) {
    forall marker :: marker in bottoms ==>
      |bottoms[marker]| == 6 && forall slot :: 0 <= slot < 6 ==> Bounded(ds, m, marker, slot, bottoms[marker][slot])
  }

  function Slot(d: Delimiter): (slot: int)
    ensures 0 <= slot < 6
  {
    (if d.open then 3 else 0) + d.length % 3
  }

  lemma BarredIsIneligible(ds: seq<Delimiter>, m: Pairing, j: int, c: int)
    requires 0 <= j < |ds| && 0 <= c < |ds|
    ensures Barred(ds, m, j, ds[c].marker, Slot(ds[c])) <==>
      Dead(ds, m, j) || ds[j].marker != ds[c].marker || OddMatch(ds[j], ds[c].open, ds[c].length)
  {
    var slot, length := Slot(ds[c]), ds[c].length;
    assert slot % 3 == length % 3 && (slot >= 3 <==> ds[c].open);
    assert (ds[j].length + slot % 3) % 3 == (ds[j].length + length) % 3;
  }

  lemma CloserNext(m: Pairing, o: int, c: int, j: int)
    requires o !in m
    ensures IsCloser(m[o := c], j) <==> IsCloser(m, j) || j == c
    ensures Enclosed(m[o := c], j) <==> Enclosed(m, j) || o < j < c
  {
    var next := m[o := c];
    if IsCloser(m, j) { var p :| p in m && m[p] == j; assert p in next && next[p] == j; }
    if j == c { assert next[o] == j; }
    if Enclosed(m, j) { var p :| p in m && p < j < m[p]; assert p in next && p < j < next[p]; }
    if o < j < c { assert o in next && o < j < next[o]; }
  }

  lemma DeadGrows(ds: seq<Delimiter>, m: Pairing, o: int, c: int, j: int)
    requires 0 <= j < |ds| && o !in m && Dead(ds, m, j)
    ensures Dead(ds, m[o := c], j)
  {
    CloserNext(m, o, c, j);
  }

  /** A new pair only adds dead delimiters, so lower bounds stay valid. */
  lemma BoundsGrow(ds: seq<Delimiter>, m: Pairing, o: int, c: int, bottoms: map<char, seq<int>>)
    requires o !in m && Bounds(ds, m, bottoms)
    ensures Bounds(ds, m[o := c], bottoms)
  {
    forall marker, slot | marker in bottoms && 0 <= slot < 6 {
      BoundGrows(ds, m, o, c, marker, slot, bottoms[marker][slot]);
    }
  }

  lemma BoundGrows(ds: seq<Delimiter>, m: Pairing, o: int, c: int, marker: char, slot: int, bottom: int)
    requires o !in m && 0 <= slot < 6 && Bounded(ds, m, marker, slot, bottom)
    ensures Bounded(ds, m[o := c], marker, slot, bottom)
  {
    var next := m[o := c];
    forall j | 0 <= j <= bottom
      ensures Barred(ds, next, j, marker, slot)
    {
      assert Barred(ds, m, j, marker, slot);
      if Dead(ds, m, j) { DeadGrows(ds, m, o, c, j); }
    }
  }

  /** A delimiter that no pair encloses and that closes none has an unenclosed left neighbour. */
  lemma LeftNeighbour(m: Pairing, j: int)
    requires !Enclosed(m, j) && !IsCloser(m, j)
    ensures !Enclosed(m, j - 1)
  {
    forall o | o in m
      ensures !(o < j - 1 < m[o])
    {
      assert !(o < j < m[o]) && m[o] != j;
    }
  }

  /** The last delimiter is outside every pair. */
  lemma LastOutside(m: Pairing, n: int)
    requires Laminar(m, n)
    ensures !Enclosed(m, n) && !Enclosed(m, n - 1)
  {
  }

  lemma TablesSkip(ds: seq<Delimiter>, m: Pairing, open: seq<bool>, close: seq<bool>, matched: seq<int>,
                   jumps: seq<int>, c: int)
    requires Tables(ds, m, open, close, matched, jumps, c) && c < |ds|
    ensures Tables(ds, m, open, close, matched, jumps, c + 1)
  {
    LastOutside(m, c);
  }

  /** How far the jump table may skip below an opener that has just been used. */
  function LastJump(open: seq<bool>, jumps: seq<int>, o: int): int
    requires 0 <= o < |open| == |jumps|
  {
    if o > 0 && !open[o - 1] then jumps[o - 1] + 1 else 0
  }

  lemma LastJumpSound(ds: seq<Delimiter>, m: Pairing, open: seq<bool>, close: seq<bool>, matched: seq<int>,
                      jumps: seq<int>, c: int, o: int)
    requires Tables(ds, m, open, close, matched, jumps, c) && 0 <= o < c < |ds|
    requires !Enclosed(m, o) && !IsCloser(m, o)
    ensures var l := LastJump(open, jumps, o);
            && 0 <= l <= o
            && (forall k :: o - l <= k < o ==> Dead(ds, m, k))
            && (l < o ==> !Enclosed(m, o - l - 1))
  {
    LeftNeighbour(m, o);
    if o > 0 && !open[o - 1] {
      assert SkipsDead(ds, m, jumps, o - 1) && LandsOutside(m, jumps, o - 1);
    }
  }

  /** Recording a match keeps every table right. */
  lemma TablesMatch(ds: seq<Delimiter>, m: Pairing, open: seq<bool>, close: seq<bool>, matched: seq<int>,
                    jumps: seq<int>, c: int, o: int)
    requires Tables(ds, m, open, close, matched, jumps, c) && 0 <= o < c < |ds|
    requires !Dead(ds, m, o)
    ensures var l := LastJump(open, jumps, o);
            Tables(ds, m[o := c], open[c := false], close[o := false], matched[o := c],
                   jumps[c := c - o + l][o := l], c + 1)
  {
    var next, l := m[o := c], LastJump(open, jumps, o);
    var jumps' := jumps[c := c - o + l][o := l];
    LastJumpSound(ds, m, open, close, matched, jumps, c, o);
    LaminarNext(m, o, c);
    forall j { CloserNext(m, o, c, j); }
    forall j | 0 <= j < c + 1
      ensures SkipsDead(ds, next, jumps', j) && LandsOutside(next, jumps', j)
    {
      if j == c || j == o {
        MatchedJump(ds, m, c, o, l, jumps', j);
      } else {
        OtherJump(ds, m, c, o, jumps, jumps', j);
      }
    }
  }

  lemma MatchedJump(ds: seq<Delimiter>, m: Pairing, c: int, o: int, l: int, jumps': seq<int>, j: int)
    requires 0 <= o < c < |ds| == |jumps'| && Laminar(m, c) && o !in m && 0 <= l <= o
    requires forall k :: o - l <= k < o ==> Dead(ds, m, k)
    requires l < o ==> !Enclosed(m, o - l - 1)
    requires (j == o && jumps'[j] == l) || (j == c && jumps'[j] == c - o + l)
    ensures SkipsDead(ds, m[o := c], jumps', j) && LandsOutside(m[o := c], jumps', j)
  {
    var next := m[o := c];
    forall k | j - jumps'[j] <= k < j
      ensures Dead(ds, next, k)
    {
      CloserNext(m, o, c, k);
      if k < o { DeadGrows(ds, m, o, c, k); }
    }
    CloserNext(m, o, c, o - l - 1);
  }

  lemma OtherJump(ds: seq<Delimiter>, m: Pairing, c: int, o: int, jumps: seq<int>, jumps': seq<int>, j: int)
    requires 0 <= o < c < |ds| == |jumps| == |jumps'| && o !in m && 0 <= j < c && j != o
    requires jumps'[j] == jumps[j] && SkipsDead(ds, m, jumps, j) && LandsOutside(m, jumps, j)
    ensures SkipsDead(ds, m[o := c], jumps', j) && LandsOutside(m[o := c], jumps', j)
  {
    var next := m[o := c];
    forall k | j - jumps'[j] <= k < j
      ensures Dead(ds, next, k)
    {
      DeadGrows(ds, m, o, c, k);
    }
    CloserNext(m, o, c, j);
    CloserNext(m, o, c, j - jumps[j] - 1);
  }

  // ---------------------------------------------------------------------
  // The header of a run

  /** From `header` to `c` one run; below it nothing of that run is still alive. */
  ghost predicate Headed(ds: seq<Delimiter>, m: Pairing, header: int, c: int)
    requires 0 <= c < |ds|
  {
    && 0 <= header <= c
    && (forall k :: header <= k <= c ==> ds[k].run == ds[c].run)
    && (forall k :: 0 <= k < header ==> ds[k].run != ds[c].run || Dead(ds, m, k))
    && (forall k :: header <= k < c ==> !IsCloser(m, k))
  }

  /** What is known about the run when the scan reaches closer `c`: either the last delimiter was not
      matched and its run is remembered, or it was matched (or there is none) and nothing is remembered. */
  ghost predicate Remembered(ds: seq<Delimiter>, m: Pairing, header: int, last: bool, run: int, c: int)
    requires 0 <= c <= |ds|
  {
    if c == 0 then !last && m == map[]
    else if last then run == ds[c - 1].run && Headed(ds, m, header, c - 1) && !IsCloser(m, c - 1)
    else exists o :: o in m && m[o] == c - 1 && Paired(ds, o, c - 1)
  }

  lemma HeaderKept(ds: seq<Delimiter>, m: Pairing, header: int, run: int, c: int)
    requires 0 < c < |ds| && Remembered(ds, m, header, true, run, c) && run == ds[c].run
    ensures Headed(ds, m, header, c)
  {
  }

  lemma HeaderReset(ds: seq<Delimiter>, m: Pairing, header: int, last: bool, run: int, c: int)
    requires RunsInOrder(ds) && 0 <= c < |ds| && Remembered(ds, m, header, last, run, c) && (last ==> run != ds[c].run)
    ensures Headed(ds, m, c, c)
  {
    forall k | 0 <= k < c
      ensures ds[k].run != ds[c].run || Dead(ds, m, k)
    {
      if last {
        assert ds[k].run <= ds[c - 1].run <= ds[c].run;
      } else if ds[k].run == ds[c].run {
        var o :| o in m && m[o] == c - 1 && Paired(ds, o, c - 1);
        assert ds[k].run == ds[c - 1].run;
        if k < c - 1 {
          assert o < k < m[o];
          assert Enclosed(m, k);
        } else {
          assert IsCloser(m, k);
        }
      }
    }
  }

  /** The scan starts below the header, past dead delimiters only, outside every pair. */
  lemma StartSound(ds: seq<Delimiter>, m: Pairing, open: seq<bool>, close: seq<bool>, matched: seq<int>,
                   jumps: seq<int>, header: int, c: int)
    requires 0 <= c < |ds| && Tables(ds, m, open, close, matched, jumps, c) && Headed(ds, m, header, c)
    ensures var start := header - jumps[header] - 1;
            && -1 <= start < header
            && (start >= 0 ==> !Enclosed(m, start))
            && forall k :: start < k < header ==> Dead(ds, m, k)
  {
    LastOutside(m, c);
    if header < c {
      forall o | o in m
        ensures !(o < header < m[o])
      {
        assert m[o] < c;
        assert IsCloser(m, m[o]);
      }
      assert SkipsDead(ds, m, jumps, header) && LandsOutside(m, jumps, header);
    }
  }

  /** Finding nothing eligible below the header means that the plain scan finds nothing either; finding the
      nearest live match below it means that the plain scan finds the same. */
  lemma ScanAgrees(ds: seq<Delimiter>, m: Pairing, header: int, c: int, o: int)
    requires 0 <= c < |ds| && Headed(ds, m, header, c) && -1 <= o < header
    requires o >= 0 ==> !Dead(ds, m, o) && !Barred(ds, m, o, ds[c].marker, Slot(ds[c]))
    requires forall k :: o < k < header ==> Barred(ds, m, k, ds[c].marker, Slot(ds[c]))
    ensures Nearest(ds, m, c, c - 1) == o
  {
    forall k | o < k <= c - 1
      ensures !Eligible(ds, m, k, c)
    {
      if k < header { BarredIsIneligible(ds, m, k, c); }
    }
    if o >= 0 { BarredIsIneligible(ds, m, o, c); }
    NearestIs(ds, m, c, c - 1, o);
  }

  // ---------------------------------------------------------------------
  // The program

  /** Follows the jump table down from `start` until a match or the lower bound of the class. */
  method ScanBack(ds: seq<Delimiter>, open: array<bool>, close: array<bool>, matched: array<int>, jumps: array<int>,
                  c: int, start: int, minimum: int, ghost m: Pairing) returns (o: int)
    requires 0 <= c < |ds| && Tables(ds, m, open[..], close[..], matched[..], jumps[..], c)
    requires -1 <= start < c && (start >= 0 ==> !Enclosed(m, start))
    requires Bounded(ds, m, ds[c].marker, Slot(ds[c]), minimum)
    ensures -1 <= o <= start
    ensures o >= 0 ==> !Dead(ds, m, o) && !Barred(ds, m, o, ds[c].marker, Slot(ds[c]))
    ensures forall k :: o < k <= start ==> Barred(ds, m, k, ds[c].marker, Slot(ds[c]))
  {
    var marker, length := ds[c].marker, ds[c].length;
    o := start;
    while o > minimum
      invariant -1 <= o <= start && (o >= 0 ==> !Enclosed(m, o))
      invariant forall k :: o < k <= start ==> Barred(ds, m, k, marker, Slot(ds[c]))
    {
      BarredIsIneligible(ds, m, o, c);
      assert open[..][o] == open[o] && close[..][o] == close[o] && matched[..][o] == matched[o]
        && open[..][c] == open[c];
      if ds[o].marker == marker && open[o] && matched[o] < 0 {
        var odd := false;
        if close[o] || open[c] {
          if (ds[o].length + length) % 3 == 0 && (ds[o].length % 3 != 0 || length % 3 != 0) {
            odd := true;
          }
        }
        if !odd { return; }
      }
      assert SkipsDead(ds, m, jumps[..], o) && LandsOutside(m, jumps[..], o);
      o := o - jumps[o] - 1;
    }
    o := -1;
  }

  /** Records a match in the four tables. */
  method RecordMatch(ds: seq<Delimiter>, open: array<bool>, close: array<bool>, matched: array<int>, jumps: array<int>,
                     c: int, o: int, ghost m: Pairing)
    requires open != close && matched != jumps
    requires 0 <= o < c < |ds| && Tables(ds, m, open[..], close[..], matched[..], jumps[..], c) && !Dead(ds, m, o)
    modifies open, close, matched, jumps
    ensures Tables(ds, m[o := c], open[..], close[..], matched[..], jumps[..], c + 1)
  {
    TablesMatch(ds, m, open[..], close[..], matched[..], jumps[..], c, o);
    ghost var open', close', matched', jumps' := open[..], close[..], matched[..], jumps[..];
    var lastJump := if o > 0 && !open[o - 1] then jumps[o - 1] + 1 else 0;
    assert lastJump == LastJump(open', jumps', o);
    jumps[c] := c - o + lastJump;
    jumps[o] := lastJump;
    open[c] := false;
    matched[o] := c;
    close[o] := false;
    assert open[..] == open'[c := false] && close[..] == close'[o := false] && matched[..] == matched'[o := c];
    assert jumps[..] == jumps'[c := c - o + lastJump][o := lastJump];
  }

  function FreshBottoms(bottoms: map<char, seq<int>>, marker: char): map<char, seq<int>> {
    if marker in bottoms then bottoms else bottoms[marker := [-1, -1, -1, -1, -1, -1]]
  }

  lemma FreshBounds(ds: seq<Delimiter>, m: Pairing, bottoms: map<char, seq<int>>, marker: char)
    requires Bounds(ds, m, bottoms)
    ensures Bounds(ds, m, FreshBottoms(bottoms, marker))
  {
  }

  /** A failed search is remembered as a lower bound for its class. */
  lemma MissBounds(ds: seq<Delimiter>, m: Pairing, bottoms: map<char, seq<int>>, marker: char, slot: int, start: int,
                   header: int)
    requires Bounds(ds, m, bottoms) && marker in bottoms && 0 <= slot < 6 && -1 <= start < header < |ds|
    requires forall k :: -1 < k < header ==> Barred(ds, m, k, marker, slot)
    ensures Bounds(ds, m, bottoms[marker := bottoms[marker][slot := start]])
  {
    var next := bottoms[marker := bottoms[marker][slot := start]];
    forall mk, s | mk in next && 0 <= s < 6
      ensures Bounded(ds, m, mk, s, next[mk][s])
    {
      if mk != marker || s != slot { assert Bounded(ds, m, mk, s, bottoms[mk][s]); }
    }
  }

  lemma PlainNext(ds: seq<Delimiter>, m: Pairing, c: nat, o: int)
    requires c < |ds| && m == Plain(ds, c) && (ds[c].close ==> o == Nearest(ds, m, c, c - 1))
      && (!ds[c].close ==> o == -1)
    ensures Plain(ds, c + 1) == if o >= 0 then m[o := c] else m
  {
  }

  /** After a miss the run stays remembered. */
  lemma MissRemembered(ds: seq<Delimiter>, m: Pairing, header: int, c: int)
    requires 0 <= c < |ds| && Headed(ds, m, header, c) && Laminar(m, c)
    ensures Remembered(ds, m, header, true, ds[c].run, c + 1)
  {
  }

  lemma MatchRemembered(ds: seq<Delimiter>, m: Pairing, header: int, run: int, c: int, o: int)
    requires 0 <= o < c < |ds| && Eligible(ds, m, o, c) && ds[c].close
    ensures Remembered(ds, m[o := c], header, false, run, c + 1)
  {
    var next := m[o := c];
    assert o in next && next[o] == c && Paired(ds, o, c);
  }

  /** Handles one closer: finds its opener and records the pair, or records the failure as a lower bound. */
  method CloseOne(ds: seq<Delimiter>, open: array<bool>, close: array<bool>, matched: array<int>, jumps: array<int>,
                  c: nat, header: int, bottoms: map<char, seq<int>>)
    returns (bottoms': map<char, seq<int>>, found: bool)
    requires open != close && matched != jumps && c < |ds| && ds[c].close
    requires Tables(ds, Plain(ds, c), open[..], close[..], matched[..], jumps[..], c)
    requires Bounds(ds, Plain(ds, c), bottoms) && Headed(ds, Plain(ds, c), header, c)
    modifies open, close, matched, jumps
    ensures Tables(ds, Plain(ds, c + 1), open[..], close[..], matched[..], jumps[..], c + 1)
    ensures Bounds(ds, Plain(ds, c + 1), bottoms')
    ensures Remembered(ds, Plain(ds, c + 1), header, !found, ds[c].run, c + 1)
  {
    ghost var m := Plain(ds, c);
    FreshBounds(ds, m, bottoms, ds[c].marker);
    bottoms' := FreshBottoms(bottoms, ds[c].marker);
    assert open[c] == open[..][c] == ds[c].open;
    var slot := (if open[c] then 3 else 0) + ds[c].length % 3;
    var minimum := bottoms'[ds[c].marker][slot];
    assert Bounded(ds, m, ds[c].marker, Slot(ds[c]), minimum);
    var start := header - jumps[header] - 1;
    StartSound(ds, m, open[..], close[..], matched[..], jumps[..], header, c);
    var o := ScanBack(ds, open, close, matched, jumps, c, start, minimum, m);
    ScanAgrees(ds, m, header, c, o);
    PlainNext(ds, m, c, o);
    found := o >= 0;
    if found {
      NearestEligible(ds, m, c, c - 1);
      MatchRemembered(ds, m, header, ds[c].run, c, o);
      BoundsGrow(ds, m, o, c, bottoms');
      RecordMatch(ds, open, close, matched, jumps, c, o, m);
    } else {
      TablesSkip(ds, m, open[..], close[..], matched[..], jumps[..], c);
      MissRemembered(ds, m, header, c);
      MissBounds(ds, m, bottoms', ds[c].marker, slot, start, header);
      if start != -1 {
        bottoms' := bottoms'[ds[c].marker := bottoms'[ds[c].marker][slot := start]];
      }
    }
  }

  lemma EmptyTables(ds: seq<Delimiter>, open: seq<bool>, close: seq<bool>, matched: seq<int>, jumps: seq<int>)
    requires |ds| == |open| == |close| == |matched| == |jumps|
    requires forall i :: 0 <= i < |ds| ==>
      open[i] == ds[i].open && close[i] == ds[i].close && matched[i] == -1 && jumps[i] == 0
    ensures Tables(ds, map[], open, close, matched, jumps, 0)
  {
  }

  method NewTables(ds: seq<Delimiter>)
    returns (open: array<bool>, close: array<bool>, matched: array<int>, jumps: array<int>)
    ensures fresh(open) && fresh(close) && fresh(matched) && fresh(jumps) && open != close && matched != jumps
    ensures Tables(ds, map[], open[..], close[..], matched[..], jumps[..], 0)
  {
    var n := |ds|;
    open := new bool[n](i requires 0 <= i < n => ds[i].open);
    close := new bool[n](i requires 0 <= i < n => ds[i].close);
    matched := new int[n](i => -1);
    jumps := new int[n](i => 0);
    EmptyTables(ds, open[..], close[..], matched[..], jumps[..]);
  }

  /** The header for closer `c`: kept inside a remembered run, otherwise `c` itself. */
  method HeaderFor(ds: seq<Delimiter>, c: nat, header: int, remembered: bool, run: int, ghost m: Pairing)
    returns (header': int)
    requires RunsInOrder(ds) && c < |ds| && Remembered(ds, m, header, remembered, run, c)
    ensures Headed(ds, m, header', c)
  {
    if !remembered || run != ds[c].run {
      HeaderReset(ds, m, header, remembered, run, c);
      header' := c;
    } else {
      HeaderKept(ds, m, header, run, c);
      header' := header;
    }
  }

  /** A run that closes nothing changes no pair and no table. */
  lemma LeaveOut(ds: seq<Delimiter>, open: seq<bool>, close: seq<bool>, matched: seq<int>, jumps: seq<int>,
                 header: int, c: nat)
    requires c < |ds| && !ds[c].close && Headed(ds, Plain(ds, c), header, c)
    requires Tables(ds, Plain(ds, c), open, close, matched, jumps, c)
    ensures Plain(ds, c + 1) == Plain(ds, c)
    ensures Tables(ds, Plain(ds, c + 1), open, close, matched, jumps, c + 1)
    ensures Remembered(ds, Plain(ds, c + 1), header, true, ds[c].run, c + 1)
  {
    PlainNext(ds, Plain(ds, c), c, -1);
    MissRemembered(ds, Plain(ds, c), header, c);
    TablesSkip(ds, Plain(ds, c), open, close, matched, jumps, c);
  }

  /** The jump table and the lower bounds find exactly the pairs of the plain scan. */
  method MatchScope(ds: seq<Delimiter>) returns (matched: array<int>)
    requires RunsInOrder(ds)
    ensures fresh(matched) && matched.Length == |ds|
    ensures forall j :: 0 <= j < |ds| ==> matched[..][j] == if j in Plain(ds, |ds|) then Plain(ds, |ds|)[j] else -1
  {
    var open, close, jumps;
    open, close, matched, jumps := NewTables(ds);
    var bottoms: map<char, seq<int>> := map[];
    var header, remembered, run := 0, false, 0;
    for c := 0 to |ds|
      invariant Tables(ds, Plain(ds, c), open[..], close[..], matched[..], jumps[..], c)
      invariant Bounds(ds, Plain(ds, c), bottoms)
      invariant Remembered(ds, Plain(ds, c), header, remembered, run, c)
    {
      header := HeaderFor(ds, c, header, remembered, run, Plain(ds, c));
      run := ds[c].run;
      var closes := close[c];
      assert closes == close[..][c];
      if closes {
        var found;
        bottoms, found := CloseOne(ds, open, close, matched, jumps, c, header, bottoms);
        remembered := !found;
      } else {
        LeaveOut(ds, open[..], close[..], matched[..], jumps[..], header, c);
        remembered := true;
      }
    }
  }
}
