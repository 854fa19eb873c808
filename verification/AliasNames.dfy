/** Aliases for host and account names in one capture. Collectors write numbered markers; once all names are known every
    marker is replaced by an alias that is no name of the capture. */
module AliasNames {
  import opened Decimals
  import opened Sets

  datatype Kind = Hostname | User

  datatype Identity = Identity(kind: Kind, name: string)

  /** 10^10: up to this many names an alias is no longer than its marker. */
  const NAME_LIMIT := 10_000_000_000

  // Names

  predicate IsLetter(c: char) {
    'a' <= c <= 'z' || 'A' <= c <= 'Z'
  }

  predicate IsToken(s: string) {
    && 1 <= |s| <= 253 && (IsLetter(s[0]) || IsDigit(s[0]) || s[0] == '_')
    && forall i :: 0 <= i < |s| ==> IsLetter(s[i]) || IsDigit(s[i]) || s[i] in "_.-"
  }

  function LowerChar(c: char): char {
    if 'A' <= c <= 'Z' then (c as int + 32) as char else c
  }

  function Lower(s: string): (r: string)
    ensures |r| == |s| && forall i :: 0 <= i < |s| ==> r[i] == LowerChar(s[i])
  {
    seq(|s|, i requires 0 <= i < |s| => LowerChar(s[i]))
  }

  function StripDots(s: string): (r: string)
    ensures r <= s && (r != [] ==> r[|r| - 1] != '.')
  {
    if s != [] && s[|s| - 1] == '.' then StripDots(s[..|s| - 1]) else s
  }

  /** Names are compared without case and trailing dots. */
  function Norm(s: string): string {
    StripDots(Lower(s))
  }

  function KeyOf(kind: Kind, value: string): Identity {
    Identity(kind, if kind.Hostname? then Norm(value) else value)
  }

  /** Comparison drops exactly the dots at the end, and turns A to Z into a to z. */
  lemma {:induction false} NormMeans(s: string)
    ensures |Norm(s)| <= |s| && (Norm(s) != [] ==> s[|Norm(s)| - 1] != '.')
    ensures forall i :: |Norm(s)| <= i < |s| ==> s[i] == '.'
    ensures forall i :: 0 <= i < |Norm(s)| ==>
      Norm(s)[i] as int == s[i] as int + if 'A' <= s[i] <= 'Z' then 'a' as int - 'A' as int else 0
  {
    if s != [] && s[|s| - 1] == '.' {
      NormMeans(s[..|s| - 1]);
      assert Lower(s)[..|s| - 1] == Lower(s[..|s| - 1]);
    }
  }

  lemma NormTwice(s: string)
    ensures Norm(Norm(s)) == Norm(s)
  {
    assert Lower(Norm(s)) == Norm(s);
  }

  // Markers and aliases

  function KindName(kind: Kind): string {
    if kind.Hostname? then "hostname" else "user"
  }

  function Candidate(kind: Kind, count: nat): string {
    KindName(kind) + Padded(count)
  }

  const STEM := "@atlaso-identity-"

  function Marker(n: nat): string {
    STEM + Digits(n) + "@"
  }

  function Quoted(s: string): string {
    "\"" + s + "\""
  }

  lemma CandidatesDiffer(k: Kind, m: nat, l: Kind, n: nat)
    requires Candidate(k, m) == Candidate(l, n)
    ensures k == l && m == n
  {
    assert Candidate(k, m)[0] == KindName(k)[0];
    assert Candidate(l, n)[0] == KindName(l)[0];
    assert Candidate(k, m)[|KindName(k)|..] == Padded(m);
    assert Candidate(l, n)[|KindName(l)|..] == Padded(n);
    PaddedRead(m);
    PaddedRead(n);
  }

  lemma MarkersDiffer(m: nat, n: nat)
    requires Marker(m) == Marker(n)
    ensures m == n
  {
    assert Marker(m)[|STEM|..|Marker(m)| - 1] == Digits(m);
    assert Marker(n)[|STEM|..|Marker(n)| - 1] == Digits(n);
    DigitsRead(m);
    DigitsRead(n);
  }

  /** An alias is already in the form in which names are compared. */
  lemma CandidateIsNormal(k: Kind, n: nat)
    ensures Norm(Candidate(k, n)) == Candidate(k, n)
  {
    var c := Candidate(k, n);
    assert forall i :: 0 <= i < |KindName(k)| ==> 'a' <= KindName(k)[i] <= 'z';
    assert forall i :: 0 <= i < |Padded(n)| ==> IsDigit(Padded(n)[i]);
    assert forall i :: 0 <= i < |c| ==> 'a' <= c[i] <= 'z' || IsDigit(c[i]);
    assert Lower(c) == c;
  }

  // Choice of aliases

  predicate IsReserved(keys: seq<Identity>, s: string) {
    exists j :: 0 <= j < |keys| && s == Norm(keys[j].name)
  }

  /** Number `c` is beyond all numbers given to earlier names of the kind of name `i`. */
  predicate Beyond(keys: seq<Identity>, counts: seq<nat>, i: nat, c: nat)
    requires i < |keys| && i <= |counts|
  {
    c >= 1 && forall j :: 0 <= j < i && keys[j].kind == keys[i].kind ==> counts[j] < c
  }

  /** Every name gets the least number beyond the earlier ones of its kind whose alias is no name of the capture. */
  ghost predicate Chosen(keys: seq<Identity>, counts: seq<nat>, n: nat)
    requires n <= |counts| && n <= |keys|
  {
    forall i {:trigger Least(keys, counts, i, counts[i])} :: 0 <= i < n ==> Least(keys, counts, i, counts[i])
  }

  ghost predicate Least(keys: seq<Identity>, counts: seq<nat>, i: nat, c: nat)
    requires i < |keys| && i <= |counts|
  {
    && Beyond(keys, counts, i, c) && !IsReserved(keys, Candidate(keys[i].kind, c))
    && forall b: nat :: b < c && Beyond(keys, counts, i, b) ==> IsReserved(keys, Candidate(keys[i].kind, b))
  }

  lemma LeastAgrees(keys: seq<Identity>, a: seq<nat>, b: seq<nat>, i: nat, c: nat)
    requires i < |keys| && i <= |a| && i <= |b| && (forall j :: 0 <= j < i ==> a[j] == b[j]) && Least(keys, a, i, c)
    ensures Least(keys, b, i, c)
  {
    forall d: nat
      ensures Beyond(keys, a, i, d) <==> Beyond(keys, b, i, d)
    {
    }
  }

  lemma LeastIsUnique(keys: seq<Identity>, a: seq<nat>, i: nat, c: nat, d: nat)
    requires i < |keys| && i <= |a| && Least(keys, a, i, c) && Least(keys, a, i, d)
    ensures c == d
  {
    assert Beyond(keys, a, i, c) && Beyond(keys, a, i, d);
  }

  /** The choice depends on the names alone, so it is the same whenever it is made. */
  lemma {:induction false} ChoiceIsUnique(keys: seq<Identity>, a: seq<nat>, b: seq<nat>, n: nat)
    requires n <= |a| && n <= |b| && n <= |keys| && Chosen(keys, a, n) && Chosen(keys, b, n)
    ensures forall j :: 0 <= j < n ==> a[j] == b[j]
  {
    if n == 0 {
    } else {
      ChoiceIsUnique(keys, a, b, n - 1);
      assert Least(keys, a, n - 1, a[n - 1]) && Least(keys, b, n - 1, b[n - 1]);
      LeastAgrees(keys, b, a, n - 1, b[n - 1]);
      LeastIsUnique(keys, a, n - 1, a[n - 1], b[n - 1]);
    }
  }

  /** Aliases are pairwise distinct, and none is a name of the capture, without case and trailing dots. */
  lemma AliasesAreFresh(keys: seq<Identity>, counts: seq<nat>, i: nat, j: nat)
    requires |counts| == |keys| && Chosen(keys, counts, |keys|) && i < |keys| && j < |keys|
    ensures i != j ==> Candidate(keys[i].kind, counts[i]) != Candidate(keys[j].kind, counts[j])
    ensures Norm(Candidate(keys[i].kind, counts[i])) != Norm(keys[j].name)
  {
    assert Least(keys, counts, i, counts[i]) && Least(keys, counts, j, counts[j]);
    if Candidate(keys[i].kind, counts[i]) == Candidate(keys[j].kind, counts[j]) {
      CandidatesDiffer(keys[i].kind, counts[i], keys[j].kind, counts[j]);
    }
    CandidateIsNormal(keys[i].kind, counts[i]);
  }

  // Replacement

  function Aliases(keys: seq<Identity>, counts: seq<nat>): (r: seq<string>)
    requires |counts| == |keys|
    ensures |r| == |keys| && forall i :: 0 <= i < |keys| ==> r[i] == Candidate(keys[i].kind, counts[i])
  {
    seq(|keys|, i requires 0 <= i < |keys| => Candidate(keys[i].kind, counts[i]))
  }

  /** How name number `i` stands in a file before rendering. */
  function Mark(i: nat): string {
    Quoted(Marker(i + 1))
  }

  /** What each quoted marker is replaced by. */
  ghost predicate Replaces(table: map<string, string>, names: seq<string>) {
    && (forall i :: 0 <= i < |names| ==> Mark(i) in table && table[Mark(i)] == Quoted(names[i]))
    && forall m :: m in table ==> exists i :: 0 <= i < |names| && m == Mark(i)
  }

  const OPENING := "\"" + STEM
  const CLOSING := "@\""

  function DigitRun(s: string): (n: nat)
    ensures n <= |s| && (forall i :: 0 <= i < n ==> IsDigit(s[i])) && (n < |s| ==> !IsDigit(s[n]))
  {
    if s == [] || !IsDigit(s[0]) then 0 else 1 + DigitRun(s[1..])
  }

  /** The length of a quoted marker at the start of the text, or 0. */
  function MatchLength(s: string): (n: nat)
    ensures n <= |s|
  {
    if !(OPENING <= s) then 0
    else
      var d := DigitRun(s[|OPENING|..]);
      if d > 0 && CLOSING <= s[|OPENING| + d..] then |OPENING| + d + |CLOSING| else 0
  }

  /** Replaces quoted markers from left to right. */
  function Rendered(s: string, table: map<string, string>): string {
    if s == [] then []
    else if MatchLength(s) > 0 then
      var m := s[..MatchLength(s)];
      (if m in table then table[m] else m) + Rendered(s[MatchLength(s)..], table)
    else [s[0]] + Rendered(s[1..], table)
  }

  /** A file of plain text and quoted names, each name given by its number. */
  datatype Piece = Text(text: string) | Name(index: nat)

  /** The file with the given names. Those beyond the given ones stand as their markers, so a file that has not been
      rendered is written with no names at all. */
  function Written(pieces: seq<Piece>, names: seq<string>): string {
    if pieces == [] then []
    else
      (match pieces[0]
       case Text(text) => text
       case Name(i) => if i < |names| then Quoted(names[i]) else Mark(i)) + Written(pieces[1..], names)
  }

  /** Plain text in which no quoted marker starts, not even one that ends with the quote of a name that follows. */
  predicate Clean(t: string) {
    forall i :: 0 <= i < |t| ==> MatchLength(t[i..] + "\"") == 0
  }

  /** Clean texts, and no text right after another. */
  ghost predicate WellFormed(pieces: seq<Piece>) {
    && (forall i :: 0 <= i < |pieces| && pieces[i].Text? ==> Clean(pieces[i].text))
    && forall i :: 0 <= i < |pieces| - 1 ==> pieces[i].Name? || pieces[i + 1].Name?
  }

  /** The text starts with a marker of `n` characters. */
  predicate Marks(s: string, n: nat) {
    && 21 <= n <= |s| && s[..18] == "\"@atlaso-identity-" && s[n - 2..n] == "@\""
    && forall i :: 18 <= i < n - 2 ==> '0' <= s[i] <= '9'
  }

  /** What counts as a quoted marker: the stem and a number of any length, between quotes and at signs. */
  lemma MatchMeans(s: string, n: nat)
    ensures 0 < n == MatchLength(s) <==> Marks(s, n)
  {
    if 0 < n == MatchLength(s) { MatchMarks(s); }
    if Marks(s, n) { MarksMatch(s, n); }
  }

  lemma MatchMarks(s: string)
    requires MatchLength(s) > 0
    ensures Marks(s, MatchLength(s))
  {
    var n, d := MatchLength(s), DigitRun(s[18..]);
    assert |OPENING| == 18 && OPENING == "\"@atlaso-identity-";
    Tail(s, 18, d);
    forall i | 18 <= i < n - 2
      ensures IsDigit(s[i])
    {
      assert s[i] == s[18..][i - 18];
    }
  }

  lemma Tail(s: string, a: nat, d: nat)
    requires a + d + 2 <= |s|
    ensures s[a + d..a + d + 2] == s[a + d..][..2] && s[a..][d..] == s[a + d..]
  {
  }

  lemma {:induction false} RunIs(t: string, d: nat)
    requires d < |t| && (forall i :: 0 <= i < d ==> IsDigit(t[i])) && !IsDigit(t[d])
    ensures DigitRun(t) == d
  {
    if d == 0 {
    } else {
      RunIs(t[1..], d - 1);
    }
  }

  lemma DigitsIn(s: string, n: nat)
    requires Marks(s, n)
    ensures DigitRun(s[18..]) == n - 20
  {
    var t := s[18..];
    forall i | 0 <= i < n - 20
      ensures IsDigit(t[i])
    {
      assert t[i] == s[i + 18];
    }
    assert t[n - 20] == s[n - 2] == s[n - 2..n][0] == '@';
    RunIs(t, n - 20);
  }

  lemma MarksMatch(s: string, n: nat)
    requires Marks(s, n)
    ensures MatchLength(s) == n
  {
    assert |OPENING| == 18 && OPENING == "\"@atlaso-identity-";
    DigitsIn(s, n);
    Tail(s, 18, n - 20);
  }

  lemma {:induction false} RunStops(d: string, rest: string)
    requires (forall i :: 0 <= i < |d| ==> IsDigit(d[i])) && (rest != [] ==> !IsDigit(rest[0]))
    ensures DigitRun(d + rest) == |d|
  {
    if d != [] {
      RunStops(d[1..], rest);
      assert (d + rest)[1..] == d[1..] + rest;
    } else {
      assert d + rest == rest;
    }
  }

  /** A quoted marker is matched whole. */
  lemma MarkerMatches(n: nat, rest: string)
    ensures MatchLength(Quoted(Marker(n)) + rest) == |Quoted(Marker(n))|
  {
    var s := Quoted(Marker(n)) + rest;
    Enclosed(OPENING, Digits(n), CLOSING, rest, s);
    RunStops(Digits(n), CLOSING + rest);
  }

  lemma Enclosed(open: string, middle: string, close: string, rest: string, s: string)
    requires s == open + middle + close + rest
    ensures open <= s && s[|open|..] == middle + (close + rest) && s[|open| + |middle|..] == close + rest
  {
    assert s == open + (middle + (close + rest)) && s == (open + middle) + (close + rest);
  }

  lemma MarkerRenders(i: nat, rest: string, table: map<string, string>)
    ensures Rendered(Mark(i) + rest, table) ==
            (if Mark(i) in table then table[Mark(i)] else Mark(i)) + Rendered(rest, table)
  {
    var s := Mark(i) + rest;
    MarkerMatches(i + 1, rest);
    assert s[..|Mark(i)|] == Mark(i) && s[|Mark(i)|..] == rest;
  }

  /** Where a run of digits ends does not depend on what follows, unless that is a digit. */
  lemma {:induction false} RunEnds(t: string, rest: string)
    requires rest != [] ==> !IsDigit(rest[0])
    ensures DigitRun(t + rest) == DigitRun(t)
  {
    if t == [] {
      assert t + rest == rest;
    } else if IsDigit(t[0]) {
      RunEnds(t[1..], rest);
      assert (t + rest)[1..] == t[1..] + rest;
    }
  }

  /** A marker cannot open in a text and run into the quote of a name. */
  lemma OpeningInside(t: string, rest: string)
    requires t != [] && (rest == [] || rest[0] == '"') && OPENING <= t + rest
    ensures OPENING <= t
  {
    assert forall k :: 0 < k < |OPENING| ==> OPENING[k] != '"' && (t + rest)[k] == OPENING[k];
    assert |t| >= |OPENING| by {
      if rest != [] { assert (t + rest)[|t|] == '"'; }
    }
    assert t[..|OPENING|] == (t + rest)[..|OPENING|];
  }

  lemma ClosingAfter(t: string, rest: string)
    requires rest == [] || rest[0] == '"'
    ensures CLOSING <= t + rest ==> CLOSING <= t + "\""
  {
    if CLOSING <= t + rest {
      assert (t + rest)[0] == '@' && (t + rest)[1] == '"';
      assert t != [] && t[0] == '@';
      assert (t + "\"")[1] == '"';
    }
  }

  lemma RestOf(t: string, rest: string, n: nat)
    requires n <= |t|
    ensures (t + rest)[n..] == t[n..] + rest
  {
  }

  lemma CleanStart(t: string, rest: string)
    requires t != [] && MatchLength(t + "\"") == 0 && (rest == [] || rest[0] == '"')
    ensures MatchLength(t + rest) == 0
  {
    if OPENING <= t + rest {
      OpeningInside(t, rest);
      var n := |OPENING|;
      RestOf(t, rest, n);
      RestOf(t, "\"", n);
      RunEnds(t[n..], rest);
      RunEnds(t[n..], "\"");
      var d := DigitRun(t[n..]);
      RestOf(t, rest, n + d);
      RestOf(t, "\"", n + d);
      ClosingAfter(t[n + d..], rest);
    }
  }

  lemma HeadAndTail(t: string, rest: string, done: string)
    requires t != []
    ensures (t + rest)[0] == t[0] && (t + rest)[1..] == t[1..] + rest && t + done == [t[0]] + (t[1..] + done)
  {
    assert t == [t[0]] + t[1..];
  }

  lemma {:induction false} TextRenders(t: string, rest: string, table: map<string, string>)
    requires Clean(t) && (rest == [] || rest[0] == '"')
    ensures Rendered(t + rest, table) == t + Rendered(rest, table)
  {
    if t == [] {
      assert t + rest == rest;
    } else {
      assert forall i :: 0 <= i < |t[1..]| ==> t[1..][i..] == t[i + 1..];
      TextRenders(t[1..], rest, table);
      HeadAndTail(t, rest, Rendered(rest, table));
      assert t[0..] == t;
      CleanStart(t, rest);
    }
  }

  lemma MarksDiffer(i: nat, j: nat)
    requires i != j
    ensures Mark(i) != Mark(j)
  {
    if Mark(i) == Mark(j) {
      assert Mark(i)[1..|Mark(i)| - 1] == Marker(i + 1) && Mark(j)[1..|Mark(j)| - 1] == Marker(j + 1);
      MarkersDiffer(i + 1, j + 1);
    }
  }

  /** Only the markers of given names are replaced. */
  lemma UnknownStays(table: map<string, string>, names: seq<string>, i: nat)
    requires Replaces(table, names) && i >= |names|
    ensures Mark(i) !in table
  {
    if Mark(i) in table {
      var j :| 0 <= j < |names| && Mark(i) == Mark(j);
      MarksDiffer(i, j);
    }
  }

  /** Rendering turns every marker of a given name into its alias; it leaves other markers and all text as they are. */
  lemma {:induction false} RenderingRenames(pieces: seq<Piece>, names: seq<string>, table: map<string, string>)
    requires Replaces(table, names) && WellFormed(pieces)
    ensures Rendered(Written(pieces, []), table) == Written(pieces, names)
  {
    if pieces == [] {
    } else {
      var rest := Written(pieces[1..], []);
      RenderingRenames(pieces[1..], names, table);
      if pieces[0].Text? {
        assert pieces[1..] != [] ==> pieces[1..][0].Name?;
        TextRenders(pieces[0].text, rest, table);
      } else {
        MarkerRenders(pieces[0].index, rest, table);
        if pieces[0].index >= |names| { UnknownStays(table, names, pieces[0].index); }
      }
    }
  }

  /** Rendering does not lengthen a file if no alias is longer than its marker. */
  lemma {:induction false} RenderingShrinks(s: string, table: map<string, string>)
    requires forall m :: m in table ==> |table[m]| <= |m|
    ensures |Rendered(s, table)| <= |s|
    decreases |s|
  {
    if s != [] {
      var n := MatchLength(s);
      RenderingShrinks(s[if n > 0 then n else 1..], table);
    }
  }

  /** Exactly when an alias is no longer than its marker: a host number may have ten digits more than the number of the
      marker, a user number fourteen. */
  lemma AliasFits(kind: Kind, count: nat, i: nat)
    ensures |Quoted(Candidate(kind, count))| <= |Mark(i)| <==>
      count < Power(|Digits(i + 1)| + if kind.Hostname? then 10 else 14)
  {
    DigitsBounded(count, |Digits(i + 1)| + if kind.Hostname? then 10 else 14);
  }

  /** Below 10^10 names, an alias is no longer than the shortest marker. */
  lemma AliasFitsMarker(kind: Kind, count: nat, i: nat)
    requires count < 2 * NAME_LIMIT
    ensures |Quoted(Candidate(kind, count))| <= |Mark(i)|
  {
    DigitsBounded(count, 11);
  }

  // Operations

  /** The names of a capture in the form in which they are reserved. */
  method Reserved(keys: seq<Identity>) returns (reserved: set<string>)
    ensures |reserved| <= |keys| && forall s :: s in reserved <==> IsReserved(keys, s)
  {
    reserved := {};
    for i := 0 to |keys|
      invariant |reserved| <= i && forall s :: s in reserved <==> exists j :: 0 <= j < i && s == Norm(keys[j].name)
    {
      reserved := reserved + {Norm(keys[i].name)};
    }
  }

  ghost predicate IsCandidate(kind: Kind, low: nat, high: nat, s: string) {
    exists c: nat :: low < c < high && s == Candidate(kind, c)
  }

  /** No alias of a later number has been passed over. */
  ghost predicate Ahead(kind: Kind, last: nat, passed: set<string>) {
    forall c: nat :: c > last ==> Candidate(kind, c) !in passed
  }

  /** The next number whose alias is not reserved. The search ends, for it passes every reserved alias at most once. */
  method NextFree(kind: Kind, last: nat, reserved: set<string>, ghost passed: set<string>)
    returns (count: nat, ghost skipped: set<string>)
    requires passed <= reserved && Ahead(kind, last, passed)
    ensures count > last && Candidate(kind, count) !in reserved
      && forall c: nat :: last < c < count ==> Candidate(kind, c) in reserved
    ensures passed <= skipped <= reserved && |skipped| == |passed| + (count - last - 1)
    ensures forall s :: s in skipped && s !in passed ==> IsCandidate(kind, last, count, s)
  {
    count, skipped := last + 1, passed;
    while Candidate(kind, count) in reserved
      invariant count > last && passed <= skipped <= reserved && |skipped| == |passed| + (count - last - 1)
      invariant forall c: nat :: last < c < count ==> Candidate(kind, c) in reserved
      invariant forall s :: s in skipped && s !in passed ==> IsCandidate(kind, last, count, s)
      decreases reserved - skipped
    {
      NotYetPassed(kind, last, count, passed, skipped);
      PassedNext(kind, last, count, passed, skipped);
      count, skipped := count + 1, skipped + {Candidate(kind, count)};
    }
  }

  lemma PassedNext(kind: Kind, last: nat, count: nat, passed: set<string>, skipped: set<string>)
    requires count > last && forall s :: s in skipped && s !in passed ==> IsCandidate(kind, last, count, s)
    ensures forall s :: s in skipped + {Candidate(kind, count)} && s !in passed ==>
      IsCandidate(kind, last, count + 1, s)
  {
    forall s | s in skipped + {Candidate(kind, count)} && s !in passed
      ensures IsCandidate(kind, last, count + 1, s)
    {
      if s in skipped { assert IsCandidate(kind, last, count, s); }
    }
  }

  lemma NotYetPassed(kind: Kind, last: nat, count: nat, passed: set<string>, skipped: set<string>)
    requires count > last && Ahead(kind, last, passed)
    requires forall s :: s in skipped && s !in passed ==> IsCandidate(kind, last, count, s)
    ensures Candidate(kind, count) !in skipped
  {
    if IsCandidate(kind, last, count, Candidate(kind, count)) {
      var c: nat :| last < c < count && Candidate(kind, count) == Candidate(kind, c);
      CandidatesDiffer(kind, count, kind, c);
    }
  }

  lemma StillAhead(kind: Kind, last: nat, count: nat, other: Kind, bound: nat, passed: set<string>,
                   skipped: set<string>)
    requires Ahead(other, bound, passed) && (other == kind ==> bound >= count)
    requires forall s :: s in skipped && s !in passed ==> IsCandidate(kind, last, count, s)
    ensures Ahead(other, bound, skipped)
  {
    forall c: nat | c > bound
      ensures Candidate(other, c) !in skipped
    {
      if IsCandidate(kind, last, count, Candidate(other, c)) {
        var d: nat :| last < d < count && Candidate(other, c) == Candidate(kind, d);
        CandidatesDiffer(other, c, kind, d);
      }
    }
  }

  /** `last` is the highest number given so far to a name of the kind, or 0. */
  ghost predicate Highest(keys: seq<Identity>, counts: seq<nat>, kind: Kind, last: nat)
    requires |counts| <= |keys|
  {
    && (forall j :: 0 <= j < |counts| && keys[j].kind == kind ==> counts[j] <= last)
    && (last > 0 ==> exists j :: 0 <= j < |counts| && keys[j].kind == kind && counts[j] == last)
  }

  lemma NextIsLeast(keys: seq<Identity>, counts: seq<nat>, last: nat, count: nat)
    requires |counts| < |keys| && Highest(keys, counts, keys[|counts|].kind, last) && count > last
    requires !IsReserved(keys, Candidate(keys[|counts|].kind, count))
    requires forall c: nat :: last < c < count ==> IsReserved(keys, Candidate(keys[|counts|].kind, c))
    ensures Least(keys, counts, |counts|, count)
  {
    var i := |counts|;
    forall c: nat
      ensures Beyond(keys, counts, i, c) <==> c > last
    {
    }
  }

  lemma ChosenGrows(keys: seq<Identity>, counts: seq<nat>, count: nat)
    requires |counts| < |keys| && Chosen(keys, counts, |counts|) && Least(keys, counts, |counts|, count)
    ensures Chosen(keys, counts + [count], |counts| + 1)
  {
    var next := counts + [count];
    forall i | 0 <= i < |counts| + 1
      ensures Least(keys, next, i, next[i])
    {
      var c := if i < |counts| then counts[i] else count;
      assert c == next[i] && Least(keys, counts, i, c);
      LeastAgrees(keys, counts, next, i, c);
    }
  }

  /** The highest number given so far, for each kind. */
  datatype Tally = Tally(hosts: nat, users: nat) {
    function Of(kind: Kind): nat {
      if kind.Hostname? then hosts else users
    }

    function With(kind: Kind, n: nat): (t: Tally)
      ensures t.Of(kind) == n && forall other :: other != kind ==> t.Of(other) == Of(other)
    {
      if kind.Hostname? then Tally(n, users) else Tally(hosts, n)
    }
  }

  /** Numbers have gone to names or to aliases passed over, so they stay below the number of names and reserved
      aliases. */
  ghost predicate Choosing(keys: seq<Identity>, counts: seq<nat>, tally: Tally, passed: set<string>) {
    && |counts| <= |keys| && Chosen(keys, counts, |counts|)
    && (forall kind :: Highest(keys, counts, kind, tally.Of(kind)) && Ahead(kind, tally.Of(kind), passed))
    && tally.hosts + tally.users == |counts| + |passed|
  }

  lemma ChoosingNext(keys: seq<Identity>, counts: seq<nat>, tally: Tally, passed: set<string>, count: nat,
                     skipped: set<string>)
    requires Choosing(keys, counts, tally, passed) && |counts| < |keys|
    requires var kind := keys[|counts|].kind; var last := tally.Of(kind);
      && count > last && Least(keys, counts, |counts|, count) && |skipped| == |passed| + (count - last - 1)
      && forall s :: s in skipped && s !in passed ==> IsCandidate(kind, last, count, s)
    ensures Choosing(keys, counts + [count], tally.With(keys[|counts|].kind, count), skipped)
  {
    var kind, next := keys[|counts|].kind, counts + [count];
    var grown := tally.With(kind, count);
    ChosenGrows(keys, counts, count);
    forall other: Kind
      ensures Highest(keys, next, other, grown.Of(other)) && Ahead(other, grown.Of(other), skipped)
    {
      HighestNext(keys, counts, kind, count, other, tally.Of(other), grown.Of(other));
      StillAhead(kind, tally.Of(kind), count, other, grown.Of(other), passed, skipped);
    }
  }

  lemma HighestNext(keys: seq<Identity>, counts: seq<nat>, kind: Kind, count: nat, other: Kind, last: nat, next: nat)
    requires |counts| < |keys| && kind == keys[|counts|].kind && Highest(keys, counts, other, last)
    requires next == if other == kind then count else last
    requires other == kind ==> count > last
    ensures Highest(keys, counts + [count], other, next)
  {
    var all := counts + [count];
    if next > 0 {
      if other == kind {
        assert all[|counts|] == count;
      } else {
        var j :| 0 <= j < |counts| && keys[j].kind == other && counts[j] == last;
        assert all[j] == last;
      }
    }
  }

  lemma NumbersBounded(keys: seq<Identity>, counts: seq<nat>, tally: Tally, passed: set<string>, reserved: set<string>)
    requires Choosing(keys, counts, tally, passed) && passed <= reserved && |reserved| <= |keys|
    ensures forall i :: 0 <= i < |counts| ==> counts[i] <= 2 * |keys|
  {
    SubsetSize(passed, reserved);
    forall i | 0 <= i < |counts|
      ensures counts[i] <= 2 * |keys|
    {
      assert Highest(keys, counts, keys[i].kind, tally.Of(keys[i].kind));
    }
  }

  /** Chooses an alias for every name. With n names no number exceeds 2n. */
  method Choose(keys: seq<Identity>) returns (counts: seq<nat>)
    ensures |counts| == |keys| && Chosen(keys, counts, |keys|)
    ensures forall i :: 0 <= i < |counts| ==> counts[i] <= 2 * |keys|
  {
    var reserved := Reserved(keys);
    counts := [];
    var tally := Tally(0, 0);
    ghost var passed: set<string> := {};
    for i := 0 to |keys|
      invariant |counts| == i && passed <= reserved && Choosing(keys, counts, tally, passed)
    {
      var kind := keys[i].kind;
      ghost var skipped;
      var count;
      count, skipped := NextFree(kind, tally.Of(kind), reserved, passed);
      NextIsLeast(keys, counts, tally.Of(kind), count);
      ChoosingNext(keys, counts, tally, passed, count, skipped);
      counts, tally, passed := counts + [count], tally.With(kind, count), skipped;
    }
    NumbersBounded(keys, counts, tally, passed, reserved);
  }
}
