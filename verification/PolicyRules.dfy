/** The reconciler's own rules and how the kernel routes by them. */
module PolicyRules {
  import opened Wrappers
  import opened Addresses

  const PRIORITY_START := 5000
  const PRIORITY_END := 6000
  const TRANSITION_PRIORITY := 6004
  const PROTOCOL := 2

  /** A lookup of `table`, or the unreachable guard when there is no table. */
  datatype Rule = Rule(priority: int, source: Address, table: Option<int>) {
    function Family(): Family { source.family }

    /** The even priority shared by the two rules of a source. */
    function Slot(): int { priority - priority % 2 }

    predicate IsGuard() { table.None? }
  }

  function GuardOf(r: Rule): Rule {
    Rule(r.Slot() + 1, r.source, None)
  }

  predicate KnownTable(t: int) { t == 100 || t == 200 }

  predicate Canonical(r: Rule) {
    && PRIORITY_START <= r.priority < PRIORITY_END
    && Usable(r.source)
    && (r.table.Some? ==> KnownTable(r.table.value))
    && r.priority % 2 == (if r.IsGuard() then 1 else 0)
  }

  predicate Collide(r: Rule, q: Rule) {
    r.Family() == q.Family() && r.priority == q.priority
  }

  /** No two rules of a family share a priority. */
  predicate UniquePriorities(rules: set<Rule>) {
    forall r, q {:trigger Collide(r, q)} :: r in rules && q in rules && Collide(r, q) ==> r == q
  }

  predicate Agree(r: Rule, q: Rule) {
    && (r.source == q.source ==> r.Slot() == q.Slot())
    && (r.Family() == q.Family() && r.Slot() == q.Slot() ==> r.source == q.source)
  }

  /** All rules of one source sit in one slot, and all rules of one slot name one source. */
  predicate Unambiguous(rules: set<Rule>) {
    forall r, q {:trigger Agree(r, q)} :: r in rules && q in rules ==> Agree(r, q)
  }

  /** What `OwnedRules` reports and `PlanRules` accepts. */
  predicate Consistent(rules: set<Rule>) {
    && (forall r :: r in rules ==> Canonical(r))
    && UniquePriorities(rules)
    && Unambiguous(rules)
  }

  function Sources(rules: set<Rule>): set<Address> {
    set r | r in rules :: r.source
  }

  // ---------------------------------------------------------------------
  // Reading the rules back from a native dump

  datatype RowAction = Unreachable | OtherAction

  /** One record of a native rule dump. `extra` says that it has a field
      outside the admitted ones; `source` is missing when it does not parse. */
  datatype Row = Row(priority: int, protocol: int, extra: bool, loopback: bool, source: Option<Address>,
                     length: nat, action: Option<RowAction>, table: Option<int>)

  datatype RowError = TooManyRows | OwnershipConflict | NoncanonicalRule | UnusableSource
                    | NoncanonicalPrefix | NoncanonicalAction | AmbiguousPriority

  const MAX_ROWS := 16384

  function HostLength(f: Family): nat { if f == V4 then 32 else 128 }

  predicate InRange(row: Row) { PRIORITY_START <= row.priority < PRIORITY_END }

  function RowTable(row: Row): Option<int> {
    if row.action == Some(Unreachable) then None else row.table
  }

  predicate RowCanonical(row: Row, family: Family) {
    && row.protocol == PROTOCOL && !row.extra && row.loopback
    && row.source.Some? && Usable(row.source.value)
    && row.source.value.family == family && row.length == HostLength(family)
    && (if row.action == Some(Unreachable) then row.table.None?
        else row.action.None? && row.table.Some? && KnownTable(row.table.value))
    && row.priority % 2 == (if RowTable(row).None? then 1 else 0)
  }

  function RowRule(row: Row): Rule
    requires row.source.Some?
  {
    Rule(row.priority, row.source.value, RowTable(row))
  }

  /** The dump is admitted: short enough, every record in the owned range canonical, no priority twice. */
  predicate RowsAdmitted(rows: seq<Row>, family: Family) {
    && |rows| <= MAX_ROWS
    && (forall i :: 0 <= i < |rows| && InRange(rows[i]) ==> RowCanonical(rows[i], family))
    && (forall i, j :: 0 <= i < j < |rows| && InRange(rows[i]) && InRange(rows[j]) ==>
          rows[i].priority != rows[j].priority)
  }

  /** The rules that the in-range records of a dump describe. */
  function RulesOf(rows: seq<Row>): set<Rule> {
    set i | 0 <= i < |rows| && InRange(rows[i]) && rows[i].source.Some? :: RowRule(rows[i])
  }

  function PrioritiesOf(rows: seq<Row>): set<int> {
    set i | 0 <= i < |rows| && InRange(rows[i]) :: rows[i].priority
  }

  /** Accepts one in-range record exactly when it is canonical. */
  method CheckRow(row: Row, family: Family) returns (r: Result<Rule, RowError>)
    ensures r.Success? <==> RowCanonical(row, family)
    ensures r.Success? ==> r.value == RowRule(row)
    ensures r != Failure(TooManyRows)
  {
    if row.protocol != PROTOCOL { return Failure(OwnershipConflict); }
    if row.extra || !row.loopback { return Failure(NoncanonicalRule); }
    if row.source.None? || !Usable(row.source.value) { return Failure(UnusableSource); }
    var source := row.source.value;
    if source.family != family || row.length != HostLength(family) { return Failure(NoncanonicalPrefix); }
    var table: Option<int>;
    if row.action == Some(Unreachable) && row.table.None? {
      table := None;
    } else if row.action.None? && row.table.Some? && KnownTable(row.table.value) {
      table := row.table;
    } else {
      return Failure(NoncanonicalAction);
    }
    if row.priority % 2 != (if table.None? then 1 else 0) { return Failure(AmbiguousPriority); }
    r := Success(Rule(row.priority, source, table));
  }

  lemma RowsAdmittedNext(rows: seq<Row>, family: Family, i: nat)
    requires i < |rows| <= MAX_ROWS
    ensures RowsAdmitted(rows[..i + 1], family) <==>
      RowsAdmitted(rows[..i], family) &&
      (InRange(rows[i]) ==> RowCanonical(rows[i], family) && rows[i].priority !in PrioritiesOf(rows[..i]))
    ensures PrioritiesOf(rows[..i + 1]) == PrioritiesOf(rows[..i])
      + (if InRange(rows[i]) then {rows[i].priority} else {})
    ensures RulesOf(rows[..i + 1]) ==
      RulesOf(rows[..i]) + (if InRange(rows[i]) && rows[i].source.Some? then {RowRule(rows[i])} else {})
  {
    var before, after := rows[..i], rows[..i + 1];
    assert after == before + [rows[i]];
    assert forall k :: 0 <= k < i ==> after[k] == before[k];
    assert after[i] == rows[i];
  }

  lemma {:induction false} RowsAdmittedPrefix(rows: seq<Row>, family: Family, i: nat)
    requires i <= |rows| && RowsAdmitted(rows, family)
    ensures RowsAdmitted(rows[..i], family)
  {
    assert forall k :: 0 <= k < i ==> rows[..i][k] == rows[k];
  }

  /** Refuses a dump exactly when it is not admitted; otherwise yields exactly its in-range rules. */
  method OwnedRules(rows: seq<Row>, family: Family) returns (r: Result<set<Rule>, RowError>)
    ensures r.Success? <==> RowsAdmitted(rows, family)
    ensures r.Success? ==> r.value == RulesOf(rows)
    ensures r == Failure(TooManyRows) <==> |rows| > 16384
  {
    if |rows| > MAX_ROWS { return Failure(TooManyRows); }
    var rules: set<Rule> := {};
    var priorities: set<int> := {};
    for i := 0 to |rows|
      invariant RowsAdmitted(rows[..i], family)
      invariant rules == RulesOf(rows[..i]) && priorities == PrioritiesOf(rows[..i])
    {
      RowsAdmittedNext(rows, family, i);
      if InRange(rows[i]) {
        if !RowsAdmitted(rows[..i + 1], family) && RowsAdmitted(rows, family) {
          RowsAdmittedPrefix(rows, family, i + 1);
        }
        var checked := CheckRow(rows[i], family);
        if checked.Failure? { return Failure(checked.error); }
        if rows[i].priority in priorities { return Failure(AmbiguousPriority); }
        priorities := priorities + {rows[i].priority};
        rules := rules + {checked.value};
      }
    }
    assert rows[..|rows|] == rows;
    r := Success(rules);
  }

  /** What is read is canonical, of the family asked for, one rule a priority. */
  lemma AdmittedRules(rows: seq<Row>, family: Family)
    requires RowsAdmitted(rows, family)
    ensures forall q :: q in RulesOf(rows) ==> Canonical(q) && q.Family() == family
    ensures UniquePriorities(RulesOf(rows))
  {
    forall q, p | q in RulesOf(rows) && p in RulesOf(rows) && q.priority == p.priority
      ensures q == p
    {
      var i :| 0 <= i < |rows| && InRange(rows[i]) && rows[i].source.Some? && q == RowRule(rows[i]);
      var j :| 0 <= j < |rows| && InRange(rows[j]) && rows[j].source.Some? && p == RowRule(rows[j]);
      assert !(i < j) && !(j < i);
    }
  }

  /** How the kernel shows an owned rule. */
  function ToRow(r: Rule): Row {
    Row(r.priority, PROTOCOL, false, true, Some(r.source), HostLength(r.Family()),
        if r.IsGuard() then Some(Unreachable) else None, r.table)
  }

  /** A record in the owned range is accepted exactly if it is how the kernel shows a canonical rule of the family. */
  lemma AcceptedIsShown(row: Row, family: Family)
    ensures InRange(row) && RowCanonical(row, family) <==>
      exists r :: Canonical(r) && r.Family() == family && row == ToRow(r)
    ensures InRange(row) && RowCanonical(row, family) ==>
      && 5000 <= row.priority <= 5999 && row.protocol == 2 && row.length == (if family == V4 then 32 else 128)
      && (row.priority % 2 == 0 ==> row.table == Some(100) || row.table == Some(200))
  {
    if InRange(row) && RowCanonical(row, family) {
      var r := RowRule(row);
      assert Canonical(r) && r.Family() == family && row == ToRow(r);
    }
  }

  /** `rows` is a dump, in any order, of the owned rules of one family among foreign rules elsewhere. */
  ghost predicate Dump(rows: seq<Row>, rules: set<Rule>, family: Family) {
    && |rows| <= MAX_ROWS
    && (forall r :: r in rules && r.Family() == family ==> ToRow(r) in rows)
    && (forall i :: 0 <= i < |rows| && InRange(rows[i]) ==>
          exists r :: r in rules && r.Family() == family && rows[i] == ToRow(r))
    && (forall i, j :: 0 <= i < j < |rows| && InRange(rows[i]) ==> rows[i] != rows[j])
  }

  /** Every consistent rule set is admitted when it is dumped. */
  lemma DumpAdmitted(rows: seq<Row>, rules: set<Rule>, family: Family)
    requires Consistent(rules) && Dump(rows, rules, family)
    ensures RowsAdmitted(rows, family)
  {
    forall i, j | 0 <= i < j < |rows| && InRange(rows[i]) && InRange(rows[j])
      ensures rows[i].priority != rows[j].priority
    {
      var r :| r in rules && r.Family() == family && rows[i] == ToRow(r);
      var q :| q in rules && q.Family() == family && rows[j] == ToRow(q);
      assert rows[i] != rows[j];
      assert !Collide(r, q);
    }
  }

  /** Reading a dump back yields the rules that were dumped: kernel state and dump are inverse. */
  lemma ReadBack(rows: seq<Row>, rules: set<Rule>, family: Family)
    requires Consistent(rules) && Dump(rows, rules, family)
    ensures RowsAdmitted(rows, family)
    ensures RulesOf(rows) == set q | q in rules && q.Family() == family
  {
    DumpAdmitted(rows, rules, family);
    var expected := set q | q in rules && q.Family() == family;
    forall q | q in expected
      ensures q in RulesOf(rows)
    {
      assert ToRow(q) in rows;
      assert RowRule(ToRow(q)) == q;
    }
    forall q | q in RulesOf(rows)
      ensures q in expected
    {
      var i :| 0 <= i < |rows| && InRange(rows[i]) && rows[i].source.Some? && q == RowRule(rows[i]);
      var p :| p in rules && p.Family() == family && rows[i] == ToRow(p);
      assert RowRule(ToRow(p)) == p;
    }
  }

  // ---------------------------------------------------------------------
  // Routing

  datatype Outcome = Table(n: int) | Blocked | Main | FallThrough

  /** A legacy source selector: no incoming interface, a network and a table. */
  datatype Selector = Selector(priority: int, table: int, protocol: int, network: Block)

  /** Every rule that the model knows about. The three source exemptions and
      the destination exemption send matching packets to the main table. */
  datatype KernelRule =
    | Pair(rule: Rule)
    | SourceExemption(family: Family, offset: nat)
    | DestinationExemption(family: Family)
    | Terminal(family: Family)
    | Legacy(selector: Selector)

  function Priority(k: KernelRule): int {
    match k
    case Pair(r) => r.priority
    case SourceExemption(_, offset) => PRIORITY_END + offset
    case DestinationExemption(_) => PRIORITY_END + 3
    case Terminal(_) => TRANSITION_PRIORITY
    case Legacy(s) => s.priority
  }

  function ExemptSource(f: Family, offset: nat): Block {
    if offset == 0 then Unspecified(f) else if offset == 1 then LinkLocal(f) else Loopback(f)
  }

  /** The rule matches a locally originated packet. */
  predicate Matches(k: KernelRule, source: Address, destination: Address) {
    match k
    case Pair(r) => r.source == source
    case SourceExemption(f, offset) => Inside(source, ExemptSource(f, offset))
    case DestinationExemption(f) => source.family == f && Inside(destination, LinkLocal(f))
    case Terminal(f) => source.family == f
    case Legacy(s) => Inside(source, s.network)
  }

  function Verdict(k: KernelRule): Outcome {
    match k
    case Pair(r) => if r.IsGuard() then Blocked else Table(r.table.value)
    case SourceExemption(_, _) => Main
    case DestinationExemption(_) => Main
    case Terminal(_) => Blocked
    case Legacy(s) => Table(s.table)
  }

  /** `k` is a matching rule of least priority. */
  ghost predicate FirstMatch(kernel: set<KernelRule>, source: Address, destination: Address, k: KernelRule) {
    && k in kernel && Matches(k, source, destination)
    && forall q :: q in kernel && Matches(q, source, destination) ==> Priority(k) <= Priority(q)
  }

  /** First match by priority; equal priorities may be tried in either order. */
  ghost predicate Resolves(kernel: set<KernelRule>, source: Address, destination: Address, o: Outcome) {
    || (exists k :: FirstMatch(kernel, source, destination, k) && o == Verdict(k))
    || (o == FallThrough && forall k :: k in kernel ==> !Matches(k, source, destination))
  }

  function Pairs(rules: set<Rule>): set<KernelRule> {
    set r | r in rules :: Pair(r)
  }

  predicate HasLookup(rules: set<Rule>, source: Address) {
    exists r :: r in rules && r.source == source && !r.IsGuard()
  }

  predicate HasGuard(rules: set<Rule>, source: Address) {
    exists r :: r in rules && r.source == source && r.IsGuard()
  }

  /** The table a source looks up, when it has exactly one lookup. */
  ghost function LookupTable(rules: set<Rule>, source: Address): int
    requires HasLookup(rules, source)
  {
    var r :| r in rules && r.source == source && !r.IsGuard(); r.table.value
  }

  /** Where the source rules alone send a source. */
  ghost function Direct(rules: set<Rule>, source: Address): Outcome {
    if HasLookup(rules, source) then Table(LookupTable(rules, source))
    else if HasGuard(rules, source) then Blocked
    else FallThrough
  }

  /** In a consistent set a source has at most one lookup and at most one guard. */
  lemma OneLookup(rules: set<Rule>, r: Rule, q: Rule)
    requires Consistent(rules) && r in rules && q in rules && r.source == q.source
    requires r.IsGuard() == q.IsGuard()
    ensures r == q
  {
    assert Agree(r, q);
    assert Collide(r, q);
  }

  /** First-match routing over the kernel's source rules is exactly `Direct`. */
  lemma RoutingIsDirect(rules: set<Rule>, source: Address, destination: Address, o: Outcome)
    requires Consistent(rules)
    ensures Resolves(Pairs(rules), source, destination, o) <==> o == Direct(rules, source)
  {
    var kernel := Pairs(rules);
    assert forall k :: k in kernel ==> k.Pair? && k.rule in rules;
    if HasLookup(rules, source) {
      var r :| r in rules && r.source == source && !r.IsGuard();
      forall q | q in rules && q.source == source
        ensures q == r || (q.IsGuard() && r.priority < q.priority)
      {
        if !q.IsGuard() { OneLookup(rules, r, q); } else { assert Agree(q, r); }
      }
      assert FirstMatch(kernel, source, destination, Pair(r));
      assert forall k :: FirstMatch(kernel, source, destination, k) ==> k == Pair(r);
      assert LookupTable(rules, source) == r.table.value;
    } else if HasGuard(rules, source) {
      var r :| r in rules && r.source == source && r.IsGuard();
      forall q | q in rules && q.source == source
        ensures q == r
      {
        OneLookup(rules, r, q);
      }
      assert FirstMatch(kernel, source, destination, Pair(r));
    }
  }
}
