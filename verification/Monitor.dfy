/** The monitor as a state machine: the kernel announces changes, may drop announcements when the socket buffer is
    full, and the monitor alternates between reconciling and waiting. */
module Monitor {
  import opened Netlink

  /** New and deleted link, new and deleted address. */
  const CHANGE_KINDS := {16, 17, 20, 21}

  /** Among the messages that the datagram begins with, one announces a change; what follows may be malformed. */
  ghost predicate Announces(data: seq<Byte>, bigEndian: bool) {
    exists offsets, i :: Begins(data, offsets, bigEndian) && 0 <= i < |offsets|
      && Fits(data, offsets[i], bigEndian) && KindAt(data, offsets[i], bigEndian) in CHANGE_KINDS
  }

  /** An announcement is never skipped, in a truncated datagram or in a whole one. */
  lemma AnnouncementNotSkipped(data: seq<Byte>, truncated: bool, bigEndian: bool)
    requires truncated || Announces(data, bigEndian)
    ensures !Skippable(data, truncated, bigEndian)
  {
    if truncated { return; }
    var offsets, i :| Begins(data, offsets, bigEndian) && 0 <= i < |offsets|
      && Fits(data, offsets[i], bigEndian) && KindAt(data, offsets[i], bigEndian) in CHANGE_KINDS;
    forall all | Splits(data, all, bigEndian)
      ensures exists k :: 0 <= k < |all| && !Harmless(data, all[k], bigEndian)
    {
      SplitsEqual(data, offsets, all, i, bigEndian);
      assert !Harmless(data, all[i], bigEndian);
    }
  }

  /** A datagram in the socket buffer, with the changes that it announces (by number). It is truncated when it is
      received into too small a buffer; then nothing is known of its bytes. */
  datatype Item = Item(data: seq<Byte>, truncated: bool, changes: set<nat>)

  ghost predicate Informs(item: Item, bigEndian: bool) {
    item.truncated || Announces(item.data, bigEndian)
  }

  datatype Phase = Deciding | Reconciling | Waiting

  /** `changes` have happened so far; those below `covered` happened before the last reconciliation began. */
  datatype State = State(changes: nat, covered: nat, queue: seq<Item>, overflow: bool, pending: bool, phase: Phase)

  /** The socket is bound before the first snapshot. */
  predicate Initial(s: State) {
    s.queue == [] && !s.overflow && s.pending && s.phase == Deciding && s.covered == 0
  }

  ghost predicate Announced(s: State, t: State, item: Item, bigEndian: bool) {
    && item.changes == {s.changes} && Informs(item, bigEndian)
    && t == s.(changes := s.changes + 1, queue := s.queue + [item])
  }

  predicate Arrived(s: State, t: State, item: Item) {
    item.changes == {} && t == s.(queue := s.queue + [item])
  }

  /** The kernel announces a change, or drops the announcement and marks the socket. */
  ghost predicate Change(s: State, t: State, bigEndian: bool) {
    || (exists item :: Announced(s, t, item, bigEndian))
    || t == s.(changes := s.changes + 1, overflow := true)
  }

  ghost predicate Noise(s: State, t: State) {
    exists item :: Arrived(s, t, item)
  }

  /** Pending, or the periodic deadline has passed: a reconciliation begins. */
  predicate Begin(s: State, t: State) {
    s.phase == Deciding && t == s.(phase := Reconciling, covered := s.changes)
  }

  /** It ends, successfully or not. */
  predicate Finish(s: State, t: State) {
    s.phase == Reconciling && t == s.(phase := Waiting, pending := false)
  }

  predicate Skip(s: State, t: State) {
    s.phase == Deciding && !s.pending && t == s.(phase := Waiting)
  }

  /** The socket is readable: a lost announcement is reported as an error before the datagrams that remain. */
  ghost predicate Receive(s: State, t: State, bigEndian: bool) {
    && s.phase == Waiting
    && (|| (s.overflow && t == s.(overflow := false, pending := true, phase := Deciding))
        || (!s.overflow && s.queue != [] &&
              var head := s.queue[0]; var rescan := !Skippable(head.data, head.truncated, bigEndian);
              t == s.(queue := s.queue[1..], pending := rescan, phase := Deciding)))
  }

  predicate Timeout(s: State, t: State) {
    s.phase == Waiting && t == s.(phase := Deciding)
  }

  /** The service is restarted: a new socket, and the first reconciliation is due. */
  predicate Restart(s: State, t: State) {
    t == s.(queue := [], overflow := false, pending := true, phase := Deciding)
  }

  ghost predicate Next(s: State, t: State, bigEndian: bool) {
    || Change(s, t, bigEndian) || Noise(s, t) || Begin(s, t) || Finish(s, t)
    || Skip(s, t) || Receive(s, t, bigEndian) || Timeout(s, t) || Restart(s, t)
  }

  ghost predicate IsRun(run: seq<State>, bigEndian: bool) {
    && run != [] && Initial(run[0])
    && forall i :: 0 <= i < |run| - 1 ==> Next(run[i], run[i + 1], bigEndian)
  }

  predicate Queued(queue: seq<Item>, c: nat) {
    exists i :: 0 <= i < |queue| && c in queue[i].changes
  }

  /** Every change that the last reconciliation may have missed is still to be noticed. */
  ghost predicate Noticed(s: State, bigEndian: bool) {
    && (forall i :: 0 <= i < |s.queue| && s.queue[i].changes != {} ==> Informs(s.queue[i], bigEndian))
    && (forall c: nat :: s.covered <= c < s.changes ==> Due(s, c))
  }

  lemma QueuedMore(queue: seq<Item>, item: Item, c: nat)
    ensures Queued(queue + [item], c) <==> Queued(queue, c) || c in item.changes
  {
    var all := queue + [item];
    assert all[|queue|] == item;
    assert forall i :: 0 <= i < |queue| ==> all[i] == queue[i];
  }

  lemma QueuedRest(queue: seq<Item>, c: nat)
    requires queue != [] && Queued(queue, c) && c !in queue[0].changes
    ensures Queued(queue[1..], c)
  {
    var i :| 0 <= i < |queue| && c in queue[i].changes;
    assert queue[1..][i - 1] == queue[i];
  }

  /** A change is still to be noticed. */
  predicate Due(s: State, c: nat) {
    s.overflow || Queued(s.queue, c) || (s.phase == Deciding && s.pending)
  }

  lemma ReceiveDue(s: State, t: State, c: nat, bigEndian: bool)
    requires Noticed(s, bigEndian) && Receive(s, t, bigEndian) && t.covered <= c < t.changes
    ensures Due(t, c)
  {
    assert Due(s, c);
    if !s.overflow {
      var head := s.queue[0];
      if c in head.changes {
        AnnouncementNotSkipped(head.data, head.truncated, bigEndian);
      } else {
        QueuedRest(s.queue, c);
      }
    }
  }

  lemma ArrivalDue(s: State, t: State, item: Item, c: nat, bigEndian: bool)
    requires Noticed(s, bigEndian) && (Announced(s, t, item, bigEndian) || Arrived(s, t, item))
      && t.covered <= c < t.changes
    ensures Due(t, c)
  {
    if c < s.changes { assert Due(s, c); }
    QueuedMore(s.queue, item, c);
  }

  lemma NextDue(s: State, t: State, c: nat, bigEndian: bool)
    requires Noticed(s, bigEndian) && Next(s, t, bigEndian) && t.covered <= c < t.changes
    ensures Due(t, c)
  {
    if item :| Announced(s, t, item, bigEndian) || Arrived(s, t, item) {
      ArrivalDue(s, t, item, c, bigEndian);
    } else if Receive(s, t, bigEndian) {
      ReceiveDue(s, t, c, bigEndian);
    } else if s.covered <= c < s.changes {
      assert Due(s, c);
    }
  }

  lemma NextNoticed(s: State, t: State, bigEndian: bool)
    requires Noticed(s, bigEndian) && Next(s, t, bigEndian)
    ensures Noticed(t, bigEndian)
  {
    forall c: nat | t.covered <= c < t.changes { NextDue(s, t, c, bigEndian); }
  }

  lemma {:induction false} RunNoticed(run: seq<State>, i: nat, bigEndian: bool)
    requires IsRun(run, bigEndian) && i < |run|
    ensures Noticed(run[i], bigEndian)
  {
    if i == 0 {
    } else {
      RunNoticed(run, i - 1, bigEndian);
      NextNoticed(run[i - 1], run[i], bigEndian);
    }
  }

  /** No lost change: whenever the monitor waits and its socket is drained, every change so far happened before the
      last reconciliation began, also after announcements were dropped, truncated or followed by malformed bytes, and
      after restarts. */
  lemma NoLostChange(run: seq<State>, i: nat, bigEndian: bool)
    requires IsRun(run, bigEndian) && i < |run|
    requires run[i].phase == Waiting && run[i].queue == [] && !run[i].overflow
    ensures run[i].changes <= run[i].covered
  {
    RunNoticed(run, i, bigEndian);
    assert !Due(run[i], run[i].covered);
  }
}
