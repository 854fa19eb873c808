/** Datagrams as netlink(7) lays them out: messages with a header of 16 bytes, each but the last padded to a multiple of
    four. Reading them back shows which of them call for a rescan. */
module NetlinkFrames {
  import opened Netlink

  /** A message: `rest` has the flags, the sequence number and the port. */
  datatype Message = Message(kind: nat, rest: seq<Byte>, payload: seq<Byte>)

  predicate Sendable(m: Message) {
    m.kind < 0x1_0000 && |m.rest| == 10 && 16 + |m.payload| < 0x1_0000_0000
  }

  /** A number in so many bytes, in the byte order of the machine. */
  function Word(n: nat, size: nat, bigEndian: bool): (r: seq<Byte>)
    ensures |r| == size
    decreases size
  {
    if size == 0 then []
    else if bigEndian then Word(n / 256, size - 1, bigEndian) + [(n % 256) as Byte]
    else [(n % 256) as Byte] + Word(n / 256, size - 1, bigEndian)
  }

  function Power(size: nat): nat {
    if size == 0 then 1 else 256 * Power(size - 1)
  }

  lemma {:induction false} WordRead(n: nat, size: nat, bigEndian: bool)
    requires n < Power(size)
    ensures Number(Word(n, size, bigEndian), bigEndian) == n
    decreases size
  {
    if size == 0 {
    } else {
      WordRead(n / 256, size - 1, bigEndian);
      var word, rest := Word(n, size, bigEndian), Word(n / 256, size - 1, bigEndian);
      if bigEndian {
        assert word[..|word| - 1] == rest;
      } else {
        assert word[1..] == rest;
      }
    }
  }

  function Bare(m: Message, bigEndian: bool): (r: seq<Byte>)
    requires Sendable(m)
    ensures |r| == 16 + |m.payload|
  {
    Word(16 + |m.payload|, 4, bigEndian) + Word(m.kind, 2, bigEndian) + m.rest + m.payload
  }

  /** The bytes that bring a length to a multiple of four. */
  function Padding(length: nat): (r: seq<Byte>)
    ensures |r| < 4 && (length + |r|) % 4 == 0
  {
    seq((4 - length % 4) % 4, _ => 0)
  }

  function Framed(m: Message, bigEndian: bool): seq<Byte>
    requires Sendable(m)
  {
    Bare(m, bigEndian) + Padding(|Bare(m, bigEndian)|)
  }

  /** The first n frames, one after the other. */
  function Joined(frames: seq<seq<Byte>>, n: nat): seq<Byte>
    requires n <= |frames|
  {
    if n == 0 then [] else Joined(frames, n - 1) + frames[n - 1]
  }

  function Frames(messages: seq<Message>, bigEndian: bool): (r: seq<seq<Byte>>)
    requires forall i :: 0 <= i < |messages| ==> Sendable(messages[i])
    ensures |r| == |messages| && forall i :: 0 <= i < |r| ==> r[i] == Framed(messages[i], bigEndian)
  {
    seq(|messages|, i requires 0 <= i < |messages| => Framed(messages[i], bigEndian))
  }

  /** A datagram of these messages; padding after the last may be missing. */
  ghost predicate IsDatagram(data: seq<Byte>, messages: seq<Message>, bigEndian: bool) {
    && messages != [] && (forall i :: 0 <= i < |messages| ==> Sendable(messages[i]))
    && var n, frames := |messages| - 1, Frames(messages, bigEndian);
       Joined(frames, n) + Bare(messages[n], bigEndian) <= data <= Joined(frames, n + 1)
  }

  lemma PrefixTransitive(a: seq<Byte>, b: seq<Byte>, c: seq<Byte>)
    requires a <= b && b <= c
    ensures a <= c
  {
  }

  lemma {:induction false} JoinedGrows(frames: seq<seq<Byte>>, i: nat, j: nat)
    requires i <= j <= |frames|
    ensures Joined(frames, i) <= Joined(frames, j)
    decreases j
  {
    if i == j {
    } else {
      JoinedGrows(frames, i, j - 1);
      PrefixTransitive(Joined(frames, i), Joined(frames, j - 1), Joined(frames, j));
    }
  }

  /** A message stands at an offset, and the next one is due after its padding. */
  ghost predicate Stands(data: seq<Byte>, at: nat, kind: nat, next: nat, bigEndian: bool) {
    Fits(data, at, bigEndian) && KindAt(data, at, bigEndian) == kind && End(data, at, bigEndian) == next
  }

  /** A message found in a datagram reads as it was sent. */
  lemma FrameAt(before: seq<Byte>, m: Message, data: seq<Byte>, bigEndian: bool)
    requires Sendable(m) && before + Bare(m, bigEndian) <= data
    ensures Stands(data, |before|, m.kind, |before| + |Framed(m, bigEndian)|, bigEndian)
  {
    var at, bare := |before|, Bare(m, bigEndian);
    assert data[at..at + |bare|] == bare;
    assert data[at..at + 4] == bare[..4] == Word(16 + |m.payload|, 4, bigEndian);
    assert data[at + 4..at + 6] == bare[4..6] == Word(m.kind, 2, bigEndian);
    assert Power(2) == 0x1_0000 && Power(4) == 0x1_0000_0000 by { assert Power(3) == 0x100_0000; }
    WordRead(16 + |m.payload|, 4, bigEndian);
    WordRead(m.kind, 2, bigEndian);
    AlignedPads(|bare|);
  }

  lemma AlignedPads(length: nat)
    ensures Aligned(length) == length + |Padding(length)|
  {
  }

  /** The messages of whole frames stand where they were put. */
  lemma FramesStand(frames: seq<seq<Byte>>, m: Message, n: nat, data: seq<Byte>, i: nat, bigEndian: bool)
    requires i < n <= |frames| && Sendable(m) && frames[i] == Framed(m, bigEndian) && Joined(frames, n) <= data
    ensures Stands(data, |Joined(frames, i)|, m.kind, |Joined(frames, i + 1)|, bigEndian)
  {
    JoinedGrows(frames, i + 1, n);
    PrefixTransitive(Joined(frames, i + 1), Joined(frames, n), data);
    FramedAt(Joined(frames, i), m, data, bigEndian);
  }

  lemma FramedAt(before: seq<Byte>, m: Message, data: seq<Byte>, bigEndian: bool)
    requires Sendable(m) && before + Framed(m, bigEndian) <= data
    ensures Stands(data, |before|, m.kind, |before| + |Framed(m, bigEndian)|, bigEndian)
  {
    WithoutPadding(before, Bare(m, bigEndian), Padding(|Bare(m, bigEndian)|), data);
    FrameAt(before, m, data, bigEndian);
  }

  lemma WithoutPadding(before: seq<Byte>, bare: seq<Byte>, padding: seq<Byte>, data: seq<Byte>)
    requires before + (bare + padding) <= data
    ensures before + bare <= data
  {
    assert before + (bare + padding) == (before + bare) + padding;
  }

  lemma FirstPart(a: seq<Byte>, b: seq<Byte>, data: seq<Byte>)
    requires a + b <= data
    ensures a <= data
  {
    assert a <= a + b;
  }

  lemma DatagramStands(data: seq<Byte>, messages: seq<Message>, i: nat, bigEndian: bool)
    requires IsDatagram(data, messages, bigEndian) && i < |messages|
    ensures var frames := Frames(messages, bigEndian);
            Stands(data, |Joined(frames, i)|, messages[i].kind, |Joined(frames, i + 1)|, bigEndian)
  {
    if i < |messages| - 1 {
      EarlierStands(data, messages, i, bigEndian);
    } else {
      FrameAt(Joined(Frames(messages, bigEndian), i), messages[i], data, bigEndian);
    }
  }

  lemma EarlierStands(data: seq<Byte>, messages: seq<Message>, i: nat, bigEndian: bool)
    requires IsDatagram(data, messages, bigEndian) && i < |messages| - 1
    ensures var frames := Frames(messages, bigEndian);
            Stands(data, |Joined(frames, i)|, messages[i].kind, |Joined(frames, i + 1)|, bigEndian)
  {
    var n := |messages| - 1;
    FirstPart(Joined(Frames(messages, bigEndian), n), Bare(messages[n], bigEndian), data);
    FramesStand(Frames(messages, bigEndian), messages[i], n, data, i, bigEndian);
  }

  /** Messages stand one after the other, from the first byte on. */
  ghost predicate Row(data: seq<Byte>, starts: seq<nat>, kinds: seq<nat>, bigEndian: bool) {
    && |starts| == |kinds| + 1 && starts[0] == 0
    && forall i :: 0 <= i < |kinds| ==> Stands(data, starts[i], kinds[i], starts[i + 1], bigEndian)
  }

  /** Any split of the datagram passes through them. */
  lemma {:induction false} SplitPasses(data: seq<Byte>, starts: seq<nat>, kinds: seq<nat>, all: seq<nat>, i: nat,
                                       bigEndian: bool)
    requires Row(data, starts, kinds, bigEndian) && Splits(data, all, bigEndian)
    requires i <= |kinds| && starts[i] < |data|
    ensures i < |all| && all[i] == starts[i]
  {
    if i == 0 {
    } else {
      assert Stands(data, starts[i - 1], kinds[i - 1], starts[i], bigEndian);
      SplitPasses(data, starts, kinds, all, i - 1, bigEndian);
    }
  }

  lemma RowIsSkippable(data: seq<Byte>, starts: seq<nat>, kinds: seq<nat>, bigEndian: bool)
    requires Row(data, starts, kinds, bigEndian) && kinds != [] && starts[|kinds|] >= |data|
    requires forall i :: 0 <= i < |kinds| ==> kinds[i] !in {2, 4, 16, 17, 20, 21}
    ensures Skippable(data, false, bigEndian)
  {
    var offsets := starts[..|kinds|];
    forall i | 0 <= i < |offsets|
      ensures Harmless(data, offsets[i], bigEndian) && End(data, offsets[i], bigEndian) == starts[i + 1]
    {
      assert Stands(data, starts[i], kinds[i], starts[i + 1], bigEndian);
    }
    assert Splits(data, offsets, bigEndian);
  }

  lemma SkippedKinds(data: seq<Byte>, starts: seq<nat>, kinds: seq<nat>, i: nat, bigEndian: bool)
    requires Row(data, starts, kinds, bigEndian) && i < |kinds| && Skippable(data, false, bigEndian)
    ensures kinds[i] !in {2, 4, 16, 17, 20, 21}
  {
    var all :| Splits(data, all, bigEndian) && forall k :: 0 <= k < |all| ==> Harmless(data, all[k], bigEndian);
    assert Stands(data, starts[i], kinds[i], starts[i + 1], bigEndian);
    SplitPasses(data, starts, kinds, all, i, bigEndian);
    assert Harmless(data, all[i], bigEndian);
  }

  lemma RowSkipped(data: seq<Byte>, starts: seq<nat>, kinds: seq<nat>, bigEndian: bool)
    requires Row(data, starts, kinds, bigEndian) && kinds != [] && starts[|kinds|] >= |data|
    ensures Skippable(data, false, bigEndian) <==>
      forall i :: 0 <= i < |kinds| ==> kinds[i] !in {2, 4, 16, 17, 20, 21}
  {
    if Skippable(data, false, bigEndian) {
      forall i | 0 <= i < |kinds| { SkippedKinds(data, starts, kinds, i, bigEndian); }
    } else if forall i :: 0 <= i < |kinds| ==> kinds[i] !in {2, 4, 16, 17, 20, 21} {
      RowIsSkippable(data, starts, kinds, bigEndian);
    }
  }

  ghost function Starts(frames: seq<seq<Byte>>): (r: seq<nat>)
    ensures |r| == |frames| + 1 && forall i :: 0 <= i < |r| ==> r[i] == |Joined(frames, i)|
  {
    seq(|frames| + 1, i requires 0 <= i <= |frames| => |Joined(frames, i)|)
  }

  ghost function Kinds(messages: seq<Message>): (r: seq<nat>)
    ensures |r| == |messages| && forall i :: 0 <= i < |r| ==> r[i] == messages[i].kind
  {
    seq(|messages|, i requires 0 <= i < |messages| => messages[i].kind)
  }

  lemma DatagramRow(data: seq<Byte>, messages: seq<Message>, bigEndian: bool) returns (starts: seq<nat>)
    requires IsDatagram(data, messages, bigEndian)
    ensures Row(data, starts, Kinds(messages), bigEndian) && starts[|messages|] >= |data|
  {
    starts := Starts(Frames(messages, bigEndian));
    var kinds := Kinds(messages);
    forall i | 0 <= i < |kinds|
      ensures Stands(data, starts[i], kinds[i], starts[i + 1], bigEndian)
    {
      DatagramStands(data, messages, i, bigEndian);
    }
  }

  lemma KindsAllowed(messages: seq<Message>)
    ensures (forall i :: 0 <= i < |Kinds(messages)| ==> Kinds(messages)[i] !in {2, 4, 16, 17, 20, 21}) <==>
      forall i :: 0 <= i < |messages| ==> messages[i].kind !in {2, 4, 16, 17, 20, 21}
  {
    assert forall i :: 0 <= i < |messages| ==> Kinds(messages)[i] == messages[i].kind;
  }

  /** A whole datagram is skipped exactly if none of its messages is an error, an overrun, a new or deleted link or a
      new or deleted address. */
  lemma DatagramSkipped(data: seq<Byte>, messages: seq<Message>, bigEndian: bool)
    requires IsDatagram(data, messages, bigEndian)
    ensures Skippable(data, false, bigEndian) <==>
      forall i :: 0 <= i < |messages| ==> messages[i].kind !in {2, 4, 16, 17, 20, 21}
  {
    var starts := DatagramRow(data, messages, bigEndian);
    RowSkipped(data, starts, Kinds(messages), bigEndian);
    KindsAllowed(messages);
  }

  /** Too short for a header, or a declared length that is too short or does not fit. */
  predicate Broken(tail: seq<Byte>, bigEndian: bool) {
    |tail| < 16 || var length := Number(tail[..4], bigEndian); length < 16 || length > |tail|
  }

  /** What does not split into messages is never skipped: nothing at all, or something broken after whole messages. */
  lemma BrokenNotSkipped(messages: seq<Message>, tail: seq<Byte>, bigEndian: bool)
    requires forall k :: 0 <= k < |messages| ==> Sendable(messages[k])
    requires Broken(tail, bigEndian) && (tail != [] || messages == [])
    ensures !Skippable(Joined(Frames(messages, bigEndian), |messages|) + tail, false, bigEndian)
  {
    var frames := Frames(messages, bigEndian);
    var framing := Joined(frames, |messages|);
    var data, starts, kinds := framing + tail, Starts(frames), Kinds(messages);
    forall i | 0 <= i < |messages|
      ensures Stands(data, starts[i], kinds[i], starts[i + 1], bigEndian)
    {
      FramesStand(frames, messages[i], |messages|, data, i, bigEndian);
    }
    BrokenRow(data, framing, tail, starts, kinds, bigEndian);
  }

  lemma BrokenRow(data: seq<Byte>, framing: seq<Byte>, tail: seq<Byte>, starts: seq<nat>, kinds: seq<nat>,
                  bigEndian: bool)
    requires data == framing + tail && Row(data, starts, kinds, bigEndian) && starts[|kinds|] == |framing|
    requires Broken(tail, bigEndian) && (tail != [] || framing == [])
    ensures !Skippable(data, false, bigEndian)
  {
    if tail != [] && |tail| >= 16 { assert data[|framing|..|framing| + 4] == tail[..4]; }
    assert !Fits(data, |framing|, bigEndian);
    forall all | tail != [] && Splits(data, all, bigEndian)
      ensures exists i :: 0 <= i < |all| && !Fits(data, all[i], bigEndian)
    {
      SplitPasses(data, starts, kinds, all, |kinds|, bigEndian);
    }
  }
}
