/** Deciding whether a netlink datagram calls for a rescan. */
module Netlink {

  newtype Byte = x: int | 0 <= x < 256

  /** Error, overrun, new and deleted link, new and deleted address. */
  const RESCAN_KINDS := {2, 4, 16, 17, 20, 21}

  const HEADER := 16

  /** A number in the byte order of the machine. */
  function Number(bytes: seq<Byte>, bigEndian: bool): (n: nat)
    decreases |bytes|
  {
    if bytes == [] then 0
    else if bigEndian then Number(bytes[..|bytes| - 1], bigEndian) * 256 + bytes[|bytes| - 1] as int
    else bytes[0] as int + 256 * Number(bytes[1..], bigEndian)
  }

  function LengthAt(data: seq<Byte>, at: nat, bigEndian: bool): nat
    requires at + HEADER <= |data|
  {
    Number(data[at..at + 4], bigEndian)
  }

  function KindAt(data: seq<Byte>, at: nat, bigEndian: bool): nat
    requires at + HEADER <= |data|
  {
    Number(data[at + 4..at + 6], bigEndian)
  }

  /** Messages start at multiples of four. */
  function Aligned(length: nat): nat { (length + 3) / 4 * 4 }

  /** A message with a header, of at least header length, fits at the offset. */
  predicate Fits(data: seq<Byte>, at: nat, bigEndian: bool) {
    at + HEADER <= |data| && HEADER <= LengthAt(data, at, bigEndian) && at + LengthAt(data, at, bigEndian) <= |data|
  }

  function End(data: seq<Byte>, at: nat, bigEndian: bool): nat
    requires at + HEADER <= |data|
  {
    at + Aligned(LengthAt(data, at, bigEndian))
  }

  /** The datagram begins with messages at these offsets: the first at 0, each next one after the last, aligned. */
  ghost predicate Begins(data: seq<Byte>, offsets: seq<nat>, bigEndian: bool) {
    && offsets != [] && offsets[0] == 0
    && (forall i :: 0 <= i < |offsets| ==> Fits(data, offsets[i], bigEndian))
    && (forall i :: 0 <= i < |offsets| - 1 ==> offsets[i + 1] == End(data, offsets[i], bigEndian))
  }

  /** `offsets` splits the datagram into messages: after the last message nothing is left. */
  ghost predicate Splits(data: seq<Byte>, offsets: seq<nat>, bigEndian: bool) {
    Begins(data, offsets, bigEndian) && End(data, offsets[|offsets| - 1], bigEndian) >= |data|
  }

  ghost predicate Harmless(data: seq<Byte>, at: nat, bigEndian: bool) {
    Fits(data, at, bigEndian) && KindAt(data, at, bigEndian) !in RESCAN_KINDS
  }

  /** A rescan can be skipped: a complete datagram of complete messages, none of which announces a change or a loss. */
  ghost predicate Skippable(data: seq<Byte>, truncated: bool, bigEndian: bool) {
    !truncated && exists offsets ::
      Splits(data, offsets, bigEndian) && forall i :: 0 <= i < |offsets| ==> Harmless(data, offsets[i], bigEndian)
  }

  /** A complete split begins with every message that the datagram begins with. */
  lemma {:induction false} SplitsEqual(data: seq<Byte>, one: seq<nat>, two: seq<nat>, i: nat, bigEndian: bool)
    requires Begins(data, one, bigEndian) && Splits(data, two, bigEndian) && i < |one|
    ensures i < |two| && two[i] == one[i]
  {
    if i == 0 {
    } else {
      SplitsEqual(data, one, two, i - 1, bigEndian);
      assert Fits(data, one[i], bigEndian);
    }
  }

  lemma AlignedGrows(length: nat)
    ensures length <= Aligned(length) < length + 4
  {
  }

  /** The messages read so far: harmless, one after the other, the next one due at `next`. */
  ghost predicate Read(data: seq<Byte>, offsets: seq<nat>, next: nat, bigEndian: bool) {
    && (forall i :: 0 <= i < |offsets| ==> Harmless(data, offsets[i], bigEndian))
    && (forall i :: 0 <= i < |offsets| - 1 ==> offsets[i + 1] == End(data, offsets[i], bigEndian))
    && (if offsets == [] then next == 0
        else offsets[0] == 0 && next == End(data, offsets[|offsets| - 1], bigEndian))
  }

  /** A split of the datagram starts with the messages read, and goes on where the next is due. */
  lemma {:induction false} SplitContinues(data: seq<Byte>, offsets: seq<nat>, next: nat, all: seq<nat>, bigEndian: bool)
    requires Read(data, offsets, next, bigEndian) && next < |data| && Splits(data, all, bigEndian)
    ensures |offsets| < |all| && all[|offsets|] == next
    decreases |offsets|
  {
    if offsets == [] {
    } else {
      var last := |offsets| - 1;
      AlignedGrows(LengthAt(data, offsets[last], bigEndian));
      assert Harmless(data, offsets[last], bigEndian);
      assert Read(data, offsets[..last], offsets[last], bigEndian);
      SplitContinues(data, offsets[..last], offsets[last], all, bigEndian);
    }
  }

  lemma SkippableContinues(data: seq<Byte>, truncated: bool, offsets: seq<nat>, next: nat, bigEndian: bool)
    requires Read(data, offsets, next, bigEndian) && next < |data|
    ensures Skippable(data, truncated, bigEndian) ==> Harmless(data, next, bigEndian)
  {
    if Skippable(data, truncated, bigEndian) {
      var all :| Splits(data, all, bigEndian) && forall i :: 0 <= i < |all| ==> Harmless(data, all[i], bigEndian);
      SplitContinues(data, offsets, next, all, bigEndian);
    }
  }

  lemma ReadNext(data: seq<Byte>, offsets: seq<nat>, next: nat, bigEndian: bool)
    requires Read(data, offsets, next, bigEndian) && Harmless(data, next, bigEndian)
    ensures Read(data, offsets + [next], End(data, next, bigEndian), bigEndian)
  {
  }

  lemma ReadAll(data: seq<Byte>, offsets: seq<nat>, next: nat, bigEndian: bool)
    requires Read(data, offsets, next, bigEndian) && |data| <= next && data != []
    ensures Skippable(data, false, bigEndian)
  {
    assert Splits(data, offsets, bigEndian);
  }

  /** Terminates on every datagram, and returns false exactly when a rescan can be skipped. */
  method EventRequiresRescan(data: seq<Byte>, truncated: bool, bigEndian: bool) returns (rescan: bool)
    ensures !rescan <==> Skippable(data, truncated, bigEndian)
  {
    if truncated || data == [] { return true; }
    var offset: nat := 0;
    ghost var offsets: seq<nat> := [];
    while offset < |data|
      invariant Read(data, offsets, offset, bigEndian)
      decreases |data| - offset
    {
      SkippableContinues(data, truncated, offsets, offset, bigEndian);
      if |data| - offset < HEADER { return true; }
      var length := LengthAt(data, offset, bigEndian);
      var kind := KindAt(data, offset, bigEndian);
      if length < HEADER || offset + length > |data| { return true; }
      if kind in RESCAN_KINDS { return true; }
      AlignedGrows(length);
      ReadNext(data, offsets, offset, bigEndian);
      offsets := offsets + [offset];
      offset := offset + Aligned(length);
    }
    ReadAll(data, offsets, offset, bigEndian);
    rescan := false;
  }
}
