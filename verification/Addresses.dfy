/** Addresses as the reconciler sees them: a family and a number. A network
    prefix is the contiguous range of the addresses it covers. */
module Addresses {

  datatype Family = V4 | V6

  datatype Address = Address(family: Family, value: nat)

  datatype Block = Block(family: Family, first: nat, last: nat)

  predicate Inside(a: Address, b: Block) {
    a.family == b.family && b.first <= a.value <= b.last
  }

  function Everything(f: Family): Block {
    Block(f, 0, if f == V4 then 0xffff_ffff else 0xffff_ffff_ffff_ffff_ffff_ffff_ffff_ffff)
  }

  function Unspecified(f: Family): Block {
    Block(f, 0, 0)
  }

  /** 169.254.0.0/16 and fe80::/10. */
  function LinkLocal(f: Family): Block {
    match f
    case V4 => Block(V4, 0xa9fe_0000, 0xa9fe_ffff)
    case V6 => Block(V6, 0xfe80_0000_0000_0000_0000_0000_0000_0000, 0xfebf_ffff_ffff_ffff_ffff_ffff_ffff_ffff)
  }

  /** 127.0.0.0/8 and ::1/128. */
  function Loopback(f: Family): Block {
    match f
    case V4 => Block(V4, 0x7f00_0000, 0x7fff_ffff)
    case V6 => Block(V6, 1, 1)
  }

  /** 224.0.0.0/4 and ff00::/8. */
  function Multicast(f: Family): Block {
    match f
    case V4 => Block(V4, 0xe000_0000, 0xefff_ffff)
    case V6 => Block(V6, 0xff00_0000_0000_0000_0000_0000_0000_0000, 0xffff_ffff_ffff_ffff_ffff_ffff_ffff_ffff)
  }

  /** A host address that may own source rules. */
  predicate Usable(a: Address) {
    && Inside(a, Everything(a.family))
    && !Inside(a, Unspecified(a.family))
    && !Inside(a, Multicast(a.family))
    && !Inside(a, LinkLocal(a.family))
    && !Inside(a, Loopback(a.family))
  }

  /** The usable addresses in numbers: neither 0, nor loopback, link-local or multicast, nor beyond the family. */
  lemma UsableInNumbers(a: Address)
    ensures Usable(a) <==>
      match a.family
      case V4 =>
        && 0 < a.value <= 0xffff_ffff && !(0x7f00_0000 <= a.value <= 0x7fff_ffff)
        && !(0xa9fe_0000 <= a.value <= 0xa9fe_ffff) && !(0xe000_0000 <= a.value <= 0xefff_ffff)
      case V6 =>
        && 1 < a.value < 0xff00_0000_0000_0000_0000_0000_0000_0000
        && !(0xfe80_0000_0000_0000_0000_0000_0000_0000 <= a.value <= 0xfebf_ffff_ffff_ffff_ffff_ffff_ffff_ffff)
  {
  }
}
