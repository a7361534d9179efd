/** Values shared by every component: identifiers, link types and the usual wrappers. */
module Basics {

  datatype Option<+T> = None | Some(value: T)

  /** An ISD-AS number.  The zero value stands for "no AS". */
  datatype IA = IA(isd: nat, asn: nat) {
    predicate IsZero() { isd == 0 && asn == 0 }
    predicate IsWildcard() { isd == 0 || asn == 0 }
  }

  const NO_IA := IA(0, 0)

  /** A 16-bit interface identifier; 0 is the AS-internal side. */
  type IfId = x: int | 0 <= x < 0x1_0000

  type Byte = x: int | 0 <= x < 256

  datatype LinkType = Unset | Core | Parent | Child | Peer

  /** The type a consistently configured link has at its other end. */
  function Opposite(t: LinkType): LinkType {
    match t
    case Parent => Child
    case Child => Parent
    case _ => t
  }
}
