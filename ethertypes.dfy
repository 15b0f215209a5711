/** The 16-bit EtherType field and the values the decoder recognises. */
module EtherTypes {

  /** A double octet EtherType value; equality is the exact 16-bit match. */
  datatype EtherType = EtherType(raw: bv16)

  /** The value the source calls the IPv4 EtherType. It is written as 0x8000,
      not the registered 0x0800; the model keeps the value as written. */
  const IPV4: EtherType := EtherType(0x8000)
  /** A single (customer) VLAN tag follows. */
  const DOT1Q: EtherType := EtherType(0x8100)
  /** A stacked (service) VLAN tag follows. */
  const QINQ: EtherType := EtherType(0x88a8)

  /** Membership in `VLAN_EXTENSIONS`, the two EtherTypes that introduce a VLAN tag. */
  predicate IsVlanExtension(t: EtherType)
  {
    t == QINQ || t == DOT1Q
  }
}
