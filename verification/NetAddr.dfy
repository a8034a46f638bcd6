/** net/netip addresses, as far as the gateway looks into them. */
module NetAddr {

  datatype Addr = Invalid | V4(bits: nat) | V6(bits: nat)

  /** An IPv4-mapped IPv6 address stands for the IPv4 address inside it. */
  function Unmap(a: Addr): Addr {
    if a.V6? && a.bits / 0x1_0000_0000 == 0xffff then V4(a.bits % 0x1_0000_0000) else a
  }

  /** Unmap changes exactly the addresses in ::ffff:0:0/96, into the IPv4 address they hold. */
  lemma UnmapIff(a: Addr)
    ensures forall w: nat :: w < 0x1_0000_0000 ==> Unmap(V6(0xffff_0000_0000 + w)) == V4(w)
    ensures Unmap(a) != a ==> a.V6? && 0xffff_0000_0000 <= a.bits < 0x1_0000_0000_0000
  {
  }
}
