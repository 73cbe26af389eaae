/** IP addresses and CIDR networks, as the `std::net` and `ipnet` types the
    daemon is built on: an address is a family and an unsigned integer, a
    network is an address (host bits kept) and a prefix length that fits the
    family. */
module Nets {

  datatype Option<+T> = None | Some(value: T)

  datatype Family = V4 | V6

  function Width(family: Family): nat {
    match family
    case V4 => 32
    case V6 => 128
  }

  function Pow2(n: nat): (r: nat)
    ensures r > 0
  {
    if n == 0 then 1 else 2 * Pow2(n - 1)
  }

  datatype Addr = Addr(family: Family, bits: nat)

  predicate InRange(a: Addr) {
    a.bits < Pow2(Width(a.family))
  }

  datatype Net = Net(addr: Addr, prefix: nat)

  /** `Ipv4Net::new` and `Ipv6Net::new` refuse a prefix longer than the address. */
  type IpNet = n: Net | n.prefix <= Width(n.addr.family) witness Net(Addr(V4, 0), 0)

  /** Clears the low `hostBits` bits. */
  function Truncate(bits: nat, hostBits: nat): nat {
    if hostBits == 0 then bits else 2 * Truncate(bits / 2, hostBits - 1)
  }

  /** The network of length `prefix` that holds `a`. */
  function NetworkOf(a: Addr, prefix: nat): IpNet
    requires prefix <= Width(a.family)
  {
    Net(Addr(a.family, Truncate(a.bits, Width(a.family) - prefix)), prefix)
  }

  /** `IpNet::network()` with the prefix length kept: the destination the kernel sees. */
  function Canon(n: IpNet): IpNet {
    NetworkOf(n.addr, n.prefix)
  }

  /** `IpNet::contains`. */
  predicate Contains(n: IpNet, a: Addr) {
    a.family == n.addr.family && NetworkOf(a, n.prefix) == Canon(n)
  }
}
