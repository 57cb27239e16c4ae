/** Peer socket addresses and the network groups that limit the weight of one prefix. */
module Addresses {
  import opened Prelude

  datatype IpAddr =
    | V4(o0: u8, o1: u8, o2: u8, o3: u8)
    | V6(s0: u16, s1: u16, s2: u16, s3: u16, s4: u16, s5: u16, s6: u16, s7: u16)
  {
    predicate IsLoopback() {
      match this
      case V4(a, _, _, _) => a == 127
      case V6(_, _, _, _, _, _, _, _) => this == V6(0, 0, 0, 0, 0, 0, 0, 1)
    }

    predicate IsUnspecified() {
      match this
      case V4(_, _, _, _) => this == V4(0, 0, 0, 0)
      case V6(_, _, _, _, _, _, _, _) => this == V6(0, 0, 0, 0, 0, 0, 0, 0)
    }

    predicate IsMulticast() {
      match this
      case V4(a, _, _, _) => 224 <= a <= 239
      case V6(a, _, _, _, _, _, _, _) => 0xFF00 <= a
    }
  }

  datatype PeerAddr = PeerAddr(ip: IpAddr, port: u16)

  /** IPv4 addresses group by /16 and IPv6 addresses by /32. */
  datatype NetworkGroup = Ipv4Group(a: u8, b: u8) | Ipv6Group(g: u16, h: u16)

  function GroupOfIp(ip: IpAddr): NetworkGroup {
    match ip
    case V4(a, b, _, _) => Ipv4Group(a, b)
    case V6(a, b, _, _, _, _, _, _) => Ipv6Group(a, b)
  }

  function GroupOf(addr: PeerAddr): NetworkGroup { GroupOfIp(addr.ip) }

  function GroupsOf(peers: seq<PeerAddr>): seq<NetworkGroup> {
    seq(|peers|, i requires 0 <= i < |peers| => GroupOf(peers[i]))
  }

  /** The groups with at least one of these addresses. */
  ghost function GroupSet(peers: seq<PeerAddr>): set<NetworkGroup> {
    set a | a in peers :: GroupOf(a)
  }
}
