/** Network prefixes read off the bits of an address. The code groups addresses by octets and segments;
    that this is grouping by prefix is proved here, and results about groups are carried to prefixes. */
module Prefixes {
  import opened Prelude
  import opened Permutations
  import opened Addresses

  /** The number these digits stand for, most significant first. */
  function BigEndian(digits: seq<nat>, base: nat): nat {
    if digits == [] then 0
    else BigEndian(digits[..|digits| - 1], base) * base + digits[|digits| - 1]
  }

  /** The address as one number of 32 bits for IPv4 and 128 for IPv6. */
  function AddressBits(ip: IpAddr): nat {
    match ip
    case V4(a, b, c, d) => BigEndian([a, b, c, d], 0x100)
    case V6(a, b, c, d, e, f, g, h) => BigEndian([a, b, c, d, e, f, g, h], 0x1_0000)
  }

  lemma OneMoreDigit(digits: seq<nat>, last: nat, base: nat)
    ensures BigEndian(digits + [last], base) == BigEndian(digits, base) * base + last
  {
    assert (digits + [last])[..|digits|] == digits;
  }

  lemma FourDigits(a: nat, b: nat, c: nat, d: nat, base: nat)
    ensures BigEndian([a, b, c, d], base) == ((a * base + b) * base + c) * base + d
  {
    OneMoreDigit([], a, base);
    OneMoreDigit([a], b, base);
    OneMoreDigit([a, b], c, base);
    OneMoreDigit([a, b, c], d, base);
    assert [] + [a] == [a] && [a] + [b] == [a, b] && [a, b] + [c] == [a, b, c] && [a, b, c] + [d] == [a, b, c, d];
  }

  lemma EightSegments(ip: IpAddr)
    requires ip.V6?
    ensures AddressBits(ip) ==
            ((((((ip.s0 * 0x1_0000 + ip.s1) * 0x1_0000 + ip.s2) * 0x1_0000 + ip.s3) * 0x1_0000 + ip.s4) * 0x1_0000
              + ip.s5) * 0x1_0000 + ip.s6) * 0x1_0000 + ip.s7
  {
    var a, b, c, d, e, f, g, h := ip.s0, ip.s1, ip.s2, ip.s3, ip.s4, ip.s5, ip.s6, ip.s7;
    FourDigits(a, b, c, d, 0x1_0000);
    OneMoreDigit([a, b, c, d], e, 0x1_0000);
    OneMoreDigit([a, b, c, d, e], f, 0x1_0000);
    OneMoreDigit([a, b, c, d, e, f], g, 0x1_0000);
    OneMoreDigit([a, b, c, d, e, f, g], h, 0x1_0000);
    assert [a, b, c, d] + [e] == [a, b, c, d, e];
    assert [a, b, c, d, e] + [f] == [a, b, c, d, e, f];
    assert [a, b, c, d, e, f] + [g] == [a, b, c, d, e, f, g];
    assert [a, b, c, d, e, f, g] + [h] == [a, b, c, d, e, f, g, h];
  }

  /** An IPv4 /16 or an IPv6 /32: the leading 16 or 32 bits. */
  datatype Prefix = Slash16(bits: nat) | Slash32(bits: nat)

  function PrefixOf(addr: PeerAddr): Prefix {
    if addr.ip.V4? then Slash16(AddressBits(addr.ip) / 0x1_0000)
    else Slash32(AddressBits(addr.ip) / 0x1_0000_0000_0000_0000_0000_0000)
  }

  lemma AtLeastOnce(n: nat, unit: nat)
    requires n > 0
    ensures n * unit >= unit
  {
  }

  /** What is below the unit does not reach the quotient. */
  lemma LeadingBits(high: nat, low: nat, unit: nat)
    requires low < unit
    ensures (high * unit + low) / unit == high
  {
    var n := high * unit + low;
    var q, r := n / unit, n % unit;
    assert (high - q) * unit == high * unit - q * unit == r - low;
    if q < high {
      AtLeastOnce(high - q, unit);
    } else if high < q {
      AtLeastOnce(q - high, unit);
    }
  }

  lemma PrefixBits(addr: PeerAddr)
    ensures PrefixOf(addr) == match addr.ip
                              case V4(a, b, _, _) => Slash16(a * 0x100 + b)
                              case V6(a, b, _, _, _, _, _, _) => Slash32(a * 0x1_0000 + b)
  {
    match addr.ip
    case V4(a, b, c, d) =>
      FourDigits(a, b, c, d, 0x100);
      LeadingBits(a * 0x100 + b, c * 0x100 + d, 0x1_0000);
    case V6(a, b, c, d, e, f, g, h) =>
      EightSegments(addr.ip);
      var low := ((((c * 0x1_0000 + d) * 0x1_0000 + e) * 0x1_0000 + f) * 0x1_0000 + g) * 0x1_0000 + h;
      LeadingBits(a * 0x1_0000 + b, low, 0x1_0000_0000_0000_0000_0000_0000);
  }

  /** Two addresses are of one group exactly when both are IPv4 and agree on their leading 16 bits, or
      both are IPv6 and agree on their leading 32. */
  lemma SameGroupIffSamePrefix(x: PeerAddr, y: PeerAddr)
    ensures GroupOf(x) == GroupOf(y) <==>
            || (x.ip.V4? && y.ip.V4? && AddressBits(x.ip) / 0x1_0000 == AddressBits(y.ip) / 0x1_0000)
            || (x.ip.V6? && y.ip.V6? && AddressBits(x.ip) / 0x1_0000_0000_0000_0000_0000_0000
                                        == AddressBits(y.ip) / 0x1_0000_0000_0000_0000_0000_0000)
    ensures GroupOf(x) == GroupOf(y) <==> PrefixOf(x) == PrefixOf(y)
  {
    PrefixBits(x);
    PrefixBits(y);
    if x.ip.V4? && y.ip.V4? {
      TwoDigits(x.ip.o0, x.ip.o1, y.ip.o0, y.ip.o1, 0x100);
    } else if x.ip.V6? && y.ip.V6? {
      TwoDigits(x.ip.s0, x.ip.s1, y.ip.s0, y.ip.s1, 0x1_0000);
    }
  }

  lemma TwoDigits(a: nat, b: nat, c: nat, d: nat, base: nat)
    requires b < base && d < base
    ensures a * base + b == c * base + d <==> a == c && b == d
  {
    if a * base + b == c * base + d {
      LeadingBits(a, b, base);
      LeadingBits(c, d, base);
    }
  }

  // Sets of prefixes

  ghost function PrefixSet(peers: seq<PeerAddr>): set<Prefix> {
    set a | a in peers :: PrefixOf(a)
  }

  /** The prefixes of the peers at these positions. */
  ghost function PrefixesAt(peers: seq<PeerAddr>, positions: set<nat>): set<Prefix>
    requires forall i | i in positions :: i < |peers|
  {
    set i | i in positions :: PrefixOf(peers[i])
  }

  ghost function GroupsAt(peers: seq<PeerAddr>, positions: set<nat>): set<NetworkGroup>
    requires forall i | i in positions :: i < |peers|
  {
    set i | i in positions :: GroupOf(peers[i])
  }

  lemma PrefixAmongGroups(peers: seq<PeerAddr>, positions: set<nat>, i: nat)
    requires i < |peers| && forall k | k in positions :: k < |peers|
    ensures PrefixOf(peers[i]) in PrefixesAt(peers, positions) <==> GroupOf(peers[i]) in GroupsAt(peers, positions)
  {
    forall k | k in positions
      ensures GroupOf(peers[k]) == GroupOf(peers[i]) <==> PrefixOf(peers[k]) == PrefixOf(peers[i])
    {
      SameGroupIffSamePrefix(peers[k], peers[i]);
    }
  }

  lemma OneMorePosition(peers: seq<PeerAddr>, rest: set<nat>, i: nat)
    requires i < |peers| && i !in rest && forall k | k in rest :: k < |peers|
    ensures PrefixesAt(peers, rest + {i}) == PrefixesAt(peers, rest) + {PrefixOf(peers[i])}
    ensures GroupsAt(peers, rest + {i}) == GroupsAt(peers, rest) + {GroupOf(peers[i])}
  {
  }

  /** At any positions there are as many prefixes as groups. */
  lemma {:induction false} PrefixesCountGroups(peers: seq<PeerAddr>, positions: set<nat>)
    requires forall i | i in positions :: i < |peers|
    ensures |PrefixesAt(peers, positions)| == |GroupsAt(peers, positions)|
  {
    if positions != {} {
      var i :| i in positions;
      var rest := positions - {i};
      PrefixesCountGroups(peers, rest);
      PrefixAmongGroups(peers, rest, i);
      OneMorePosition(peers, rest, i);
      assert positions == rest + {i};
    }
  }

  lemma AllPositions(peers: seq<PeerAddr>)
    ensures PrefixSet(peers) == PrefixesAt(peers, Below(|peers|))
    ensures GroupSet(peers) == GroupsAt(peers, Below(|peers|))
    ensures |PrefixSet(peers)| == |GroupSet(peers)|
  {
    PrefixesCountGroups(peers, Below(|peers|));
    forall a | a in peers
      ensures PrefixOf(a) in PrefixesAt(peers, Below(|peers|)) && GroupOf(a) in GroupsAt(peers, Below(|peers|))
    {
      var i :| 0 <= i < |peers| && peers[i] == a;
      assert i in Below(|peers|);
    }
  }

  /** No two of these peers share a prefix. */
  ghost predicate HaveDistinctPrefixes(peers: seq<PeerAddr>) {
    forall i, j | 0 <= i < j < |peers| :: PrefixOf(peers[i]) != PrefixOf(peers[j])
  }

  lemma DistinctGroupsAreDistinctPrefixes(peers: seq<PeerAddr>)
    requires Distinct(GroupsOf(peers))
    ensures HaveDistinctPrefixes(peers)
  {
    forall i, j | 0 <= i < j < |peers| ensures PrefixOf(peers[i]) != PrefixOf(peers[j]) {
      SameGroupIffSamePrefix(peers[i], peers[j]);
      assert GroupsOf(peers)[i] != GroupsOf(peers)[j];
    }
  }

  // Ranges

  /** The addresses nobody may be served: 127.0.0.0/8 and ::1, 0.0.0.0 and ::, 224.0.0.0/4 and ff00::/8. */
  ghost predicate IsUnroutable(ip: IpAddr) {
    var bits := AddressBits(ip);
    if ip.V4?
    then bits == 0 || 0x7F00_0000 <= bits <= 0x7FFF_FFFF || 0xE000_0000 <= bits <= 0xEFFF_FFFF
    else bits <= 1 || bits >= 0xFF00_0000_0000_0000_0000_0000_0000_0000
  }

  lemma UnroutableRanges(ip: IpAddr)
    ensures IsUnroutable(ip) <==> ip.IsLoopback() || ip.IsUnspecified() || ip.IsMulticast()
  {
    if ip.V4? {
      FourDigits(ip.o0, ip.o1, ip.o2, ip.o3, 0x100);
    } else {
      EightSegments(ip);
    }
  }
}
