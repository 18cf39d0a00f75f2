/** From the bytes of a frame to what the filter decides on: Ethernet, 802.1Q tags, IPv4, TCP, UDP. */
module Wire {
  import opened Bytes
  import opened Options

  const ETH_HLEN: nat := 14
  const VLAN_HLEN: nat := 4
  const IP_HLEN: nat := 20
  const TCP_HLEN: nat := 20
  const UDP_HLEN: nat := 8

  const ETH_P_IP: nat := 0x0800
  const ETH_P_8021Q: nat := 0x8100
  const ETH_P_8021AD: nat := 0x88A8
  const IPPROTO_TCP: byte := 6
  const IPPROTO_UDP: byte := 17
  const MAX_VLAN_TAGS: nat := 2

  /** An IPv4 packet the parser reached. `l4` runs to the end of the frame. */
  datatype IpPacket = IpPacket(src: Ip, protocol: byte, frag: nat, l4: Bytes)

  /** A frame as the verdict sees it. `Other` is everything the filter lets through unread.
      A TCP `body` is `None` when the data offset does not fit the segment. */
  datatype Traffic =
    | Other
    | TcpSegment(src: Ip, moreFrags: bool, syn: bool, body: Option<Bytes>)
    | UdpDatagram(src: Ip, moreFrags: bool, payload: Bytes)

  predicate IsTag(proto: nat) {
    proto == ETH_P_8021Q || proto == ETH_P_8021AD
  }

  /** Skips at most `left` VLAN headers: the protocol found and the offset of its header, or nothing
      when a tag is cut off. */
  function SkipTags(frame: Bytes, proto: nat, nh: nat, left: nat): (r: Option<(nat, nat)>)
    requires nh <= |frame|
    ensures r.Some? ==> nh <= r.value.1 <= |frame|
    decreases left
  {
    if left == 0 || !IsTag(proto) then Some((proto, nh))
    else if nh + VLAN_HLEN > |frame| then None
    else SkipTags(frame, Be16(frame, nh + 2), nh + VLAN_HLEN, left - 1)
  }

  function ParseIpAt(frame: Bytes, nh: nat): Option<IpPacket>
    requires nh <= |frame|
  {
    if nh + IP_HLEN > |frame| then None
    else
      var ihl := frame[nh] % 16 * 4;
      if ihl < IP_HLEN || nh + ihl > |frame| then None
      else Some(IpPacket(Be32(frame, nh + 12), frame[nh + 9], Be16(frame, nh + 6), frame[nh + ihl..]))
  }

  function ParseIp(frame: Bytes): Option<IpPacket> {
    if |frame| < ETH_HLEN then None
    else
      match SkipTags(frame, Be16(frame, 12), ETH_HLEN, MAX_VLAN_TAGS)
      case None => None
      case Some((proto, nh)) => if proto != ETH_P_IP then None else ParseIpAt(frame, nh)
  }

  /** The more-fragments flag of the fragment word. */
  predicate MoreFrags(frag: nat) {
    frag / 0x2000 % 2 == 1
  }

  /** A non-first fragment has a non-zero offset in the low 13 bits. */
  predicate LaterFragment(frag: nat) {
    frag % 0x2000 != 0
  }

  /** The payload behind a TCP header, if its data offset is at least 5 and fits the segment. */
  function TcpBody(l4: Bytes): Option<Bytes>
    requires |l4| >= TCP_HLEN
  {
    var hlen := l4[12] / 16 * 4;
    if hlen < TCP_HLEN || hlen > |l4| then None else Some(l4[hlen..])
  }

  function Classify(port: nat, ip: IpPacket): Traffic {
    if LaterFragment(ip.frag) then Other
    else if ip.protocol == IPPROTO_TCP then
      if |ip.l4| < TCP_HLEN || Be16(ip.l4, 2) != port then Other
      else TcpSegment(ip.src, MoreFrags(ip.frag), ip.l4[13] / 2 % 2 == 1, TcpBody(ip.l4))
    else if ip.protocol == IPPROTO_UDP then
      if |ip.l4| < UDP_HLEN || Be16(ip.l4, 2) != port then Other
      else UdpDatagram(ip.src, MoreFrags(ip.frag), ip.l4[UDP_HLEN..])
    else Other
  }

  /** What the filter observes in a frame when it guards `port`. */
  function Observe(port: nat, frame: Bytes): Traffic {
    match ParseIp(frame)
    case None => Other
    case Some(ip) => Classify(port, ip)
  }

  /** The parser as the program runs it: a bounded loop over the tags, then the IPv4 header. */
  method ReadIp(frame: Bytes) returns (ip: Option<IpPacket>)
    ensures ip == ParseIp(frame)
  {
    if ETH_HLEN > |frame| {
      return None;
    }
    var proto := Be16(frame, 12);
    var nh := ETH_HLEN;
    for i := 0 to MAX_VLAN_TAGS
      invariant ETH_HLEN <= nh <= |frame|
      invariant SkipTags(frame, Be16(frame, 12), ETH_HLEN, MAX_VLAN_TAGS)
             == SkipTags(frame, proto, nh, MAX_VLAN_TAGS - i)
    {
      if !IsTag(proto) {
        break;
      }
      if nh + VLAN_HLEN > |frame| {
        return None;
      }
      proto := Be16(frame, nh + 2);
      nh := nh + VLAN_HLEN;
    }
    if proto != ETH_P_IP {
      return None;
    }
    if nh + IP_HLEN > |frame| {
      return None;
    }
    var ihl := frame[nh] % 16 * 4;
    if ihl < IP_HLEN {
      return None;
    }
    if nh + ihl > |frame| {
      return None;
    }
    return Some(IpPacket(Be32(frame, nh + 12), frame[nh + 9], Be16(frame, nh + 6), frame[nh + ihl..]));
  }
}
