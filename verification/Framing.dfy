/** The frame printer the parser must undo: tags, IPv4 options, and TCP and UDP headers. */
module Framing {
  import opened Bytes
  import opened Options
  import opened Wire

  const MACS: Bytes := [2, 0, 0, 0, 0, 1, 2, 0, 0, 0, 0, 2]
  const DST_ADDR: Bytes := [192, 0, 2, 1]
  const TCI: nat := 100

  /** `ihl` 0 stands for a header without options, as in the printer. */
  datatype IpOpts = IpOpts(tags: seq<nat>, src: Ip, frag: nat, ihl: nat, proto: byte) {
    /** The fields fit their widths on the wire. */
    predicate Fits() {
      && (forall i :: 0 <= i < |tags| ==> tags[i] < 0x1_0000)
      && src < 0x1_0000_0000
      && frag < 0x1_0000
      && ihl < 256
    }

    function Words(): nat {
      if ihl == 0 then 5 else ihl
    }

    /** The first byte: the version bit set on top of the header length, however wide that is. */
    function First(): (b: byte)
      requires ihl < 256
      ensures b % 16 == Words() % 16
    {
      if Words() / 64 % 2 == 1 then Words() else Words() + 64
    }

    /** The header length the parser reads: what is left of it in four bits. */
    function Read(): nat {
      Words() % 16 * 4
    }

    function HeaderLen(): nat {
      if Words() * 4 < 20 then 20 else Words() * 4
    }
  }

  function TagBytes(tags: seq<nat>): (b: Bytes)
    requires forall i :: 0 <= i < |tags| ==> tags[i] < 0x1_0000
    ensures |b| == 4 * |tags|
  {
    if tags == [] then [] else Put16(tags[0]) + Put16(TCI) + TagBytes(tags[1..])
  }

  /** The 20 bytes every header has. */
  function Fixed(o: IpOpts, payloadLen: nat): (b: Bytes)
    requires o.Fits()
    ensures |b| == 20
  {
    [o.First(), 0] + Put16((o.HeaderLen() + payloadLen) % 0x1_0000) + [0, 0] + Put16(o.frag)
    + [64, o.proto, 0, 0] + Put32(o.src) + DST_ADDR
  }

  function IpHeader(o: IpOpts, payloadLen: nat): (b: Bytes)
    requires o.Fits()
    ensures |b| == o.HeaderLen()
  {
    Fixed(o, payloadLen) + seq(o.HeaderLen() - 20, _ => 1)
  }

  function FrameBytes(o: IpOpts, l4: Bytes): Bytes
    requires o.Fits()
  {
    MACS + TagBytes(o.tags) + Put16(0x0800) + IpHeader(o, |l4|) + l4
  }

  function TcpHeader(dport: nat, flags: byte, doff: byte): (b: Bytes)
    requires dport < 0x1_0000
    ensures |b| == 20
  {
    Put16(40000) + Put16(dport) + [0, 0, 3, 232] + [0, 0, 7, 208]
    + [doff * 16 % 256, flags] + Put16(65535) + [0, 0] + [0, 0]
  }

  function UdpSeg(dport: nat, payload: Bytes): Bytes
    requires dport < 0x1_0000
  {
    Put16(40000) + Put16(dport) + Put16((8 + |payload|) % 0x1_0000) + [0, 0] + payload
  }

  // ----- the printer as it runs -----

  method PutUint16(ip: array<byte>, at: nat, v: nat)
    requires at + 2 <= ip.Length && v < 0x1_0000
    modifies ip
    ensures ip[at] == v / 256 && ip[at + 1] == v % 256
    ensures forall i :: 0 <= i < ip.Length && i != at && i != at + 1 ==> ip[i] == old(ip[i])
  {
    ip[at] := v / 256;
    ip[at + 1] := v % 256;
  }

  method Copy(ip: array<byte>, at: nat, src: Bytes)
    requires at + |src| <= ip.Length
    modifies ip
    ensures forall i :: at <= i < at + |src| ==> ip[i] == src[i - at]
    ensures forall i :: 0 <= i < at || at + |src| <= i < ip.Length ==> ip[i] == old(ip[i])
  {
    for k := 0 to |src|
      invariant forall i :: at <= i < at + k ==> ip[i] == src[i - at]
      invariant forall i :: 0 <= i < at || at + k <= i < ip.Length ==> ip[i] == old(ip[i])
    {
      ip[at + k] := src[k];
    }
  }

  /** The fields of the fixed part, written over zeroes. */
  method WriteFixed(ip: array<byte>, o: IpOpts, payloadLen: nat)
    requires o.Fits() && ip.Length >= 20 && forall i :: 0 <= i < 20 ==> ip[i] == 0
    modifies ip
    ensures ip[..20] == Fixed(o, payloadLen)
  {
    hide Fixed, Put32;
    FixedBytes(o, payloadLen);
    ip[0] := o.First();
    PutUint16(ip, 2, (o.HeaderLen() + payloadLen) % 0x1_0000);
    PutUint16(ip, 6, o.frag);
    ip[8] := 64;
    ip[9] := o.proto;
    ghost var f := Fixed(o, payloadLen);
    assert forall i :: 0 <= i < 12 ==> ip[i] == f[i];
    Copy(ip, 12, Put32(o.src));
    assert forall i :: 12 <= i < 16 ==> ip[i] == f[i];
    Copy(ip, 16, DST_ADDR);
    assert forall i :: 16 <= i < 20 ==> ip[i] == f[i];
  }

  lemma FixedBytes(o: IpOpts, n: nat)
    requires o.Fits()
    ensures var f := Fixed(o, n);
            var len := (o.HeaderLen() + n) % 0x1_0000;
            && f[0] == o.First() && f[1] == 0 && f[2] == len / 256 && f[3] == len % 256 && f[4] == f[5] == 0
            && f[6] == o.frag / 256 && f[7] == o.frag % 256 && f[8] == 64 && f[9] == o.proto && f[10] == f[11] == 0
            && (forall i :: 12 <= i < 16 ==> f[i] == Put32(o.src)[i - 12])
            && (forall i :: 16 <= i < 20 ==> f[i] == DST_ADDR[i - 16])
  {
    hide Put32;
  }

  method BuildIpHeader(o: IpOpts, payloadLen: nat) returns (ip: array<byte>)
    requires o.Fits()
    ensures fresh(ip) && ip[..] == IpHeader(o, payloadLen)
  {
    hide Fixed;
    var hdrLen := o.HeaderLen();
    ip := new byte[hdrLen](_ => 0);
    WriteFixed(ip, o, payloadLen);
    for i := 20 to hdrLen
      invariant ip[..20] == Fixed(o, payloadLen)
      invariant forall j :: 20 <= j < i ==> ip[j] == 1
    {
      ip[i] := 1;
    }
    assert ip[20..] == seq(hdrLen - 20, _ => 1);
    assert ip[..] == ip[..20] + ip[20..];
  }

  method BuildFrame(o: IpOpts, l4: Bytes) returns (b: Bytes)
    requires o.Fits()
    ensures b == FrameBytes(o, l4)
  {
    b := MACS;
    for i := 0 to |o.tags|
      invariant b == MACS + TagBytes(o.tags[..i])
    {
      TagBytesSnoc(o.tags[..i], o.tags[i]);
      assert o.tags[..i + 1] == o.tags[..i] + [o.tags[i]];
      b := b + Put16(o.tags[i]);
      b := b + Put16(TCI);
    }
    assert o.tags[..|o.tags|] == o.tags;
    b := b + Put16(0x0800);
    var ip := BuildIpHeader(o, |l4|);
    b := b + ip[..];
    b := b + l4;
  }

  lemma {:induction false} TagBytesSnoc(tags: seq<nat>, tag: nat)
    requires tag < 0x1_0000 && forall i :: 0 <= i < |tags| ==> tags[i] < 0x1_0000
    ensures TagBytes(tags + [tag]) == TagBytes(tags) + Put16(tag) + Put16(TCI)
  {
    if tags == [] {
      assert TagBytes([tag]) == Put16(tag) + Put16(TCI) + TagBytes([]);
    } else {
      TagBytesSnoc(tags[1..], tag);
      assert (tags + [tag])[1..] == tags[1..] + [tag];
    }
  }

  // ----- the parser undoes the printer -----

  /** All tags are 802.1Q or 802.1ad ones. */
  predicate Tagged(o: IpOpts) {
    forall i :: 0 <= i < |o.tags| ==> o.tags[i] in {0x8100, 0x88A8}
  }

  /** Where tags printed at `off` take the parser: past all of them, or stuck on the first one too many. */
  lemma {:induction false} SkipPrintedTags(frame: Bytes, off: nat, tags: seq<nat>, left: nat)
    requires forall i :: 0 <= i < |tags| ==> tags[i] < 0x1_0000
    requires forall i :: 0 <= i < |tags| ==> tags[i] in {0x8100, 0x88A8}
    requires off + 4 * |tags| + 2 <= |frame|
    requires frame[off..off + 4 * |tags| + 2] == TagBytes(tags) + Put16(0x0800)
    ensures SkipTags(frame, Be16(frame, off), off + 2, left)
         == if |tags| <= left then Some((0x0800, off + 4 * |tags| + 2))
            else Some((tags[left], off + 4 * left + 2))
    decreases |tags|
  {
    hide TagBytes, Put16;
    if tags == [] {
      TagsEnd(frame, off);
    } else {
      TagsHead(frame, off, tags);
      if left > 0 {
        SkipPrintedTags(frame, off + 4, tags[1..], left - 1);
      }
    }
  }

  lemma TagsEnd(frame: Bytes, off: nat)
    requires off + 2 <= |frame| && frame[off..off + 2] == TagBytes([]) + Put16(0x0800)
    ensures Be16(frame, off) == 0x0800
  {
    var w := frame[off..off + 2];
    assert w == Put16(0x0800);
    assert frame[off] == w[0] && frame[off + 1] == w[1];
  }

  /** The first of the tags printed at `off`, and the rest four bytes on. */
  lemma TagsHead(frame: Bytes, off: nat, tags: seq<nat>)
    requires tags != [] && forall i :: 0 <= i < |tags| ==> tags[i] < 0x1_0000
    requires off + 4 * |tags| + 2 <= |frame|
    requires frame[off..off + 4 * |tags| + 2] == TagBytes(tags) + Put16(0x0800)
    ensures Be16(frame, off) == tags[0]
    ensures frame[off + 4..off + 4 + 4 * |tags[1..]| + 2] == TagBytes(tags[1..]) + Put16(0x0800)
  {
    hide Put16;
    TagsUnfold(tags);
    Slices(frame, off, Put16(tags[0]), Put16(TCI), TagBytes(tags[1..]) + Put16(0x0800));
    TwoBytes(frame, off, tags[0]);
  }

  lemma TagsUnfold(tags: seq<nat>)
    requires tags != [] && forall i :: 0 <= i < |tags| ==> tags[i] < 0x1_0000
    ensures TagBytes(tags) + Put16(0x0800) == Put16(tags[0]) + Put16(TCI) + (TagBytes(tags[1..]) + Put16(0x0800))
  {
    hide Put16;
  }

  lemma TwoBytes(frame: Bytes, off: nat, v: nat)
    requires v < 0x1_0000 && off + 2 <= |frame| && frame[off] == Put16(v)[0] && frame[off + 1] == Put16(v)[1]
    ensures Be16(frame, off) == v
  {
  }

  lemma Slices(frame: Bytes, off: nat, a: Bytes, b: Bytes, rest: Bytes)
    requires |a| == 2 && |b| == 2 && off + 4 + |rest| <= |frame| && frame[off..off + 4 + |rest|] == a + b + rest
    ensures frame[off] == a[0] && frame[off + 1] == a[1]
    ensures frame[off + 4..off + 4 + |rest|] == rest
  {
    var w := frame[off..off + 4 + |rest|];
    assert frame[off] == w[0] && frame[off + 1] == w[1];
    assert frame[off + 4..off + 4 + |rest|] == w[4..];
  }

  lemma IpHeaderFields(o: IpOpts, n: nat)
    requires o.Fits()
    ensures var h := IpHeader(o, n);
            && h[0] == o.First() && h[9] == o.proto && Be32(h, 12) == o.src && Be16(h, 6) == o.frag
  {
    var h := IpHeader(o, n);
    assert h[6] == Put16(o.frag)[0] && h[7] == Put16(o.frag)[1];
    assert forall i :: 0 <= i < 4 ==> h[12 + i] == Put32(o.src)[i];
  }

  lemma ParseIpHeaderAt(frame: Bytes, nh: nat, o: IpOpts, l4: Bytes)
    requires o.Fits()
    requires nh <= |frame| && frame[nh..] == IpHeader(o, |l4|) + l4
    ensures ParseIpAt(frame, nh)
         == if o.Read() < 20 then None
            else Some(IpPacket(o.src, o.proto, o.frag, IpHeader(o, |l4|)[o.Read()..] + l4))
  {
    hide IpHeader, Be16, Be32;
    var h := IpHeader(o, |l4|);
    var w := frame[nh..];
    IpHeaderFields(o, |l4|);
    assert forall i :: 0 <= i < 20 ==> frame[nh + i] == w[i] == h[i];
    SameWords(frame, nh, h);
    if o.Read() >= 20 {
      assert frame[nh + o.Read()..] == w[o.Read()..] == h[o.Read()..] + l4;
    }
  }

  lemma SameWords(frame: Bytes, nh: nat, h: Bytes)
    requires nh + 20 <= |frame| && |h| >= 20 && forall i :: 0 <= i < 20 ==> frame[nh + i] == h[i]
    ensures Be32(frame, nh + 12) == Be32(h, 12) && Be16(frame, nh + 6) == Be16(h, 6)
    ensures frame[nh] == h[0] && frame[nh + 9] == h[9]
  {
    assert frame[nh + 6] == h[6] && frame[nh + 7] == h[7];
    assert frame[nh + 12] == h[12] && frame[nh + 13] == h[13] && frame[nh + 14] == h[14] && frame[nh + 15] == h[15];
    assert frame[nh + 0] == h[0];
  }

  /** What the parser finds in a printed frame: nothing past two tags or in too short a header, and a
      header length cut to four bits. */
  lemma ParseAnyPrintedFrame(o: IpOpts, l4: Bytes)
    requires o.Fits() && Tagged(o)
    ensures ParseIp(FrameBytes(o, l4))
         == if |o.tags| <= 2 && o.Read() >= 20
            then Some(IpPacket(o.src, o.proto, o.frag, IpHeader(o, |l4|)[o.Read()..] + l4))
            else None
  {
    hide IpHeader, Fixed, ParseIpAt, SkipTags, TagBytes;
    var f := FrameBytes(o, l4);
    var t := |o.tags|;
    var mid := TagBytes(o.tags) + Put16(0x0800);
    assert f == MACS + mid + (IpHeader(o, |l4|) + l4);
    assert f[12..12 + 4 * t + 2] == mid;
    assert f[14 + 4 * t..] == IpHeader(o, |l4|) + l4;
    SkipPrintedTags(f, 12, o.tags, MAX_VLAN_TAGS);
    if t <= MAX_VLAN_TAGS {
      ParseIpHeaderAt(f, 14 + 4 * t, o, l4);
    } else {
      assert IsTag(o.tags[MAX_VLAN_TAGS]);
    }
  }

  /** The printed header length is one that IPv4 has. */
  predicate Legal(o: IpOpts) {
    5 <= o.Words() <= 15
  }

  /** The parser gives back what was printed if and only if there are at most two tags and the header
      length is a legal one. */
  lemma ParsePrintedFrame(o: IpOpts, l4: Bytes)
    requires o.Fits() && Tagged(o)
    ensures ParseIp(FrameBytes(o, l4)) == Some(IpPacket(o.src, o.proto, o.frag, l4))
       <==> |o.tags| <= 2 && Legal(o)
  {
    hide FrameBytes, ParseIp, IpHeader;
    ParseAnyPrintedFrame(o, l4);
    var h := IpHeader(o, |l4|);
    if Legal(o) {
      assert h[o.Read()..] + l4 == l4;
    } else if o.Read() >= 20 {
      assert |h[o.Read()..] + l4| > |l4|;
    }
  }

  /** Tags and options are invisible to the filter: it observes in the frame what it would observe in
      the plain one. */
  lemma FramingIsInvisible(port: nat, o: IpOpts, l4: Bytes)
    requires o.Fits() && Tagged(o) && |o.tags| <= 2 && Legal(o)
    ensures Observe(port, FrameBytes(o, l4)) == Observe(port, FrameBytes(o.(tags := [], ihl := 5), l4))
  {
    hide FrameBytes, ParseIp, Classify;
    ParsePrintedFrame(o, l4);
    ParsePrintedFrame(o.(tags := [], ihl := 5), l4);
  }

  lemma TcpHeaderFields(dport: nat, flags: byte, doff: byte)
    requires dport < 0x1_0000
    ensures var h := TcpHeader(dport, flags, doff);
            Be16(h, 2) == dport && h[12] == doff % 16 * 16 && h[13] == flags
  {
    var h := TcpHeader(dport, flags, doff);
    assert h[2] == Put16(dport)[0] && h[3] == Put16(dport)[1];
  }

  /** The fragment word of section 3.1 of RFC 791: a reserved bit, don't-fragment, more-fragments, offset. */
  datatype Fragment = Fragment(reserved: bool, dont: bool, more: bool, offset: nat) {
    function Word(): nat {
      (if reserved then 0x8000 else 0) + (if dont then 0x4000 else 0) + (if more then 0x2000 else 0) + offset
    }
  }

  lemma FragmentBits(f: Fragment)
    requires f.offset < 0x2000
    ensures f.Word() < 0x1_0000 && MoreFrags(f.Word()) == f.more && (LaterFragment(f.Word()) <==> f.offset != 0)
  {
  }

  /** Printed in a legal frame. */
  predicate Printed(o: IpOpts, f: Fragment) {
    o.Fits() && Tagged(o) && |o.tags| <= 2 && Legal(o) && f.offset < 0x2000 && o.frag == f.Word()
  }

  /** What the filter observes in a printed TCP segment, whose data offset is cut to four bits: nothing in a
      later fragment or for another port; don't-fragment makes no difference. */
  lemma ObservePrintedTcp(port: nat, o: IpOpts, f: Fragment, dport: nat, flags: byte, doff: byte, payload: Bytes)
    requires Printed(o, f) && o.proto == 6 && dport < 0x1_0000
    ensures Observe(port, FrameBytes(o, TcpHeader(dport, flags, doff) + payload))
         == if f.offset != 0 || dport != port then Other
            else TcpSegment(o.src, f.more, flags / 2 % 2 == 1,
                            if doff % 16 < 5 || doff % 16 * 4 > 20 + |payload| then None
                            else Some((TcpHeader(dport, flags, doff) + payload)[doff % 16 * 4..]))
  {
    hide FrameBytes, ParseIp, MoreFrags, LaterFragment;
    var seg := TcpHeader(dport, flags, doff) + payload;
    FragmentBits(f);
    ParsePrintedFrame(o, seg);
    TcpHeaderFields(dport, flags, doff);
    assert Be16(seg, 2) == Be16(TcpHeader(dport, flags, doff), 2);
  }

  /** What the filter observes in a printed UDP datagram. */
  lemma ObservePrintedUdp(port: nat, o: IpOpts, f: Fragment, dport: nat, payload: Bytes)
    requires Printed(o, f) && o.proto == 17 && dport < 0x1_0000
    ensures Observe(port, FrameBytes(o, UdpSeg(dport, payload)))
         == if f.offset != 0 || dport != port then Other else UdpDatagram(o.src, f.more, payload)
  {
    hide FrameBytes, ParseIp, MoreFrags, LaterFragment;
    var seg := UdpSeg(dport, payload);
    FragmentBits(f);
    ParsePrintedFrame(o, seg);
    assert seg[2] == Put16(dport)[0] && seg[3] == Put16(dport)[1];
    assert seg[8..] == payload;
  }

  /** Other protocols, and headers cut short, are let through unread; so is a frame whose first tag is neither
      a VLAN's nor the end of them. */
  lemma ObserveTheRest(port: nat, o: IpOpts, l4: Bytes)
    requires o.Fits()
    ensures Tagged(o) && |o.tags| <= 2 && Legal(o)
            && (o.proto !in {6, 17} || (o.proto == 6 && |l4| < 20) || (o.proto == 17 && |l4| < 8)) ==>
              Observe(port, FrameBytes(o, l4)) == Other
    ensures o.tags != [] && o.tags[0] !in {0x8100, 0x88A8, 0x0800} ==> Observe(port, FrameBytes(o, l4)) == Other
  {
    hide FrameBytes, ParseIp;
    if Tagged(o) && |o.tags| <= 2 && Legal(o) {
      ParsePrintedFrame(o, l4);
    }
    if o.tags != [] && o.tags[0] !in {0x8100, 0x88A8, 0x0800} {
      UnknownTag(o, l4);
    }
  }

  lemma UnknownTag(o: IpOpts, l4: Bytes)
    requires o.Fits() && o.tags != [] && o.tags[0] !in {0x8100, 0x88A8, 0x0800}
    ensures ParseIp(FrameBytes(o, l4)).None?
  {
    hide IpHeader, TagBytes, Put16, ParseIpAt;
    var f := FrameBytes(o, l4);
    var rest := TagBytes(o.tags[1..]) + Put16(0x0800);
    var tail := IpHeader(o, |l4|) + l4;
    TagsUnfold(o.tags);
    assert f == MACS + (Put16(o.tags[0]) + Put16(TCI) + rest) + tail;
    assert f[12..12 + 4 + |rest|] == Put16(o.tags[0]) + Put16(TCI) + rest;
    Slices(f, 12, Put16(o.tags[0]), Put16(TCI), rest);
    TwoBytes(f, 12, o.tags[0]);
  }

  // ----- frames cut short -----

  lemma {:induction false} SkipCutTags(frame: Bytes, n: nat, off: nat, tags: seq<nat>, left: nat)
    requires forall i :: 0 <= i < |tags| ==> tags[i] < 0x1_0000
    requires forall i :: 0 <= i < |tags| ==> tags[i] in {0x8100, 0x88A8}
    requires off + 4 * |tags| + 2 <= |frame| && off + 2 <= n <= |frame| && |tags| <= left
    requires frame[off..off + 4 * |tags| + 2] == TagBytes(tags) + Put16(0x0800)
    ensures SkipTags(frame[..n], Be16(frame, off), off + 2, left)
         == if off + 4 * |tags| + 2 <= n then Some((0x0800, off + 4 * |tags| + 2)) else None
    decreases |tags|
  {
    hide TagBytes, Put16;
    if tags == [] {
      TagsEnd(frame, off);
    } else {
      TagsHead(frame, off, tags);
      if off + 6 <= n {
        assert Be16(frame[..n], off + 4) == Be16(frame, off + 4);
        SkipCutTags(frame, n, off + 4, tags[1..], left - 1);
      }
    }
  }

  lemma CutHeader(frame: Bytes, n: nat, nh: nat, o: IpOpts, l4: Bytes)
    requires o.Fits() && Legal(o) && nh <= n < nh + o.HeaderLen() && n <= |frame|
    requires frame[nh..] == IpHeader(o, |l4|) + l4
    ensures ParseIpAt(frame[..n], nh).None?
  {
    hide IpHeader;
    var h := IpHeader(o, |l4|);
    if nh < n {
      IpHeaderFields(o, |l4|);
      assert frame[..n][nh] == frame[nh..][0] == h[0];
    }
  }

  /** A frame cut off anywhere before its payload is let through unread. */
  lemma CutFrameIsUnread(port: nat, o: IpOpts, l4: Bytes, n: nat)
    requires o.Fits() && Tagged(o) && |o.tags| <= 2 && Legal(o)
    requires n + |l4| < |FrameBytes(o, l4)|
    ensures Observe(port, FrameBytes(o, l4)[..n]) == Other
  {
    hide IpHeader, Fixed, ParseIpAt, SkipTags, TagBytes;
    var f := FrameBytes(o, l4);
    var t := |o.tags|;
    var mid := TagBytes(o.tags) + Put16(0x0800);
    assert f == MACS + mid + (IpHeader(o, |l4|) + l4);
    assert f[12..12 + 4 * t + 2] == mid;
    assert f[14 + 4 * t..] == IpHeader(o, |l4|) + l4;
    if n >= 14 {
      SkipCutTags(f, n, 12, o.tags, 2);
      assert Be16(f[..n], 12) == Be16(f, 12);
      if 14 + 4 * t <= n {
        CutHeader(f, n, 14 + 4 * t, o, l4);
      }
    }
  }
}
