/** Frames that witness runs are made of, and what the filter observes in them. */
module Scenarios {
  import opened Bytes
  import opened Options
  import opened Wire
  import opened Payload
  import opened Framing

  const SYN: byte := 2
  const ACK: byte := 16

  /** A plain segment from `src` to `port`. */
  function TcpFrame(port: nat, src: Ip, flags: byte, payload: Bytes): Bytes
    requires port < 0x1_0000 && src < 0x1_0000_0000
  {
    FrameBytes(IpOpts([], src, 0, 5, 6), TcpHeader(port, flags, 5) + payload)
  }

  function UdpFrame(port: nat, src: Ip, payload: Bytes): Bytes
    requires port < 0x1_0000 && src < 0x1_0000_0000
  {
    FrameBytes(IpOpts([], src, 0, 5, 17), UdpSeg(port, payload))
  }

  lemma ObserveTcpFrame(port: nat, src: Ip, flags: byte, payload: Bytes)
    requires port < 0x1_0000 && src < 0x1_0000_0000
    ensures Observe(port, TcpFrame(port, src, flags, payload))
         == TcpSegment(src, false, flags / 2 % 2 == 1, Some(payload))
  {
    hide Observe, FrameBytes, TcpHeader;
    var h := TcpHeader(port, flags, 5);
    assert (h + payload)[20..] == payload;
    ObservePrintedTcp(port, IpOpts([], src, 0, 5, 6), Fragment(false, false, false, 0), port, flags, 5, payload);
  }

  lemma ObserveUdpFrame(port: nat, src: Ip, payload: Bytes)
    requires port < 0x1_0000 && src < 0x1_0000_0000
    ensures Observe(port, UdpFrame(port, src, payload)) == UdpDatagram(src, false, payload)
  {
    hide Observe, FrameBytes, UdpSeg;
    ObservePrintedUdp(port, IpOpts([], src, 0, 5, 17), Fragment(false, false, false, 0), port, payload);
  }

  /** A connect request of the game's client. */
  function ConnectRequest(): Bytes {
    Ascii("POST /client") + Ascii("CitizenFX/")
  }

  lemma ConnectRequestIsValid()
    ensures RequestOf(ConnectRequest()) == PostClient(UaValid)
  {
    var p := ConnectRequest();
    var line, agent := Ascii("POST /client"), Ascii("CitizenFX/");
    PostClientText(p);
    assert p[12..21] == agent[..9] == Ascii("CitizenFX") && p[21] == agent[9] == '/' as int;
    assert AgentAt(p, 12);
    forall j: nat | j < 12
      ensures !AgentAt(p, j)
    {
      assert p[j] == line[j] != 'C' as int;
      AgentStartsWithC(p, j);
    }
    AgentSpec(p, UaValid);
  }

  lemma AgentStartsWithC(p: Bytes, j: nat)
    ensures AgentAt(p, j) ==> p[j] == 'C' as int
  {
    if AgentAt(p, j) {
      assert p[j] == p[j..j + 9][0] == Ascii("CitizenFX")[0];
    }
  }

  /** A datagram that the ENet check does not apply to. */
  const OOB_QUERY: Bytes := [0xff, 0xff, 0xff, 0xff]

  lemma OobQueryIsFine()
    ensures !Anomalous(OOB_QUERY)
  {
  }

  /** An empty datagram fails the ENet check. */
  lemma EmptyIsAnomalous()
    ensures Anomalous([])
  {
  }

  /** An empty segment is no request. */
  lemma EmptyIsNoRequest()
    ensures RequestOf([]) == NoRequest && !(Ascii("POST /client") <= [])
  {
  }
}
