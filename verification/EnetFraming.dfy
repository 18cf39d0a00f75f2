/** A printer of ENet datagrams, and what the header check makes of them. */
module EnetFraming {
  import opened Bytes
  import opened Options
  import opened Payload

  /** An ENet datagram up to its first command: a word of peer and session with two flags on top, a sent time
      if its flag is set, and a command byte of a type, two bits that must be clear, and two flags. */
  datatype EnetOpts = EnetOpts(
    peer: nat,
    session: nat,
    compressed: bool,
    sentTime: Option<nat>,
    cmdType: nat,
    other: nat,
    unsequenced: bool,
    acknowledge: bool
  ) {
    predicate Fits() {
      && peer < 0x1000 && session < 4 && cmdType < 16 && other < 4
      && (sentTime.Some? ==> sentTime.value < 0x1_0000)
    }

    function Word(): nat {
      peer + session * 0x1000 + (if compressed then 0x4000 else 0) + (if sentTime.Some? then 0x8000 else 0)
    }

    function Command(): nat {
      cmdType + other * 16 + (if unsequenced then 64 else 0) + (if acknowledge then 128 else 0)
    }

    function HeaderLen(): nat {
      if sentTime.Some? then 4 else 2
    }
  }

  /** `rest` begins with the command's channel and two bytes of sequence number. */
  function Datagram(o: EnetOpts, rest: Bytes): (b: Bytes)
    requires o.Fits()
    ensures |b| == o.HeaderLen() + 1 + |rest|
  {
    var time: Bytes := if o.sentTime.Some? then [o.sentTime.value / 256, o.sentTime.value % 256] else [];
    [o.Word() / 256, o.Word() % 256] + time + [o.Command()] + rest
  }

  lemma HeaderBits(o: EnetOpts)
    requires o.Fits()
    ensures o.Word() < 0x1_0000 && o.Command() < 256
    ensures o.Word() / 0x4000 % 2 == (if o.compressed then 1 else 0)
    ensures o.Word() / 0x8000 % 2 == (if o.sentTime.Some? then 1 else 0)
    ensures o.Command() % 16 == o.cmdType && o.Command() / 16 % 4 == o.other
  {
  }

  /** The first `n` bytes of a printed datagram. A compressed one is accepted from two bytes on. Any other is
      accepted if and only if its first command is there in full, has a type from 1 to 12, and sets no flag but
      acknowledge and unsequenced; with a sent time or without. */
  lemma PrintedIsValidIff(o: EnetOpts, rest: Bytes, n: nat)
    requires o.Fits() && n <= |Datagram(o, rest)|
    ensures EnetLooksValid(Datagram(o, rest)[..n])
       <==> if o.compressed then n >= 2 else n >= o.HeaderLen() + 4 && 1 <= o.cmdType <= 12 && o.other == 0
  {
    HeaderBits(o);
    var p := Datagram(o, rest)[..n];
    if n >= 2 {
      assert p[0] == o.Word() / 256 && p[1] == o.Word() % 256;
      assert Be16(p, 0) == o.Word();
    }
    if n > o.HeaderLen() {
      assert p[o.HeaderLen()] == o.Command();
    }
  }

  /** Four bytes of ones read as a compressed datagram: out-of-band queries would pass the check as well. */
  lemma QueriesAreValid(rest: Bytes)
    ensures IsOobPrefix([0xff, 0xff, 0xff, 0xff] + rest) && EnetLooksValid([0xff, 0xff, 0xff, 0xff] + rest)
  {
    var p: Bytes := [0xff, 0xff, 0xff, 0xff] + rest;
    assert Be16(p, 0) == 0xffff;
  }

  /** So a datagram is an anomaly exactly when it fails the check. */
  lemma AnomalousIff(p: Bytes)
    ensures Anomalous(p) <==> !EnetLooksValid(p)
  {
    if IsOobPrefix(p) {
      assert p == [0xff, 0xff, 0xff, 0xff] + p[4..];
      QueriesAreValid(p[4..]);
    }
  }
}
