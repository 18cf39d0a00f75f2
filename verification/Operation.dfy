/** What the settings promise, in the settings' own terms. */
module Operation {
  import opened Bytes
  import opened Words
  import opened Wire
  import opened Framing
  import opened Limiter
  import opened FilterMaps
  import opened Runs
  import opened Rates
  import opened RateBounds
  import Authorisation
  import Blacklisting
  import Connections
  import DropHistory

  /** The rate set for a limiter. */
  function RateOf(o: LoaderOptions, lim: Lim): nat {
    match lim
    case UdpLim => o.udpRatePerSec
    case PostLim => o.initConnectPerMin
    case InfoLim => o.getInfoPerMin
  }

  /** Datagrams are counted by the second, requests by the minute. */
  function UnitOf(lim: Lim): nat {
    match lim
    case UdpLim => 1_000_000_000
    case PostLim => 60_000_000_000
    case InfoLim => 60_000_000_000
  }

  function BurstOf(o: LoaderOptions, lim: Lim): nat {
    match lim
    case UdpLim => o.udpBurst
    case PostLim => o.initConnectBurst
    case InfoLim => o.getInfoBurst
  }

  lemma LimitsAreSet(o: LoaderOptions, n: int, lim: Lim)
    ensures LimitOf(Configure(o, n), lim) == Limit(PeriodNs(UnitOf(lim), RateOf(o, lim)), BurstOf(o, lim))
  {
  }

  lemma PeriodsInAUnit(unit: nat, rate: nat)
    requires rate >= 1 && rate * rate <= unit
    ensures PeriodNs(unit, rate) > 0 && CeilDiv(unit, PeriodNs(unit, rate)) <= rate + 1
  {
    assert 1 * rate * rate == rate * rate && 1 * unit == unit;
    SmallRatesAreDelivered(unit, rate, 1);
    var p := PeriodNs(unit, rate);
    DivBounds(unit, p);
    DivMono(unit + p - 1, rate * p + 2 * p - 1, p);
    assert (rate + 1) * p == rate * p + p;
    DivUnique(rate * p + 2 * p - 1, p, rate + 1);
  }

  /** In any unit of time one source gets no more than the burst, the rate and one packet more through: as
      many datagrams a second, connect requests a minute, info requests a minute. */
  lemma RateIsKept(run: Run, o: LoaderOptions, n: int, lim: Lim, ip: Ip, lo: nat, hi: nat, a: nat)
    requires run.Valid() && run.Clocked() && run.cfg == Configure(o, n) && StartsPast(run, lim, ip)
    requires RateOf(o, lim) >= 1 && RateOf(o, lim) * RateOf(o, lim) <= UnitOf(lim) && BurstOf(o, lim) > 0
    requires lo <= hi <= |run.events| && Window(run, lim, ip, lo, hi, a, a + UnitOf(lim))
    ensures Passes(run, lim, ip, lo, hi) <= BurstOf(o, lim) + RateOf(o, lim) + 1
  {
    hide Run.Valid, Run.Clocked, StartsPast, Window, Passes, Configure, UnitOf, RateOf, BurstOf, PeriodNs, CeilDiv,
      LimitOf;
    LimitsAreSet(o, n, lim);
    PeriodsInAUnit(UnitOf(lim), RateOf(o, lim));
    RateBound(run, lim, ip, lo, hi, a, a + UnitOf(lim));
  }

  /** A rate or a burst of zero switches a limiter off: it stops nothing. */
  lemma ZeroIsOff(run: Run, o: LoaderOptions, n: int, lim: Lim, ip: Ip, k: nat)
    requires run.Valid() && run.cfg == Configure(o, n) && k < |run.events|
    requires (RateOf(o, lim) == 0 || BurstOf(o, lim) == 0) && AsksAt(run, lim, ip, k)
    ensures AdmitsAt(run, lim, ip, k)
  {
    hide Run.Valid, AsksAt, AdmitsAt, CellOf, Configure, UnitOf, RateOf, BurstOf, LimitOf;
    LimitsAreSet(o, n, lim);
    HugeRateDisables(UnitOf(lim), RateOf(o, lim), BurstOf(o, lim));
    BucketStep(run, k, lim, ip);
  }

  /** A datagram passes only within the TTL of an earlier pass of its source. */
  lemma TtlIsKept(run: Run, o: LoaderOptions, n: int, ip: Ip, k: nat)
    requires run.Valid() && run.Clocked() && run.cfg == Configure(o, n) && run.states[0].whitelist == map[]
    requires k < |run.events| && run.From(k, ip) && run.Seen(k).UdpDatagram? && run.Out(k) == PassedUdp
    ensures var last := Authorisation.LastPass(run, ip, k);
            last.Some? && run.events[k].now - run.events[last.value].now <= o.ttl
  {
    hide Run.Valid, Run.Clocked, Run.Seen, Run.Out, Authorisation.LastPass;
    PassedIsWhole(run, k);
    Authorisation.UdpNeedsRecentPass(run, ip, k);
  }

  lemma PassedIsWhole(run: Run, k: nat)
    requires run.Valid() && k < |run.events| && run.Seen(k).UdpDatagram? && run.Out(k) == PassedUdp
    ensures !run.Seen(k).moreFrags
  {
    hide Run.Follows, Observe, DecideUdp;
  }

  /** A blacklisted source has sent the threshold's worth of bad packets inside one window, the last of them
      less than the penalty ago. */
  lemma BlacklistIsDeserved(run: Run, o: LoaderOptions, n: int, ip: Ip, k: nat, t: nat) returns (i: nat, j: nat)
    requires run.Valid() && run.Clocked() && run.cfg == Configure(o, n) && run.states[0].health == map[]
    requires k <= |run.events| && ip in run.states[k].health && run.states[k].health[ip].until > t
    ensures i <= j < k && Blacklisting.AnomalyAt(run, ip, i) && Blacklisting.AnomalyAt(run, ip, j)
    ensures run.events[j].now - run.events[i].now <= o.healthWindow
    ensures Blacklisting.Anomalies(run, ip, i, j + 1) >= Max(1, o.healthThreshold)
    ensures t < run.events[j].now + o.healthBlacklist
  {
    hide Run.Valid, Run.Clocked, Blacklisting.AnomalyAt, Blacklisting.Anomalies;
    i, j := Blacklisting.BlacklistingIsSound(run, ip, k, t);
  }

  /** Without loss of the counter, and where nothing closes from SYN-RECEIVED, a SYN is refused for too many
      open connections if and only if its source holds as many as set. */
  lemma CapIsKept(run: Run, o: LoaderOptions, n: int, tabs: seq<Connections.Table>, k: nat, ip: Ip)
    requires run.Valid() && run.cfg == Configure(o, n) && 0 < o.tcpMaxOpenPerIp < TWO_63 && k < |run.events|
    requires Connections.Kernel(run, tabs) && Connections.NoLeaks(run, tabs)
    requires Connections.OpenCount(run.states[0], ip) == Connections.Live(tabs[0], ip)
    requires forall j :: 0 <= j < k ==> !run.Loses(j, OpenMap, ip)
    requires run.From(k, ip) && run.Seen(k).TcpSegment? && run.Seen(k).syn && !run.Seen(k).moreFrags
    ensures run.Out(k) == Dropped(TcpTooManyOpen) <==> Connections.Live(tabs[k], ip) >= o.tcpMaxOpenPerIp
  {
    hide Run.Valid, Run.Seen, Run.Out, Connections.Kernel, Connections.NoLeaks, Connections.Live, Connections.Leaked;
    Connections.CapIff(run, tabs, 0, k, ip);
    Connections.NoneLeaked(run, tabs, ip, 0, k);
  }

  /** Drops are remembered only if that is on. */
  lemma HistoryIsOptional(run: Run, o: LoaderOptions, n: int, ip: Ip, k: nat)
    requires run.Valid() && run.cfg == Configure(o, n) && run.states[0].drops == map[] && k <= |run.events|
    requires ip in run.states[k].drops
    ensures o.dropHistory
  {
    hide Run.Valid, DropHistory.OpenedBy, DropHistory.LastDrop;
    var c, l := DropHistory.HistoryMeaning(run, ip, k);
  }

  /** A segment or a datagram is filtered if and only if it is to the port set, and no later fragment. */
  lemma PortIsGuarded(o: LoaderOptions, n: int, ip: IpOpts, f: Fragment, dport: nat, flags: byte, doff: byte,
                      payload: Bytes)
    requires Printed(ip, f) && ip.proto in {6, 17} && dport < 0x1_0000
    ensures var l4 := if ip.proto == 6 then TcpHeader(dport, flags, doff) + payload else UdpSeg(dport, payload);
            Observe(Configure(o, n).port, FrameBytes(ip, l4)).Other? <==> f.offset != 0 || dport != o.port
  {
    hide Observe, FrameBytes;
    if ip.proto == 6 {
      ObservePrintedTcp(o.port, ip, f, dport, flags, doff, payload);
    } else {
      ObservePrintedUdp(o.port, ip, f, dport, payload);
    }
  }
}
