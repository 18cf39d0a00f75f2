/** What becomes of a whitelist entry that has run out: which packets make it valid again, and whether
    its source has to connect anew. */
module Revival {
  import opened Bytes
  import opened Options
  import opened Words
  import opened Wire
  import opened Payload
  import opened Limiter
  import opened HealthWindow
  import opened FilterMaps
  import opened Runs
  import opened Sockets
  import opened Authorisation
  import opened Scenarios

  /** The request in a segment, if any, is not a bot's and its limiter has a token. */
  predicate RequestAdmitted(cfg: Config, v: View, body: Bytes, now: nat) {
    match RequestOf(body)
    case NoRequest => true
    case PostClient(ua) => ua != UaBot && Take(cfg.init, v.init, now).ok
    case GetInfo(ua) => ua != UaBot && Take(cfg.info, v.info, now).ok
  }

  /** A SYN is below the cap and the CPU's breaker has a token. */
  predicate SynAdmitted(cfg: Config, v: View, breaker: Bucket, now: nat) {
    !OverCap(cfg, v.open) && Take(cfg.syn, Some(breaker), now).ok
  }

  /** A well-formed TCP segment that no guard stops. */
  predicate Revives(cfg: Config, v: View, breaker: Bucket, t: Traffic, now: nat) {
    && t.TcpSegment? && !t.moreFrags
    && (t.syn ==> SynAdmitted(cfg, v, breaker, now))
    && t.body.Some? && RequestAdmitted(cfg, v, t.body.value, now)
  }

  /** Running out is not the end of an entry: a packet makes it valid again if and only if it is such a
      segment, however old the entry is and whatever the segment asks for; any other leaves it as it is. */
  lemma RevivedIff(cfg: Config, s: Maps, t: Traffic, cpu: nat, now: nat)
    requires HasCpu(s, cpu) && !t.Other? && t.src in s.whitelist && Wrap64(now - s.whitelist[t.src]) > cfg.ttl
    ensures XdpStep(cfg, s, t, cpu, now).whitelist[t.src] == now
       <==> Revives(cfg, ViewOf(s, t.src), s.breaker[cpu], t, now)
    ensures !Revives(cfg, ViewOf(s, t.src), s.breaker[cpu], t, now) ==>
              XdpStep(cfg, s, t, cpu, now).whitelist == s.whitelist
  {
    hide XdpStep, OutcomeOf, Spend, DropsAfter, Record, Hits, Advance, AdmittedSyn, ReachesBreaker, Revives;
    XdpFields(cfg, s, t, cpu, now);
    PassesIff(cfg, s, t, cpu, now);
  }

  lemma PassesIff(cfg: Config, s: Maps, t: Traffic, cpu: nat, now: nat)
    requires HasCpu(s, cpu) && !t.Other? && t.src in s.whitelist && Wrap64(now - s.whitelist[t.src]) > cfg.ttl
    ensures OutcomeOf(cfg, s, t, cpu, now).Passed() <==> Revives(cfg, ViewOf(s, t.src), s.breaker[cpu], t, now)
  {
    hide Take, RequestOf, OverCap, IsBlacklisted, DecideGame, Wrap64;
  }

  // ----- back without connecting -----

  /** The entry of `ip` has run out at event `i`, and at event `k` its datagrams pass again, without a
      connect request in between. */
  ghost predicate BackWithoutConnect(run: Run, ip: Ip, i: nat, k: nat)
    requires run.Valid() && i < k < |run.events|
  {
    && run.From(i, ip) && run.Out(i) == Dropped(UdpExpired)
    && run.From(k, ip) && run.Out(k) == PassedUdp
    && forall j :: i < j < k ==> !Connects(run, j, ip)
  }

  lemma ExpiredShape(cfg: Config, s: Maps, t: Traffic, cpu: nat, now: nat)
    requires HasCpu(s, cpu) && OutcomeOf(cfg, s, t, cpu, now) == Dropped(UdpExpired)
    ensures t.UdpDatagram? && !t.moreFrags
  {
    hide Take, RequestOf, OverCap, IsBlacklisted, DecideGame, Wrap64;
  }

  lemma ExpiredAt(run: Run, k: nat)
    requires run.Valid() && k < |run.events| && run.Out(k) == Dropped(UdpExpired)
    ensures run.Seen(k).UdpDatagram? && !run.Seen(k).moreFrags
  {
    hide OutcomeOf, Observe, Run.Follows;
    ExpiredShape(run.cfg, run.states[k], run.Seen(k), run.events[k].cpu, run.events[k].now);
  }

  lemma PassedUdpAt(run: Run, k: nat)
    requires run.Valid() && k < |run.events| && run.Out(k) == PassedUdp && !run.Seen(k).Other?
    ensures run.Seen(k).UdpDatagram? && !run.Seen(k).moreFrags
  {
    hide OutcomeOf, Observe, Run.Follows;
    PassedUdpIsWhitelisted(run.cfg, run.states[k], run.Seen(k), run.events[k].cpu, run.events[k].now);
  }

  lemma PassedKinds(run: Run, k: nat)
    requires run.Valid() && k < |run.events| && !run.Seen(k).Other? && run.Out(k).Passed() && !run.Seen(k).TcpSegment?
    ensures run.Out(k) == PassedUdp
  {
    hide Observe, Run.Follows, Take, RequestOf, OverCap, IsBlacklisted, Wrap64;
  }

  lemma {:induction false} FirstPassFrom(run: Run, ip: Ip, i: nat, k: nat) returns (j: nat)
    requires run.Valid() && i <= k < |run.events| && run.PassedFrom(k, ip)
    ensures i <= j <= k && run.PassedFrom(j, ip) && forall m :: i <= m < j ==> !run.PassedFrom(m, ip)
    decreases k - i
  {
    hide Run.Valid, Run.PassedFrom;
    if run.PassedFrom(i, ip) {
      j := i;
    } else {
      j := FirstPassFrom(run, ip, i + 1, k);
    }
  }

  lemma {:induction false} LastPassKept(run: Run, ip: Ip, i: nat, k: nat)
    requires run.Valid() && i <= k <= |run.events|
    requires forall m :: i <= m < k ==> !run.PassedFrom(m, ip)
    ensures LastPass(run, ip, k) == LastPass(run, ip, i)
    decreases k
  {
    hide Run.Valid, Run.PassedFrom, LastPass;
    if i < k {
      LastPassKept(run, ip, i, k - 1);
      LastPassStep(run, ip, k);
    }
  }

  /** What a source that has run out does need is TCP: in every run from an empty whitelist, the first
      packet it gets through again is a TCP segment. */
  lemma ReturnNeedsTcp(run: Run, ip: Ip, i: nat, k: nat) returns (j: nat)
    requires run.Valid() && run.Clocked() && run.states[0].whitelist == map[] && i < k < |run.events|
    requires run.From(i, ip) && run.Out(i) == Dropped(UdpExpired)
    requires run.From(k, ip) && run.Out(k) == PassedUdp
    ensures i < j < k && run.PassedFrom(j, ip) && run.Seen(j).TcpSegment?
  {
    hide Run.Valid, Run.Clocked, Run.Seen, Run.Out, LastPass;
    assert run.PassedFrom(k, ip);
    j := FirstPassFrom(run, ip, i, k);
    ExpiredAt(run, i);
    UdpNeedsRecentPass(run, ip, i);
    LastPassKept(run, ip, i, j);
    ClockOrder(run, i, j);
    if !run.Seen(j).TcpSegment? {
      Accessors(run, j, ip);
      PassedKinds(run, j);
      PassedUdpAt(run, j);
      UdpNeedsRecentPass(run, ip, j);
      assert false;
    }
    PassedUdpAt(run, k);
  }

  // ----- a run in which no connect is needed -----

  const PLAYER: Ip := 1

  /** An accepted connection, a connect request, a silence longer than the TTL, a datagram, an empty
      segment, and a datagram again. */
  function Silence(cfg: Config): (events: seq<Event>)
    requires cfg.port < 0x1_0000
    ensures |events| == 5 && forall k :: 0 <= k < 5 ==> OnCpu(events[k], 1)
    ensures forall k :: 0 <= k < 5 ==> events[k].now == if k < 2 then 0 else cfg.ttl + 1
  {
    var later := cfg.ttl + 1;
    [ Socket(Callback(PassiveEstablished, cfg.port, AF_INET, PLAYER, 7), 0, 0),
      Packet(TcpFrame(cfg.port, PLAYER, ACK, ConnectRequest()), 0, 0),
      Packet(UdpFrame(cfg.port, PLAYER, OOB_QUERY), 0, later),
      Packet(TcpFrame(cfg.port, PLAYER, ACK, []), 0, later),
      Packet(UdpFrame(cfg.port, PLAYER, OOB_QUERY), 0, later) ]
  }

  lemma ConnectPromotes(cfg: Config, s: Maps, t: Traffic, cpu: nat, now: nat)
    requires HasCpu(s, cpu) && t == TcpSegment(PLAYER, false, false, Some(ConnectRequest()))
    requires PLAYER in s.established && PLAYER !in s.init
    ensures OutcomeOf(cfg, s, t, cpu, now) == PassedPost(Promoted)
  {
    hide TakeFrom, RequestOf;
    ConnectRequestIsValid();
  }

  lemma AckPasses(cfg: Config, s: Maps, t: Traffic, cpu: nat, now: nat)
    requires HasCpu(s, cpu) && t == TcpSegment(PLAYER, false, false, Some([])) && PLAYER in s.whitelist
    ensures OutcomeOf(cfg, s, t, cpu, now) == PassedTcp
  {
    hide Take, RequestOf;
    EmptyIsNoRequest();
  }

  lemma FreshQueryPasses(cfg: Config, s: Maps, t: Traffic, cpu: nat, now: nat)
    requires HasCpu(s, cpu) && t == UdpDatagram(PLAYER, false, OOB_QUERY)
    requires PLAYER in s.whitelist && s.whitelist[PLAYER] == now && PLAYER !in s.health && PLAYER !in s.udp
    ensures OutcomeOf(cfg, s, t, cpu, now) == PassedUdp
  {
    hide TakeFrom, Anomalous;
    OobQueryIsFine();
  }

  /** What the run has left of its source's entries before event `k`. */
  ghost predicate Stands(run: Run, k: nat, stamp: nat)
    requires k < |run.states|
  {
    var s := run.states[k];
    && PLAYER in s.established && PLAYER in s.whitelist && s.whitelist[PLAYER] == stamp
    && PLAYER !in s.health && PLAYER !in s.udp
  }

  lemma SilentSteps(run: Run, k: nat)
    requires run.Valid() && k < |run.events| && !run.Seen(k).Other? && run.Seen(k).src == PLAYER
    ensures HasCpu(run.states[k], run.events[k].cpu)
    ensures run.Out(k) == OutcomeOf(run.cfg, run.states[k], run.Seen(k), run.events[k].cpu, run.events[k].now)
    ensures run.Out(k) == PassedPost(Promoted) ==>
              && run.states[k + 1].whitelist == run.states[k].whitelist[PLAYER := run.events[k].now]
              && run.states[k + 1].udp == run.states[k].udp
    ensures run.Out(k) == PassedTcp && PLAYER in run.states[k].whitelist ==>
              && run.states[k + 1].whitelist == run.states[k].whitelist[PLAYER := run.events[k].now]
              && run.states[k + 1].udp == run.states[k].udp
    ensures run.Out(k) == Dropped(UdpExpired) ==>
              run.states[k + 1].whitelist == run.states[k].whitelist && run.states[k + 1].udp == run.states[k].udp
    ensures run.Out(k) != Dropped(UdpEnetMalformed) ==> run.states[k + 1].health == run.states[k].health
    ensures run.states[k + 1].established == run.states[k].established
    ensures !(run.Seen(k).TcpSegment? && run.Seen(k).syn) ==> run.states[k + 1].breaker == run.states[k].breaker
  {
    hide OutcomeOf, Observe, Run.Follows, Spend, Record, DropsAfter, Advance, Hits, Take, AdmittedSyn;
    PacketFields(run, k);
  }

  /** A connection is accepted, and at the same time its connect request passes. */
  predicate Enters(events: seq<Event>, port: nat, now: nat)
    requires port < 0x1_0000
  {
    && |events| >= 2
    && events[0] == Socket(Callback(PassiveEstablished, port, AF_INET, PLAYER, 7), 0, now)
    && events[1] == Packet(TcpFrame(port, PLAYER, ACK, ConnectRequest()), 0, now)
  }

  lemma EnteredStands(run: Run, now: nat)
    requires run.Valid() && run.cfg.port < 0x1_0000 && Enters(run.events, run.cfg.port, now)
    requires run.states[0] == Empty(1)
    ensures Stands(run, 2, now) && run.states[2].breaker == Empty(1).breaker
  {
    hide Run.Follows, XdpStep, SockStep, Observe, OutcomeOf, TcpFrame, OnGuardedPort, Advance, OpenInc;
    ObserveTcpFrame(run.cfg.port, PLAYER, ACK, ConnectRequest());
    SocketFields(run, 0);
    IsGuarded(run.cfg, run.events[0].cb);
    ConnectPromotes(run.cfg, run.states[1], run.Seen(1), 0, now);
    SilentSteps(run, 1);
  }

  lemma IsGuarded(cfg: Config, cb: Callback)
    requires cb.localPort == cfg.port && cb.family == AF_INET && cb.remote == PLAYER
    ensures OnGuardedPort(cfg, cb)
  {
  }

  lemma SilenceRun(cfg: Config) returns (run: Run)
    requires cfg.port < 0x1_0000 && cfg.ttl + 1 < TWO_63
    ensures run.cfg == cfg && run.Valid() && run.Clocked() && run.ncpu == 1 && run.states[0] == Empty(1)
    ensures run.events == Silence(cfg)
  {
    hide Silence;
    run := Exec(cfg, 1, Empty(1), Silence(cfg));
  }

  /** Below half the clock's range no TTL makes a source connect again. */
  lemma SilenceIsEnough(cfg: Config) returns (run: Run)
    requires cfg.port < 0x1_0000 && cfg.ttl + 1 < TWO_63
    ensures run.cfg == cfg && run.Valid() && run.Clocked() && run.states[0] == Empty(run.ncpu)
    ensures |run.events| == 5 && BackWithoutConnect(run, PLAYER, 2, 4)
  {
    hide Run.Valid, Run.Clocked, XdpStep, Observe, OutcomeOf, TcpFrame, UdpFrame, Empty, Wrap64, Connects;
    var later := cfg.ttl + 1;
    run := SilenceRun(cfg);
    EnteredStands(run, 0);
    ObserveTcpFrame(cfg.port, PLAYER, ACK, []);
    ObserveUdpFrame(cfg.port, PLAYER, OOB_QUERY);
    SilentSteps(run, 2);
    assert Wrap64(later) == later by { NoWrap(later); }
    UdpExpiry(cfg, run.states[2], run.Seen(2), 0, later);
    assert Stands(run, 3, 0);
    SilentSteps(run, 3);
    AckPasses(cfg, run.states[3], run.Seen(3), 0, later);
    assert Stands(run, 4, later);
    SilentSteps(run, 4);
    FreshQueryPasses(cfg, run.states[4], run.Seen(4), 0, later);
    EmptyIsNoConnect(run, 3, PLAYER);
  }

  lemma EmptyIsNoConnect(run: Run, j: nat, ip: Ip)
    requires run.Valid() && j < |run.events| && run.Seen(j).TcpSegment? && run.Seen(j).body == Some([])
    ensures !Connects(run, j, ip)
  {
    hide Run.Valid, Run.Seen, Run.Out;
    EmptyIsNoRequest();
  }

  lemma NoWrap(x: nat)
    requires x < TWO_63
    ensures Wrap64(x) == x
  {
  }

  /** A source whose entry has run out has to connect again exactly when the TTL is one that no clock
      below half its range can reach: when entries never run out at all. */
  lemma ReconnectIff(cfg: Config)
    requires cfg.port < 0x1_0000
    ensures cfg.ttl >= TWO_63 - 1 <==>
            forall run: Run, ip: Ip, i: nat, k: nat
              | && run.cfg == cfg && run.Valid() && run.Clocked() && run.states[0] == Empty(run.ncpu)
                && i < k < |run.events| ::
              !BackWithoutConnect(run, ip, i, k)
  {
    hide Run.Valid, Run.Clocked, BackWithoutConnect, Empty;
    if cfg.ttl >= TWO_63 - 1 {
      forall run: Run, ip: Ip, i: nat, k: nat
        | run.cfg == cfg && run.Valid() && run.Clocked() && run.states[0] == Empty(run.ncpu) && i < k < |run.events|
        ensures !BackWithoutConnect(run, ip, i, k)
      {
        NeverExpires(run, ip, i, k);
      }
    } else {
      var run := SilenceIsEnough(cfg);
      assert BackWithoutConnect(run, PLAYER, 2, 4);
    }
  }

  lemma NeverExpires(run: Run, ip: Ip, i: nat, k: nat)
    requires run.Valid() && run.Clocked() && run.states[0] == Empty(run.ncpu) && i < k < |run.events|
    requires run.cfg.ttl >= TWO_63 - 1
    ensures !BackWithoutConnect(run, ip, i, k)
  {
    hide Run.Valid, Run.Clocked, Run.From, Run.Out, LastPass, Connects;
    if BackWithoutConnect(run, ip, i, k) {
      ExpiredAt(run, i);
      UdpNeedsRecentPass(run, ip, i);
      ClockOrder(run, i, i);
      assert false;
    }
  }
}
