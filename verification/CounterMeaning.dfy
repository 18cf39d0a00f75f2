/** What each counter means, by its label, and that it counts just that. */
module CounterMeaning {
  import opened Bytes
  import opened Wire
  import opened Payload
  import opened FilterMaps
  import opened Sockets
  import opened Runs
  import opened Verdicts
  import opened Reporting
  import opened Counters

  // ----- names -----

  function ReasonText(r: Reason): string {
    match r
    case TcpNoSyn => "tcp_no_syn"
    case TcpTooManyOpen => "tcp_too_many_open"
    case TcpGlobalRatelimit => "tcp_global_ratelimit"
    case TcpBadUserAgent => "tcp_bad_user_agent"
    case TcpInitconnectRatelimit => "tcp_initconnect_ratelimit"
    case TcpGetinfoRatelimit => "tcp_getinfo_ratelimit"
    case Malformed => "malformed"
    case UdpNotWhitelisted => "udp_not_whitelisted"
    case UdpExpired => "udp_expired"
    case UdpUnhealthy => "udp_unhealthy"
    case UdpEnetMalformed => "udp_enet_malformed"
    case UdpRatelimit => "udp_ratelimit"
    case IpFragment => "ip_fragment"
  }

  function DropLabel(r: Reason): string {
    match r
    case TcpNoSyn => "drop_tcp_no_syn"
    case TcpTooManyOpen => "drop_tcp_too_many_open"
    case TcpGlobalRatelimit => "drop_tcp_global_ratelimit"
    case TcpBadUserAgent => "drop_tcp_bad_user_agent"
    case TcpInitconnectRatelimit => "drop_tcp_initconnect_ratelimit"
    case TcpGetinfoRatelimit => "drop_tcp_getinfo_ratelimit"
    case Malformed => "drop_malformed"
    case UdpNotWhitelisted => "drop_udp_not_whitelisted"
    case UdpExpired => "drop_udp_expired"
    case UdpUnhealthy => "drop_udp_unhealthy"
    case UdpEnetMalformed => "drop_udp_enet_malformed"
    case UdpRatelimit => "drop_udp_ratelimit"
    case IpFragment => "drop_ip_fragment"
  }

  /** What there is to count. */
  datatype Meaning =
    | DroppedFor(reason: Reason)
    | TcpPasses
    | UdpPasses
    | ConnectionAccepted
    | ConnectSeen
    | InfoSeen
    | ConnectJoins
    | ConnectBeforeAccept
    | ConnectOfUnknownAgent

  function Label(m: Meaning): string {
    match m
    case DroppedFor(r) => DropLabel(r)
    case TcpPasses => "pass_tcp"
    case UdpPasses => "pass_udp_whitelisted"
    case ConnectionAccepted => "tcp_established_inserts"
    case ConnectSeen => "tcp_post_client_seen"
    case InfoSeen => "tcp_getinfo_seen"
    case ConnectJoins => "tcp_l7_promoted"
    case ConnectBeforeAccept => "tcp_l7_match_no_est"
    case ConnectOfUnknownAgent => "tcp_post_ua_unknown"
  }

  function Slot(m: Meaning): (slot: nat)
    ensures slot < STAT_MAX
  {
    match m
    case DroppedFor(r) => DropSlot(r)
    case TcpPasses => STAT_PASS_TCP
    case UdpPasses => STAT_PASS_UDP_WHITELISTED
    case ConnectionAccepted => STAT_TCP_ESTABLISHED_INSERTS
    case ConnectSeen => STAT_TCP_POST_CLIENT_SEEN
    case InfoSeen => STAT_TCP_GETINFO_SEEN
    case ConnectJoins => PostSlot(Promoted)
    case ConnectBeforeAccept => PostSlot(MatchNoEst)
    case ConnectOfUnknownAgent => PostSlot(PostUaUnknown)
  }

  /** The slots the kernel advances carry the labels of what they mean. */
  lemma SlotsAreLabelled(m: Meaning)
    ensures StatLabel(Slot(m)) == Label(m)
  {
  }

  /** The indices of the drop history carry the names of their reasons. */
  lemma ReasonsAreNamed(r: Reason)
    ensures DropReasonName(ReasonIndex(r)) == ReasonText(r)
  {
  }

  // ----- events -----

  /** Event `k` is a segment whose payload is read and that is no bot's. */
  ghost predicate ReadAt(run: Run, k: nat)
    requires run.Valid() && k < |run.events|
  {
    && run.events[k].Packet? && run.Seen(k).TcpSegment? && HasCpu(run.states[k], run.events[k].cpu)
    && Heard(run.cfg, run.states[k], run.Seen(k), run.events[k].cpu, run.events[k].now)
    && run.Seen(k).body.Some? && AgentOf(run.Seen(k).body.value) != UaBot
  }

  /** Event `k` is a connect request that passes. */
  ghost predicate ConnectAt(run: Run, k: nat)
    requires run.Valid() && k < |run.events|
  {
    && run.Seen(k).TcpSegment? && run.Out(k).Verdict() == XdpPass
    && run.Seen(k).body.Some? && Ascii("POST /client") <= run.Seen(k).body.value
  }

  ghost predicate Means(run: Run, k: nat, m: Meaning)
    requires run.Valid() && k < |run.events|
  {
    match m
    case DroppedFor(r) => run.Out(k) == Dropped(r)
    case TcpPasses => run.Seen(k).TcpSegment? && run.Out(k).Verdict() == XdpPass
    case UdpPasses => run.Seen(k).UdpDatagram? && run.Out(k).Verdict() == XdpPass
    case ConnectionAccepted =>
      run.events[k].Socket? && OnGuardedPort(run.cfg, run.events[k].cb) && run.events[k].cb.op == PassiveEstablished
    case ConnectSeen => ReadAt(run, k) && Ascii("POST /client") <= run.Seen(k).body.value
    case InfoSeen => ReadAt(run, k) && GetsInfo(run.Seen(k).body.value)
    case ConnectJoins =>
      ConnectAt(run, k) && AgentOf(run.Seen(k).body.value) == UaValid && run.Seen(k).src in run.states[k].established
    case ConnectBeforeAccept =>
      ConnectAt(run, k) && AgentOf(run.Seen(k).body.value) == UaValid && run.Seen(k).src !in run.states[k].established
    case ConnectOfUnknownAgent => ConnectAt(run, k) && AgentOf(run.Seen(k).body.value) == UaUnknown
  }

  /** The events among the first `k` that mean it. */
  ghost function Count(run: Run, m: Meaning, k: nat): nat
    requires run.Valid() && k <= |run.events|
  {
    if k == 0 then 0 else Count(run, m, k - 1) + if Means(run, k - 1, m) then 1 else 0
  }

  // ----- one event -----

  lemma PacketMeaning(run: Run, k: nat, m: Meaning)
    requires run.Valid() && k < |run.events| && !run.Seen(k).Other? && m != ConnectionAccepted
    ensures Means(run, k, m) <==> Advances(run.Out(k), Slot(m))
  {
    hide Run.Follows, Observe, OutcomeOf, Ascii, AgentOf, GetsInfo, Heard, OnGuardedPort, DropSlot;
    var s, t, e := run.states[k], run.Seen(k), run.events[k];
    OutcomeShape(run.cfg, s, t, e.cpu, e.now);
    SlotsDiffer(m, run.Out(k));
    if t.TcpSegment? {
      if Heard(run.cfg, s, t, e.cpu, e.now) && t.body.Some? {
        HeardSegments(run.cfg, s, t, e.cpu, e.now);
      } else {
        UnheardIsDropped(run.cfg, s, t, e.cpu, e.now);
      }
    } else {
      hide EnetLooksValid;
      Datagrams(run.cfg, s, t, e.cpu, e.now);
    }
  }

  lemma UnheardIsDropped(cfg: Config, s: Maps, t: Traffic, cpu: nat, now: nat)
    requires HasCpu(s, cpu) && t.TcpSegment? && !(Heard(cfg, s, t, cpu, now) && t.body.Some?)
    ensures OutcomeOf(cfg, s, t, cpu, now).Dropped?
    ensures OutcomeOf(cfg, s, t, cpu, now) !in {Dropped(TcpInitconnectRatelimit), Dropped(TcpGetinfoRatelimit)}
  {
    hide Limiter.Take, RequestOf;
  }

  /** Which outcomes advance which counter. */
  lemma SlotsDiffer(m: Meaning, o: Outcome)
    requires m != ConnectionAccepted
    ensures Advances(o, Slot(m)) <==>
      match m
      case DroppedFor(r) => o == Dropped(r)
      case TcpPasses => o == PassedTcp || o.PassedPost? || o == PassedInfo
      case UdpPasses => o == PassedUdp
      case ConnectionAccepted => false
      case ConnectSeen => o.PassedPost? || o == Dropped(TcpInitconnectRatelimit)
      case InfoSeen => o == PassedInfo || o == Dropped(TcpGetinfoRatelimit)
      case ConnectJoins => o == PassedPost(Promoted)
      case ConnectBeforeAccept => o == PassedPost(MatchNoEst)
      case ConnectOfUnknownAgent => o == PassedPost(PostUaUnknown)
    ensures Slot(m) != STAT_TCP_ESTABLISHED_INSERTS
  {
  }

  lemma OtherMeaning(run: Run, k: nat, m: Meaning)
    requires run.Valid() && k < |run.events| && run.Seen(k).Other? && m != ConnectionAccepted
    ensures !Means(run, k, m) && !Advances(run.Out(k), Slot(m))
  {
    hide Run.Valid, Observe, Decide, Slot;
    FilteredIffSeen(run, k);
  }

  lemma AcceptStep(run: Run, k: nat)
    requires run.Valid() && k < |run.events|
    ensures Tally(run, k + 1)[STAT_TCP_ESTABLISHED_INSERTS]
         == Tally(run, k)[STAT_TCP_ESTABLISHED_INSERTS] + if Means(run, k, ConnectionAccepted) then 1 else 0
  {
    hide Run.Valid, OutcomeOf, Observe, OnGuardedPort, Hits, Occurs, EventHits, Tallied;
    HitsShape(run, k);
    TalliedAt(Tally(run, k), EventHits(run, k), STAT_TCP_ESTABLISHED_INSERTS);
    OccursInThree(STAT_TCP_ESTABLISHED_INSERTS, 0, 0, STAT_TCP_ESTABLISHED_INSERTS);
    HitsAt(run.Out(k), STAT_TCP_ESTABLISHED_INSERTS);
    NeverAccepts(run.Out(k));
  }

  lemma NeverAccepts(o: Outcome)
    ensures !Advances(o, STAT_TCP_ESTABLISHED_INSERTS)
  {
  }

  /** Each counter counts what its label says: all twenty-one of them, over any run. */
  lemma {:induction false} CountersTell(run: Run, m: Meaning, k: nat)
    requires run.Valid() && k <= |run.events|
    ensures Tally(run, k)[Slot(m)] == Count(run, m, k)
  {
    hide *;
    if k == 0 {
      CountStart(run, m);
    } else {
      CountersTell(run, m, k - 1);
      CountStep(run, m, k - 1);
      if m == ConnectionAccepted {
        AcceptStep(run, k - 1);
        AcceptSlot();
      } else {
        SlotsDiffer(m, run.Out(k - 1));
        TallyStep(run, k - 1, Slot(m));
        if run.Seen(k - 1).Other? {
          OtherMeaning(run, k - 1, m);
        } else {
          PacketMeaning(run, k - 1, m);
        }
      }
    }
  }

  lemma AcceptSlot()
    ensures Slot(ConnectionAccepted) == STAT_TCP_ESTABLISHED_INSERTS
  {
  }

  lemma CountStart(run: Run, m: Meaning)
    requires run.Valid()
    ensures Count(run, m, 0) == 0 && Tally(run, 0)[Slot(m)] == 0
  {
    hide Run.Valid, Slot;
  }

  lemma CountStep(run: Run, m: Meaning, k: nat)
    requires run.Valid() && k < |run.events|
    ensures Count(run, m, k + 1) == Count(run, m, k) + if Means(run, k, m) then 1 else 0
  {
    hide Run.Valid, Means;
  }
}
