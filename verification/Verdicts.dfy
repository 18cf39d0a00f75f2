/** Which packets meet which fate, outcome by outcome, said of the maps and of the bytes. */
module Verdicts {
  import opened Bytes
  import opened Options
  import opened Words
  import opened Wire
  import opened Payload
  import opened Limiter
  import opened FilterMaps
  import opened EnetFraming
  import opened Runs
  import Isolation

  // ----- segments -----

  /** A segment without SYN from a source of which nothing is known. */
  predicate Stranger(s: Maps, t: Traffic)
    requires t.TcpSegment?
  {
    !t.syn && t.src !in s.whitelist && t.src !in s.synSeen && t.src !in s.established
  }

  /** A SYN from a source that holds as many connections as it may. */
  predicate Full(cfg: Config, s: Maps, t: Traffic)
    requires t.TcpSegment?
  {
    t.syn && cfg.maxOpen > 0 && t.src in s.open && s.open[t.src] >= Signed64(cfg.maxOpen)
  }

  /** A SYN for which its CPU's breaker has no token. */
  predicate Overrun(cfg: Config, s: Maps, t: Traffic, cpu: nat, now: nat)
    requires HasCpu(s, cpu) && t.TcpSegment?
  {
    t.syn && !Take(cfg.syn, Some(s.breaker[cpu]), now).ok
  }

  predicate Heard(cfg: Config, s: Maps, t: Traffic, cpu: nat, now: nat)
    requires HasCpu(s, cpu) && t.TcpSegment?
  {
    !t.moreFrags && !Stranger(s, t) && !Full(cfg, s, t) && !Overrun(cfg, s, t, cpu, now)
  }

  /** Why a segment does not get as far as its payload: one condition for each reason. */
  lemma RefusedSegments(cfg: Config, s: Maps, t: Traffic, cpu: nat, now: nat)
    requires HasCpu(s, cpu) && t.TcpSegment?
    ensures var o := OutcomeOf(cfg, s, t, cpu, now);
            && (o == Dropped(IpFragment) <==> t.moreFrags)
            && (o == Dropped(TcpNoSyn) <==> !t.moreFrags && Stranger(s, t))
            && (o == Dropped(TcpTooManyOpen) <==> !t.moreFrags && Full(cfg, s, t))
            && (o == Dropped(TcpGlobalRatelimit) <==>
                  !t.moreFrags && !Full(cfg, s, t) && Overrun(cfg, s, t, cpu, now))
            && (o == Dropped(Malformed) <==> Heard(cfg, s, t, cpu, now) && t.body.None?)
  {
    hide Take, RequestOf;
  }

  lemma HeardSegment(cfg: Config, s: Maps, t: Traffic, cpu: nat, now: nat)
    requires HasCpu(s, cpu) && t.TcpSegment? && Heard(cfg, s, t, cpu, now) && t.body.Some?
    ensures OutcomeOf(cfg, s, t, cpu, now) == DecideRequest(cfg, ViewOf(s, t.src), t.body.value, now)
  {
    hide Take, RequestOf;
  }

  /** What becomes of a segment whose payload is read: a bot's request is dropped, any other request passes if
      and only if the limiter of its kind admits it, and everything else passes. A connect request promotes its
      source if and only if the agent is the game's client and the source has an accepted connection. */
  lemma HeardSegments(cfg: Config, s: Maps, t: Traffic, cpu: nat, now: nat)
    requires HasCpu(s, cpu) && t.TcpSegment? && Heard(cfg, s, t, cpu, now) && t.body.Some?
    ensures var o, b, ip := OutcomeOf(cfg, s, t, cpu, now), t.body.value, t.src;
            var post, get, ua := Ascii("POST /client") <= b, GetsInfo(b), AgentOf(b);
            var posts, gets := Take(cfg.init, Get(s.init, ip), now).ok, Take(cfg.info, Get(s.info, ip), now).ok;
            && !(post && get)
            && (o == Dropped(TcpBadUserAgent) <==> (post || get) && ua == UaBot)
            && (o == Dropped(TcpInitconnectRatelimit) <==> post && ua != UaBot && !posts)
            && (o == Dropped(TcpGetinfoRatelimit) <==> get && ua != UaBot && !gets)
            && (o == PassedPost(Promoted) <==> post && ua == UaValid && posts && ip in s.established)
            && (o == PassedPost(MatchNoEst) <==> post && ua == UaValid && posts && ip !in s.established)
            && (o == PassedPost(PostUaUnknown) <==> post && ua == UaUnknown && posts)
            && (o == PassedInfo <==> get && ua != UaBot && gets)
            && (o == PassedTcp <==> !post && !get)
  {
    hide OutcomeOf, Take, AgentOf, MatchPostClient, MatchGetEndpoint, GetsInfo, Ascii, Heard;
    HeardSegment(cfg, s, t, cpu, now);
    PostClientText(t.body.value);
    GetEndpointText(t.body.value);
    RequestsDiffer(t.body.value);
  }

  /** A segment that is not heard, or has no payload, does not pass. */
  lemma PassedIsHeard(cfg: Config, s: Maps, t: Traffic, cpu: nat, now: nat)
    requires HasCpu(s, cpu) && t.TcpSegment? && OutcomeOf(cfg, s, t, cpu, now).Verdict() == XdpPass
    ensures Heard(cfg, s, t, cpu, now) && t.body.Some?
  {
    hide Take, RequestOf;
  }

  /** A passed request for an info endpoint is no bot's, has been seen as one, and has taken a token. */
  lemma PassedInfoIsMetered(cfg: Config, s: Maps, t: Traffic, cpu: nat, now: nat)
    requires HasCpu(s, cpu) && t.TcpSegment? && OutcomeOf(cfg, s, t, cpu, now).Verdict() == XdpPass
    requires t.body.Some? && GetsInfo(t.body.value)
    ensures AgentOf(t.body.value) != UaBot && Take(cfg.info, Get(s.info, t.src), now).ok
    ensures OutcomeOf(cfg, s, t, cpu, now) == PassedInfo
    ensures Get(XdpStep(cfg, s, t, cpu, now).info, t.src) == Take(cfg.info, Get(s.info, t.src), now).bucket
    ensures XdpStep(cfg, s, t, cpu, now).stats == Advance(s.stats, cpu, [STAT_TCP_GETINFO_SEEN, STAT_PASS_TCP])
  {
    hide OutcomeOf, XdpStep, Take, AgentOf, GetsInfo, Ascii, Heard, Advance, DropsAfter, Stamp, AdmittedSyn, Spend,
      ReachesBreaker;
    PassedIsHeard(cfg, s, t, cpu, now);
    HeardSegments(cfg, s, t, cpu, now);
    XdpFields(cfg, s, t, cpu, now);
    Isolation.SpendCell(cfg.info, s.info, t.src, now, t.src);
  }

  /** A passed connect request likewise, with its own limiter and counters. */
  lemma PassedPostIsMetered(cfg: Config, s: Maps, t: Traffic, cpu: nat, now: nat)
    requires HasCpu(s, cpu) && t.TcpSegment? && OutcomeOf(cfg, s, t, cpu, now).Verdict() == XdpPass
    requires t.body.Some? && Ascii("POST /client") <= t.body.value
    ensures AgentOf(t.body.value) != UaBot && Take(cfg.init, Get(s.init, t.src), now).ok
    ensures OutcomeOf(cfg, s, t, cpu, now).PassedPost?
    ensures Get(XdpStep(cfg, s, t, cpu, now).init, t.src) == Take(cfg.init, Get(s.init, t.src), now).bucket
    ensures var ending := if AgentOf(t.body.value) == UaUnknown then STAT_TCP_POST_UA_UNKNOWN
                          else if t.src in s.established then STAT_TCP_L7_PROMOTED
                          else STAT_TCP_L7_MATCH_NO_EST;
            XdpStep(cfg, s, t, cpu, now).stats
            == Advance(s.stats, cpu, [STAT_TCP_POST_CLIENT_SEEN, ending, STAT_PASS_TCP])
  {
    hide OutcomeOf, XdpStep, Take, AgentOf, GetsInfo, Ascii, Heard, Advance, DropsAfter, Stamp, AdmittedSyn, Spend,
      ReachesBreaker;
    PassedIsHeard(cfg, s, t, cpu, now);
    HeardSegments(cfg, s, t, cpu, now);
    XdpFields(cfg, s, t, cpu, now);
    Isolation.SpendCell(cfg.init, s.init, t.src, now, t.src);
  }

  // ----- datagrams -----

  /** Why a datagram is dropped, and that it passes otherwise. */
  lemma Datagrams(cfg: Config, s: Maps, t: Traffic, cpu: nat, now: nat)
    requires HasCpu(s, cpu) && t.UdpDatagram?
    ensures var o, ip := OutcomeOf(cfg, s, t, cpu, now), t.src;
            var known := !t.moreFrags && ip in s.whitelist;
            var recent := known && Wrap64(now - s.whitelist[ip]) <= cfg.ttl;
            var healthy := recent && !(ip in s.health && s.health[ip].until > now);
            var sound := healthy && EnetLooksValid(t.payload);
            var admitted := Take(cfg.udp, Get(s.udp, ip), now).ok;
            && (o == Dropped(IpFragment) <==> t.moreFrags)
            && (o == Dropped(UdpNotWhitelisted) <==> !t.moreFrags && !known)
            && (o == Dropped(UdpExpired) <==> known && !recent)
            && (o == Dropped(UdpUnhealthy) <==> recent && !healthy)
            && (o == Dropped(UdpEnetMalformed) <==> healthy && !sound)
            && (o == Dropped(UdpRatelimit) <==> sound && !admitted)
            && (o == PassedUdp <==> sound && admitted)
  {
    hide Take, Anomalous, EnetLooksValid, Wrap64;
    AnomalousIff(t.payload);
  }
}
