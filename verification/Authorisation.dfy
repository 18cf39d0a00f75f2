/** Who may send UDP: what a whitelist entry means, and where it came from. */
module Authorisation {
  import opened Bytes
  import opened Options
  import opened Words
  import opened Wire
  import opened Payload
  import opened Limiter
  import opened HealthWindow
  import opened FilterMaps
  import opened Runs
  import opened Sockets

  // ----- the whitelist, event by event -----

  /** What one event does to the whitelist. */
  lemma WhitelistStep(run: Run, k: nat)
    requires run.Valid() && k < |run.events|
    ensures !run.Seen(k).Other? ==>
              run.states[k + 1].whitelist
              == Stamp(run.states[k].whitelist, run.Seen(k).src, run.Out(k), run.events[k].now)
    ensures run.events[k].Loss? ==>
              run.states[k + 1].whitelist == LossStep(run.states[k], run.events[k].m, run.events[k].ip).whitelist
    ensures run.Seen(k).Other? && !run.events[k].Loss? ==> run.states[k + 1].whitelist == run.states[k].whitelist
  {
    hide *;
    match run.events[k]
    case Packet(_, _, _) =>
      if run.Seen(k).Other? {
        QuietFields(run, k);
      } else {
        PacketFields(run, k);
      }
    case Socket(_, _, _) =>
      Accessors(run, k, 0);
      SocketFields(run, k);
    case Loss(_, _, _) =>
      Accessors(run, k, 0);
      QuietFields(run, k);
  }

  /** An entry was stamped by a passed packet just now, or was there before and no packet of its source passed. */
  lemma WhitelistEntry(run: Run, k: nat, ip: Ip)
    requires run.Valid() && k < |run.events| && ip in run.states[k + 1].whitelist
    ensures if run.PassedFrom(k, ip) then run.states[k + 1].whitelist[ip] == run.events[k].now
            else ip in run.states[k].whitelist && run.states[k + 1].whitelist[ip] == run.states[k].whitelist[ip]
    ensures ip in run.states[k].whitelist || (run.From(k, ip) && run.Out(k) == PassedPost(Promoted))
  {
    hide *;
    WhitelistStep(run, k);
    Accessors(run, k, ip);
    if !run.Seen(k).Other? {
      StampEntry(run.states[k].whitelist, run.Seen(k).src, run.Out(k), run.events[k].now, ip);
    } else if run.events[k].Loss? {
      LossFields(run.states[k], run.events[k].m, run.events[k].ip);
    }
  }

  lemma StampEntry(m: map<Ip, nat>, src: Ip, o: Outcome, now: nat, ip: Ip)
    requires ip in Stamp(m, src, o, now)
    ensures if ip == src && o.Passed() then Stamp(m, src, o, now)[ip] == now
            else ip in m && Stamp(m, src, o, now)[ip] == m[ip]
    ensures ip in m || (ip == src && o == PassedPost(Promoted))
  {
  }

  /** The last packet from `ip` before `k` that was let through. */
  ghost function LastPass(run: Run, ip: Ip, k: nat): (r: Option<nat>)
    requires run.Valid() && k <= |run.events|
    ensures r.Some? ==> r.value < k
  {
    if k == 0 then None
    else if run.PassedFrom(k - 1, ip) then Some(k - 1)
    else LastPass(run, ip, k - 1)
  }

  lemma {:induction false} LastPassSpec(run: Run, ip: Ip, k: nat)
    requires run.Valid() && k <= |run.events|
    ensures var r := LastPass(run, ip, k);
            && (r.Some? ==> r.value < k && run.PassedFrom(r.value, ip)
                            && forall j :: r.value < j < k ==> !run.PassedFrom(j, ip))
            && (r.None? ==> forall j :: 0 <= j < k ==> !run.PassedFrom(j, ip))
  {
    hide *;
    if k > 0 {
      LastPassStep(run, ip, k);
      LastPassSpec(run, ip, k - 1);
    } else {
      LastPassStart(run, ip);
    }
  }

  lemma LastPassStart(run: Run, ip: Ip)
    requires run.Valid()
    ensures LastPass(run, ip, 0) == None
  {
  }

  lemma LastPassStep(run: Run, ip: Ip, k: nat)
    requires run.Valid() && 0 < k <= |run.events|
    ensures LastPass(run, ip, k) == if run.PassedFrom(k - 1, ip) then Some(k - 1) else LastPass(run, ip, k - 1)
  {
    hide Run.Valid, Run.PassedFrom;
  }

  /** A whitelist entry is the time of its source's last passed packet: in every state reachable from
      an empty whitelist, whatever was evicted or deleted on the way. */
  lemma {:induction false} StampMeaning(run: Run, ip: Ip, k: nat)
    requires run.Valid() && run.states[0].whitelist == map[] && k <= |run.events|
    requires ip in run.states[k].whitelist
    ensures LastPass(run, ip, k).Some?
    ensures run.states[k].whitelist[ip] == run.events[LastPass(run, ip, k).value].now
  {
    hide *;
    assert k > 0;
    WhitelistEntry(run, k - 1, ip);
    LastPassStep(run, ip, k);
    if !run.PassedFrom(k - 1, ip) {
      StampMeaning(run, ip, k - 1);
    }
  }

  /** A datagram expires exactly when its source, still whitelisted, has been silent for longer than
      the TTL; and it passes only within the TTL of an earlier passed packet. */
  lemma UdpNeedsRecentPass(run: Run, ip: Ip, k: nat)
    requires run.Valid() && run.Clocked() && run.states[0].whitelist == map[] && k < |run.events|
    requires run.From(k, ip) && run.Seen(k).UdpDatagram? && !run.Seen(k).moreFrags
    ensures var last := LastPass(run, ip, k);
            && (run.Out(k) == Dropped(UdpExpired) <==>
                  ip in run.states[k].whitelist
                  && last.Some? && run.events[k].now - run.events[last.value].now > run.cfg.ttl)
            && (run.Out(k) == PassedUdp ==>
                  last.Some? && run.events[k].now - run.events[last.value].now <= run.cfg.ttl)
  {
    UdpExpiry(run.cfg, run.states[k], run.Seen(k), run.events[k].cpu, run.events[k].now);
    if ip in run.states[k].whitelist {
      StampMeaning(run, ip, k);
      LastPassSpec(run, ip, k);
      assert run.events[LastPass(run, ip, k).value].now <= run.events[k].now;
    }
  }

  lemma UdpExpiry(cfg: Config, s: Maps, t: Traffic, cpu: nat, now: nat)
    requires HasCpu(s, cpu) && t.UdpDatagram? && !t.moreFrags
    ensures OutcomeOf(cfg, s, t, cpu, now) == Dropped(UdpExpired) <==>
            t.src in s.whitelist && Wrap64(now - s.whitelist[t.src]) > cfg.ttl
    ensures OutcomeOf(cfg, s, t, cpu, now) == PassedUdp ==>
            t.src in s.whitelist && Wrap64(now - s.whitelist[t.src]) <= cfg.ttl
  {
    hide Take, Anomalous, IsBlacklisted;
  }

  // ----- where an entry came from -----

  /** Event `h` is the kernel reporting a passively established connection from `ip`. */
  predicate Accepted(run: Run, h: nat, ip: Ip)
    requires h < |run.events|
  {
    && run.events[h].Socket? && OnGuardedPort(run.cfg, run.events[h].cb)
    && run.events[h].cb.op == PassiveEstablished && run.events[h].cb.remote == ip
  }

  /** Event `i` is a segment from `ip` that starts with `POST /client`, carries `CitizenFX/` where the
      scan looks, finds the source established, and is let through. */
  ghost predicate Connects(run: Run, i: nat, ip: Ip)
    requires run.Valid() && i < |run.events|
  {
    && run.From(i, ip) && run.Seen(i).TcpSegment? && run.Seen(i).body.Some?
    && Ascii("POST /client") <= run.Seen(i).body.value
    && (exists n: nat :: AgentAt(run.Seen(i).body.value, n) && run.Seen(i).body.value[n + 9] == '/' as int)
    && ip in run.states[i].established
    && run.Out(i).Verdict() == XdpPass
  }

  lemma EstablishedStep(run: Run, k: nat, ip: Ip)
    requires run.Valid() && k < |run.events|
    requires ip in run.states[k + 1].established && ip !in run.states[k].established
    ensures run.events[k].Socket? && OnGuardedPort(run.cfg, run.events[k].cb)
    ensures run.events[k].cb.op == PassiveEstablished && run.events[k].cb.remote == ip
  {
    hide *;
    if !run.Seen(k).Other? {
      PacketFields(run, k);
    } else if run.events[k].Socket? {
      SocketFields(run, k);
    } else if run.events[k].Loss? {
      QuietFields(run, k);
      LossFields(run.states[k], run.events[k].m, run.events[k].ip);
    } else {
      QuietFields(run, k);
    }
  }

  lemma {:induction false} EstablishedOrigin(run: Run, k: nat, ip: Ip) returns (h: nat)
    requires run.Valid() && run.states[0].established == map[] && k <= |run.events|
    requires ip in run.states[k].established
    ensures h < k && Accepted(run, h, ip)
  {
    hide Run.Valid;
    assert k > 0;
    if ip in run.states[k - 1].established {
      h := EstablishedOrigin(run, k - 1, ip);
    } else {
      EstablishedStep(run, k - 1, ip);
      h := k - 1;
    }
  }

  lemma PromotionShape(cfg: Config, s: Maps, t: Traffic, cpu: nat, now: nat)
    requires HasCpu(s, cpu) && !t.Other? && OutcomeOf(cfg, s, t, cpu, now) == PassedPost(Promoted)
    ensures t.TcpSegment? && t.body.Some? && MatchPostClient(t.body.value) && AgentOf(t.body.value) == UaValid
    ensures t.src in s.established
  {
    hide Take, Anomalous, IsBlacklisted, MatchPostClient, MatchGetEndpoint, AgentOf;
  }

  lemma PromotionConnects(run: Run, k: nat, ip: Ip)
    requires run.Valid() && k < |run.events| && run.From(k, ip) && run.Out(k) == PassedPost(Promoted)
    ensures Connects(run, k, ip)
  {
    hide OutcomeOf, Observe, Step;
    PromotionShape(run.cfg, run.states[k], run.Seen(k), run.events[k].cpu, run.events[k].now);
    var n := ValidAgentCarriesNeedle(run.Seen(k).body.value);
    PostClientText(run.Seen(k).body.value);
  }

  lemma {:induction false} WhitelistOrigin(run: Run, k: nat, ip: Ip) returns (i: nat)
    requires run.Valid() && run.states[0].whitelist == map[] && k <= |run.events|
    requires ip in run.states[k].whitelist
    ensures i < k && Connects(run, i, ip)
  {
    hide *;
    assert k > 0;
    WhitelistEntry(run, k - 1, ip);
    if ip in run.states[k - 1].whitelist {
      i := WhitelistOrigin(run, k - 1, ip);
    } else {
      PromotionConnects(run, k - 1, ip);
      i := k - 1;
    }
  }

  /** UDP is authorised by a connection: from empty maps, whatever is evicted or deleted, a datagram
      gets through only after a passed connect request from its source, which itself came after a TCP
      connection the kernel had accepted from that source. */
  lemma UdpIsAuthorised(run: Run, k: nat, ip: Ip) returns (h: nat, i: nat)
    requires run.Valid() && run.states[0].whitelist == map[] && run.states[0].established == map[]
    requires k < |run.events| && run.From(k, ip) && run.Out(k) == PassedUdp
    ensures h < i < k && Accepted(run, h, ip) && Connects(run, i, ip)
  {
    assert ip in run.states[k].whitelist by {
      PassedUdpIsWhitelisted(run.cfg, run.states[k], run.Seen(k), run.events[k].cpu, run.events[k].now);
    }
    i := WhitelistOrigin(run, k, ip);
    h := EstablishedOrigin(run, i, ip);
  }

  lemma PassedUdpIsWhitelisted(cfg: Config, s: Maps, t: Traffic, cpu: nat, now: nat)
    requires HasCpu(s, cpu) && !t.Other? && OutcomeOf(cfg, s, t, cpu, now) == PassedUdp
    ensures t.UdpDatagram? && !t.moreFrags && t.src in s.whitelist && !IsBlacklisted(Get(s.health, t.src), now)
    ensures Take(cfg.udp, Get(s.udp, t.src), now).ok
  {
    hide Take, Anomalous, IsBlacklisted, MatchPostClient, MatchGetEndpoint, AgentOf;
  }

  // ----- segments without SYN -----

  /** Event `h` is a SYN from `ip` that neither the cap nor the breaker stops. */
  ghost predicate Knocked(run: Run, h: nat, ip: Ip)
    requires run.Valid() && h < |run.events|
  {
    && run.From(h, ip) && run.Seen(h).TcpSegment? && run.Seen(h).syn && !run.Seen(h).moreFrags
    && run.Out(h) != Dropped(TcpTooManyOpen) && run.Out(h) != Dropped(TcpGlobalRatelimit)
  }

  lemma SynSeenStep(run: Run, k: nat, ip: Ip)
    requires run.Valid() && k < |run.events|
    requires ip in run.states[k + 1].synSeen && ip !in run.states[k].synSeen
    ensures Knocked(run, k, ip)
  {
    hide *;
    Accessors(run, k, ip);
    if !run.Seen(k).Other? {
      PacketFields(run, k);
      KnockMeans(run, k, ip);
    } else if run.events[k].Socket? {
      SocketFields(run, k);
    } else if run.events[k].Loss? {
      QuietFields(run, k);
      LossFields(run.states[k], run.events[k].m, run.events[k].ip);
    } else {
      QuietFields(run, k);
    }
  }

  lemma KnockMeans(run: Run, k: nat, ip: Ip)
    requires run.Valid() && k < |run.events|
    ensures Knocked(run, k, ip) <==> run.From(k, ip) && AdmittedSyn(run.Seen(k), run.Out(k))
    ensures run.From(k, ip) ==> !run.Seen(k).Other?
  {
    hide Run.Valid, Run.Out, Run.Seen;
  }

  lemma {:induction false} SynSeenOrigin(run: Run, k: nat, ip: Ip) returns (h: nat)
    requires run.Valid() && run.states[0].synSeen == map[] && k <= |run.events| && ip in run.states[k].synSeen
    ensures h < k && Knocked(run, h, ip)
  {
    hide Run.Valid, Knocked;
    assert k > 0;
    if ip in run.states[k - 1].synSeen {
      h := SynSeenOrigin(run, k - 1, ip);
    } else {
      SynSeenStep(run, k - 1, ip);
      h := k - 1;
    }
  }

  lemma NonSynIsKnown(cfg: Config, s: Maps, t: Traffic, cpu: nat, now: nat)
    requires HasCpu(s, cpu) && t.TcpSegment? && !t.syn && OutcomeOf(cfg, s, t, cpu, now).Passed()
    ensures t.src in s.whitelist || t.src in s.synSeen || t.src in s.established
  {
    hide Take, RequestOf;
  }

  /** No way past the handshake: from empty maps, whatever is evicted or deleted, a segment without SYN is
      let through only after an admitted SYN or an accepted connection of its source. */
  lemma DataNeedsHandshake(run: Run, k: nat, ip: Ip) returns (h: nat)
    requires run.Valid() && k < |run.events|
    requires run.states[0].whitelist == map[] && run.states[0].synSeen == map[] && run.states[0].established == map[]
    requires run.PassedFrom(k, ip) && run.Seen(k).TcpSegment? && !run.Seen(k).syn
    ensures h < k && (Knocked(run, h, ip) || Accepted(run, h, ip))
  {
    hide Run.Valid, Observe, OutcomeOf, Knocked, Accepted, Connects;
    PacketFields(run, k);
    Accessors(run, k, ip);
    NonSynIsKnown(run.cfg, run.states[k], run.Seen(k), run.events[k].cpu, run.events[k].now);
    if ip in run.states[k].synSeen {
      h := SynSeenOrigin(run, k, ip);
    } else if ip in run.states[k].established {
      h := EstablishedOrigin(run, k, ip);
    } else {
      var i := WhitelistOrigin(run, k, ip);
      ConnectsMeans(run, i, ip);
      h := EstablishedOrigin(run, i, ip);
    }
  }

  lemma ConnectsMeans(run: Run, i: nat, ip: Ip)
    requires run.Valid() && i < |run.events| && Connects(run, i, ip)
    ensures ip in run.states[i].established
  {
    hide Run.Valid;
  }
}
