/** The two programs as they run: branch by branch, updating the shared maps in place. */
module Programs {
  import opened Bytes
  import opened Options
  import opened Words
  import opened Wire
  import opened Payload
  import opened Limiter
  import opened HealthWindow
  import opened FilterMaps

  /** Advancing counters one after the other is advancing them all. */
  lemma {:induction false} AdvanceBoth(stats: seq<Row>, cpu: nat, a: seq<nat>, b: seq<nat>)
    requires cpu < |stats| && |stats[cpu]| == STAT_MAX && ValidSlots(a) && ValidSlots(b)
    ensures Advance(Advance(stats, cpu, a), cpu, b) == Advance(stats, cpu, a + b)
  {
    if b == [] {
      assert a + b == a;
    } else {
      var n := |b| - 1;
      AdvanceBoth(stats, cpu, a, b[..n]);
      assert (a + b)[..|a + b| - 1] == a + b[..n];
    }
  }

  class Filter {
    const cfg: Config

    var whitelist: map<Ip, nat>
    var synSeen: map<Ip, nat>
    var established: map<Ip, nat>
    var open: map<Ip, int>
    var udp: map<Ip, Bucket>
    var init: map<Ip, Bucket>
    var info: map<Ip, Bucket>
    var health: map<Ip, Health>
    var drops: map<Ip, History>
    var breaker: seq<Bucket>
    var stats: seq<Row>

    function Contents(): Maps
      reads this
    {
      Maps(whitelist, synSeen, established, open, udp, init, info, health, drops, breaker, stats)
    }

    /** Loading on `ncpu` CPUs with no pinned state. */
    constructor (cfg: Config, ncpu: nat)
      ensures this.cfg == cfg && Contents() == Empty(ncpu)
    {
      this.cfg := cfg;
      whitelist, synSeen, established, open := map[], map[], map[], map[];
      udp, init, info := map[], map[], map[];
      health, drops := map[], map[];
      breaker := seq(ncpu, _ => Bucket(0, 0));
      stats := seq(ncpu, _ => Zeros(STAT_MAX));
    }

    method StatBump(slot: nat, cpu: nat)
      requires cpu < |stats| && |stats[cpu]| == STAT_MAX && slot < STAT_MAX
      modifies `stats
      ensures stats == Advance(old(stats), cpu, [slot])
    {
      var row: Row := stats[cpu];
      row := row[slot := Wrap64(row[slot] + 1)];
      stats := stats[cpu := row];
      assert stats[cpu] == Advance(old(stats), cpu, [slot])[cpu];
    }

    method RecordDrop(src: Ip, reason: Reason, known: bool, now: nat)
      modifies `drops
      ensures drops == WithDrop(cfg.history, old(drops), src, reason, known, now)
    {
      if !cfg.history {
        return;
      }
      var idx := ReasonIndex(reason);
      if src !in drops {
        if !known {
          return;
        }
        var counts := Zeros(NUM_DROP_REASONS);
        counts := counts[idx := 1];
        drops := drops[src := History(now, now, counts)];
        return;
      }
      var h := drops[src].(last := now);
      h := h.(counts := h.counts[idx := Wrap64(h.counts[idx] + 1)]);
      drops := drops[src := h];
    }

    /** The pair of calls that ends every drop. */
    method Drop(src: Ip, reason: Reason, known: bool, cpu: nat, now: nat) returns (verdict: Verdict)
      requires cpu < |stats| && |stats[cpu]| == STAT_MAX
      modifies `drops, `stats
      ensures drops == WithDrop(cfg.history, old(drops), src, reason, known, now)
      ensures stats == Advance(old(stats), cpu, [DropSlot(reason)])
      ensures verdict == XdpDrop
    {
      RecordDrop(src, reason, known, now);
      StatBump(DropSlot(reason), cpu);
      verdict := XdpDrop;
    }

    method HealthRecordAnomaly(src: Ip, now: nat)
      modifies `health
      ensures health == old(health)[src := Record(cfg.health, Get(old(health), src), now)]
    {
      var p := cfg.health;
      if src !in health {
        var until := if p.threshold <= 1 then Wrap64(now + p.penalty) else 0;
        health := health[src := Health(1, now, until)];
        return;
      }
      var h := health[src];
      if Wrap64(now - h.windowStart) > p.window {
        h := h.(anomalies := 0, windowStart := now);
      }
      h := h.(anomalies := Wrap32(h.anomalies + 1));
      if h.anomalies >= p.threshold {
        h := h.(until := Wrap64(now + p.penalty));
      }
      health := health[src := h];
    }

    method TcpGlobalRatelimitTake(cpu: nat, now: nat) returns (ok: bool)
      requires cpu < |breaker|
      modifies `breaker
      ensures var r := Take(cfg.syn, Some(old(breaker)[cpu]), now);
              ok == r.ok && breaker == old(breaker)[cpu := r.bucket.value]
    {
      if cfg.syn.burst == 0 || cfg.syn.period == 0 {
        return true;
      }
      var b := breaker[cpu];
      var elapsed := Wrap64(now - b.last);
      var refill := elapsed / cfg.syn.period;
      var t := Wrap64(b.tokens + refill);
      if t > cfg.syn.burst {
        t := cfg.syn.burst;
      }
      if t == 0 {
        return false;
      }
      breaker := breaker[cpu := Bucket(t - 1, Wrap64(b.last + Wrap64(refill * cfg.syn.period)))];
      return true;
    }

    /** The limiter shared by the three per-source maps; `m` is the map it is pointed at. */
    static method RatelimitTake(m: map<Ip, Bucket>, src: Ip, l: Limit, now: nat)
      returns (ok: bool, m': map<Ip, Bucket>)
      ensures ok == Take(l, Get(m, src), now).ok
      ensures m' == Spend(l, m, src, now)
    {
      if l.period == 0 || l.burst == 0 {
        return true, m;
      }
      if src !in m {
        return true, m[src := Bucket(l.burst - 1, now)];
      }
      var b := m[src];
      var elapsed := Wrap64(now - b.last);
      var refill := elapsed / l.period;
      var t := Wrap64(b.tokens + refill);
      if t > l.burst {
        t := l.burst;
      }
      if t == 0 {
        return false, m;
      }
      return true, m[src := Bucket(t - 1, Wrap64(b.last + Wrap64(refill * l.period)))];
    }

    /** `entry` is the whitelist pointer looked up at the start of the packet: set or not. */
    method WhitelistRefresh(src: Ip, entry: bool, now: nat)
      modifies `whitelist
      ensures whitelist == if entry then old(whitelist)[src := now] else old(whitelist)
    {
      if entry {
        whitelist := whitelist[src := now];
      }
    }

    /** A `POST /client` that is not a bot's. */
    method FilterPost(src: Ip, ua: UserAgent, wl: bool, cpu: nat, now: nat, ghost o: Outcome) returns (verdict: Verdict)
      requires HasCpu(Contents(), cpu) && wl == (src in whitelist) && ua != UaBot
      requires o == DecidePost(cfg, ViewOf(Contents(), src), ua, now)
      modifies `whitelist, `init, `drops, `stats
      ensures var s := old(Contents());
              && verdict == o.Verdict()
              && whitelist == Stamp(s.whitelist, src, o, now)
              && init == Spend(cfg.init, s.init, src, now)
              && drops == DropsAfter(cfg, s, src, o, now)
              && stats == Advance(s.stats, cpu, Hits(o))
    {
      hide Take, TakeFrom, WithDrop, Advance, Spend;
      ghost var stats0 := stats;
      StatBump(STAT_TCP_POST_CLIENT_SEEN, cpu);
      var ok: bool;
      ok, init := RatelimitTake(init, src, cfg.init, now);
      if !ok {
        verdict := Drop(src, TcpInitconnectRatelimit, true, cpu, now);
        AdvanceBoth(stats0, cpu, [STAT_TCP_POST_CLIENT_SEEN], [STAT_DROP_TCP_INITCONNECT_RATELIMIT]);
        assert Hits(o) == [STAT_TCP_POST_CLIENT_SEEN] + [STAT_DROP_TCP_INITCONNECT_RATELIMIT];
        return;
      }
      ghost var post := o.post;
      if ua == UaValid {
        if src in established {
          whitelist := whitelist[src := now];
          StatBump(STAT_TCP_L7_PROMOTED, cpu);
        } else {
          StatBump(STAT_TCP_L7_MATCH_NO_EST, cpu);
        }
      } else {
        StatBump(STAT_TCP_POST_UA_UNKNOWN, cpu);
      }
      WhitelistRefresh(src, wl, now);
      StatBump(STAT_PASS_TCP, cpu);
      PostHits(stats0, cpu, post);
      return XdpPass;
    }

    static lemma PostHits(stats: seq<Row>, cpu: nat, post: Post)
      requires cpu < |stats| && |stats[cpu]| == STAT_MAX
      ensures Advance(Advance(Advance(stats, cpu, [STAT_TCP_POST_CLIENT_SEEN]), cpu, [PostSlot(post)]),
                      cpu, [STAT_PASS_TCP])
           == Advance(stats, cpu, Hits(PassedPost(post)))
    {
      AdvanceBoth(stats, cpu, [STAT_TCP_POST_CLIENT_SEEN], [PostSlot(post)]);
      AdvanceBoth(stats, cpu, [STAT_TCP_POST_CLIENT_SEEN] + [PostSlot(post)], [STAT_PASS_TCP]);
      assert Hits(PassedPost(post)) == [STAT_TCP_POST_CLIENT_SEEN] + [PostSlot(post)] + [STAT_PASS_TCP];
    }

    /** A request for one of the info endpoints that is not a bot's. */
    method FilterGetInfo(src: Ip, wl: bool, cpu: nat, now: nat, ghost o: Outcome) returns (verdict: Verdict)
      requires HasCpu(Contents(), cpu) && wl == (src in whitelist)
      requires o == DecideGetInfo(cfg, ViewOf(Contents(), src), now)
      modifies `whitelist, `info, `drops, `stats
      ensures var s := old(Contents());
              && verdict == o.Verdict()
              && whitelist == Stamp(s.whitelist, src, o, now)
              && info == Spend(cfg.info, s.info, src, now)
              && drops == DropsAfter(cfg, s, src, o, now)
              && stats == Advance(s.stats, cpu, Hits(o))
    {
      hide Take, TakeFrom, WithDrop, Advance, Spend;
      ghost var stats0 := stats;
      StatBump(STAT_TCP_GETINFO_SEEN, cpu);
      var ok: bool;
      ok, info := RatelimitTake(info, src, cfg.info, now);
      if !ok {
        verdict := Drop(src, TcpGetinfoRatelimit, true, cpu, now);
        AdvanceBoth(stats0, cpu, [STAT_TCP_GETINFO_SEEN], [STAT_DROP_TCP_GETINFO_RATELIMIT]);
        assert Hits(o) == [STAT_TCP_GETINFO_SEEN] + [STAT_DROP_TCP_GETINFO_RATELIMIT];
        return;
      }
      WhitelistRefresh(src, wl, now);
      StatBump(STAT_PASS_TCP, cpu);
      AdvanceBoth(stats0, cpu, [STAT_TCP_GETINFO_SEEN], [STAT_PASS_TCP]);
      assert Hits(o) == [STAT_TCP_GETINFO_SEEN] + [STAT_PASS_TCP];
      return XdpPass;
    }

    /** The part of the TCP path that looks at the payload. */
    method FilterRequest(src: Ip, payload: Bytes, wl: bool, cpu: nat, now: nat, ghost o: Outcome)
      returns (verdict: Verdict)
      requires HasCpu(Contents(), cpu) && wl == (src in whitelist)
      requires o == DecideRequest(cfg, ViewOf(Contents(), src), payload, now)
      modifies `whitelist, `init, `info, `drops, `stats
      ensures var s := old(Contents());
              && verdict == o.Verdict()
              && whitelist == Stamp(s.whitelist, src, o, now)
              && init == (if SpendsInit(o) then Spend(cfg.init, s.init, src, now) else s.init)
              && info == (if SpendsInfo(o) then Spend(cfg.info, s.info, src, now) else s.info)
              && drops == DropsAfter(cfg, s, src, o, now)
              && stats == Advance(s.stats, cpu, Hits(o))
    {
      hide Take, TakeFrom, WithDrop, Advance, Spend, DecidePost, DecideGetInfo, MatchPostClient, MatchGetEndpoint,
        AgentOf;
      var isPost := MatchPostClient(payload);
      var isGetInfo := if isPost then false else MatchGetEndpoint(payload);
      if !isPost && !isGetInfo {
        assert o == PassedTcp;
        WhitelistRefresh(src, wl, now);
        StatBump(STAT_PASS_TCP, cpu);
        return XdpPass;
      }
      var ua := ScanUserAgent(payload);
      if ua == UaBot {
        assert o == Dropped(TcpBadUserAgent);
        verdict := Drop(src, TcpBadUserAgent, true, cpu, now);
        return;
      }
      if isPost {
        assert o == DecidePost(cfg, ViewOf(Contents(), src), ua, now);
        PostOutcomes(cfg, ViewOf(Contents(), src), ua, now);
        verdict := FilterPost(src, ua, wl, cpu, now, o);
        return;
      }
      assert o == DecideGetInfo(cfg, ViewOf(Contents(), src), now);
      InfoOutcomes(cfg, ViewOf(Contents(), src), now);
      verdict := FilterGetInfo(src, wl, cpu, now, o);
    }

    // What kinds of outcome each part of the path can have.

    static lemma PostOutcomes(cfg: Config, v: View, ua: UserAgent, now: nat)
      ensures var o := DecidePost(cfg, v, ua, now);
              o.PassedPost? || o == Dropped(TcpInitconnectRatelimit)
    {
    }

    static lemma InfoOutcomes(cfg: Config, v: View, now: nat)
      ensures var o := DecideGetInfo(cfg, v, now);
              o.PassedInfo? || o == Dropped(TcpGetinfoRatelimit)
    {
    }

    static lemma UdpOutcomes(cfg: Config, v: View, payload: Bytes, now: nat)
      ensures var o := DecideUdp(cfg, v, payload, now);
              && o.Filtered() && !SpendsInit(o) && !SpendsInfo(o)
    {
    }

    static lemma BodyOutcomes(cfg: Config, v: View, body: Option<Bytes>, now: nat)
      ensures var o := DecideBody(cfg, v, body, now);
              && !SpendsUdp(o) && o.Filtered()
              && (o.Dropped? ==> o.reason in {Malformed, TcpBadUserAgent, TcpInitconnectRatelimit, TcpGetinfoRatelimit})
      ensures forall x :: DecideBody(cfg, v.(synSeen := x), body, now) == DecideBody(cfg, v, body, now)
    {
      hide Take, MatchPostClient, MatchGetEndpoint, AgentOf;
    }

    /** The part of the TCP path that decides whether the segment belongs to a handshake: a refused
        segment has its outcome, an admitted SYN is recorded. */
    method AdmitTcp(src: Ip, syn: bool, wl: bool, cpu: nat, now: nat, ghost refusal: Option<Reason>)
      returns (admitted: bool)
      requires HasCpu(Contents(), cpu) && wl == (src in whitelist)
      requires refusal == Refusal(cfg, ViewOf(Contents(), src), breaker[cpu], syn, now)
      modifies `synSeen, `breaker, `drops, `stats
      ensures var s := old(Contents());
              && admitted == refusal.None?
              && synSeen == (if syn && admitted then s.synSeen[src := now] else s.synSeen)
              && breaker == (if syn && refusal != Some(TcpTooManyOpen)
                             then s.breaker[cpu := Take(cfg.syn, Some(s.breaker[cpu]), now).bucket.value]
                             else s.breaker)
              && (admitted ==> drops == s.drops && stats == s.stats)
              && (!admitted ==>
                  && drops == DropsAfter(cfg, s, src, Dropped(refusal.value), now)
                  && stats == Advance(s.stats, cpu, Hits(Dropped(refusal.value))))
    {
      hide Take, TakeFrom, WithDrop, Advance;
      var verdict;
      if !syn {
        if !wl && src !in synSeen && src !in established {
          assert refusal == Some(TcpNoSyn);
          verdict := Drop(src, TcpNoSyn, false, cpu, now);
          return false;
        }
      } else {
        if cfg.maxOpen > 0 {
          if src in open && open[src] >= Signed64(cfg.maxOpen) {
            assert refusal == Some(TcpTooManyOpen);
            verdict := Drop(src, TcpTooManyOpen, true, cpu, now);
            return false;
          }
        }
        var ok := TcpGlobalRatelimitTake(cpu, now);
        if !ok {
          assert refusal == Some(TcpGlobalRatelimit);
          verdict := Drop(src, TcpGlobalRatelimit, wl, cpu, now);
          return false;
        }
        synSeen := synSeen[src := now];
      }
      return true;
    }

    /** An admitted segment: its header, then its payload. */
    method FilterBody(src: Ip, l4: Bytes, wl: bool, cpu: nat, now: nat, ghost o: Outcome) returns (verdict: Verdict)
      requires HasCpu(Contents(), cpu) && wl == (src in whitelist) && |l4| >= TCP_HLEN
      requires o == DecideBody(cfg, ViewOf(Contents(), src), TcpBody(l4), now)
      modifies `whitelist, `init, `info, `drops, `stats
      ensures var s := old(Contents());
              && verdict == o.Verdict()
              && whitelist == Stamp(s.whitelist, src, o, now)
              && init == (if SpendsInit(o) then Spend(cfg.init, s.init, src, now) else s.init)
              && info == (if SpendsInfo(o) then Spend(cfg.info, s.info, src, now) else s.info)
              && drops == DropsAfter(cfg, s, src, o, now)
              && stats == Advance(s.stats, cpu, Hits(o))
    {
      var hlen := l4[12] / 16 * 4;
      if hlen < TCP_HLEN {
        verdict := Drop(src, Malformed, false, cpu, now);
        return;
      }
      if hlen > |l4| {
        verdict := Drop(src, Malformed, false, cpu, now);
        return;
      }
      verdict := FilterRequest(src, l4[hlen..], wl, cpu, now, o);
    }

    /** A TCP segment that is not a fragment: the handshake, then the body. */
    method FilterSegment(src: Ip, l4: Bytes, cpu: nat, now: nat) returns (verdict: Verdict)
      requires HasCpu(Contents(), cpu) && |l4| >= TCP_HLEN
      modifies `whitelist, `synSeen, `init, `info, `drops, `breaker, `stats
      ensures var s := old(Contents());
              var t := TcpSegment(src, false, l4[13] / 2 % 2 == 1, TcpBody(l4));
              Contents() == XdpStep(cfg, s, t, cpu, now) && verdict == OutcomeOf(cfg, s, t, cpu, now).Verdict()
    {
      hide Take, TakeFrom, WithDrop, Advance, Spend, Stamp, DecideBody, Refusal, XdpStep, OutcomeOf;
      var wl := src in whitelist;
      var syn := l4[13] / 2 % 2 == 1;
      ghost var s := Contents();
      ghost var t := TcpSegment(src, false, syn, TcpBody(l4));
      var admitted := AdmitTcp(src, syn, wl, cpu, now, Refusal(cfg, ViewOf(s, src), breaker[cpu], syn, now));
      if !admitted {
        RefusedApplies(cfg, s, Contents(), t, cpu, now);
        return XdpDrop;
      }
      ghost var s1 := Contents();
      verdict := FilterBody(src, l4, wl, cpu, now, DecideBody(cfg, ViewOf(s1, src), TcpBody(l4), now));
      AdmittedApplies(cfg, s, s1, Contents(), t, cpu, now);
    }

    /** A TCP segment to the guarded port. */
    method FilterTcp(src: Ip, moreFrags: bool, l4: Bytes, cpu: nat, now: nat) returns (verdict: Verdict)
      requires HasCpu(Contents(), cpu) && |l4| >= TCP_HLEN
      modifies `whitelist, `synSeen, `init, `info, `drops, `breaker, `stats
      ensures var s := old(Contents());
              var t := TcpSegment(src, moreFrags, l4[13] / 2 % 2 == 1, TcpBody(l4));
              Contents() == XdpStep(cfg, s, t, cpu, now) && verdict == OutcomeOf(cfg, s, t, cpu, now).Verdict()
    {
      hide WithDrop, Advance, XdpStep, OutcomeOf;
      if moreFrags {
        ghost var s := Contents();
        verdict := Drop(src, IpFragment, false, cpu, now);
        FragmentApplies(cfg, s, Contents(), TcpSegment(src, true, l4[13] / 2 % 2 == 1, TcpBody(l4)), cpu, now);
        return;
      }
      verdict := FilterSegment(src, l4, cpu, now);
    }

    static lemma FragmentApplies(cfg: Config, s: Maps, s': Maps, t: Traffic, cpu: nat, now: nat)
      requires HasCpu(s, cpu) && !t.Other? && t.moreFrags
      requires s' == s.(drops := DropsAfter(cfg, s, t.src, Dropped(IpFragment), now),
                        stats := Advance(s.stats, cpu, Hits(Dropped(IpFragment))))
      ensures s' == XdpStep(cfg, s, t, cpu, now)
      ensures OutcomeOf(cfg, s, t, cpu, now) == Dropped(IpFragment)
    {
      hide DropsAfter, Advance, Hits;
    }

    static lemma RefusedApplies(cfg: Config, s: Maps, s': Maps, t: Traffic, cpu: nat, now: nat)
      requires HasCpu(s, cpu) && t.TcpSegment? && !t.moreFrags
      requires Refusal(cfg, ViewOf(s, t.src), s.breaker[cpu], t.syn, now).Some?
      requires var reason := Refusal(cfg, ViewOf(s, t.src), s.breaker[cpu], t.syn, now).value;
               s' == s.(
                 breaker := if t.syn && reason != TcpTooManyOpen
                            then s.breaker[cpu := Take(cfg.syn, Some(s.breaker[cpu]), now).bucket.value] else s.breaker,
                 drops := DropsAfter(cfg, s, t.src, Dropped(reason), now),
                 stats := Advance(s.stats, cpu, Hits(Dropped(reason))))
      ensures s' == XdpStep(cfg, s, t, cpu, now)
      ensures OutcomeOf(cfg, s, t, cpu, now).Verdict() == XdpDrop
    {
      hide Take, TakeFrom, DropsAfter, Advance, Hits, Spend;
    }

    static lemma AdmittedApplies(cfg: Config, s: Maps, s1: Maps, s': Maps, t: Traffic, cpu: nat, now: nat)
      requires HasCpu(s, cpu) && t.TcpSegment? && !t.moreFrags
      requires Refusal(cfg, ViewOf(s, t.src), s.breaker[cpu], t.syn, now).None?
      requires s1 == s.(
                 synSeen := if t.syn then s.synSeen[t.src := now] else s.synSeen,
                 breaker := if t.syn
                            then s.breaker[cpu := Take(cfg.syn, Some(s.breaker[cpu]), now).bucket.value]
                            else s.breaker)
      requires var o := DecideBody(cfg, ViewOf(s1, t.src), t.body, now);
               s' == s1.(
                 whitelist := Stamp(s.whitelist, t.src, o, now),
                 init := if SpendsInit(o) then Spend(cfg.init, s.init, t.src, now) else s.init,
                 info := if SpendsInfo(o) then Spend(cfg.info, s.info, t.src, now) else s.info,
                 drops := DropsAfter(cfg, s1, t.src, o, now),
                 stats := Advance(s.stats, cpu, Hits(o)))
      ensures s' == XdpStep(cfg, s, t, cpu, now)
      ensures OutcomeOf(cfg, s, t, cpu, now) == DecideBody(cfg, ViewOf(s1, t.src), t.body, now)
    {
      hide Take, TakeFrom, WithDrop, Advance, Hits, Spend, Stamp, DecideBody;
      var o := DecideBody(cfg, ViewOf(s1, t.src), t.body, now);
      BodyOutcomes(cfg, ViewOf(s1, t.src), t.body, now);
      assert ViewOf(s, t.src) == ViewOf(s1, t.src).(synSeen := Get(s.synSeen, t.src));
      assert OutcomeOf(cfg, s, t, cpu, now) == o;
    }

    /** A datagram from a whitelisted source in good standing. */
    method FilterGame(src: Ip, payload: Bytes, cpu: nat, now: nat, ghost o: Outcome) returns (verdict: Verdict)
      requires HasCpu(Contents(), cpu) && src in whitelist
      requires o == DecideGame(cfg, ViewOf(Contents(), src), payload, now)
      modifies `whitelist, `udp, `health, `drops, `stats
      ensures var s := old(Contents());
              && verdict == o.Verdict()
              && whitelist == Stamp(s.whitelist, src, o, now)
              && udp == (if SpendsUdp(o) then Spend(cfg.udp, s.udp, src, now) else s.udp)
              && health == (if o == Dropped(UdpEnetMalformed)
                            then s.health[src := Record(cfg.health, Get(s.health, src), now)] else s.health)
              && drops == DropsAfter(cfg, s, src, o, now)
              && stats == Advance(s.stats, cpu, Hits(o))
    {
      hide Take, TakeFrom, WithDrop, Advance, Spend, Record, EnetLooksValid, IsOobPrefix;
      if !IsOobPrefix(payload) {
        if !EnetLooksValid(payload) {
          assert o == Dropped(UdpEnetMalformed);
          HealthRecordAnomaly(src, now);
          verdict := Drop(src, UdpEnetMalformed, true, cpu, now);
          return;
        }
      }
      var ok: bool;
      ok, udp := RatelimitTake(udp, src, cfg.udp, now);
      if !ok {
        assert o == Dropped(UdpRatelimit);
        verdict := Drop(src, UdpRatelimit, true, cpu, now);
        return;
      }
      assert o == PassedUdp;
      whitelist := whitelist[src := now];
      StatBump(STAT_PASS_UDP_WHITELISTED, cpu);
      return XdpPass;
    }

    /** A datagram from a whitelisted source. */
    method FilterWhitelisted(src: Ip, payload: Bytes, cpu: nat, now: nat, ghost o: Outcome) returns (verdict: Verdict)
      requires HasCpu(Contents(), cpu) && src in whitelist
      requires o == DecideUdp(cfg, ViewOf(Contents(), src), payload, now)
      modifies `whitelist, `udp, `health, `drops, `stats
      ensures var s := old(Contents());
              && verdict == o.Verdict()
              && whitelist == Stamp(s.whitelist, src, o, now)
              && udp == (if SpendsUdp(o) then Spend(cfg.udp, s.udp, src, now) else s.udp)
              && health == (if o == Dropped(UdpEnetMalformed)
                            then s.health[src := Record(cfg.health, Get(s.health, src), now)] else s.health)
              && drops == DropsAfter(cfg, s, src, o, now)
              && stats == Advance(s.stats, cpu, Hits(o))
    {
      hide Wrap64, WithDrop, Advance, Spend, Record, DecideGame;
      if Wrap64(now - whitelist[src]) > cfg.ttl {
        assert o == Dropped(UdpExpired);
        verdict := Drop(src, UdpExpired, true, cpu, now);
        return;
      }
      if src in health && health[src].until > now {
        assert o == Dropped(UdpUnhealthy);
        verdict := Drop(src, UdpUnhealthy, true, cpu, now);
        return;
      }
      assert o == DecideGame(cfg, ViewOf(Contents(), src), payload, now);
      verdict := FilterGame(src, payload, cpu, now, o);
    }

    /** A UDP datagram to the guarded port. */
    method FilterUdp(src: Ip, moreFrags: bool, payload: Bytes, cpu: nat, now: nat, ghost o: Outcome)
      returns (verdict: Verdict)
      requires HasCpu(Contents(), cpu)
      requires o == if moreFrags then Dropped(IpFragment) else DecideUdp(cfg, ViewOf(Contents(), src), payload, now)
      modifies `whitelist, `udp, `health, `drops, `stats
      ensures var s := old(Contents());
              && verdict == o.Verdict()
              && whitelist == Stamp(s.whitelist, src, o, now)
              && udp == (if SpendsUdp(o) then Spend(cfg.udp, s.udp, src, now) else s.udp)
              && health == (if o == Dropped(UdpEnetMalformed)
                            then s.health[src := Record(cfg.health, Get(s.health, src), now)] else s.health)
              && drops == DropsAfter(cfg, s, src, o, now)
              && stats == Advance(s.stats, cpu, Hits(o))
    {
      hide WithDrop, Advance, Spend, Record, DecideGame;
      if moreFrags {
        verdict := Drop(src, IpFragment, false, cpu, now);
        return;
      }
      if src !in whitelist {
        assert o == Dropped(UdpNotWhitelisted);
        verdict := Drop(src, UdpNotWhitelisted, false, cpu, now);
        return;
      }
      verdict := FilterWhitelisted(src, payload, cpu, now, o);
    }

    static lemma UdpApplies(cfg: Config, s: Maps, s': Maps, t: Traffic, o: Outcome, cpu: nat, now: nat)
      requires HasCpu(s, cpu) && t.UdpDatagram?
      requires o == if t.moreFrags then Dropped(IpFragment) else DecideUdp(cfg, ViewOf(s, t.src), t.payload, now)
      requires s' == s.(
                 whitelist := Stamp(s.whitelist, t.src, o, now),
                 udp := if SpendsUdp(o) then Spend(cfg.udp, s.udp, t.src, now) else s.udp,
                 health := if o == Dropped(UdpEnetMalformed)
                           then s.health[t.src := Record(cfg.health, Get(s.health, t.src), now)] else s.health,
                 drops := DropsAfter(cfg, s, t.src, o, now),
                 stats := Advance(s.stats, cpu, Hits(o)))
      ensures s' == XdpStep(cfg, s, t, cpu, now) && o == OutcomeOf(cfg, s, t, cpu, now)
    {
      hide DropsAfter, Advance, Hits, Spend, Stamp, Record, DecideUdp;
      UdpOutcomes(cfg, ViewOf(s, t.src), t.payload, now);
    }

    /** The XDP program on one frame. */
    method FivemXdp(frame: Bytes, cpu: nat, now: nat) returns (verdict: Verdict)
      requires HasCpu(Contents(), cpu)
      modifies this
      ensures var t := Observe(cfg.port, frame);
              && Contents() == XdpStep(cfg, old(Contents()), t, cpu, now)
              && verdict == OutcomeOf(cfg, old(Contents()), t, cpu, now).Verdict()
    {
      hide Apply, Decide, DecideUdp, Stamp, Spend, Record, DropsAfter, Advance, Hits;
      ghost var s := Contents();
      var ip := ReadIp(frame);
      if ip.None? {
        return XdpPass;
      }
      var IpPacket(src, protocol, frag, l4) := ip.value;
      if LaterFragment(frag) {
        return XdpPass;
      }
      var moreFrags := MoreFrags(frag);

      if protocol == IPPROTO_TCP {
        if TCP_HLEN > |l4| {
          return XdpPass;
        }
        if Be16(l4, 2) != cfg.port {
          return XdpPass;
        }
        verdict := FilterTcp(src, moreFrags, l4, cpu, now);
        return;
      }

      if protocol == IPPROTO_UDP {
        if UDP_HLEN > |l4| {
          return XdpPass;
        }
        if Be16(l4, 2) != cfg.port {
          return XdpPass;
        }
        ghost var t := UdpDatagram(src, moreFrags, l4[UDP_HLEN..]);
        ghost var o := if moreFrags then Dropped(IpFragment) else DecideUdp(cfg, ViewOf(s, src), t.payload, now);
        verdict := FilterUdp(src, moreFrags, l4[UDP_HLEN..], cpu, now, o);
        UdpApplies(cfg, s, Contents(), t, o, cpu, now);
        return;
      }

      return XdpPass;
    }

    method OpenCountInc(src: Ip)
      modifies `open
      ensures open == OpenInc(old(open), src)
    {
      if src !in open {
        open := open[src := 0];
      }
      open := open[src := open[src] + 1];
    }

    method OpenCountDec(src: Ip)
      modifies `open
      ensures open == OpenDec(old(open), src)
    {
      if src in open && open[src] > 0 {
        open := open[src := open[src] - 1];
      }
    }

    /** The sockops program on one callback. */
    method FivemSockops(cb: Callback, cpu: nat, now: nat)
      requires HasCpu(Contents(), cpu)
      modifies this
      ensures Contents() == SockStep(cfg, old(Contents()), cb, cpu, now)
    {
      if cb.localPort != cfg.port {
        return;
      }
      if cb.family != AF_INET && cb.family != AF_INET6 {
        return;
      }
      var src := cb.remote;
      if src == NO_ADDRESS {
        return;
      }
      match cb.op {
        case PassiveEstablished =>
          established := established[src := now];
          StatBump(STAT_TCP_ESTABLISHED_INSERTS, cpu);
          OpenCountInc(src);
        case StateChange(oldState, newState) =>
          if newState == Close &&
             (oldState == Established || oldState == FinWait1 || oldState == FinWait2 || oldState == CloseWait ||
              oldState == LastAck || oldState == TimeWait || oldState == Closing)
          {
            OpenCountDec(src);
          }
        case OtherOp =>
      }
    }

    /** An entry goes: evicted by the kernel or deleted by hand. */
    method Lose(m: MapName, ip: Ip)
      modifies this
      ensures Contents() == LossStep(old(Contents()), m, ip)
    {
      match m {
        case WhitelistMap => whitelist := whitelist - {ip};
        case SynSeenMap => synSeen := synSeen - {ip};
        case EstablishedMap => established := established - {ip};
        case OpenMap => open := open - {ip};
        case UdpMap => udp := udp - {ip};
        case InitMap => init := init - {ip};
        case InfoMap => info := info - {ip};
        case HealthMap => health := health - {ip};
        case DropsMap => drops := drops - {ip};
      }
    }

    /** The keys of the open counters, in the order of the iterator. */
    method CollectKeys() returns (keys: seq<Ip>)
      ensures forall ip :: ip in keys <==> ip in open
      ensures forall i, j :: 0 <= i < j < |keys| ==> keys[i] != keys[j]
    {
      keys := [];
      var left := open.Keys;
      while left != {}
        invariant forall ip :: ip in keys || ip in left <==> ip in open
        invariant forall ip :: !(ip in keys && ip in left)
        invariant forall i, j :: 0 <= i < j < |keys| ==> keys[i] != keys[j]
        decreases left
      {
        var ip :| ip in left;
        keys := keys + [ip];
        left := left - {ip};
      }
    }

    /** The loader's reset of the open counters: first the keys, then a deletion for each. */
    method ResetOpenCounts() returns (keys: seq<Ip>)
      modifies `open
      ensures forall ip :: ip in keys <==> ip in old(open)
      ensures open == map[]
    {
      keys := CollectKeys();
      for i := 0 to |keys|
        invariant forall ip :: ip in open <==> ip in keys[i..]
      {
        assert keys[i..] == [keys[i]] + keys[i + 1..];
        open := open - {keys[i]};
      }
    }
  }
}
