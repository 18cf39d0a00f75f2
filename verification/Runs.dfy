/** Whole runs: packets, socket callbacks and losses of entries, in any order. */
module Runs {
  import opened Bytes
  import opened Options
  import opened Words
  import opened Wire
  import opened FilterMaps
  import opened Payload
  import opened Limiter
  import opened HealthWindow
  import opened Sockets

  /** One atomic step on the shared maps. A loss is an eviction by the kernel or a deletion by hand. */
  datatype Event =
    | Packet(frame: Bytes, cpu: nat, now: nat)
    | Socket(cb: Callback, cpu: nat, now: nat)
    | Loss(m: MapName, ip: Ip, now: nat)

  /** The maps have the sizes of a machine with `ncpu` CPUs. */
  predicate Sized(s: Maps, ncpu: nat) {
    && |s.breaker| == ncpu && |s.stats| == ncpu
    && forall c :: 0 <= c < ncpu ==> |s.stats[c]| == STAT_MAX
  }

  predicate OnCpu(e: Event, ncpu: nat) {
    e.Loss? || e.cpu < ncpu
  }

  function Step(cfg: Config, ncpu: nat, s: Maps, e: Event): Maps
    requires Sized(s, ncpu) && OnCpu(e, ncpu)
  {
    match e
    case Packet(frame, cpu, now) => XdpStep(cfg, s, Observe(cfg.port, frame), cpu, now)
    case Socket(cb, cpu, now) => SockStep(cfg, s, cb, cpu, now)
    case Loss(m, ip, _) => LossStep(s, m, ip)
  }

  lemma StepKeepsSizes(cfg: Config, ncpu: nat, s: Maps, e: Event)
    requires Sized(s, ncpu) && OnCpu(e, ncpu)
    ensures Sized(Step(cfg, ncpu, s, e), ncpu)
  {
    hide Sized, Observe, XdpStep, SockStep, LossStep;
    match e
    case Packet(frame, cpu, now) => XdpStepKeepsSizes(cfg, ncpu, s, Observe(cfg.port, frame), cpu, now);
    case Socket(cb, cpu, now) => SockStepKeepsSizes(cfg, ncpu, s, cb, cpu, now);
    case Loss(m, ip, _) => LossKeepsSizes(ncpu, s, m, ip);
  }

  lemma LossKeepsSizes(ncpu: nat, s: Maps, m: MapName, ip: Ip)
    requires Sized(s, ncpu)
    ensures Sized(LossStep(s, m, ip), ncpu)
  {
    hide Sized;
    assert LossStep(s, m, ip).breaker == s.breaker && LossStep(s, m, ip).stats == s.stats;
    SizesOnly(s, LossStep(s, m, ip), ncpu);
  }

  lemma SizesOnly(s: Maps, s': Maps, ncpu: nat)
    requires Sized(s, ncpu) && |s'.breaker| == |s.breaker| && s'.stats == s.stats
    ensures Sized(s', ncpu)
  {
  }

  lemma AdvanceKeepsSizes(stats: seq<Row>, cpu: nat, slots: seq<nat>, ncpu: nat)
    requires |stats| == ncpu && cpu < ncpu && ValidSlots(slots)
    requires forall c :: 0 <= c < ncpu ==> |stats[c]| == STAT_MAX
    ensures forall c :: 0 <= c < ncpu ==> |Advance(stats, cpu, slots)[c]| == STAT_MAX
  {
    hide Advance;
  }

  lemma SockStepKeepsSizes(cfg: Config, ncpu: nat, s: Maps, cb: Callback, cpu: nat, now: nat)
    requires Sized(s, ncpu) && cpu < ncpu
    ensures Sized(SockStep(cfg, s, cb, cpu, now), ncpu)
  {
    hide OpenInc, OpenDec, Relevant, Uncounts, Advance;
    AdvanceKeepsSizes(s.stats, cpu, [STAT_TCP_ESTABLISHED_INSERTS], ncpu);
  }

  lemma XdpStepKeepsSizes(cfg: Config, ncpu: nat, s: Maps, t: Traffic, cpu: nat, now: nat)
    requires Sized(s, ncpu) && cpu < ncpu
    ensures Sized(XdpStep(cfg, s, t, cpu, now), ncpu)
  {
    hide OutcomeOf, Spend, Stamp, DropsAfter, Record, Hits, Take, Advance;
  }

  /** A run, with the state before each event and after the last one. */
  datatype Run = Run(cfg: Config, ncpu: nat, events: seq<Event>, states: seq<Maps>) {
    ghost predicate Valid()
      ensures Valid() ==> |states| == |events| + 1
    {
      && |states| == |events| + 1
      && (forall k :: 0 <= k < |states| ==> Sized(states[k], ncpu))
      && (forall k :: 0 <= k < |events| ==> OnCpu(events[k], ncpu))
      && (forall k :: 0 <= k < |events| ==> Follows(k))
    }

    /** State `k + 1` is what event `k` makes of state `k`. */
    predicate Follows(k: nat)
      requires k < |events| && k + 1 < |states| && Sized(states[k], ncpu) && OnCpu(events[k], ncpu)
    {
      states[k + 1] == Step(cfg, ncpu, states[k], events[k])
    }

    /** The clock never goes back, and stays below half its range. */
    ghost predicate Clocked() {
      && (forall i, j :: 0 <= i <= j < |events| ==> events[i].now <= events[j].now)
      && (forall i :: 0 <= i < |events| ==> events[i].now < TWO_63)
    }

    /** What the filter observes in event `k`. */
    function Seen(k: nat): Traffic
      requires k < |events|
    {
      if events[k].Packet? then Observe(cfg.port, events[k].frame) else Other
    }

    /** The outcome of event `k`; only packets have one. */
    ghost function Out(k: nat): Outcome
      requires Valid() && k < |events|
    {
      if events[k].Packet? then OutcomeOf(cfg, states[k], Seen(k), events[k].cpu, events[k].now) else Unfiltered
    }

    /** Event `k` is a filtered packet from `ip`. */
    predicate From(k: nat, ip: Ip)
      requires k < |events|
    {
      !Seen(k).Other? && Seen(k).src == ip
    }

    /** Event `k` is a packet from `ip` that was let through. */
    ghost predicate PassedFrom(k: nat, ip: Ip)
      requires Valid() && k < |events|
    {
      From(k, ip) && Out(k).Verdict() == XdpPass
    }

    /** Event `k` loses the entry of `ip` in map `m`. */
    predicate Loses(k: nat, m: MapName, ip: Ip)
      requires k < |events|
    {
      events[k].Loss? && events[k].m == m && events[k].ip == ip
    }
  }

  /** Every sequence of events has a run from every start. */
  function Exec(cfg: Config, ncpu: nat, start: Maps, events: seq<Event>): (r: Run)
    requires Sized(start, ncpu) && forall k :: 0 <= k < |events| ==> OnCpu(events[k], ncpu)
    ensures r.cfg == cfg && r.ncpu == ncpu && r.events == events && r.Valid() && r.states[0] == start
    decreases |events|
  {
    if events == [] then Run(cfg, ncpu, [], [start])
    else
      var n := |events| - 1;
      var before := Exec(cfg, ncpu, start, events[..n]);
      var r := Run(cfg, ncpu, events, before.states + [Step(cfg, ncpu, before.states[n], events[n])]);
      ExecStep(before, events[n], r);
      r
  }

  lemma ExecStep(run: Run, e: Event, longer: Run)
    requires run.Valid() && OnCpu(e, run.ncpu)
    requires longer == Run(run.cfg, run.ncpu, run.events + [e],
                           run.states + [Step(run.cfg, run.ncpu, run.states[|run.events|], e)])
    ensures longer.Valid()
  {
    hide Step;
    StepKeepsSizes(run.cfg, run.ncpu, run.states[|run.events|], e);
    forall k | 0 <= k < |longer.events|
      ensures longer.Follows(k)
    {
      if k < |run.events| {
        assert run.Follows(k);
      }
    }
  }

  lemma FilteredIffSeen(run: Run, k: nat)
    requires run.Valid() && k < |run.events|
    ensures run.Out(k).Filtered() <==> !run.Seen(k).Other?
  {
    hide Step, Observe, Take, RequestOf, Anomalous, IsBlacklisted;
  }

  // ----- one event, map by map -----

  lemma XdpFields(cfg: Config, s: Maps, t: Traffic, cpu: nat, now: nat)
    requires HasCpu(s, cpu) && !t.Other?
    ensures var o := OutcomeOf(cfg, s, t, cpu, now);
            var s' := XdpStep(cfg, s, t, cpu, now);
            && s'.whitelist == Stamp(s.whitelist, t.src, o, now)
            && s'.synSeen == (if AdmittedSyn(t, o) then s.synSeen[t.src := now] else s.synSeen)
            && s'.established == s.established
            && s'.open == s.open
            && s'.udp == (if SpendsUdp(o) then Spend(cfg.udp, s.udp, t.src, now) else s.udp)
            && s'.init == (if SpendsInit(o) then Spend(cfg.init, s.init, t.src, now) else s.init)
            && s'.info == (if SpendsInfo(o) then Spend(cfg.info, s.info, t.src, now) else s.info)
            && s'.health == (if o == Dropped(UdpEnetMalformed)
                             then s.health[t.src := Record(cfg.health, Get(s.health, t.src), now)] else s.health)
            && s'.drops == DropsAfter(cfg, s, t.src, o, now)
            && s'.breaker == (if ReachesBreaker(t, o)
                              then s.breaker[cpu := Take(cfg.syn, Some(s.breaker[cpu]), now).bucket.value]
                              else s.breaker)
            && s'.stats == Advance(s.stats, cpu, Hits(o))
  {
    hide OutcomeOf, Stamp, AdmittedSyn, SpendsUdp, SpendsInit, SpendsInfo, Spend, Record, DropsAfter, ReachesBreaker,
      Take, Advance, Hits;
  }

  /** A filtered packet. */
  lemma PacketFields(run: Run, k: nat)
    requires run.Valid() && k < |run.events| && !run.Seen(k).Other?
    ensures var s, s', t, o, e := run.states[k], run.states[k + 1], run.Seen(k), run.Out(k), run.events[k];
            var cfg := run.cfg;
            && HasCpu(s, e.cpu)
            && s'.whitelist == Stamp(s.whitelist, t.src, o, e.now)
            && s'.synSeen == (if AdmittedSyn(t, o) then s.synSeen[t.src := e.now] else s.synSeen)
            && s'.established == s.established
            && s'.open == s.open
            && s'.udp == (if SpendsUdp(o) then Spend(cfg.udp, s.udp, t.src, e.now) else s.udp)
            && s'.init == (if SpendsInit(o) then Spend(cfg.init, s.init, t.src, e.now) else s.init)
            && s'.info == (if SpendsInfo(o) then Spend(cfg.info, s.info, t.src, e.now) else s.info)
            && s'.health == (if o == Dropped(UdpEnetMalformed)
                             then s.health[t.src := Record(cfg.health, Get(s.health, t.src), e.now)] else s.health)
            && s'.drops == DropsAfter(cfg, s, t.src, o, e.now)
            && s'.breaker == (if ReachesBreaker(t, o)
                              then s.breaker[e.cpu := Take(cfg.syn, Some(s.breaker[e.cpu]), e.now).bucket.value]
                              else s.breaker)
            && s'.stats == Advance(s.stats, e.cpu, Hits(o))
  {
    hide OutcomeOf, Stamp, AdmittedSyn, SpendsUdp, SpendsInit, SpendsInfo, Spend, Record, DropsAfter, ReachesBreaker,
      Take, Advance, Hits, XdpStep, SockStep, LossStep, Observe;
    assert run.Follows(k);
    XdpFields(run.cfg, run.states[k], run.Seen(k), run.events[k].cpu, run.events[k].now);
  }

  lemma SockFields(cfg: Config, s: Maps, cb: Callback, cpu: nat, now: nat)
    requires HasCpu(s, cpu)
    ensures var s' := SockStep(cfg, s, cb, cpu, now);
            var opens := OnGuardedPort(cfg, cb) && cb.op == PassiveEstablished;
            && s'.whitelist == s.whitelist && s'.synSeen == s.synSeen && s'.udp == s.udp && s'.init == s.init
            && s'.info == s.info && s'.health == s.health && s'.drops == s.drops && s'.breaker == s.breaker
            && s'.established == (if opens then s.established[cb.remote := now] else s.established)
            && s'.open == (if opens then OpenInc(s.open, cb.remote)
                           else if OnGuardedPort(cfg, cb) && Uncounts(cb.op) then OpenDec(s.open, cb.remote)
                           else s.open)
            && s'.stats == (if opens then Advance(s.stats, cpu, [STAT_TCP_ESTABLISHED_INSERTS]) else s.stats)
  {
    hide Advance, OpenInc, OpenDec, Relevant, OnGuardedPort, Uncounts;
    GuardedIsRelevant(cfg, cb);
  }

  /** A socket callback. */
  lemma SocketFields(run: Run, k: nat)
    requires run.Valid() && k < |run.events| && run.events[k].Socket?
    ensures var s, s', cb := run.states[k], run.states[k + 1], run.events[k].cb;
            var opens := OnGuardedPort(run.cfg, cb) && cb.op == PassiveEstablished;
            && HasCpu(s, run.events[k].cpu)
            && s'.whitelist == s.whitelist && s'.synSeen == s.synSeen && s'.udp == s.udp && s'.init == s.init
            && s'.info == s.info && s'.health == s.health && s'.drops == s.drops && s'.breaker == s.breaker
            && s'.established == (if opens then s.established[cb.remote := run.events[k].now] else s.established)
            && s'.open == (if opens then OpenInc(s.open, cb.remote)
                           else if OnGuardedPort(run.cfg, cb) && Uncounts(cb.op) then OpenDec(s.open, cb.remote)
                           else s.open)
            && s'.stats
               == (if opens then Advance(s.stats, run.events[k].cpu, [STAT_TCP_ESTABLISHED_INSERTS]) else s.stats)
  {
    hide XdpStep, SockStep, LossStep, Observe, Advance, OpenInc, OpenDec, OnGuardedPort, Uncounts;
    assert run.Follows(k);
    SockFields(run.cfg, run.states[k], run.events[k].cb, run.events[k].cpu, run.events[k].now);
  }

  /** Everything else leaves the maps alone, or takes one entry out of one of them. */
  lemma QuietFields(run: Run, k: nat)
    requires run.Valid() && k < |run.events|
    ensures run.events[k].Packet? && run.Seen(k).Other? ==> run.states[k + 1] == run.states[k]
    ensures run.events[k].Loss? ==> run.states[k + 1] == LossStep(run.states[k], run.events[k].m, run.events[k].ip)
  {
    hide SockStep, LossStep, Observe, Apply;
    assert run.Follows(k);
  }

  lemma LossFields(s: Maps, m: MapName, ip: Ip)
    ensures var s' := LossStep(s, m, ip);
            && s'.whitelist == (if m == WhitelistMap then s.whitelist - {ip} else s.whitelist)
            && s'.synSeen == (if m == SynSeenMap then s.synSeen - {ip} else s.synSeen)
            && s'.established == (if m == EstablishedMap then s.established - {ip} else s.established)
            && s'.open == (if m == OpenMap then s.open - {ip} else s.open)
            && s'.udp == (if m == UdpMap then s.udp - {ip} else s.udp)
            && s'.init == (if m == InitMap then s.init - {ip} else s.init)
            && s'.info == (if m == InfoMap then s.info - {ip} else s.info)
            && s'.health == (if m == HealthMap then s.health - {ip} else s.health)
            && s'.drops == (if m == DropsMap then s.drops - {ip} else s.drops)
            && s'.breaker == s.breaker && s'.stats == s.stats
  {
  }

  /** The accessors of a run, written out. */
  lemma Accessors(run: Run, k: nat, ip: Ip)
    requires run.Valid() && k < |run.events|
    ensures run.From(k, ip) <==> !run.Seen(k).Other? && run.Seen(k).src == ip
    ensures run.PassedFrom(k, ip) <==> run.From(k, ip) && run.Out(k).Passed()
    ensures !run.Seen(k).Other? ==> run.events[k].Packet?
  {
    hide Run.Valid, Observe, OutcomeOf;
    FilteredIffSeen(run, k);
  }

  lemma ClockOrder(run: Run, i: nat, j: nat)
    requires run.Clocked() && i <= j < |run.events|
    ensures run.events[i].now <= run.events[j].now < TWO_63
  {
  }
}
