/** The SYN breaker: one bucket per CPU, one bound for all of them together. */
module SynBreaker {
  import opened Bytes
  import opened Options
  import opened Words
  import opened Wire
  import opened Payload
  import opened Limiter
  import opened HealthWindow
  import opened FilterMaps
  import opened Runs
  import opened Sockets
  import opened Rates
  import opened RateBounds
  import opened Scenarios
  import opened Revival

  /** Event `k` is a SYN that reaches the breaker of `cpu`. */
  ghost predicate ReachesOn(run: Run, k: nat, cpu: nat)
    requires run.Valid() && k < |run.events|
  {
    !run.Seen(k).Other? && run.events[k].cpu == cpu && ReachesBreaker(run.Seen(k), run.Out(k))
  }

  /** Event `k` is a SYN that the breaker of `cpu` admits. */
  ghost predicate AdmittedOn(run: Run, k: nat, cpu: nat)
    requires run.Valid() && k < |run.events|
  {
    !run.Seen(k).Other? && run.events[k].cpu == cpu && AdmittedSyn(run.Seen(k), run.Out(k))
  }

  ghost function SynsOn(run: Run, cpu: nat, lo: nat, hi: nat): nat
    requires run.Valid() && lo <= hi <= |run.events|
    decreases hi
  {
    if lo == hi then 0 else SynsOn(run, cpu, lo, hi - 1) + if AdmittedOn(run, hi - 1, cpu) then 1 else 0
  }

  /** The SYNs admitted on the first `n` CPUs. */
  ghost function SynsOnFirst(run: Run, n: nat, lo: nat, hi: nat): nat
    requires run.Valid() && lo <= hi <= |run.events|
  {
    if n == 0 then 0 else SynsOnFirst(run, n - 1, lo, hi) + SynsOn(run, n - 1, lo, hi)
  }

  /** All SYNs admitted among events `lo` to `hi - 1`. */
  ghost function Syns(run: Run, lo: nat, hi: nat): nat
    requires run.Valid() && lo <= hi <= |run.events|
    decreases hi
  {
    if lo == hi then 0
    else
      var last := !run.Seen(hi - 1).Other? && AdmittedSyn(run.Seen(hi - 1), run.Out(hi - 1));
      Syns(run, lo, hi - 1) + if last then 1 else 0
  }

  // ----- one event -----

  lemma BreakerDecides(cfg: Config, s: Maps, t: Traffic, cpu: nat, now: nat)
    requires HasCpu(s, cpu) && !t.Other?
    ensures var o := OutcomeOf(cfg, s, t, cpu, now);
            ReachesBreaker(t, o) ==> (AdmittedSyn(t, o) <==> Take(cfg.syn, Some(s.breaker[cpu]), now).ok)
    ensures Take(cfg.syn, Some(s.breaker[cpu]), now).bucket.Some?
  {
    hide TakeFrom, DecideUdp, RequestOf, Wrap64, Signed64;
  }

  /** The breaker takes no account of who is already playing: a SYN below the cap is dropped exactly
      when the bucket is empty, and charged when it is not, whitelisted source or not. */
  lemma BreakerIgnoresWhitelist(cfg: Config, s: Maps, t: Traffic, cpu: nat, now: nat)
    requires HasCpu(s, cpu) && t.TcpSegment? && t.syn && !t.moreFrags && !OverCap(cfg, Get(s.open, t.src))
    ensures OutcomeOf(cfg, s, t, cpu, now) == Dropped(TcpGlobalRatelimit)
       <==> !Take(cfg.syn, Some(s.breaker[cpu]), now).ok
    ensures XdpStep(cfg, s, t, cpu, now).breaker[cpu] == Take(cfg.syn, Some(s.breaker[cpu]), now).bucket.value
  {
    hide TakeFrom, DecideRequest, OverCap, Spend, Stamp, DropsAfter, Record, Advance, Hits;
    SynPastCap(cfg, s, t, cpu, now);
  }

  /** Event `k` is a SYN that the breaker drops although its source is whitelisted. */
  ghost predicate DropsPlayer(run: Run, k: nat)
    requires run.Valid() && k < |run.events|
  {
    && !run.Seen(k).Other? && run.Out(k) == Dropped(TcpGlobalRatelimit)
    && run.Seen(k).src in run.states[k].whitelist
  }

  const NEWCOMER: Ip := 2

  /** When the breaker has its first token; a clock below half its range may never get there. */
  function FirstToken(l: Limit): nat {
    if l.period < TWO_63 then l.period else 1
  }

  /** A player connects and loses its open counter, and a newcomer's SYN comes before the player's. */
  function Return(cfg: Config): (events: seq<Event>)
    requires cfg.port < 0x1_0000
    ensures var now := FirstToken(cfg.syn);
            && |events| == 5 && Enters(events, cfg.port, now)
            && events[2] == Loss(OpenMap, PLAYER, now)
            && events[3] == Packet(TcpFrame(cfg.port, NEWCOMER, SYN, []), 0, now)
            && events[4] == Packet(TcpFrame(cfg.port, PLAYER, SYN, []), 0, now)
    ensures forall k :: 0 <= k < 5 ==> OnCpu(events[k], 1) && events[k].now == FirstToken(cfg.syn)
  {
    var now := FirstToken(cfg.syn);
    [ Socket(Callback(PassiveEstablished, cfg.port, AF_INET, PLAYER, 7), 0, now),
      Packet(TcpFrame(cfg.port, PLAYER, ACK, ConnectRequest()), 0, now),
      Loss(OpenMap, PLAYER, now),
      Packet(TcpFrame(cfg.port, NEWCOMER, SYN, []), 0, now),
      Packet(TcpFrame(cfg.port, PLAYER, SYN, []), 0, now) ]
  }

  /** The newcomer takes the only token there is, if there is one. */
  lemma OneTokenAtMost(l: Limit)
    requires l.Enabled()
    ensures var now := FirstToken(l);
            var first := Take(l, Some(Bucket(0, 0)), now);
            !Take(l, first.bucket, now).ok
  {
    hide TakeFrom, PlainTake;
    var now := FirstToken(l);
    if l.period < TWO_63 {
      Isolation.FreshBreaker(l);
    } else {
      DivUnique(1, l.period, 0);
      var k, grown := TakeInWords(l, Bucket(0, 0), 1);
    }
  }

  /** A SYN from a source without an open counter, at a breaker. */
  lemma SynStep(run: Run, k: nat)
    requires run.Valid() && k < |run.events| && run.cfg.port < 0x1_0000
    requires run.Seen(k).TcpSegment? && run.Seen(k).syn && !run.Seen(k).moreFrags
    requires run.Seen(k).src !in run.states[k].open
    ensures HasCpu(run.states[k], run.events[k].cpu)
    ensures var r := Take(run.cfg.syn, Some(run.states[k].breaker[run.events[k].cpu]), run.events[k].now);
            && (run.Out(k) == Dropped(TcpGlobalRatelimit) <==> !r.ok)
            && |run.states[k + 1].breaker| == |run.states[k].breaker|
            && Some(run.states[k + 1].breaker[run.events[k].cpu]) == r.bucket
            && (AdmittedSyn(run.Seen(k), run.Out(k)) <==> r.ok)
    ensures forall c :: 0 <= c < |run.states[k].breaker| && c != run.events[k].cpu ==>
              run.states[k + 1].breaker[c] == run.states[k].breaker[c]
    ensures run.states[k + 1].open == run.states[k].open
    ensures forall x :: x in run.states[k].whitelist ==> x in run.states[k + 1].whitelist
  {
    hide Run.Follows, Observe, OutcomeOf, Spend, Record, DropsAfter, Advance, Hits, Take;
    PacketFields(run, k);
    SynPastCap(run.cfg, run.states[k], run.Seen(k), run.events[k].cpu, run.events[k].now);
    BreakerDecides(run.cfg, run.states[k], run.Seen(k), run.events[k].cpu, run.events[k].now);
  }

  lemma ReturnIsDropped(cfg: Config) returns (run: Run)
    requires cfg.syn.Enabled() && cfg.port < 0x1_0000
    ensures run.cfg == cfg && run.Valid() && run.Clocked() && run.states[0] == Empty(run.ncpu)
    ensures |run.events| == 5 && (forall k :: 0 <= k < 5 ==> run.events[k].now > 0) && DropsPlayer(run, 4)
  {
    hide Run.Follows, XdpStep, SockStep, Observe, OutcomeOf, TcpFrame, Return, Take;
    run := Exec(cfg, 1, Empty(1), Return(cfg));
    EnteredStands(run, FirstToken(cfg.syn));
    EnteredOpen(run);
    QuietFields(run, 2);
    LossFields(run.states[2], OpenMap, PLAYER);
    ObserveTcpFrame(cfg.port, NEWCOMER, SYN, []);
    ObserveTcpFrame(cfg.port, PLAYER, SYN, []);
    SynStep(run, 3);
    SynStep(run, 4);
    OneTokenAtMost(cfg.syn);
  }

  /** Nobody else has a counter yet. */
  lemma EnteredOpen(run: Run)
    requires run.Valid() && run.cfg.port < 0x1_0000 && run.states[0] == Empty(1)
    requires exists now :: Enters(run.events, run.cfg.port, now)
    ensures NEWCOMER !in run.states[2].open
  {
    hide Run.Follows, Observe, OutcomeOf, TcpFrame, OnGuardedPort, Advance;
    ObserveTcpFrame(run.cfg.port, PLAYER, ACK, ConnectRequest());
    SocketFields(run, 0);
    PacketFields(run, 1);
  }

  /** So the breaker spares those already playing, in every run from empty maps, exactly when it is off. */
  lemma PlayersSparedIff(cfg: Config)
    requires cfg.port < 0x1_0000
    ensures !cfg.syn.Enabled() <==>
            forall run: Run, k: nat
              | && run.cfg == cfg && run.Valid() && run.Clocked() && run.states[0] == Empty(run.ncpu)
                && k < |run.events| ::
              !DropsPlayer(run, k)
  {
    hide Run.Valid, Run.Clocked, Empty;
    if cfg.syn.Enabled() {
      var run := ReturnIsDropped(cfg);
      assert DropsPlayer(run, 4);
    } else {
      forall run: Run, k: nat
        | run.cfg == cfg && run.Valid() && run.Clocked() && run.states[0] == Empty(run.ncpu) && k < |run.events|
        ensures !DropsPlayer(run, k)
      {
        hide OutcomeOf, Observe;
        if !run.Seen(k).Other? {
          PacketFields(run, k);
          OffDropsNobody(cfg, run.states[k], run.Seen(k), run.events[k].cpu, run.events[k].now);
        }
      }
    }
  }

  lemma OffDropsNobody(cfg: Config, s: Maps, t: Traffic, cpu: nat, now: nat)
    requires HasCpu(s, cpu) && !t.Other? && !cfg.syn.Enabled()
    ensures OutcomeOf(cfg, s, t, cpu, now) != Dropped(TcpGlobalRatelimit)
  {
    hide TakeFrom, DecideUdp, RequestOf, Wrap64, Signed64, IsBlacklisted;
    UdpIsNotTheBreakers(cfg, ViewOf(s, t.src), if t.UdpDatagram? then t.payload else [], now);
  }

  lemma UdpIsNotTheBreakers(cfg: Config, v: View, payload: Bytes, now: nat)
    ensures DecideUdp(cfg, v, payload, now) != Dropped(TcpGlobalRatelimit)
  {
    hide Take, Anomalous, IsBlacklisted, Wrap64;
  }

  lemma SynPastCap(cfg: Config, s: Maps, t: Traffic, cpu: nat, now: nat)
    requires HasCpu(s, cpu) && t.TcpSegment? && t.syn && !t.moreFrags && !OverCap(cfg, Get(s.open, t.src))
    ensures OutcomeOf(cfg, s, t, cpu, now) == Dropped(TcpGlobalRatelimit)
       <==> !Take(cfg.syn, Some(s.breaker[cpu]), now).ok
    ensures OutcomeOf(cfg, s, t, cpu, now) != Dropped(TcpTooManyOpen)
  {
    hide TakeFrom, RequestOf, OverCap;
  }

  lemma BreakerStep(run: Run, k: nat, cpu: nat)
    requires run.Valid() && k < |run.events| && cpu < run.ncpu
    ensures |run.states[k].breaker| == |run.states[k + 1].breaker| == run.ncpu
    ensures ReachesOn(run, k, cpu) ==>
              var r := Take(run.cfg.syn, Some(run.states[k].breaker[cpu]), run.events[k].now);
              Some(run.states[k + 1].breaker[cpu]) == r.bucket && (AdmittedOn(run, k, cpu) <==> r.ok)
    ensures !ReachesOn(run, k, cpu) ==>
              !AdmittedOn(run, k, cpu) && run.states[k + 1].breaker[cpu] == run.states[k].breaker[cpu]
  {
    BreakerSizes(run, k);
    hide XdpStep, SockStep, LossStep, Observe, OutcomeOf, Take, OnGuardedPort, Uncounts, Run.Valid, ReachesBreaker,
      Stamp, Spend, Record, DropsAfter, Advance, Hits, SpendsUdp, SpendsInit, SpendsInfo, AdmittedSyn;
    var s, e, t := run.states[k], run.events[k], run.Seen(k);
    match e
    case Packet(frame, c, now) =>
      if t.Other? {
        QuietFields(run, k);
      } else {
        PacketSteps(run, k);
        PacketFields(run, k);
        BreakerDecides(run.cfg, s, t, c, now);
        AdmittedReaches(t, run.Out(k));
      }
    case Socket(cb, c, now) => SocketFields(run, k);
    case Loss(m, x, _) =>
      QuietFields(run, k);
      LossFields(s, m, x);
  }

  lemma AdmittedReaches(t: Traffic, o: Outcome)
    ensures AdmittedSyn(t, o) ==> ReachesBreaker(t, o)
  {
  }

  lemma BreakerSizes(run: Run, k: nat)
    requires run.Valid() && k < |run.events|
    ensures |run.states[k].breaker| == |run.states[k + 1].breaker| == run.ncpu
  {
    assert Sized(run.states[k], run.ncpu) && Sized(run.states[k + 1], run.ncpu);
  }

  // ----- one CPU -----

  /** The breakers a run starts with were last refilled before the run. */
  predicate BreakersPast(run: Run)
    requires |run.states| > 0
  {
    forall b :: b in run.states[0].breaker && run.events != [] ==> b.last <= run.events[0].now
  }

  lemma {:induction false} BreakerStaysPast(run: Run, cpu: nat, k: nat, t: nat)
    requires run.Valid() && run.Clocked() && BreakersPast(run) && cpu < run.ncpu
    requires k <= |run.events| && run.events != [] && run.events[0].now <= t < TWO_64
    requires k > 0 ==> run.events[k - 1].now <= t
    ensures |run.states[k].breaker| == run.ncpu && Past(run.states[k].breaker[cpu], t)
  {
    if k > 0 {
      hide Run.Valid, Take, ReachesOn, AdmittedOn, BreakersPast;
      var now := run.events[k - 1].now;
      BreakerStaysPast(run, cpu, k - 1, now);
      BreakerStep(run, k - 1, cpu);
      TakeStaysPast(run.cfg.syn, Some(run.states[k - 1].breaker[cpu]), now);
    } else {
      BreakerSizes(run, 0);
      assert run.states[0].breaker[cpu] in run.states[0].breaker;
    }
  }

  lemma {:induction false} BreakerMetering(run: Run, cpu: nat, lo: nat, k: nat, a: nat)
    requires run.Valid() && run.Clocked() && BreakersPast(run) && cpu < run.ncpu
    requires run.cfg.syn.Enabled() && lo <= k <= |run.events|
    requires forall j :: lo <= j < k ==> a <= run.events[j].now
    ensures k > 0 ==> |run.states[k].breaker| == run.ncpu
    ensures k > 0 ==> Metered(run.cfg.syn, Some(run.states[k].breaker[cpu]), a, SynsOn(run, cpu, lo, k))
    decreases k
  {
    hide Run.Valid, Take, ReachesOn, AdmittedOn, BreakersPast, Metered;
    if k > 0 {
      BreakerStep(run, k - 1, cpu);
      if lo == k {
        MeterStart(run.cfg.syn, Some(run.states[k].breaker[cpu]), a);
      } else {
        var now := run.events[k - 1].now;
        var b := run.states[k - 1].breaker[cpu];
        BreakerStaysPast(run, cpu, k - 1, now);
        if lo == k - 1 {
          MeterStart(run.cfg.syn, Some(b), a);
        } else {
          BreakerMetering(run, cpu, lo, k - 1, a);
        }
        if ReachesOn(run, k - 1, cpu) {
          MeterTake(run.cfg.syn, Some(b), a, SynsOn(run, cpu, lo, k - 1), now);
        }
      }
    }
  }

  /** Events `lo` to `hi - 1` happen between `a` and `b`. */
  predicate Between(run: Run, lo: nat, hi: nat, a: nat, b: nat)
    requires lo <= hi <= |run.events|
  {
    a <= b < TWO_64 && forall j :: lo <= j < hi ==> a <= run.events[j].now <= b
  }

  lemma OneBreaker(run: Run, cpu: nat, lo: nat, hi: nat, a: nat, b: nat)
    requires run.Valid() && run.Clocked() && BreakersPast(run) && cpu < run.ncpu
    requires run.cfg.syn.Enabled() && lo <= hi <= |run.events| && Between(run, lo, hi, a, b)
    ensures SynsOn(run, cpu, lo, hi) <= run.cfg.syn.burst + CeilDiv(b - a, run.cfg.syn.period)
  {
    hide Run.Valid, BreakersPast, Metered, CeilDiv, AdmittedOn;
    if lo < hi {
      BreakerMetering(run, cpu, lo, hi, a);
      assert run.events[0].now <= run.events[hi - 1].now;
      BreakerStaysPast(run, cpu, hi, b);
      MeterBound(run.cfg.syn, Some(run.states[hi].breaker[cpu]), a, b, SynsOn(run, cpu, lo, hi));
    }
  }

  // ----- all CPUs -----

  lemma {:induction false} NoneOnFirst(run: Run, n: nat, k: nat)
    requires run.Valid() && k < |run.events|
    requires forall c :: 0 <= c < n ==> !AdmittedOn(run, k, c)
    ensures forall lo :: 0 <= lo <= k ==> SynsOnFirst(run, n, lo, k + 1) == SynsOnFirst(run, n, lo, k)
  {
    hide Run.Valid, AdmittedOn;
    if n > 0 {
      NoneOnFirst(run, n - 1, k);
    }
  }

  lemma {:induction false} OneOnFirst(run: Run, n: nat, k: nat, cpu: nat, lo: nat)
    requires run.Valid() && lo <= k < |run.events| && cpu < n
    requires forall c :: 0 <= c < n ==> (AdmittedOn(run, k, c) <==> c == cpu)
    ensures SynsOnFirst(run, n, lo, k + 1) == SynsOnFirst(run, n, lo, k) + 1
  {
    hide Run.Valid, AdmittedOn;
    if cpu == n - 1 {
      NoneOnFirst(run, n - 1, k);
    } else {
      OneOnFirst(run, n - 1, k, cpu, lo);
    }
  }

  lemma {:induction false} EmptyOnFirst(run: Run, n: nat, lo: nat)
    requires run.Valid() && lo <= |run.events|
    ensures SynsOnFirst(run, n, lo, lo) == 0
  {
    hide Run.Valid;
    if n > 0 {
      EmptyOnFirst(run, n - 1, lo);
    }
  }

  lemma AdmittedOnOwnCpu(run: Run, k: nat, c: nat)
    requires run.Valid() && k < |run.events|
    ensures AdmittedOn(run, k, c) <==>
            !run.Seen(k).Other? && AdmittedSyn(run.Seen(k), run.Out(k)) && run.events[k].cpu == c
    ensures !run.Seen(k).Other? ==> run.events[k].cpu < run.ncpu
  {
    hide OutcomeOf, Observe, AdmittedSyn;
    assert OnCpu(run.events[k], run.ncpu);
  }

  /** Every admitted SYN is admitted on one CPU. */
  lemma {:induction false} SynsAddUp(run: Run, lo: nat, hi: nat)
    requires run.Valid() && lo <= hi <= |run.events|
    ensures Syns(run, lo, hi) == SynsOnFirst(run, run.ncpu, lo, hi)
    decreases hi
  {
    hide Run.Valid, AdmittedOn, AdmittedSyn, Run.Seen, Run.Out, SynsOn, SynsOnFirst;
    if lo == hi {
      EmptyOnFirst(run, run.ncpu, lo);
    } else {
      var k := hi - 1;
      SynsAddUp(run, lo, k);
      Accessors(run, k, 0);
      forall c: nat
        ensures AdmittedOn(run, k, c) <==>
                !run.Seen(k).Other? && AdmittedSyn(run.Seen(k), run.Out(k)) && run.events[k].cpu == c
      {
        AdmittedOnOwnCpu(run, k, c);
      }
      if !run.Seen(k).Other? && AdmittedSyn(run.Seen(k), run.Out(k)) {
        AdmittedOnOwnCpu(run, k, run.events[k].cpu);
        OneOnFirst(run, run.ncpu, k, run.events[k].cpu, lo);
      } else {
        NoneOnFirst(run, run.ncpu, k);
      }
    }
  }

  lemma {:induction false} FirstBreakers(run: Run, n: nat, lo: nat, hi: nat, a: nat, b: nat)
    requires run.Valid() && run.Clocked() && BreakersPast(run) && n <= run.ncpu
    requires run.cfg.syn.Enabled() && lo <= hi <= |run.events| && Between(run, lo, hi, a, b)
    ensures SynsOnFirst(run, n, lo, hi) <= n * (run.cfg.syn.burst + CeilDiv(b - a, run.cfg.syn.period))
  {
    hide Run.Valid, BreakersPast, CeilDiv, SynsOn;
    if n > 0 {
      FirstBreakers(run, n - 1, lo, hi, a, b);
      OneBreaker(run, n - 1, lo, hi, a, b);
    }
  }

  /** The breakers of all CPUs together admit at most a burst and one SYN per started period each. */
  lemma SynBound(run: Run, lo: nat, hi: nat, a: nat, b: nat)
    requires run.Valid() && run.Clocked() && BreakersPast(run)
    requires run.cfg.syn.Enabled() && lo <= hi <= |run.events| && Between(run, lo, hi, a, b)
    ensures Syns(run, lo, hi) <= run.ncpu * (run.cfg.syn.burst + CeilDiv(b - a, run.cfg.syn.period))
  {
    hide Run.Valid, BreakersPast, CeilDiv, SynsOnFirst, Syns;
    SynsAddUp(run, lo, hi);
    FirstBreakers(run, run.ncpu, lo, hi, a, b);
  }

  /** In the loader's terms: a burst of `B` and a rate that gives the period `P`, shared among `n` CPUs,
      admit at most `max(B, n) + n * ceil((b - a) / P)` SYNs in a window, as long as packets arrive on
      no more CPUs than the loader counted. */
  lemma ConfiguredSynBound(run: Run, o: LoaderOptions, n: nat, lo: nat, hi: nat, a: nat, b: nat)
    requires run.Valid() && run.Clocked() && BreakersPast(run)
    requires 1 <= n && run.ncpu <= n && run.cfg == Configure(o, n)
    requires o.tcpGlobalBurst > 0 && run.cfg.syn.period > 0
    requires lo <= hi <= |run.events| && Between(run, lo, hi, a, b)
    ensures Syns(run, lo, hi) <= Max(o.tcpGlobalBurst, n) + n * CeilDiv(b - a, run.cfg.syn.period)
  {
    hide Run.Valid, BreakersPast, CeilDiv, Syns, PerCpu, PeriodNs;
    SharesAddUp(o.tcpGlobalBurst, n);
    SynBound(run, lo, hi, a, b);
    var c := CeilDiv(b - a, run.cfg.syn.period);
    var each := run.cfg.syn.burst + c;
    MulMono(run.ncpu, n, each);
    assert n * each == n * run.cfg.syn.burst + n * c;
  }
}
