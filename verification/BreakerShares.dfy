/** What becomes of the bound on SYNs when packets arrive on more CPUs than the loader counted. */
module BreakerShares {
  import opened Options
  import opened Words
  import opened Wire
  import opened Limiter
  import opened FilterMaps
  import opened Runs
  import opened Rates
  import opened Scenarios
  import opened Revival
  import opened SynBreaker

  // ----- one CPU that takes all it can -----

  /** The time of round `r`: a burst's worth of rounds as soon as the bucket is full, then one a period. */
  function Time(l: Limit, r: nat): nat {
    Max(l.burst, r + 1) * l.period
  }

  /** The bucket after `r` rounds. */
  function Level(l: Limit, r: nat): Bucket {
    if r == 0 then Bucket(0, 0)
    else if r <= l.burst then Bucket(l.burst - r, l.burst * l.period)
    else Bucket(0, r * l.period)
  }

  lemma RoundIsAdmitted(l: Limit, r: nat)
    requires l.Enabled() && Time(l, r) < TWO_63
    ensures Take(l, Some(Level(l, r)), Time(l, r)) == Taken(true, Some(Level(l, r + 1)))
  {
    hide TakeFrom, PlainTake;
    var b, now := Level(l, r), Time(l, r);
    var refill := if r == 0 then l.burst else if r < l.burst then 0 else 1;
    assert b.last + refill * l.period == now by { LevelTimes(l, r); }
    DivUnique(now - b.last, l.period, refill);
    var k, grown := TakeInWords(l, b, now);
    assert l.burst <= l.burst * l.period <= now by {
      MulMono(1, l.period, l.burst);
      MulMono(l.burst, Max(l.burst, r + 1), l.period);
    }
    assert Wrap64(b.tokens + k) == b.tokens + k;
  }

  lemma LevelTimes(l: Limit, r: nat)
    requires l.Enabled()
    ensures var refill := if r == 0 then l.burst else if r < l.burst then 0 else 1;
            Level(l, r).last + refill * l.period == Time(l, r)
  {
    assert (r + 1) * l.period == r * l.period + l.period;
  }

  lemma TimesInOrder(l: Limit, r: nat, r': nat)
    requires r <= r'
    ensures Time(l, r) <= Time(l, r')
  {
    MulMono(Max(l.burst, r + 1), Max(l.burst, r' + 1), l.period);
  }

  // ----- every CPU does -----

  /** In each round one SYN on every CPU. */
  function FloodEvent(cfg: Config, ncpu: nat, i: nat): Event
    requires cfg.port < 0x1_0000 && ncpu > 0
  {
    Packet(TcpFrame(cfg.port, PLAYER, SYN, []), i % ncpu, Time(cfg.syn, i / ncpu))
  }

  /** How many rounds CPU `c` has had after `i` events. */
  function Rounds(ncpu: nat, i: nat, c: nat): nat
    requires ncpu > 0
  {
    i / ncpu + if c < i % ncpu then 1 else 0
  }

  lemma RoundsStep(ncpu: nat, i: nat, c: nat)
    requires ncpu > 0 && c < ncpu
    ensures Rounds(ncpu, i + 1, c) == Rounds(ncpu, i, c) + if c == i % ncpu then 1 else 0
    ensures Rounds(ncpu, i, i % ncpu) == i / ncpu && Rounds(ncpu, 0, c) == 0
  {
    assert i == i / ncpu * ncpu + i % ncpu;
    if i % ncpu + 1 < ncpu {
      DivUnique(i + 1, ncpu, i / ncpu);
    } else {
      assert (i / ncpu + 1) * ncpu == i / ncpu * ncpu + ncpu;
      DivUnique(i + 1, ncpu, i / ncpu + 1);
    }
    DivUnique(0, ncpu, 0);
  }

  /** The run of the first `|run.events|` of these events from empty maps. */
  ghost predicate IsFlood(run: Run)
    ensures IsFlood(run) ==> run.Valid() && run.ncpu > 0 && run.cfg.port < 0x1_0000
  {
    && run.Valid() && run.ncpu > 0 && run.cfg.port < 0x1_0000 && run.states[0] == Empty(run.ncpu)
    && forall i :: 0 <= i < |run.events| ==> run.events[i] == FloodEvent(run.cfg, run.ncpu, i)
  }

  lemma FloodRun(cfg: Config, ncpu: nat, n: nat) returns (run: Run)
    requires cfg.port < 0x1_0000 && ncpu > 0
    ensures IsFlood(run) && run.cfg == cfg && run.ncpu == ncpu && run.states[0] == Empty(ncpu) && |run.events| == n
  {
    hide FloodEvent, Run.Valid;
    var events := seq(n, i requires 0 <= i < n => FloodEvent(cfg, ncpu, i));
    forall i: nat | i < n
      ensures OnCpu(events[i], ncpu)
    {
      FloodIsOnCpu(cfg, ncpu, i);
    }
    run := Exec(cfg, ncpu, Empty(ncpu), events);
  }

  lemma FloodIsOnCpu(cfg: Config, ncpu: nat, i: nat)
    requires cfg.port < 0x1_0000 && ncpu > 0
    ensures OnCpu(FloodEvent(cfg, ncpu, i), ncpu)
  {
  }

  /** The breakers before event `i`. */
  ghost predicate Flooded(s: Maps, l: Limit, ncpu: nat, i: nat)
    requires ncpu > 0
  {
    && s.open == map[] && |s.breaker| == ncpu
    && forall c :: 0 <= c < ncpu ==> s.breaker[c] == Level(l, Rounds(ncpu, i, c))
  }

  lemma FloodStarts(l: Limit, ncpu: nat)
    requires ncpu > 0
    ensures Flooded(Empty(ncpu), l, ncpu, 0)
  {
    hide Rounds, Level;
    forall c | 0 <= c < ncpu
      ensures Empty(ncpu).breaker[c] == Level(l, Rounds(ncpu, 0, c))
    {
      RoundsStep(ncpu, 0, c);
      FirstLevel(l);
    }
  }

  lemma FirstLevel(l: Limit)
    ensures Level(l, 0) == Bucket(0, 0)
  {
  }

  lemma FloodStep(run: Run, i: nat)
    requires IsFlood(run) && run.cfg.syn.Enabled() && i < |run.events|
    requires Flooded(run.states[i], run.cfg.syn, run.ncpu, i) && Time(run.cfg.syn, i / run.ncpu) < TWO_63
    ensures Flooded(run.states[i + 1], run.cfg.syn, run.ncpu, i + 1)
    ensures !run.Seen(i).Other? && AdmittedSyn(run.Seen(i), run.Out(i))
  {
    hide Run.Valid, Observe, OutcomeOf, TcpFrame, Take, Level, Time, Rounds, AdmittedSyn;
    var ncpu := run.ncpu;
    var cpu := i % ncpu;
    ObserveTcpFrame(run.cfg.port, PLAYER, SYN, []);
    assert run.events[i] == FloodEvent(run.cfg, ncpu, i);
    RoundIsAdmitted(run.cfg.syn, i / ncpu);
    RoundsStep(ncpu, i, cpu);
    SynStep(run, i);
    var after := run.states[i + 1].breaker;
    forall c | 0 <= c < ncpu
      ensures after[c] == Level(run.cfg.syn, Rounds(ncpu, i + 1, c))
    {
      RoundsStep(ncpu, i, c);
    }
  }

  lemma {:induction false} FloodIsAdmitted(run: Run, i: nat)
    requires IsFlood(run) && run.cfg.syn.Enabled() && i <= |run.events|
    requires forall j :: 0 <= j < |run.events| ==> run.events[j].now < TWO_63
    ensures Flooded(run.states[i], run.cfg.syn, run.ncpu, i)
    ensures Syns(run, 0, i) == i
  {
    hide Run.Valid, Run.Seen, Run.Out, Time, Flooded, AdmittedSyn, IsFlood;
    if i == 0 {
      FloodStarts(run.cfg.syn, run.ncpu);
      FloodFrom(run);
    } else {
      FloodIsAdmitted(run, i - 1);
      FloodEventAt(run, i - 1);
      FloodStep(run, i - 1);
    }
  }

  lemma FloodFrom(run: Run)
    requires IsFlood(run)
    ensures run.states[0] == Empty(run.ncpu)
  {
  }

  lemma FloodEventAt(run: Run, i: nat)
    requires IsFlood(run) && i < |run.events|
    ensures run.events[i].now == Time(run.cfg.syn, i / run.ncpu)
  {
    hide Run.Valid, Time, TcpFrame;
    assert run.events[i] == FloodEvent(run.cfg, run.ncpu, i);
  }

  lemma FloodTimes(run: Run, i: nat, j: nat)
    requires IsFlood(run) && i <= j < |run.events|
    ensures Time(run.cfg.syn, 0) <= run.events[i].now <= run.events[j].now
  {
    hide IsFlood, Time;
    FloodEventAt(run, i);
    FloodEventAt(run, j);
    DivMono(i, j, run.ncpu);
    TimesInOrder(run.cfg.syn, 0, i / run.ncpu);
    TimesInOrder(run.cfg.syn, i / run.ncpu, j / run.ncpu);
  }

  lemma FloodIsTimed(run: Run, end: nat)
    requires IsFlood(run) && |run.events| > 0 && run.events[|run.events| - 1].now == end < TWO_63
    ensures run.Clocked() && BreakersPast(run)
    ensures Between(run, 0, |run.events|, Time(run.cfg.syn, 0), end)
  {
    hide Run.Valid, IsFlood, Time;
    var n := |run.events|;
    forall i, j | 0 <= i <= j < n
      ensures run.events[i].now <= run.events[j].now
    {
      FloodTimes(run, i, j);
    }
    forall i | 0 <= i < n
      ensures Time(run.cfg.syn, 0) <= run.events[i].now <= end
    {
      FloodTimes(run, i, n - 1);
    }
    FloodTimes(run, 0, n - 1);
    FloodFrom(run);
  }

  // ----- the bound -----

  /** The bound in the loader's terms holds for the window from `a` to `b`. */
  ghost predicate Bounded(run: Run, o: LoaderOptions, n: nat, lo: nat, hi: nat, a: nat, b: nat)
    requires run.Valid() && lo <= hi <= |run.events| && run.cfg.syn.period > 0
  {
    Syns(run, lo, hi) <= Max(o.tcpGlobalBurst, n) + n * CeilDiv(b - a, run.cfg.syn.period)
  }

  /** The shares fall short of the burst by less than one for each CPU. */
  lemma SharesAreLarge(v: nat, n: nat)
    requires n >= 1 && v > 0
    ensures n * PerCpu(v, n) + n > v && PerCpu(v, n) >= 1
  {
    if n > 1 {
      DivBounds(v, n);
      MulMono(v / n, PerCpu(v, n), n);
      assert v / n * n == n * (v / n);
    }
  }

  /** One CPU more than the loader counted is enough: after a burst on each, and one SYN on each in every
      one of the next `n` periods, they have admitted too many. */
  lemma OneMoreExceeds(o: LoaderOptions, n: nat, ncpu: nat) returns (run: Run, a: nat, b: nat)
    requires 1 <= n < ncpu && o.port < 0x1_0000 && o.tcpGlobalBurst > 0
    requires var l := Configure(o, n).syn; l.period > 0 && (l.burst + n) * l.period < TWO_63
    ensures run.cfg == Configure(o, n) && run.ncpu == ncpu && run.Valid() && run.Clocked() && BreakersPast(run)
    ensures run.states[0] == Empty(ncpu) && Between(run, 0, |run.events|, a, b)
    ensures !Bounded(run, o, n, 0, |run.events|, a, b)
  {
    hide Run.Valid, Run.Clocked, BreakersPast, IsFlood, PerCpu, PeriodNs, CeilDiv, Flooded, Time, Between, Syns;
    var cfg := Configure(o, n);
    var l := cfg.syn;
    var rounds := l.burst + n;
    SharesAreLarge(o.tcpGlobalBurst, n);
    LastRound(rounds, ncpu);
    RoundTimes(l, n);
    run := FloodRun(cfg, ncpu, rounds * ncpu);
    FloodEventAt(run, rounds * ncpu - 1);
    a, b := Time(l, 0), Time(l, rounds - 1);
    FloodIsTimed(run, b);
    FloodIsBelow(run, b);
    FloodIsAdmitted(run, rounds * ncpu);
    MoreThanAllowed(o.tcpGlobalBurst, l.burst, n, ncpu);
  }

  lemma FloodIsBelow(run: Run, end: nat)
    requires IsFlood(run) && |run.events| > 0 && run.events[|run.events| - 1].now == end < TWO_63
    ensures forall j :: 0 <= j < |run.events| ==> run.events[j].now < TWO_63
  {
    hide IsFlood;
    forall j | 0 <= j < |run.events|
      ensures run.events[j].now < TWO_63
    {
      FloodTimes(run, j, |run.events| - 1);
    }
  }

  /** From the first round to the last it is `n` periods. */
  lemma RoundTimes(l: Limit, n: nat)
    requires l.Enabled() && n >= 1
    ensures Time(l, l.burst + n - 1) == (l.burst + n) * l.period
    ensures CeilDiv(Time(l, l.burst + n - 1) - Time(l, 0), l.period) == n
  {
    hide CeilDiv;
    assert (l.burst + n) * l.period == l.burst * l.period + n * l.period;
    CeilDivShift(0, n, l.period);
    assert CeilDiv(0, l.period) == 0 by { NoPeriods(l.period); }
  }

  lemma NoPeriods(p: nat)
    requires p > 0
    ensures CeilDiv(0, p) == 0
  {
  }

  lemma LastRound(rounds: nat, ncpu: nat)
    requires rounds > 0 && ncpu > 0
    ensures rounds * ncpu > 0 && (rounds * ncpu - 1) / ncpu == rounds - 1
  {
    MulMono(1, rounds, ncpu);
    assert (rounds - 1) * ncpu == rounds * ncpu - ncpu;
    DivUnique(rounds * ncpu - 1, ncpu, rounds - 1);
  }

  lemma MoreThanAllowed(v: nat, share: nat, n: nat, ncpu: nat)
    requires 1 <= n < ncpu && share >= 1 && n * share + n > v
    ensures (share + n) * ncpu > Max(v, n) + n * n
  {
    MulMono(n + 1, ncpu, share + n);
    assert (share + n) * (n + 1) == n * share + n * n + share + n;
    assert (share + n) * ncpu == ncpu * (share + n) >= (n + 1) * (share + n);
    assert (n + 1) * (share + n) == (share + n) * (n + 1);
  }

  /** So the bound holds for all runs and windows exactly when packets arrive on no more CPUs than the loader
      counted, given that the clock lasts for a burst and as many periods as there are CPUs. */
  lemma ConfiguredSynBoundIff(o: LoaderOptions, n: nat, ncpu: nat)
    requires 1 <= n && o.port < 0x1_0000 && o.tcpGlobalBurst > 0
    requires var l := Configure(o, n).syn; l.period > 0 && (l.burst + n) * l.period < TWO_63
    ensures ncpu <= n <==>
            forall run: Run, lo: nat, hi: nat, a: nat, b: nat |
              && run.cfg == Configure(o, n) && run.ncpu == ncpu && run.Valid() && run.Clocked() && BreakersPast(run)
              && lo <= hi <= |run.events| && Between(run, lo, hi, a, b) ::
              Bounded(run, o, n, lo, hi, a, b)
  {
    hide Run.Valid, Run.Clocked, BreakersPast, Between, Configure, Syns;
    if ncpu <= n {
      forall run: Run, lo: nat, hi: nat, a: nat, b: nat
        | && run.cfg == Configure(o, n) && run.ncpu == ncpu && run.Valid() && run.Clocked() && BreakersPast(run)
          && lo <= hi <= |run.events| && Between(run, lo, hi, a, b)
        ensures Bounded(run, o, n, lo, hi, a, b)
      {
        ConfiguredSynBound(run, o, n, lo, hi, a, b);
      }
    } else {
      var run, a, b := OneMoreExceeds(o, n, ncpu);
      assert !Bounded(run, o, n, 0, |run.events|, a, b);
    }
  }
}
