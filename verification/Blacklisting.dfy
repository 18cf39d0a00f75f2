/** What a blacklisting says about a source's past, and which pasts force one. */
module Blacklisting {
  import opened Bytes
  import opened Options
  import opened Words
  import opened Wire
  import opened Limiter
  import opened HealthWindow
  import opened FilterMaps
  import opened Runs
  import opened Sockets
  import Isolation

  /** Event `k` is an anomalous datagram of `ip`, and recorded as one. */
  ghost predicate AnomalyAt(run: Run, ip: Ip, k: nat)
    requires run.Valid() && k < |run.events|
  {
    run.From(k, ip) && run.Out(k) == Dropped(UdpEnetMalformed)
  }

  /** The anomalies of `ip` among events `lo` to `hi - 1`. */
  ghost function Anomalies(run: Run, ip: Ip, lo: nat, hi: nat): nat
    requires run.Valid() && lo <= hi <= |run.events|
    decreases hi
  {
    if lo == hi then 0 else Anomalies(run, ip, lo, hi - 1) + if AnomalyAt(run, ip, hi - 1) then 1 else 0
  }

  function Entry(s: Maps, ip: Ip): Option<Health> {
    Get(s.health, ip)
  }

  /** The anomaly of event `k` renews the blacklisting. */
  ghost predicate TripsAt(run: Run, ip: Ip, k: nat)
    requires run.Valid() && k < |run.events|
  {
    AnomalyAt(run, ip, k) && Trips(run.cfg.health, Entry(run.states[k], ip), run.events[k].now)
  }

  /** What one event does to a source's health entry. */
  lemma HealthStep(run: Run, k: nat, ip: Ip)
    requires run.Valid() && k < |run.events|
    ensures Entry(run.states[k + 1], ip)
         == if AnomalyAt(run, ip, k) then Some(Record(run.cfg.health, Entry(run.states[k], ip), run.events[k].now))
            else if run.Loses(k, HealthMap, ip) then None
            else Entry(run.states[k], ip)
    ensures AnomalyAt(run, ip, k) ==> !run.Loses(k, HealthMap, ip)
  {
    hide XdpStep, SockStep, LossStep, Observe, OutcomeOf, Record, Run.Valid, Stamp, Spend, DropsAfter, Advance, Hits,
      Take, SpendsUdp, SpendsInit, SpendsInfo, AdmittedSyn, ReachesBreaker, OnGuardedPort, Uncounts;
    var s, e, t := run.states[k], run.events[k], run.Seen(k);
    match e
    case Packet(_, _, now) =>
      if t.Other? {
        QuietFields(run, k);
      } else {
        PacketFields(run, k);
        Isolation.PutCell(s.health, t.src, run.Out(k) == Dropped(UdpEnetMalformed),
                          Record(run.cfg.health, Get(s.health, t.src), now), ip);
      }
    case Socket(_, _, _) => SocketFields(run, k);
    case Loss(m, x, _) =>
      QuietFields(run, k);
      LossFields(s, m, x);
  }

  lemma AnomaliesStep(run: Run, ip: Ip, lo: nat, k: nat)
    requires run.Valid() && lo <= k < |run.events|
    ensures Anomalies(run, ip, lo, k + 1) == Anomalies(run, ip, lo, k) + if AnomalyAt(run, ip, k) then 1 else 0
    ensures Anomalies(run, ip, lo, lo) == 0
  {
    hide Run.Valid, AnomalyAt;
  }

  // ----- soundness -----

  /** Anomalies `i` to `j` of `ip` are enough, close enough together, to be blacklisted for. */
  ghost predicate Grounds(run: Run, ip: Ip, i: nat, j: nat)
    requires run.Valid() && i <= j < |run.events|
  {
    && AnomalyAt(run, ip, i) && AnomalyAt(run, ip, j)
    && run.events[j].now - run.events[i].now <= run.cfg.health.window
    && Anomalies(run, ip, i, j + 1) >= run.cfg.health.Needed()
  }

  /** The entry's window began with the anomaly of event `w`, and holds no more than happened since. */
  ghost predicate WindowFrom(run: Run, ip: Ip, k: nat, h: Health, w: nat)
    requires run.Valid() && w < k <= |run.events|
  {
    AnomalyAt(run, ip, w) && h.windowStart == run.events[w].now && h.anomalies <= Anomalies(run, ip, w, k)
  }

  lemma {:induction false} EntryMeaning(run: Run, ip: Ip, k: nat) returns (w: nat, i: nat, j: nat)
    requires run.Valid() && run.Clocked() && run.states[0].health == map[] && k <= |run.events|
    requires Entry(run.states[k], ip).Some?
    ensures w < k && WindowFrom(run, ip, k, Entry(run.states[k], ip).value, w)
    ensures Entry(run.states[k], ip).value.until > 0 ==>
              && i <= j < k && Grounds(run, ip, i, j)
              && Entry(run.states[k], ip).value.until == Wrap64(run.events[j].now + run.cfg.health.penalty)
  {
    hide Run.Valid, AnomalyAt, Anomalies, Record, Trips, Expired, CountAfter, Wrap64, Grounds;
    w, i, j := 0, 0, 0;
    assert k > 0;
    var p := k - 1;
    var now := run.events[p].now;
    var before := Entry(run.states[p], ip);
    HealthStep(run, p, ip);
    if before.Some? {
      w, i, j := EntryMeaning(run, ip, p);
      AnomaliesStep(run, ip, w, p);
    }
    if AnomalyAt(run, ip, p) {
      RecordShape(run.cfg.health, before, now);
      AnomaliesStep(run, ip, p, p);
      if before.None? || Expired(run.cfg.health, before.value, now) {
        w := p;
      } else {
        assert run.events[w].now <= now;
      }
      if Trips(run.cfg.health, before, now) {
        i, j := w, p;
        GroundsHold(run, ip, w, p);
      }
    }
  }

  /** A record written out: its count, its window, its blacklisting. */
  lemma RecordShape(p: Policy, oh: Option<Health>, now: nat)
    ensures var h := Record(p, oh, now);
            && h.windowStart == (if oh.None? || Expired(p, oh.value, now) then now else oh.value.windowStart)
            && h.anomalies <= (if oh.None? || Expired(p, oh.value, now) then 1 else oh.value.anomalies + 1)
            && h.until == (if Trips(p, oh, now) then Wrap64(now + p.penalty)
                           else if oh.Some? then oh.value.until else 0)
            && (Trips(p, oh, now) ==> h.anomalies >= p.threshold)
    ensures oh.Some? && oh.value.windowStart <= now < TWO_64 ==>
              (Expired(p, oh.value, now) <==> now - oh.value.windowStart > p.window)
  {
  }

  lemma GroundsHold(run: Run, ip: Ip, w: nat, p: nat)
    requires run.Valid() && run.Clocked() && w <= p < |run.events|
    requires AnomalyAt(run, ip, w) && AnomalyAt(run, ip, p)
    requires run.events[p].now - run.events[w].now <= run.cfg.health.window
    requires Anomalies(run, ip, w, p + 1) >= run.cfg.health.threshold
    ensures Grounds(run, ip, w, p)
  {
    hide Run.Valid, AnomalyAt, Run.Clocked;
  }

  /** Nobody is blacklisted without cause: in every state reachable from an empty map, even with
      evictions, a source blacklisted at `t` had at least `max(1, threshold)` anomalies within one
      window, the last of them less than the penalty before `t`. */
  lemma BlacklistingIsSound(run: Run, ip: Ip, k: nat, t: nat) returns (i: nat, j: nat)
    requires run.Valid() && run.Clocked() && run.states[0].health == map[] && k <= |run.events|
    requires IsBlacklisted(Entry(run.states[k], ip), t)
    ensures i <= j < k && Grounds(run, ip, i, j)
    ensures t < run.events[j].now + run.cfg.health.penalty
  {
    hide Run.Valid, Grounds, Anomalies;
    var w;
    w, i, j := EntryMeaning(run, ip, k);
    WrapIsLess(run.events[j].now + run.cfg.health.penalty);
  }

  // ----- completeness -----

  predicate StartsSane(run: Run, ip: Ip)
    requires |run.states| > 0
  {
    run.events != [] ==> Sane(Entry(run.states[0], ip), run.events[0].now)
  }

  lemma {:induction false} StaySane(run: Run, ip: Ip, k: nat)
    requires run.Valid() && run.Clocked() && StartsSane(run, ip) && k < |run.events|
    ensures Sane(Entry(run.states[k], ip), run.events[k].now)
  {
    hide Run.Valid, AnomalyAt, Record, Trips, Expired, Run.Loses;
    if k > 0 {
      StaySane(run, ip, k - 1);
      HealthStep(run, k - 1, ip);
      RecordSane(run.cfg.health, Entry(run.states[k - 1], ip), run.events[k - 1].now);
      assert run.events[k - 1].now <= run.events[k].now;
    }
  }

  lemma RecordSane(p: Policy, oh: Option<Health>, now: nat)
    requires Sane(oh, now)
    ensures Sane(Some(Record(p, oh, now)), now)
  {
    hide Wrap64;
  }

  /** Events `lo` to `hi - 1` happen within one window length from `a`, and keep the entry of `ip`. */
  predicate OneWindow(run: Run, ip: Ip, lo: nat, hi: nat, a: nat)
    requires lo <= hi <= |run.events|
  {
    && (forall k :: lo <= k < hi ==> a <= run.events[k].now <= a + run.cfg.health.window)
    && (forall k :: lo <= k < hi ==> !run.Loses(k, HealthMap, ip))
  }

  /** Anomalies that renew no blacklisting are taken out of the allowance. */
  lemma {:induction false} AllowanceShrinks(run: Run, ip: Ip, lo: nat, k: nat, a: nat)
    requires run.Valid() && run.Clocked() && StartsSane(run, ip) && run.cfg.health.threshold < TWO_32
    requires lo <= k <= |run.events| && OneWindow(run, ip, lo, k, a)
    requires forall m :: lo <= m < k ==> !TripsAt(run, ip, m)
    ensures Allowance(run.cfg.health, Entry(run.states[k], ip), a) + Anomalies(run, ip, lo, k)
         <= Allowance(run.cfg.health, Entry(run.states[lo], ip), a)
    decreases k
  {
    hide Run.Valid, AnomalyAt, Anomalies, Record, Trips, Expired, Run.Loses, Allowance, Entry;
    if lo == k {
      NoAnomaliesYet(run, ip, lo);
    } else {
      var p := k - 1;
      AllowanceShrinks(run, ip, lo, p, a);
      HealthStep(run, p, ip);
      AnomaliesStep(run, ip, lo, p);
      if AnomalyAt(run, ip, p) {
        assert !TripsAt(run, ip, p);
        StaySane(run, ip, p);
        assert run.events[p].now < TWO_63;
        AllowanceStep(run.cfg.health, Entry(run.states[p], ip), a, run.events[p].now);
      }
    }
  }

  lemma NoAnomaliesYet(run: Run, ip: Ip, lo: nat)
    requires run.Valid() && lo <= |run.events|
    ensures Anomalies(run, ip, lo, lo) == 0
  {
    hide Run.Valid;
  }

  /** Enough anomalies force a blacklisting: without eviction, in any traffic, one more within one window
      length than the allowance of the entry they find. */
  lemma AnomaliesForceBlacklisting(run: Run, ip: Ip, lo: nat, hi: nat, a: nat) returns (m: nat)
    requires run.Valid() && run.Clocked() && StartsSane(run, ip) && run.cfg.health.threshold < TWO_32
    requires lo <= hi <= |run.events| && OneWindow(run, ip, lo, hi, a)
    requires Anomalies(run, ip, lo, hi) > Allowance(run.cfg.health, Entry(run.states[lo], ip), a)
    ensures lo <= m < hi && TripsAt(run, ip, m)
  {
    hide Run.Valid, TripsAt, Allowance, Anomalies, OneWindow, StartsSane;
    if forall x :: lo <= x < hi ==> !TripsAt(run, ip, x) {
      AllowanceShrinks(run, ip, lo, hi, a);
      assert false;
    }
    m :| lo <= m < hi && TripsAt(run, ip, m);
  }

  // ----- what a blacklisting does -----

  /** No blacklisting reaches further than one made now. */
  predicate Reaches(p: Policy, oh: Option<Health>, t: nat) {
    oh.Some? ==> oh.value.until <= t + p.penalty
  }

  lemma RecordReaches(p: Policy, oh: Option<Health>, now: nat)
    requires Reaches(p, oh, now) && now + p.penalty < TWO_64
    ensures Reaches(p, Some(Record(p, oh, now)), now)
    ensures oh.Some? ==> oh.value.until <= Record(p, oh, now).until
    ensures Trips(p, oh, now) ==> Record(p, oh, now).until == now + p.penalty
  {
    hide Trips, CountAfter, Expired;
  }

  lemma {:induction false} StayReached(run: Run, ip: Ip, k: nat)
    requires run.Valid() && run.Clocked() && run.states[0].health == map[] && run.cfg.health.penalty < TWO_63
    requires k < |run.events|
    ensures Reaches(run.cfg.health, Entry(run.states[k], ip), run.events[k].now)
  {
    hide Run.Valid, AnomalyAt, Record, Run.Loses;
    if k > 0 {
      StayReached(run, ip, k - 1);
      HealthStep(run, k - 1, ip);
      assert run.events[k - 1].now <= run.events[k].now;
      RecordReaches(run.cfg.health, Entry(run.states[k - 1], ip), run.events[k - 1].now);
    }
  }

  /** Without loss of the entry its blacklisting never moves back. */
  lemma {:induction false} UntilNeverDecreases(run: Run, ip: Ip, i: nat, k: nat)
    requires run.Valid() && run.Clocked() && run.states[0].health == map[] && run.cfg.health.penalty < TWO_63
    requires i <= k <= |run.events| && Entry(run.states[i], ip).Some?
    requires forall j :: i <= j < k ==> !run.Loses(j, HealthMap, ip)
    ensures Entry(run.states[k], ip).Some?
    ensures Entry(run.states[i], ip).value.until <= Entry(run.states[k], ip).value.until
    decreases k
  {
    hide Run.Valid, AnomalyAt, Record, Run.Loses, Reaches;
    if i < k {
      UntilNeverDecreases(run, ip, i, k - 1);
      HealthStep(run, k - 1, ip);
      StayReached(run, ip, k - 1);
      assert run.events[k - 1].now < TWO_63;
      RecordReaches(run.cfg.health, Entry(run.states[k - 1], ip), run.events[k - 1].now);
    }
  }

  lemma BlacklistedUdpIsDropped(cfg: Config, s: Maps, t: Traffic, cpu: nat, now: nat)
    requires HasCpu(s, cpu) && t.UdpDatagram? && IsBlacklisted(Get(s.health, t.src), now)
    ensures OutcomeOf(cfg, s, t, cpu, now).Dropped?
  {
    hide DecideGame, Wrap64;
  }

  /** A blacklisted source gets no datagram through until the penalty has run out. */
  lemma BlacklistingHolds(run: Run, ip: Ip, m: nat, k: nat)
    requires run.Valid() && run.Clocked() && run.states[0].health == map[] && run.cfg.health.penalty < TWO_63
    requires m < k < |run.events| && TripsAt(run, ip, m)
    requires forall j :: m < j < k ==> !run.Loses(j, HealthMap, ip)
    requires run.From(k, ip) && run.Seen(k).UdpDatagram?
    requires run.events[k].now < run.events[m].now + run.cfg.health.penalty
    ensures run.Out(k).Dropped?
  {
    hide Run.Valid, AnomalyAt, Record, Run.Loses, Reaches, Trips, OutcomeOf, Observe;
    HealthStep(run, m, ip);
    StayReached(run, ip, m);
    assert run.events[m].now < TWO_63;
    RecordReaches(run.cfg.health, Entry(run.states[m], ip), run.events[m].now);
    UntilNeverDecreases(run, ip, m + 1, k);
    PacketFields(run, k);
    BlacklistedUdpIsDropped(run.cfg, run.states[k], run.Seen(k), run.events[k].cpu, run.events[k].now);
  }
}
