/** Whether a source that sends `threshold` bad packets inside a window is always blocked: exactly when
    the settings allow neither a second window nor a wrapping counter to get in the way. */
module HealthPromise {
  import opened Bytes
  import opened Options
  import opened Words
  import opened Wire
  import opened Payload
  import opened Limiter
  import opened HealthWindow
  import opened FilterMaps
  import opened Runs
  import opened Blacklisting
  import opened Scenarios
  import opened Revival

  /** Between events `lo` and `hi`, all within one window length from `a`, the source has sent as many
      bad packets as the threshold says, and none of them has had it blocked. */
  ghost predicate Unpunished(run: Run, ip: Ip, lo: nat, hi: nat, a: nat)
    requires run.Valid() && lo <= hi <= |run.events|
  {
    && OneWindow(run, ip, lo, hi, a)
    && Anomalies(run, ip, lo, hi) >= run.cfg.health.Needed()
    && forall m :: lo <= m < hi ==> !TripsAt(run, ip, m)
  }

  /** No second window: the threshold is too small to be split, or windows have no length, or never end. */
  predicate OneWindowOnly(p: Policy) {
    p.threshold <= 2 || p.window == 0 || p.window >= TWO_63 - 1
  }

  /** No wrap: the blacklistings on the way to the largest count take longer than a window lasts. */
  predicate NeverWraps(p: Policy)
    requires p.threshold < TWO_32
  {
    (TWO_32 - p.threshold) * p.penalty > Min(p.window, TWO_63 - 1)
  }

  predicate Reliable(p: Policy)
    requires p.threshold < TWO_32
  {
    p.threshold == 0 || (OneWindowOnly(p) && NeverWraps(p))
  }

  // ----- reliable settings -----

  /** A counter past the threshold has been paid for in blacklistings. */
  predicate Paid(p: Policy, oh: Option<Health>) {
    oh.Some? ==>
      && 1 <= oh.value.anomalies < TWO_32
      && (oh.value.anomalies >= p.threshold ==>
            oh.value.until >= oh.value.windowStart + (oh.value.anomalies + 1 - p.threshold) * p.penalty)
  }

  /** So a counter at its largest value has outlived its window. */
  lemma PaidNeverWraps(p: Policy, oh: Option<Health>, now: nat)
    requires 1 <= p.threshold < TWO_32 && NeverWraps(p) && Paid(p, oh) && Sane(oh, now)
    requires now < TWO_63 && !IsBlacklisted(oh, now)
    ensures oh.Some? && oh.value.anomalies == TWO_32 - 1 ==> Expired(p, oh.value, now)
  {
    if oh.Some? && oh.value.anomalies == TWO_32 - 1 {
      assert Wrap64(now - oh.value.windowStart) == now - oh.value.windowStart;
    }
  }

  lemma PaidStep(p: Policy, oh: Option<Health>, now: nat)
    requires 1 <= p.threshold < TWO_32 && p.penalty < TWO_63 && NeverWraps(p) && Paid(p, oh) && Sane(oh, now)
    requires now < TWO_63 && !IsBlacklisted(oh, now)
    ensures Paid(p, Some(Record(p, oh, now)))
  {
    hide NeverWraps, Trips, Expired;
    PaidNeverWraps(p, oh, now);
    RecordAtClock(p, oh, now);
    if oh.Some? && !Expired(p, oh.value, now) {
      var c := oh.value.anomalies;
      assert (c + 2 - p.threshold) * p.penalty == (c + 1 - p.threshold) * p.penalty + p.penalty;
      assert c + 1 == p.threshold ==> (c + 2 - p.threshold) * p.penalty == p.penalty;
    } else {
      assert p.threshold == 1 ==> (1 + 1 - p.threshold) * p.penalty == p.penalty;
    }
  }

  /** A record on a clock below half its range, when the counter does not wrap. */
  lemma RecordAtClock(p: Policy, oh: Option<Health>, now: nat)
    requires p.penalty < TWO_63 && now < TWO_63 && Sane(oh, now)
    requires oh.Some? && oh.value.anomalies == TWO_32 - 1 ==> Expired(p, oh.value, now)
    ensures var h := Record(p, oh, now);
            if oh.None? || Expired(p, oh.value, now) then
              h == Health(1, now, if p.threshold <= 1 then now + p.penalty else if oh.Some? then oh.value.until else 0)
            else
              h == Health(oh.value.anomalies + 1, oh.value.windowStart,
                          if oh.value.anomalies + 1 >= p.threshold then now + p.penalty else oh.value.until)
  {
    hide Expired;
  }

  /** The entry with a count at its largest value read as one less: the last one before it does as much. */
  function Firm(oh: Option<Health>): Option<Health> {
    if oh.Some? && oh.value.anomalies == TWO_32 - 1 then Some(oh.value.(anomalies := TWO_32 - 2)) else oh
  }

  lemma FirmStep(p: Policy, oh: Option<Health>, a: nat, now: nat)
    requires 1 <= p.threshold < TWO_32 && Sane(oh, now) && a <= now <= a + p.window && now < TWO_63
    requires oh.Some? && oh.value.anomalies == TWO_32 - 1 ==> Expired(p, oh.value, now)
    requires !Trips(p, oh, now)
    ensures Allowance(p, Firm(Some(Record(p, oh, now))), a) + 1 <= Allowance(p, Firm(oh), a)
  {
    hide Allowance;
    assert Record(p, Firm(oh), now) == Record(p, oh, now) && !Trips(p, Firm(oh), now);
    AllowanceStep(p, Firm(oh), a, now);
    assert Record(p, oh, now).anomalies != TWO_32 - 1;
  }

  lemma FirmAllowance(p: Policy, oh: Option<Health>, a: nat)
    requires 1 <= p.threshold < TWO_32 && OneWindowOnly(p) && Paid(p, oh)
    ensures Allowance(p, Firm(oh), a) < p.Needed()
  {
  }

  lemma AnomalyIsAtLiberty(run: Run, ip: Ip, k: nat)
    requires run.Valid() && k < |run.events| && AnomalyAt(run, ip, k)
    ensures !IsBlacklisted(Entry(run.states[k], ip), run.events[k].now)
  {
    hide Observe, Run.Follows, OutcomeOf, IsBlacklisted;
    MalformedIsAtLiberty(run.cfg, run.states[k], run.Seen(k), run.events[k].cpu, run.events[k].now);
  }

  lemma MalformedIsAtLiberty(cfg: Config, s: Maps, t: Traffic, cpu: nat, now: nat)
    requires HasCpu(s, cpu) && !t.Other? && OutcomeOf(cfg, s, t, cpu, now) == Dropped(UdpEnetMalformed)
    ensures !IsBlacklisted(Get(s.health, t.src), now)
  {
    hide Take, RequestOf, OverCap, IsBlacklisted, Wrap64, Anomalous;
  }

  lemma FromEmptyIsSane(run: Run, ip: Ip)
    requires run.Valid() && run.states[0].health == map[]
    ensures StartsSane(run, ip)
  {
    hide Run.Valid;
  }

  lemma {:induction false} StaysPaid(run: Run, ip: Ip, k: nat)
    requires run.Valid() && run.Clocked() && run.states[0].health == map[] && k <= |run.events|
    requires 1 <= run.cfg.health.threshold < TWO_32 && run.cfg.health.penalty < TWO_63 && NeverWraps(run.cfg.health)
    ensures Paid(run.cfg.health, Entry(run.states[k], ip))
  {
    hide Run.Valid, AnomalyAt, Record, Run.Loses, NeverWraps, StartsSane;
    if k > 0 {
      StaysPaid(run, ip, k - 1);
      HealthStep(run, k - 1, ip);
      if AnomalyAt(run, ip, k - 1) {
        FromEmptyIsSane(run, ip);
        StaySane(run, ip, k - 1);
        AnomalyIsAtLiberty(run, ip, k - 1);
        assert run.events[k - 1].now < TWO_63;
        PaidStep(run.cfg.health, Entry(run.states[k - 1], ip), run.events[k - 1].now);
      }
    }
  }

  lemma {:induction false} FirmShrinks(run: Run, ip: Ip, lo: nat, k: nat, a: nat)
    requires run.Valid() && run.Clocked() && run.states[0].health == map[]
    requires 1 <= run.cfg.health.threshold < TWO_32 && run.cfg.health.penalty < TWO_63 && NeverWraps(run.cfg.health)
    requires lo <= k <= |run.events| && OneWindow(run, ip, lo, k, a)
    requires forall m :: lo <= m < k ==> !TripsAt(run, ip, m)
    ensures Allowance(run.cfg.health, Firm(Entry(run.states[k], ip)), a) + Anomalies(run, ip, lo, k)
         <= Allowance(run.cfg.health, Firm(Entry(run.states[lo], ip)), a)
    decreases k
  {
    hide Run.Valid, AnomalyAt, Anomalies, Record, Trips, Expired, Run.Loses, Allowance, Entry, NeverWraps, Firm,
      StartsSane;
    if lo == k {
      NoAnomaliesYet(run, ip, lo);
    } else {
      var p := k - 1;
      FirmShrinks(run, ip, lo, p, a);
      HealthStep(run, p, ip);
      AnomaliesStep(run, ip, lo, p);
      if AnomalyAt(run, ip, p) {
        assert !TripsAt(run, ip, p);
        FromEmptyIsSane(run, ip);
        StaySane(run, ip, p);
        StaysPaid(run, ip, p);
        AnomalyIsAtLiberty(run, ip, p);
        assert run.events[p].now < TWO_63;
        PaidNeverWraps(run.cfg.health, Entry(run.states[p], ip), run.events[p].now);
        FirmStep(run.cfg.health, Entry(run.states[p], ip), a, run.events[p].now);
      }
    }
  }

  lemma ReliableIsKept(run: Run, ip: Ip, lo: nat, hi: nat, a: nat)
    requires run.Valid() && run.Clocked() && run.states[0].health == map[] && lo <= hi <= |run.events|
    requires run.cfg.health.threshold < TWO_32 && run.cfg.health.penalty < TWO_63 && Reliable(run.cfg.health)
    ensures !Unpunished(run, ip, lo, hi, a)
  {
    hide Run.Valid, Run.Clocked, TripsAt, Anomalies, OneWindow, Allowance, OneWindowOnly, NeverWraps, Firm, StartsSane,
      Paid;
    if Unpunished(run, ip, lo, hi, a) {
      if run.cfg.health.threshold == 0 {
        FromEmptyIsSane(run, ip);
        AllowanceShrinks(run, ip, lo, hi, a);
        NothingAllowed(run.cfg.health, Entry(run.states[lo], ip), a);
      } else {
        FirmShrinks(run, ip, lo, hi, a);
        StaysPaid(run, ip, lo);
        FirmAllowance(run.cfg.health, Entry(run.states[lo], ip), a);
      }
      assert false;
    }
  }

  lemma NothingAllowed(p: Policy, oh: Option<Health>, a: nat)
    requires p.threshold == 0
    ensures Allowance(p, oh, a) == 0
  {
  }

  // ----- any times can be had -----

  /** At each of `times` an empty segment, which keeps the source whitelisted, and a bad datagram. */
  function Attack(port: nat, times: seq<nat>): (events: seq<Event>)
    requires port < 0x1_0000
    ensures |events| == 2 * |times|
  {
    seq(2 * |times|, k requires 0 <= k < 2 * |times| => AttackEvent(port, times, k))
  }

  function AttackEvent(port: nat, times: seq<nat>, k: nat): Event
    requires port < 0x1_0000 && k < 2 * |times|
  {
    Packet(if k % 2 == 0 then TcpFrame(port, PLAYER, ACK, []) else UdpFrame(port, PLAYER, []), 0, times[k / 2])
  }

  /** The source connects, and then attacks. */
  function Campaign(port: nat, times: seq<nat>): (events: seq<Event>)
    requires port < 0x1_0000
    ensures |events| == 2 * |times| + 2 && Enters(events, port, 0)
    ensures forall k :: 0 <= k < |events| ==> OnCpu(events[k], 1)
    ensures events[2..] == Attack(port, times)
  {
    var entry := [Socket(Callback(PassiveEstablished, port, AF_INET, PLAYER, 7), 0, 0),
                  Packet(TcpFrame(port, PLAYER, ACK, ConnectRequest()), 0, 0)];
    assert (entry + Attack(port, times))[2..] == Attack(port, times);
    entry + Attack(port, times)
  }

  function AttackRun(cfg: Config, times: seq<nat>): (run: Run)
    requires cfg.port < 0x1_0000
    ensures run.Valid() && run.cfg == cfg && run.states[0] == Empty(1) && run.ncpu == 1
    ensures |run.events| == 2 * |times| + 2 && run.events == Campaign(cfg.port, times)
  {
    Exec(cfg, 1, Empty(1), Campaign(cfg.port, times))
  }

  lemma AttackAt(cfg: Config, times: seq<nat>, k: nat)
    requires cfg.port < 0x1_0000 && k < 2 * |times|
    ensures AttackRun(cfg, times).events[k + 2] == AttackEvent(cfg.port, times, k)
    ensures k / 2 < |times| && AttackRun(cfg, times).events[k + 2].now == times[k / 2]
    ensures AttackRun(cfg, times).events[k + 2].Packet?
  {
    hide Run.Valid, AttackRun, TcpFrame, UdpFrame, Campaign;
    assert Campaign(cfg.port, times)[k + 2] == Campaign(cfg.port, times)[2..][k];
  }

  predicate InOrder(times: seq<nat>) {
    && (forall i, j :: 0 <= i <= j < |times| ==> times[i] <= times[j])
    && (forall i :: 0 <= i < |times| ==> times[i] < TWO_63)
  }

  /** The source is never blocked when it comes. */
  predicate AtLiberty(p: Policy, times: seq<nat>) {
    forall i :: 0 <= i < |times| ==> !IsBlacklisted(RecordAll(p, None, times[..i]), times[i])
  }

  lemma BadDatagramIsRecorded(cfg: Config, s: Maps, t: Traffic, cpu: nat, now: nat)
    requires HasCpu(s, cpu) && t == UdpDatagram(PLAYER, false, [])
    requires PLAYER in s.whitelist && s.whitelist[PLAYER] == now && !IsBlacklisted(Get(s.health, PLAYER), now)
    ensures OutcomeOf(cfg, s, t, cpu, now) == Dropped(UdpEnetMalformed)
  {
    hide Take, Anomalous, IsBlacklisted;
    EmptyIsAnomalous();
  }

  lemma WhitelistAfter(run: Run, k: nat)
    requires run.Valid() && k < |run.events| && run.From(k, PLAYER) && PLAYER in run.states[k].whitelist
    ensures run.Out(k) == PassedTcp ==>
              run.states[k + 1].whitelist == run.states[k].whitelist[PLAYER := run.events[k].now]
    ensures run.Out(k) == Dropped(UdpEnetMalformed) ==> run.states[k + 1].whitelist == run.states[k].whitelist
    ensures HasCpu(run.states[k], run.events[k].cpu)
    ensures run.Out(k) == OutcomeOf(run.cfg, run.states[k], run.Seen(k), run.events[k].cpu, run.events[k].now)
  {
    hide OutcomeOf, Observe, Run.Follows, Spend, Record, DropsAfter, Advance, Hits, Take, ReachesBreaker, AdmittedSyn;
    PacketFields(run, k);
  }

  /** One empty segment and one bad datagram. */
  lemma AttackStep(run: Run, k: nat, now: nat)
    requires run.Valid() && run.cfg.port < 0x1_0000 && k + 1 < |run.events| && PLAYER in run.states[k].whitelist
    requires run.events[k] == Packet(TcpFrame(run.cfg.port, PLAYER, ACK, []), 0, now)
    requires run.events[k + 1] == Packet(UdpFrame(run.cfg.port, PLAYER, []), 0, now)
    requires !IsBlacklisted(Entry(run.states[k], PLAYER), now)
    ensures !AnomalyAt(run, PLAYER, k) && AnomalyAt(run, PLAYER, k + 1)
    ensures Entry(run.states[k + 1], PLAYER) == Entry(run.states[k], PLAYER)
    ensures Entry(run.states[k + 2], PLAYER) == Some(Record(run.cfg.health, Entry(run.states[k], PLAYER), now))
    ensures PLAYER in run.states[k + 2].whitelist
  {
    hide Run.Valid, OutcomeOf, Observe, Record, TcpFrame, UdpFrame, IsBlacklisted;
    ObserveTcpFrame(run.cfg.port, PLAYER, ACK, []);
    ObserveUdpFrame(run.cfg.port, PLAYER, []);
    WhitelistAfter(run, k);
    AckPasses(run.cfg, run.states[k], run.Seen(k), 0, now);
    HealthStep(run, k, PLAYER);
    WhitelistAfter(run, k + 1);
    BadDatagramIsRecorded(run.cfg, run.states[k + 1], run.Seen(k + 1), 0, now);
    HealthStep(run, k + 1, PLAYER);
  }

  lemma AttackStepAt(cfg: Config, times: seq<nat>, i: nat)
    requires cfg.port < 0x1_0000 && i < |times| && PLAYER in AttackRun(cfg, times).states[2 * i + 2].whitelist
    requires !IsBlacklisted(Entry(AttackRun(cfg, times).states[2 * i + 2], PLAYER), times[i])
    ensures var run := AttackRun(cfg, times);
            && !AnomalyAt(run, PLAYER, 2 * i + 2) && AnomalyAt(run, PLAYER, 2 * i + 3)
            && Entry(run.states[2 * i + 3], PLAYER) == Entry(run.states[2 * i + 2], PLAYER)
            && Entry(run.states[2 * i + 4], PLAYER)
               == Some(Record(cfg.health, Entry(run.states[2 * i + 2], PLAYER), times[i]))
            && PLAYER in run.states[2 * i + 4].whitelist
  {
    hide Run.Valid, AttackRun, TcpFrame, UdpFrame, Attack, Record, IsBlacklisted, AnomalyAt, Entry;
    AttackAt(cfg, times, 2 * i);
    AttackAt(cfg, times, 2 * i + 1);
    AttackStep(AttackRun(cfg, times), 2 * i + 2, times[i]);
  }

  /** The run records what the times say. */
  lemma {:induction false} AttackIsRecorded(cfg: Config, times: seq<nat>, i: nat)
    requires cfg.port < 0x1_0000 && AtLiberty(cfg.health, times) && i <= |times|
    ensures var run := AttackRun(cfg, times);
            && Entry(run.states[2 * i + 2], PLAYER) == RecordAll(cfg.health, None, times[..i])
            && PLAYER in run.states[2 * i + 2].whitelist
  {
    hide Run.Valid, AttackRun, Attack, Record, IsBlacklisted, AnomalyAt, Entry;
    if i == 0 {
      assert times[..0] == [];
      EnteredFresh(AttackRun(cfg, times));
    } else {
      AttackIsRecorded(cfg, times, i - 1);
      AttackStepAt(cfg, times, i - 1);
      assert times[..i][..i - 1] == times[..i - 1];
    }
  }

  lemma AttackPair(cfg: Config, times: seq<nat>, i: nat)
    requires cfg.port < 0x1_0000 && AtLiberty(cfg.health, times) && i < |times|
    ensures var run := AttackRun(cfg, times);
            && !AnomalyAt(run, PLAYER, 2 * i + 2) && AnomalyAt(run, PLAYER, 2 * i + 3)
            && Entry(run.states[2 * i + 3], PLAYER) == RecordAll(cfg.health, None, times[..i])
  {
    hide Run.Valid, AttackRun, Attack, RecordAll, IsBlacklisted, AnomalyAt, Entry;
    AttackIsRecorded(cfg, times, i);
    AttackStepAt(cfg, times, i);
  }

  lemma EnteredFresh(run: Run)
    requires run.Valid() && run.cfg.port < 0x1_0000 && Enters(run.events, run.cfg.port, 0) && run.states[0] == Empty(1)
    ensures Entry(run.states[2], PLAYER) == None && PLAYER in run.states[2].whitelist
  {
    hide Run.Valid, Enters;
    EnteredStands(run, 0);
  }

  /** All of them are anomalies. */
  lemma {:induction false} AttackCounts(cfg: Config, times: seq<nat>, i: nat, j: nat)
    requires cfg.port < 0x1_0000 && AtLiberty(cfg.health, times) && i <= j <= |times|
    ensures Anomalies(AttackRun(cfg, times), PLAYER, 2 * i + 2, 2 * j + 2) == j - i
    decreases j
  {
    hide Run.Valid, AttackRun, Attack, AnomalyAt, Anomalies, AtLiberty;
    var run := AttackRun(cfg, times);
    if i == j {
      NoAnomaliesYet(run, PLAYER, 2 * i + 2);
    } else {
      AttackCounts(cfg, times, i, j - 1);
      AttackPair(cfg, times, j - 1);
      AnomaliesStep(run, PLAYER, 2 * i + 2, 2 * j);
      AnomaliesStep(run, PLAYER, 2 * i + 2, 2 * j + 1);
    }
  }

  /** Times at which a source at liberty sends enough bad packets inside one window, none of which renews
      anything, make an unpunished run. */
  lemma AttackGoesUnpunished(cfg: Config, times: seq<nat>, i: nat, a: nat)
    requires cfg.port < 0x1_0000 && InOrder(times) && AtLiberty(cfg.health, times)
    requires i <= |times| && |times| - i >= cfg.health.Needed()
    requires forall j :: i <= j < |times| ==> a <= times[j] <= a + cfg.health.window
    requires forall j :: i <= j < |times| ==> !Trips(cfg.health, RecordAll(cfg.health, None, times[..j]), times[j])
    ensures var run := AttackRun(cfg, times);
            && run.Clocked() && run.states[0] == Empty(run.ncpu)
            && Unpunished(run, PLAYER, 2 * i + 2, 2 * |times| + 2, a)
  {
    hide Run.Valid, Run.Clocked, AttackRun, Attack, TripsAt, Anomalies, AtLiberty, Trips, RecordAll, InOrder,
      OneWindow;
    AttackCounts(cfg, times, i, |times|);
    AttackIsTimed(cfg, times, i, a);
    forall m | 2 * i + 2 <= m < 2 * |times| + 2
      ensures !TripsAt(AttackRun(cfg, times), PLAYER, m)
    {
      AttackTrips(cfg, times, m);
    }
  }

  lemma AttackTrips(cfg: Config, times: seq<nat>, m: nat)
    requires cfg.port < 0x1_0000 && AtLiberty(cfg.health, times) && 2 <= m < 2 * |times| + 2
    ensures TripsAt(AttackRun(cfg, times), PLAYER, m) ==>
              Trips(cfg.health, RecordAll(cfg.health, None, times[..m / 2 - 1]), times[m / 2 - 1])
  {
    hide Run.Valid, AttackRun, Attack, AnomalyAt, AtLiberty, Trips, RecordAll, Entry;
    AttackPair(cfg, times, m / 2 - 1);
    AttackAt(cfg, times, m - 2);
    assert m == 2 * (m / 2) || m == 2 * (m / 2) + 1;
  }

  lemma AttackIsTimed(cfg: Config, times: seq<nat>, i: nat, a: nat)
    requires cfg.port < 0x1_0000 && InOrder(times) && i <= |times|
    requires forall j :: i <= j < |times| ==> a <= times[j] <= a + cfg.health.window
    ensures AttackRun(cfg, times).Clocked() && OneWindow(AttackRun(cfg, times), PLAYER, 2 * i + 2, 2 * |times| + 2, a)
  {
    hide Run.Valid, AttackRun, Attack;
    var events := AttackRun(cfg, times).events;
    forall x | 0 <= x < |events|
      ensures events[x].now == if x < 2 then 0 else times[x / 2 - 1]
    {
      if x >= 2 {
        AttackAt(cfg, times, x - 2);
      }
    }
    forall k | 2 * i + 2 <= k < 2 * |times| + 2
      ensures a <= events[k].now <= a + cfg.health.window && !events[k].Loss?
    {
      AttackAt(cfg, times, k - 2);
    }
  }

  // ----- unreliable settings -----

  /** Anomalies that renew nothing leave a source at liberty that was never blocked. */
  lemma {:induction false} QuietLeavesAtLiberty(p: Policy, oh: Option<Health>, times: seq<nat>)
    requires !SomeTrips(p, oh, times) && (oh.Some? ==> oh.value.until == 0)
    ensures var h := RecordAll(p, oh, times); h.Some? ==> h.value.until == 0
  {
    hide Trips, SomeTrips;
    if times != [] {
      var n := |times| - 1;
      assert times == times[..n] + [times[n]];
      SomeTripsSnoc(p, oh, times[..n], times[n]);
      QuietLeavesAtLiberty(p, oh, times[..n]);
    }
  }

  lemma QuietIsAtLiberty(p: Policy, times: seq<nat>)
    requires !SomeTrips(p, None, times)
    ensures AtLiberty(p, times)
    ensures forall j :: 0 <= j < |times| ==> !Trips(p, RecordAll(p, None, times[..j]), times[j])
  {
    forall i | 0 <= i < |times|
      ensures !IsBlacklisted(RecordAll(p, None, times[..i]), times[i])
    {
      hide SomeTrips;
      FewerStayQuiet(p, None, times, i);
      QuietLeavesAtLiberty(p, None, times[..i]);
    }
  }

  /** Two windows: one anomaly opens the first, and then as many follow as its entry allows. */
  lemma TwoWindows(cfg: Config) returns (times: seq<nat>)
    requires cfg.port < 0x1_0000 && 3 <= cfg.health.threshold < TWO_32 && 1 <= cfg.health.window < TWO_63 - 1
    ensures |times| >= 1 && InOrder(times) && Unpunished(AttackRun(cfg, times), PLAYER, 4, 2 * |times| + 2, 1)
    ensures AttackRun(cfg, times).Clocked() && AttackRun(cfg, times).states[0] == Empty(1)
  {
    hide AttackRun, Unpunished, SomeTrips, AtLiberty, Trips, Quietest, RecordAll;
    var p := cfg.health;
    var first := Some(Record(p, None, 0));
    var rest := Quietest(p, first, 1);
    times := [0] + rest;
    FirstAnomaly(p);
    QuietestIsQuiet(p, first, 1);
    RecordAllAppend(p, None, [0], rest);
    QuietIsAtLiberty(p, times);
    AttackGoesUnpunished(cfg, times, 1, 1);
  }

  lemma FirstAnomaly(p: Policy)
    requires 3 <= p.threshold < TWO_32 && 1 <= p.window < TWO_63 - 1
    ensures Record(p, None, 0) == Health(1, 0, 0)
    ensures RecordAll(p, None, [0]) == Some(Record(p, None, 0)) && !SomeTrips(p, None, [0])
    ensures Allowance(p, Some(Record(p, None, 0)), 1) >= p.threshold
  {
    assert [0][..0] == [];
  }

  lemma LibertyAtEach(p: Policy, times: seq<nat>)
    requires forall i :: 0 <= i < |times| ==> !IsBlacklisted(RecordAll(p, None, times[..i]), times[i])
    ensures AtLiberty(p, times)
  {
    hide RecordAll, IsBlacklisted;
  }

  lemma PacedInOrder(p: Policy, n: nat)
    requires Pace(p, n) < TWO_63
    ensures forall i :: 0 <= i <= n ==> Pace(p, i) <= Pace(p, n)
    ensures forall i, j :: 0 <= i <= j <= n ==> Pace(p, i) <= Pace(p, j)
  {
    forall i: nat, j: nat | i <= j <= n
      ensures Pace(p, i) <= Pace(p, j)
    {
      PaceMono(p, i, j);
    }
  }

  lemma PacedIsAtLiberty(p: Policy, j: nat)
    requires 1 <= p.threshold && j < TWO_32 && p.threshold < TWO_32 && p.penalty < TWO_63
    requires Pace(p, j) <= p.window && Pace(p, j) < TWO_63
    ensures !IsBlacklisted(RecordAll(p, None, Paced(p, j)), Pace(p, j))
  {
    hide Pace, RecordAll;
    if j == 0 {
      assert Paced(p, 0) == [];
      assert RecordAll(p, None, []) == None by { NothingRecorded(p); }
    } else {
      PaceMono(p, j - 1, j);
      PacedCountsUp(p, j);
    }
  }

  lemma NothingRecorded(p: Policy)
    ensures RecordAll(p, None, []) == None
  {
  }

  /** Past the largest count there is a threshold's worth again. */
  lemma FullStaysQuiet(p: Policy, a: nat, m: nat)
    requires m < p.threshold < TWO_32 && a <= p.window && a < TWO_63
    ensures var oh := RecordAll(p, Some(Health(TWO_32 - 1, 0, a)), Burst(a, m));
            !IsBlacklisted(oh, a) && !Trips(p, oh, a)
  {
    hide Trips, Record;
    var full := Health(TWO_32 - 1, 0, a);
    QuietRecord(p, full, a);
    if m == 0 {
      assert Burst(a, 0) == [];
    } else {
      assert Burst(a, m) == [a] + Burst(a, m - 1);
      assert [] + [a] == [a];
      SomeTripsSnoc(p, Some(full), [], a);
      RecordAllAppend(p, Some(full), [a], Burst(a, m - 1));
      BurstStaysQuiet(p, Health(0, 0, a), a, m - 1);
      QuietRecord(p, Health(m - 1, 0, a), a);
    }
  }

  /** A wrap: the counter is brought to its largest value, and then a threshold's worth follows. */
  lemma AWrap(cfg: Config) returns (times: seq<nat>, a: nat)
    requires cfg.port < 0x1_0000 && 1 <= cfg.health.threshold < TWO_32 && cfg.health.penalty < TWO_63
    requires !NeverWraps(cfg.health)
    ensures |times| >= TWO_32 - 1 && InOrder(times)
    ensures Unpunished(AttackRun(cfg, times), PLAYER, 2 * TWO_32, 2 * |times| + 2, a)
    ensures AttackRun(cfg, times).Clocked() && AttackRun(cfg, times).states[0] == Empty(1)
  {
    hide AttackRun, Unpunished, SomeTrips, AtLiberty, Trips, RecordAll, Record, Pace;
    var p := cfg.health;
    var n := TWO_32 - 1;
    a := Pace(p, n);
    WrappingCounterForgets(p);
    var up, over := Paced(p, n), Burst(a, p.threshold);
    times := up + over;
    assert times[..n] == up && times[n..] == over;
    PacedInOrder(p, n);
    assert InOrder(times);
    forall j | 0 <= j < |times|
      ensures !IsBlacklisted(RecordAll(p, None, times[..j]), times[j])
      ensures j >= n ==> !Trips(p, RecordAll(p, None, times[..j]), times[j])
    {
      if j < n {
        assert times[..j] == Paced(p, j);
        PacedIsAtLiberty(p, j);
      } else {
        assert times[..j] == up + Burst(a, j - n);
        RecordAllAppend(p, None, up, Burst(a, j - n));
        FullStaysQuiet(p, a, j - n);
      }
    }
    LibertyAtEach(p, times);
    AttackGoesUnpunished(cfg, times, n, a);
  }

  /** A source that sends the threshold's worth of bad packets inside one window is sure to be blocked, in
      every run from an empty health map, exactly when the settings are reliable; and already in the runs
      from empty maps it is not when they are not. */
  lemma PromiseIff(cfg: Config)
    requires cfg.port < 0x1_0000 && cfg.health.threshold < TWO_32 && cfg.health.penalty < TWO_63
    ensures Reliable(cfg.health) <==>
            forall run: Run, ip: Ip, lo: nat, hi: nat, a: nat |
              && run.cfg == cfg && run.Valid() && run.Clocked() && run.states[0].health == map[]
              && lo <= hi <= |run.events| ::
              !Unpunished(run, ip, lo, hi, a)
    ensures Reliable(cfg.health) <==>
            forall run: Run, ip: Ip, lo: nat, hi: nat, a: nat |
              && run.cfg == cfg && run.Valid() && run.Clocked() && run.states[0] == Empty(run.ncpu)
              && lo <= hi <= |run.events| ::
              !Unpunished(run, ip, lo, hi, a)
  {
    hide Run.Valid, Run.Clocked, Unpunished, NeverWraps, AttackRun;
    if Reliable(cfg.health) {
      forall run: Run, ip: Ip, lo: nat, hi: nat, a: nat
        | && run.cfg == cfg && run.Valid() && run.Clocked() && run.states[0].health == map[]
          && lo <= hi <= |run.events|
        ensures !Unpunished(run, ip, lo, hi, a)
      {
        ReliableIsKept(run, ip, lo, hi, a);
      }
    } else if OneWindowOnly(cfg.health) {
      var times, a := AWrap(cfg);
      assert Unpunished(AttackRun(cfg, times), PLAYER, 2 * TWO_32, 2 * |times| + 2, a);
    } else {
      var times := TwoWindows(cfg);
      assert Unpunished(AttackRun(cfg, times), PLAYER, 4, 2 * |times| + 2, 1);
    }
  }
}
