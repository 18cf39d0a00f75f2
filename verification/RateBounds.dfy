/** How many packets of a source the three per-source limiters let through in a run. */
module RateBounds {
  import opened Bytes
  import opened Options
  import opened Words
  import opened Wire
  import opened Payload
  import opened Limiter
  import opened HealthWindow
  import opened FilterMaps
  import opened Runs
  import opened Sockets
  import opened Verdicts
  import Isolation

  /** The limiters on datagrams, on connect requests and on info requests. */
  datatype Lim = UdpLim | PostLim | InfoLim

  function LimitOf(cfg: Config, lim: Lim): Limit {
    match lim
    case UdpLim => cfg.udp
    case PostLim => cfg.init
    case InfoLim => cfg.info
  }

  function MapOf(lim: Lim): MapName {
    match lim
    case UdpLim => UdpMap
    case PostLim => InitMap
    case InfoLim => InfoMap
  }

  function CellOf(s: Maps, lim: Lim, ip: Ip): Option<Bucket> {
    match lim
    case UdpLim => Get(s.udp, ip)
    case PostLim => Get(s.init, ip)
    case InfoLim => Get(s.info, ip)
  }

  /** A packet of the kind this limiter is for was let through. */
  predicate Admits(lim: Lim, t: Traffic, v: Verdict) {
    && v == XdpPass
    && match lim
       case UdpLim => t.UdpDatagram?
       case PostLim => t.TcpSegment? && t.body.Some? && Ascii("POST /client") <= t.body.value
       case InfoLim => t.TcpSegment? && t.body.Some? && GetsInfo(t.body.value)
  }

  /** A packet that asked this limiter. */
  predicate Asks(lim: Lim, o: Outcome) {
    match lim
    case UdpLim => SpendsUdp(o)
    case PostLim => SpendsInit(o)
    case InfoLim => SpendsInfo(o)
  }

  ghost predicate AsksAt(run: Run, lim: Lim, ip: Ip, k: nat)
    requires run.Valid() && k < |run.events|
  {
    run.From(k, ip) && Asks(lim, run.Out(k))
  }

  ghost predicate AdmitsAt(run: Run, lim: Lim, ip: Ip, k: nat)
    requires run.Valid() && k < |run.events|
  {
    run.From(k, ip) && Admits(lim, run.Seen(k), run.Out(k).Verdict())
  }

  /** The packets of this limiter's kind that `ip` got through among events `lo` to `hi - 1`. */
  ghost function Passes(run: Run, lim: Lim, ip: Ip, lo: nat, hi: nat): nat
    requires run.Valid() && lo <= hi <= |run.events|
    decreases hi
  {
    if lo == hi then 0
    else Passes(run, lim, ip, lo, hi - 1) + if AdmitsAt(run, lim, ip, hi - 1) then 1 else 0
  }

  // ----- one event -----

  /** The decision is the limiter's: no packet of its kind passes without asking it. */
  lemma TakeDecides(cfg: Config, s: Maps, t: Traffic, cpu: nat, now: nat, lim: Lim)
    requires HasCpu(s, cpu) && !t.Other?
    ensures var o := OutcomeOf(cfg, s, t, cpu, now);
            && (Admits(lim, t, o.Verdict()) ==> Asks(lim, o))
            && (Asks(lim, o) ==>
                  (Admits(lim, t, o.Verdict()) <==> Take(LimitOf(cfg, lim), CellOf(s, lim, t.src), now).ok))
  {
    hide OutcomeOf, Take, Ascii, GetsInfo, AgentOf, EnetLooksValid, Wrap64, Heard;
    if t.UdpDatagram? {
      Datagrams(cfg, s, t, cpu, now);
      DatagramKinds(cfg, s, t, cpu, now);
    } else {
      SegmentKinds(cfg, s, t, cpu, now);
      if Heard(cfg, s, t, cpu, now) && t.body.Some? {
        HeardSegments(cfg, s, t, cpu, now);
      } else {
        UnheardKinds(cfg, s, t, cpu, now);
      }
    }
  }

  lemma DatagramKinds(cfg: Config, s: Maps, t: Traffic, cpu: nat, now: nat)
    requires HasCpu(s, cpu) && t.UdpDatagram?
    ensures var o := OutcomeOf(cfg, s, t, cpu, now);
            (o.Dropped? || o == PassedUdp) && !SpendsInit(o) && !SpendsInfo(o)
  {
    hide Take, Anomalous, IsBlacklisted, Wrap64;
  }

  lemma SegmentKinds(cfg: Config, s: Maps, t: Traffic, cpu: nat, now: nat)
    requires HasCpu(s, cpu) && t.TcpSegment?
    ensures var o := OutcomeOf(cfg, s, t, cpu, now);
            (o.Dropped? || o == PassedTcp || o.PassedPost? || o == PassedInfo) && !SpendsUdp(o)
  {
    hide Take, RequestOf;
  }

  lemma UnheardKinds(cfg: Config, s: Maps, t: Traffic, cpu: nat, now: nat)
    requires HasCpu(s, cpu) && t.TcpSegment? && !(Heard(cfg, s, t, cpu, now) && t.body.Some?)
    ensures var o := OutcomeOf(cfg, s, t, cpu, now); o.Dropped? && !SpendsInit(o) && !SpendsInfo(o)
  {
    hide Take, RequestOf;
  }

  lemma PacketCell(cfg: Config, s: Maps, t: Traffic, cpu: nat, now: nat, lim: Lim, ip: Ip)
    requires HasCpu(s, cpu) && !t.Other?
    ensures CellOf(XdpStep(cfg, s, t, cpu, now), lim, ip)
         == if t.src == ip && Asks(lim, OutcomeOf(cfg, s, t, cpu, now))
            then Take(LimitOf(cfg, lim), CellOf(s, lim, ip), now).bucket else CellOf(s, lim, ip)
  {
    hide XdpStep, OutcomeOf, Spend, SpendsUdp, SpendsInit, SpendsInfo, Take, Get, Stamp, Record, DropsAfter, Advance,
      Hits, AdmittedSyn, ReachesBreaker;
    XdpFields(cfg, s, t, cpu, now);
    Isolation.SpendCell(cfg.udp, s.udp, t.src, now, ip);
    Isolation.SpendCell(cfg.init, s.init, t.src, now, ip);
    Isolation.SpendCell(cfg.info, s.info, t.src, now, ip);
  }

  lemma LossCell(s: Maps, m: MapName, x: Ip, lim: Lim, ip: Ip)
    ensures CellOf(LossStep(s, m, x), lim, ip) == if m == MapOf(lim) && x == ip then None else CellOf(s, lim, ip)
  {
  }

  lemma SameCell(s: Maps, s': Maps, lim: Lim, ip: Ip)
    requires s'.udp == s.udp && s'.init == s.init && s'.info == s.info
    ensures CellOf(s', lim, ip) == CellOf(s, lim, ip)
  {
  }

  /** What one event does to a bucket. */
  lemma BucketStep(run: Run, k: nat, lim: Lim, ip: Ip)
    requires run.Valid() && k < |run.events|
    ensures AsksAt(run, lim, ip, k) ==>
              var r := Take(LimitOf(run.cfg, lim), CellOf(run.states[k], lim, ip), run.events[k].now);
              CellOf(run.states[k + 1], lim, ip) == r.bucket && (AdmitsAt(run, lim, ip, k) <==> r.ok)
    ensures !AsksAt(run, lim, ip, k) ==>
              && !AdmitsAt(run, lim, ip, k)
              && CellOf(run.states[k + 1], lim, ip)
                 == if run.Loses(k, MapOf(lim), ip) then None else CellOf(run.states[k], lim, ip)
  {
    hide XdpStep, SockStep, LossStep, Observe, OutcomeOf, CellOf, Take, Asks, Admits, MapOf, LimitOf, OnGuardedPort,
      Uncounts, Run.Valid;
    var s, e, t := run.states[k], run.events[k], run.Seen(k);
    match e
    case Packet(frame, cpu, now) =>
      if t.Other? {
        QuietFields(run, k);
      } else {
        PacketSteps(run, k);
        TakeDecides(run.cfg, s, t, cpu, now, lim);
        PacketCell(run.cfg, s, t, cpu, now, lim, ip);
      }
    case Socket(cb, cpu, now) =>
      SocketFields(run, k);
      SameCell(s, run.states[k + 1], lim, ip);
    case Loss(m, x, _) =>
      QuietFields(run, k);
      LossCell(s, m, x, lim, ip);
  }

  /** A packet's step. */
  lemma PacketSteps(run: Run, k: nat)
    requires run.Valid() && k < |run.events| && run.events[k].Packet?
    ensures HasCpu(run.states[k], run.events[k].cpu)
    ensures run.states[k + 1] == XdpStep(run.cfg, run.states[k], run.Seen(k), run.events[k].cpu, run.events[k].now)
    ensures run.Out(k) == OutcomeOf(run.cfg, run.states[k], run.Seen(k), run.events[k].cpu, run.events[k].now)
  {
    hide XdpStep, Observe, OutcomeOf;
    assert run.Follows(k);
  }

  // ----- buckets stay in the past, and settled -----

  /** The bucket a run starts with, if any, was last refilled before the run. */
  predicate StartsPast(run: Run, lim: Lim, ip: Ip)
    requires |run.states| > 0
  {
    var ob := CellOf(run.states[0], lim, ip);
    ob.Some? && run.events != [] ==> ob.value.last <= run.events[0].now
  }

  lemma {:induction false} StayPast(run: Run, lim: Lim, ip: Ip, k: nat, t: nat)
    requires run.Valid() && run.Clocked() && StartsPast(run, lim, ip)
    requires k <= |run.events| && run.events != [] && run.events[0].now <= t < TWO_64
    requires k > 0 ==> run.events[k - 1].now <= t
    ensures PastOpt(CellOf(run.states[k], lim, ip), t)
  {
    if k > 0 {
      hide Run.Valid, CellOf, Take, LimitOf, AsksAt, AdmitsAt, MapOf, Run.Loses;
      var now := run.events[k - 1].now;
      StayPast(run, lim, ip, k - 1, now);
      BucketStep(run, k - 1, lim, ip);
      TakeStaysPast(LimitOf(run.cfg, lim), CellOf(run.states[k - 1], lim, ip), now);
    }
  }

  lemma PastAt(run: Run, lim: Lim, ip: Ip, k: nat)
    requires run.Valid() && run.Clocked() && StartsPast(run, lim, ip) && k < |run.events|
    ensures PastOpt(CellOf(run.states[k], lim, ip), run.events[k].now)
  {
    hide Run.Valid, CellOf, LimitOf, StartsPast;
    StayPast(run, lim, ip, k, run.events[k].now);
  }

  /** And it leaves room for the longest refill. */
  predicate StartsSettled(run: Run, lim: Lim, ip: Ip)
    requires |run.states| > 0 && LimitOf(run.cfg, lim).Enabled()
  {
    var ob := CellOf(run.states[0], lim, ip);
    StartsPast(run, lim, ip) && (ob.Some? ==> ob.value.tokens + Horizon(LimitOf(run.cfg, lim)) < TWO_64)
  }

  lemma TakeSettles(l: Limit, ob: Option<Bucket>, now: nat)
    requires l.Enabled() && Roomy(l) && SettledOpt(l, ob, now)
    ensures SettledOpt(l, Take(l, ob, now).bucket, now)
  {
    hide TakeFrom, Horizon;
    if ob.Some? {
      SettledIsPlain(l, ob.value, now);
    }
  }

  lemma SettledLater(l: Limit, ob: Option<Bucket>, now: nat, later: nat)
    requires l.Enabled() && Roomy(l) && SettledOpt(l, ob, now) && now <= later < TWO_63
    ensures SettledOpt(l, Take(l, ob, now).bucket, later) && SettledOpt(l, ob, later) && SettledOpt(l, None, later)
  {
    hide Take, Horizon;
    TakeSettles(l, ob, now);
  }

  lemma SettledStart(run: Run, lim: Lim, ip: Ip)
    requires run.Valid() && run.Clocked() && LimitOf(run.cfg, lim).Enabled()
    requires StartsSettled(run, lim, ip) && run.events != []
    ensures SettledOpt(LimitOf(run.cfg, lim), CellOf(run.states[0], lim, ip), run.events[0].now)
  {
    hide CellOf, LimitOf, Horizon, Run.Valid;
  }

  lemma {:induction false} StaySettled(run: Run, lim: Lim, ip: Ip, k: nat)
    requires run.Valid() && run.Clocked() && LimitOf(run.cfg, lim).Enabled() && Roomy(LimitOf(run.cfg, lim))
    requires StartsSettled(run, lim, ip) && k < |run.events|
    ensures SettledOpt(LimitOf(run.cfg, lim), CellOf(run.states[k], lim, ip), run.events[k].now)
  {
    hide *;
    if k > 0 {
      StaySettled(run, lim, ip, k - 1);
      BucketStep(run, k - 1, lim, ip);
      ClockOrder(run, k - 1, k);
      SettledLater(LimitOf(run.cfg, lim), CellOf(run.states[k - 1], lim, ip), run.events[k - 1].now, run.events[k].now);
    } else {
      SettledStart(run, lim, ip);
    }
  }

  // ----- the bounds -----

  /** Events `lo` to `hi - 1` happen between `a` and `b`, and the bucket of `ip` is not lost among them. */
  predicate Window(run: Run, lim: Lim, ip: Ip, lo: nat, hi: nat, a: nat, b: nat)
    requires lo <= hi <= |run.events|
  {
    && a <= b < TWO_64
    && (forall j :: lo <= j < hi ==> a <= run.events[j].now <= b)
    && (forall j :: lo <= j < hi ==> !run.Loses(j, MapOf(lim), ip))
  }

  lemma {:induction false} Metering(run: Run, lim: Lim, ip: Ip, lo: nat, k: nat, a: nat)
    requires run.Valid() && run.Clocked() && StartsPast(run, lim, ip)
    requires LimitOf(run.cfg, lim).Enabled() && lo <= k <= |run.events|
    requires forall j :: lo <= j < k ==> a <= run.events[j].now && !run.Loses(j, MapOf(lim), ip)
    ensures Metered(LimitOf(run.cfg, lim), CellOf(run.states[k], lim, ip), a, Passes(run, lim, ip, lo, k))
    decreases k
  {
    hide Run.Valid, CellOf, Take, LimitOf, AsksAt, AdmitsAt, MapOf, Run.Loses, StartsPast, Metered;
    var l := LimitOf(run.cfg, lim);
    if lo == k {
      MeterStart(l, CellOf(run.states[k], lim, ip), a);
    } else {
      Metering(run, lim, ip, lo, k - 1, a);
      BucketStep(run, k - 1, lim, ip);
      PastAt(run, lim, ip, k - 1);
      var ob := CellOf(run.states[k - 1], lim, ip);
      if AsksAt(run, lim, ip, k - 1) {
        MeterTake(l, ob, a, Passes(run, lim, ip, lo, k - 1), run.events[k - 1].now);
      }
    }
  }

  lemma MeterStart(l: Limit, ob: Option<Bucket>, a: nat)
    requires l.Enabled()
    ensures Metered(l, ob, a, 0)
  {
  }

  /** Over any mix of traffic, in any window in which its bucket is not lost, a source gets at most a
      burst and one packet per started period through an enabled limiter. */
  lemma RateBound(run: Run, lim: Lim, ip: Ip, lo: nat, hi: nat, a: nat, b: nat)
    requires run.Valid() && run.Clocked() && StartsPast(run, lim, ip)
    requires LimitOf(run.cfg, lim).Enabled()
    requires lo <= hi <= |run.events| && Window(run, lim, ip, lo, hi, a, b)
    ensures Passes(run, lim, ip, lo, hi) <= LimitOf(run.cfg, lim).burst + CeilDiv(b - a, LimitOf(run.cfg, lim).period)
  {
    hide Run.Valid, CellOf, LimitOf, MapOf, Run.Loses, StartsPast, CeilDiv, Metered;
    if lo < hi {
      Metering(run, lim, ip, lo, hi, a);
      StayPast(run, lim, ip, hi, b);
      MeterBound(LimitOf(run.cfg, lim), CellOf(run.states[hi], lim, ip), a, b, Passes(run, lim, ip, lo, hi));
    }
  }

  /** Event `c` creates the bucket. */
  ghost predicate Creates(run: Run, lim: Lim, ip: Ip, c: nat)
    requires run.Valid() && c < |run.events|
  {
    CellOf(run.states[c], lim, ip).None? && CellOf(run.states[c + 1], lim, ip).Some?
  }

  lemma {:induction false} Living(run: Run, lim: Lim, ip: Ip, c: nat, k: nat)
    requires run.Valid() && run.Clocked() && StartsPast(run, lim, ip)
    requires LimitOf(run.cfg, lim).Enabled() && c < k <= |run.events| && Creates(run, lim, ip, c)
    requires forall j :: c < j < k ==> !run.Loses(j, MapOf(lim), ip)
    ensures CellOf(run.states[k], lim, ip).Some?
    ensures Lived(LimitOf(run.cfg, lim), CellOf(run.states[k], lim, ip).value, run.events[c].now,
                  Passes(run, lim, ip, c, k))
    decreases k
  {
    hide Run.Valid, CellOf, TakeFrom, LimitOf, AsksAt, AdmitsAt, MapOf, Run.Loses, StartsPast, Lived;
    var l := LimitOf(run.cfg, lim);
    BucketStep(run, k - 1, lim, ip);
    if k == c + 1 {
      assert Passes(run, lim, ip, c, c) == 0;
      NewBucket(l, run.events[c].now);
    } else {
      Living(run, lim, ip, c, k - 1);
      PastAt(run, lim, ip, k - 1);
      if AsksAt(run, lim, ip, k - 1) {
        LiveTake(l, CellOf(run.states[k - 1], lim, ip).value, run.events[c].now, Passes(run, lim, ip, c, k - 1),
                 run.events[k - 1].now);
      }
    }
  }

  lemma NewBucket(l: Limit, now: nat)
    requires l.Enabled()
    ensures Lived(l, Bucket(l.burst - 1, now), now, 1)
  {
  }

  /** Over the life of a bucket a source gets at most a burst and one packet per whole period since the
      bucket was created. */
  lemma LifetimeBound(run: Run, lim: Lim, ip: Ip, c: nat, hi: nat, t: nat)
    requires run.Valid() && run.Clocked() && StartsPast(run, lim, ip)
    requires LimitOf(run.cfg, lim).Enabled() && c < hi <= |run.events| && Creates(run, lim, ip, c)
    requires forall j :: c < j < hi ==> !run.Loses(j, MapOf(lim), ip)
    requires run.events[hi - 1].now <= t < TWO_64
    ensures Passes(run, lim, ip, c, hi)
         <= LimitOf(run.cfg, lim).burst + (t - run.events[c].now) / LimitOf(run.cfg, lim).period
  {
    hide Run.Valid, CellOf, LimitOf, MapOf, Run.Loses, StartsPast, Lived;
    Living(run, lim, ip, c, hi);
    StayPast(run, lim, ip, hi, t);
    LiveBound(LimitOf(run.cfg, lim), CellOf(run.states[hi], lim, ip).value, run.events[c].now,
              Passes(run, lim, ip, c, hi), t);
  }

  // ----- a patient source is never refused -----

  lemma {:induction false} CellKept(run: Run, lim: Lim, ip: Ip, i: nat, k: nat)
    requires run.Valid() && i < k <= |run.events|
    requires forall j :: i < j < k ==> !AsksAt(run, lim, ip, j)
    ensures CellOf(run.states[k], lim, ip).None? || CellOf(run.states[k], lim, ip) == CellOf(run.states[i + 1], lim, ip)
    decreases k
  {
    hide Run.Valid, CellOf, Take, LimitOf, AsksAt, AdmitsAt, MapOf, Run.Loses;
    if i + 1 < k {
      CellKept(run, lim, ip, i, k - 1);
      BucketStep(run, k - 1, lim, ip);
    }
  }

  /** A request at least one period after the source's previous one is admitted, whatever the bucket
      was left with and whether or not it was lost in between. */
  lemma PatientIsAdmitted(run: Run, lim: Lim, ip: Ip, i: nat, k: nat)
    requires run.Valid() && run.Clocked()
    requires LimitOf(run.cfg, lim).Enabled() ==> Roomy(LimitOf(run.cfg, lim)) && StartsSettled(run, lim, ip)
    requires i < k < |run.events| && AsksAt(run, lim, ip, i) && AsksAt(run, lim, ip, k)
    requires forall j :: i < j < k ==> !AsksAt(run, lim, ip, j)
    requires run.events[i].now + LimitOf(run.cfg, lim).period <= run.events[k].now
    ensures AdmitsAt(run, lim, ip, k)
  {
    hide Run.Valid, CellOf, TakeFrom, LimitOf, AsksAt, AdmitsAt, MapOf, Run.Loses, StartsSettled, Roomy, Horizon;
    var l := LimitOf(run.cfg, lim);
    CellKept(run, lim, ip, i, k);
    BucketStep(run, i, lim, ip);
    BucketStep(run, k, lim, ip);
    if l.Enabled() {
      StaySettled(run, lim, ip, i);
      PeriodApartIsAdmitted(l, CellOf(run.states[i], lim, ip), run.events[i].now, run.events[k].now);
    }
  }
}
