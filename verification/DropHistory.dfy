/** What the per-source drop history says about the drops of a run. */
module DropHistory {
  import opened Bytes
  import opened Options
  import opened Words
  import opened Wire
  import opened Payload
  import opened Limiter
  import opened HealthWindow
  import opened FilterMaps
  import opened Runs
  import opened Sockets
  import opened Reporting
  import opened Counters

  // ----- the drops of one source -----

  ghost predicate DroppedFrom(run: Run, k: nat, ip: Ip, r: Reason)
    requires run.Valid() && k < |run.events|
  {
    run.From(k, ip) && run.Out(k) == Dropped(r)
  }

  ghost predicate AnyDropFrom(run: Run, k: nat, ip: Ip)
    requires run.Valid() && k < |run.events|
  {
    run.From(k, ip) && run.Out(k).Dropped?
  }

  /** The packets of `ip` dropped for reason `r` among events `lo` to `hi - 1`. */
  ghost function DropsOf(run: Run, ip: Ip, r: Reason, lo: nat, hi: nat): nat
    requires run.Valid() && lo <= hi <= |run.events|
    decreases hi
  {
    if lo == hi then 0 else DropsOf(run, ip, r, lo, hi - 1) + if DroppedFrom(run, hi - 1, ip, r) then 1 else 0
  }

  lemma DropsOfStep(run: Run, ip: Ip, r: Reason, lo: nat, k: nat)
    requires run.Valid() && lo <= k < |run.events|
    ensures DropsOf(run, ip, r, lo, k + 1) == DropsOf(run, ip, r, lo, k) + if DroppedFrom(run, k, ip, r) then 1 else 0
    ensures DropsOf(run, ip, r, lo, lo) == 0
  {
    hide Run.Valid, DroppedFrom;
  }

  function Entry(s: Maps, ip: Ip): Option<History> {
    Get(s.drops, ip)
  }

  /** The source has been seen in a handshake, a connection or the whitelist. */
  predicate Present(s: Maps, ip: Ip) {
    ip in s.synSeen || ip in s.established || ip in s.whitelist || ip in s.open
  }

  /** What a drop leaves in its source's entry. */
  function Noted(enabled: bool, oh: Option<History>, r: Reason, known: bool, now: nat): Option<History> {
    if !enabled || (oh.None? && !known) then oh
    else Some(AddDrop(if oh.Some? then oh.value else History(now, now, Zeros(NUM_DROP_REASONS)), r, now))
  }

  lemma NotedEntry(enabled: bool, m: map<Ip, History>, src: Ip, r: Reason, known: bool, now: nat, ip: Ip)
    ensures Get(WithDrop(enabled, m, src, r, known, now), ip)
         == if ip == src then Noted(enabled, Get(m, ip), r, known, now) else Get(m, ip)
  {
    hide AddDrop;
  }

  /** What one event does to a source's history. */
  lemma HistoryStep(run: Run, k: nat, ip: Ip)
    requires run.Valid() && k < |run.events|
    ensures Entry(run.states[k + 1], ip)
         == if AnyDropFrom(run, k, ip) then
              Noted(run.cfg.history, Entry(run.states[k], ip), run.Out(k).reason,
                    KnownSource(ip in run.states[k].whitelist, run.Out(k).reason), run.events[k].now)
            else if run.Loses(k, DropsMap, ip) then None
            else Entry(run.states[k], ip)
    ensures AnyDropFrom(run, k, ip) ==> !run.Loses(k, DropsMap, ip)
  {
    hide XdpStep, SockStep, LossStep, Observe, OutcomeOf, Record, Run.Valid, Stamp, Spend, WithDrop, Noted,
      KnownSource, Advance, Hits, Take, SpendsUdp, SpendsInit, SpendsInfo, AdmittedSyn, ReachesBreaker, OnGuardedPort,
      Uncounts;
    var s, e, t := run.states[k], run.events[k], run.Seen(k);
    match e
    case Packet(_, _, now) =>
      if t.Other? {
        QuietFields(run, k);
      } else {
        PacketFields(run, k);
        var o := run.Out(k);
        if o.Dropped? {
          NotedEntry(run.cfg.history, s.drops, t.src, o.reason, KnownSource(t.src in s.whitelist, o.reason), now, ip);
        }
      }
    case Socket(_, _, _) => SocketFields(run, k);
    case Loss(m, x, _) =>
      QuietFields(run, k);
      LossFields(s, m, x);
  }

  /** A drop that may open an entry is a drop of a source present in one of four maps, if only since
      this very packet. */
  lemma KnownIsPresent(cfg: Config, s: Maps, t: Traffic, cpu: nat, now: nat)
    requires HasCpu(s, cpu) && !t.Other? && OutcomeOf(cfg, s, t, cpu, now).Dropped?
    requires KnownSource(t.src in s.whitelist, OutcomeOf(cfg, s, t, cpu, now).reason)
    ensures Present(XdpStep(cfg, s, t, cpu, now), t.src)
  {
    hide Take, Anomalous, IsBlacklisted, RequestOf, Wrap64, Spend, Record, DropsAfter, Advance, Hits;
  }

  // ----- what an entry means -----

  /** An entry that event `c` opened, as it stands before event `k`. */
  ghost predicate OpenedBy(run: Run, ip: Ip, k: nat, h: History, c: nat)
    requires run.Valid() && c < k <= |run.events|
  {
    && AnyDropFrom(run, c, ip) && ip !in run.states[c].drops && Present(run.states[c + 1], ip)
    && (forall j :: c < j <= k ==> ip in run.states[j].drops)
    && h.first == run.events[c].now
    && forall r: Reason :: h.counts[ReasonIndex(r)] == Wrap64(DropsOf(run, ip, r, c, k))
  }

  /** Event `l` is the last drop of `ip` before event `k`. */
  ghost predicate LastDrop(run: Run, ip: Ip, k: nat, l: nat)
    requires run.Valid() && l < k <= |run.events|
  {
    AnyDropFrom(run, l, ip) && forall j :: l < j < k ==> !AnyDropFrom(run, j, ip)
  }

  /** An entry's time stamps and counts, after a drop. */
  lemma NotedShape(oh: Option<History>, r: Reason, known: bool, now: nat, q: Reason)
    ensures Noted(true, oh, r, known, now).Some? ==>
            var h := Noted(true, oh, r, known, now).value;
            && h.last == now
            && h.first == (if oh.Some? then oh.value.first else now)
            && h.counts[ReasonIndex(q)]
               == (if q == r then Wrap64((if oh.Some? then oh.value.counts[ReasonIndex(q)] else 0) + 1)
                   else if oh.Some? then oh.value.counts[ReasonIndex(q)] else 0)
  {
    hide Wrap64, ReasonIndex;
    OneIndexEach(q, r);
  }

  lemma OneIndexEach(q: Reason, r: Reason)
    ensures ReasonIndex(q) == ReasonIndex(r) <==> q == r
    ensures ReasonIndex(q) < NUM_DROP_REASONS
  {
  }

  lemma DropIsOne(run: Run, k: nat, ip: Ip, q: Reason)
    requires run.Valid() && k < |run.events|
    ensures DroppedFrom(run, k, ip, q) <==> AnyDropFrom(run, k, ip) && run.Out(k).reason == q
  {
    hide Run.Valid, OutcomeOf, Observe;
  }

  /** An entry that is there after event `k` counts the drops since `c`, if it did before or `c` is that event. */
  lemma CountsAfter(run: Run, ip: Ip, k: nat, c: nat, r: Reason)
    requires run.Valid() && run.cfg.history && c <= k < |run.events| && Entry(run.states[k + 1], ip).Some?
    requires Entry(run.states[k], ip).None? ==> c == k && AnyDropFrom(run, k, ip)
    requires Entry(run.states[k], ip).Some? ==>
               c < k && Entry(run.states[k], ip).value.counts[ReasonIndex(r)] == Wrap64(DropsOf(run, ip, r, c, k))
    ensures Entry(run.states[k + 1], ip).value.counts[ReasonIndex(r)] == Wrap64(DropsOf(run, ip, r, c, k + 1))
  {
    hide Run.Valid, AnyDropFrom, DroppedFrom, DropsOf, Noted, KnownSource, Wrap64, Run.Loses, Entry, ReasonIndex,
      Run.Out;
    HistoryStep(run, k, ip);
    DropIsOne(run, k, ip, r);
    DropsOfStep(run, ip, r, c, k);
    DropsOfStep(run, ip, r, k, k);
    WrapSum(DropsOf(run, ip, r, c, k), 1);
    SmallWords();
    DropHasReason(run, k, ip);
    if AnyDropFrom(run, k, ip) {
      NotedShape(Entry(run.states[k], ip), run.Out(k).reason,
                 KnownSource(ip in run.states[k].whitelist, run.Out(k).reason),
                 run.events[k].now, r);
    }
  }

  /** Likewise for its time stamps. */
  lemma StampsAfter(run: Run, ip: Ip, k: nat)
    requires run.Valid() && run.cfg.history && k < |run.events| && Entry(run.states[k + 1], ip).Some?
    requires Entry(run.states[k], ip).None? ==> AnyDropFrom(run, k, ip)
    ensures var oh, h, now := Entry(run.states[k], ip), Entry(run.states[k + 1], ip).value, run.events[k].now;
            && h.first == (if oh.Some? then oh.value.first else now)
            && h.last == (if AnyDropFrom(run, k, ip) then now else oh.value.last)
  {
    hide Run.Valid, AnyDropFrom, Noted, KnownSource, Run.Loses, Entry, Run.Out;
    HistoryStep(run, k, ip);
    DropHasReason(run, k, ip);
    if AnyDropFrom(run, k, ip) {
      NotedShape(Entry(run.states[k], ip), run.Out(k).reason,
                 KnownSource(ip in run.states[k].whitelist, run.Out(k).reason),
                 run.events[k].now, TcpNoSyn);
    }
  }

  /** A live entry dates from the drop that opened it and tells all of that source's drops since, reason
      by reason, and the time of the last: in every state reachable from an empty history, whatever was
      evicted before. */
  lemma {:induction false} HistoryMeaning(run: Run, ip: Ip, k: nat) returns (c: nat, l: nat)
    requires run.Valid() && run.states[0].drops == map[] && k <= |run.events|
    requires Entry(run.states[k], ip).Some?
    ensures run.cfg.history && c <= l < k
    ensures OpenedBy(run, ip, k, Entry(run.states[k], ip).value, c)
    ensures LastDrop(run, ip, k, l) && Entry(run.states[k], ip).value.last == run.events[l].now
  {
    hide Run.Valid, AnyDropFrom, DropsOf, Wrap64, Present, ReasonIndex;
    assert k > 0;
    var p := k - 1;
    var before := Entry(run.states[p], ip);
    if before.Some? {
      c, l := HistoryMeaning(run, ip, p);
    } else {
      c := p;
      Opens(run, p, ip);
    }
    if AnyDropFrom(run, p, ip) {
      l := p;
    }
    StampsAfter(run, ip, p);
    forall r: Reason
      ensures Entry(run.states[k], ip).value.counts[ReasonIndex(r)] == Wrap64(DropsOf(run, ip, r, c, k))
    {
      CountsAfter(run, ip, p, c, r);
    }
  }

  lemma SmallWords()
    ensures Wrap64(0) == 0 && Wrap64(1) == 1
  {
  }

  lemma Opens(run: Run, k: nat, ip: Ip)
    requires run.Valid() && k < |run.events|
    requires Entry(run.states[k], ip).None? && Entry(run.states[k + 1], ip).Some?
    ensures AnyDropFrom(run, k, ip) && Present(run.states[k + 1], ip)
    ensures run.cfg.history && KnownSource(ip in run.states[k].whitelist, run.Out(k).reason)
  {
    hide Run.Valid, AnyDropFrom, Noted, KnownSource, Present, Run.Loses;
    HistoryStep(run, k, ip);
    DropHasReason(run, k, ip);
    if AnyDropFrom(run, k, ip) {
      FirstNoted(run.cfg.history, run.Out(k).reason, KnownSource(ip in run.states[k].whitelist, run.Out(k).reason),
                 run.events[k].now);
      KnownIsPresentAfter(run, k, ip);
    }
  }

  lemma DropHasReason(run: Run, k: nat, ip: Ip)
    requires run.Valid() && k < |run.events|
    ensures AnyDropFrom(run, k, ip) ==> run.Out(k).Dropped?
  {
    hide Run.Valid, Run.Out;
  }

  lemma FirstNoted(enabled: bool, r: Reason, known: bool, now: nat)
    ensures Noted(enabled, None, r, known, now).Some? ==> enabled && known
  {
  }

  lemma KnownIsPresentAfter(run: Run, k: nat, ip: Ip)
    requires run.Valid() && k < |run.events| && AnyDropFrom(run, k, ip)
    requires run.Out(k).Dropped? && KnownSource(ip in run.states[k].whitelist, run.Out(k).reason)
    ensures Present(run.states[k + 1], ip)
  {
    hide Observe, OutcomeOf, XdpStep, SockStep, LossStep, KnownSource, Present;
    assert run.Follows(k);
    KnownIsPresent(run.cfg, run.states[k], run.Seen(k), run.events[k].cpu, run.events[k].now);
  }

  /** Which drops open an entry for a source that has none: none while history is off, none of packets that
      anyone can forge, and all others. */
  lemma OpensIff(run: Run, k: nat, ip: Ip)
    requires run.Valid() && k < |run.events| && Entry(run.states[k], ip).None?
    ensures Entry(run.states[k + 1], ip).Some? <==>
            && run.cfg.history && AnyDropFrom(run, k, ip)
            && run.Out(k).reason !in {TcpNoSyn, Malformed, UdpNotWhitelisted, IpFragment}
            && (run.Out(k).reason == TcpGlobalRatelimit ==> ip in run.states[k].whitelist)
  {
    hide *;
    HistoryStep(run, k, ip);
    DropHasReason(run, k, ip);
    if AnyDropFrom(run, k, ip) {
      NotedIff(run.cfg.history, run.Out(k).reason, ip in run.states[k].whitelist, run.events[k].now);
    }
  }

  lemma NotedIff(enabled: bool, r: Reason, whitelisted: bool, now: nat)
    ensures Noted(enabled, None, r, KnownSource(whitelisted, r), now).Some? <==>
            && enabled && r !in {TcpNoSyn, Malformed, UdpNotWhitelisted, IpFragment}
            && (r == TcpGlobalRatelimit ==> whitelisted)
  {
    hide AddDrop;
  }

  // ----- over all sources -----

  /** The counts of one reason in all entries together. */
  ghost function SumCounts(m: map<Ip, History>, r: Reason): nat
    decreases |m|
  {
    if m == map[] then 0
    else
      var ip :| ip in m;
      m[ip].counts[ReasonIndex(r)] + SumCounts(m - {ip}, r)
  }

  lemma SumUnfolds(m: map<Ip, History>, r: Reason) returns (x: Ip)
    requires m != map[]
    ensures x in m && SumCounts(m, r) == m[x].counts[ReasonIndex(r)] + SumCounts(m - {x}, r)
  {
    hide ReasonIndex;
    x :| x in m && SumCounts(m, r) == m[x].counts[ReasonIndex(r)] + SumCounts(m - {x}, r);
  }

  lemma {:induction false} SumWithout(m: map<Ip, History>, ip: Ip, r: Reason)
    requires ip in m
    ensures SumCounts(m, r) == m[ip].counts[ReasonIndex(r)] + SumCounts(m - {ip}, r)
    decreases |m|
  {
    hide SumCounts, ReasonIndex;
    var x := SumUnfolds(m, r);
    if x != ip {
      SumWithout(m - {x}, ip, r);
      SumWithout(m - {ip}, x, r);
      assert m - {x} - {ip} == m - {ip} - {x};
    }
  }

  lemma SumAfterLoss(m: map<Ip, History>, ip: Ip, r: Reason)
    ensures SumCounts(m - {ip}, r) <= SumCounts(m, r)
  {
    if ip in m {
      SumWithout(m, ip, r);
    } else {
      assert m - {ip} == m;
    }
  }

  lemma SumAfterDrop(enabled: bool, m: map<Ip, History>, ip: Ip, q: Reason, known: bool, now: nat, r: Reason)
    ensures SumCounts(WithDrop(enabled, m, ip, q, known, now), r) <= SumCounts(m, r) + if q == r then 1 else 0
  {
    hide WithDrop, AddDrop, ReasonIndex, Wrap64, SumCounts;
    var m' := WithDrop(enabled, m, ip, q, known, now);
    DropTouchesOne(enabled, m, ip, q, known, now);
    NotedEntry(enabled, m, ip, q, known, now, ip);
    if m' != m {
      CountAfterDrop(enabled, Get(m, ip), q, known, now, r);
      SumWithout(m', ip, r);
      if ip in m {
        SumWithout(m, ip, r);
      } else {
        assert m - {ip} == m;
      }
    }
  }

  lemma DropTouchesOne(enabled: bool, m: map<Ip, History>, ip: Ip, q: Reason, known: bool, now: nat)
    ensures var m' := WithDrop(enabled, m, ip, q, known, now);
            m' == m || (ip in m' && m' - {ip} == m - {ip})
  {
    hide AddDrop;
  }

  lemma CountAfterDrop(enabled: bool, oh: Option<History>, q: Reason, known: bool, now: nat, r: Reason)
    ensures var oh' := Noted(enabled, oh, q, known, now);
            oh'.Some? ==> oh'.value.counts[ReasonIndex(r)]
                          <= (if oh.Some? then oh.value.counts[ReasonIndex(r)] else 0) + if q == r then 1 else 0
  {
    hide Noted, Wrap64, ReasonIndex;
    NotedShape(oh, q, known, now, r);
    NotedOff(oh, q, known, now);
    WrapIsLess(if oh.Some? then oh.value.counts[ReasonIndex(r)] + 1 else 1);
  }

  lemma NotedOff(oh: Option<History>, q: Reason, known: bool, now: nat)
    ensures Noted(false, oh, q, known, now) == oh
  {
  }

  lemma DropsMapStep(run: Run, k: nat)
    requires run.Valid() && k < |run.events|
    ensures if !run.Seen(k).Other? && run.Out(k).Dropped? then
              run.states[k + 1].drops
              == WithDrop(run.cfg.history, run.states[k].drops, run.Seen(k).src, run.Out(k).reason,
                          KnownSource(run.Seen(k).src in run.states[k].whitelist, run.Out(k).reason), run.events[k].now)
            else if run.events[k].Loss? then
              run.states[k + 1].drops == run.states[k].drops
              || run.states[k + 1].drops == run.states[k].drops - {run.events[k].ip}
            else run.states[k + 1].drops == run.states[k].drops
  {
    hide *;
    Accessors(run, k, 0);
    match run.events[k]
    case Packet(_, _, _) =>
      if run.Seen(k).Other? {
        QuietFields(run, k);
      } else {
        PacketFields(run, k);
        DropsAfterOutcome(run.cfg, run.states[k], run.Seen(k).src, run.Out(k), run.events[k].now);
      }
    case Socket(_, _, _) => SocketFields(run, k);
    case Loss(m, ip, _) =>
      QuietFields(run, k);
      LossFields(run.states[k], m, ip);
  }

  lemma DropsAfterOutcome(cfg: Config, s: Maps, ip: Ip, o: Outcome, now: nat)
    ensures DropsAfter(cfg, s, ip, o, now)
         == if o.Dropped?
            then WithDrop(cfg.history, s.drops, ip, o.reason, KnownSource(ip in s.whitelist, o.reason), now)
            else s.drops
  {
  }

  /** Added up over all sources, the history never tells more drops of a reason than there were: whatever
      was evicted. */
  lemma {:induction false} HistoryBelowDrops(run: Run, r: Reason, k: nat)
    requires run.Valid() && run.states[0].drops == map[] && k <= |run.events|
    ensures SumCounts(run.states[k].drops, r) <= Drops(run, r, k)
  {
    hide Run.Valid, SumCounts, Drops, WithDrop, KnownSource, Run.Out, Run.Seen;
    if k == 0 {
      NoCounts(r);
    } else {
      var p := k - 1;
      HistoryBelowDrops(run, r, p);
      DropsStep(run, r, p);
      DropsMapStep(run, p);
      var s, e := run.states[p], run.events[p];
      if !run.Seen(p).Other? && run.Out(p).Dropped? {
        SumAfterDrop(run.cfg.history, s.drops, run.Seen(p).src, run.Out(p).reason,
                     KnownSource(run.Seen(p).src in s.whitelist, run.Out(p).reason), e.now, r);
      } else if e.Loss? {
        SumAfterLoss(s.drops, e.ip, r);
      }
    }
  }

  lemma DropsStep(run: Run, r: Reason, k: nat)
    requires run.Valid() && k < |run.events|
    ensures Drops(run, r, k + 1) == Drops(run, r, k) + if run.Out(k) == Dropped(r) then 1 else 0
    ensures run.Out(k).Filtered() <==> !run.Seen(k).Other?
  {
    hide Run.Valid, OutcomeOf, Observe;
    FilteredIffSeen(run, k);
  }

  lemma NoCounts(r: Reason)
    ensures SumCounts(map[], r) == 0
  {
  }

  /** So the history stays below that reason's counter as read back, as long as the counter has not wrapped. */
  lemma HistoryBelowCounter(run: Run, r: Reason, k: nat, vals: seq<nat>)
    requires run.Valid() && run.states[0].drops == map[] && k <= |run.events|
    requires Holds(run.states[0].stats, Zeros(STAT_MAX))
    requires Sized(run.states[k], run.ncpu) && IsReadOf(vals, run.states[k].stats)
    ensures vals[DropSlot(r)] == Wrap64(Drops(run, r, k))
    ensures Drops(run, r, k) < TWO_64 ==> SumCounts(run.states[k].drops, r) <= vals[DropSlot(r)]
  {
    hide Run.Valid, SumCounts, Drops, Tally, Column, Sized;
    HistoryBelowDrops(run, r, k);
    CountersHoldTheTally(run, k);
    DropCounterCountsDrops(run, r, k);
  }
}
