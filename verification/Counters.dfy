/** Conservation: what the counters and the summary say about all the packets of a run. */
module Counters {
  import opened Options
  import opened Words
  import opened Wire
  import opened Payload
  import opened Limiter
  import opened HealthWindow
  import opened FilterMaps
  import opened Runs
  import opened Sockets
  import opened Reporting

  // ----- counting packets, without the counters -----

  /** The total a packet belongs to, by its protocol and its verdict alone. */
  function KindOf(t: Traffic, v: Verdict): Option<Kind> {
    match t
    case Other => None
    case TcpSegment(_, moreFrags, _, _) =>
      if moreFrags && v == XdpDrop then Some(Fragments) else Some(if v == XdpPass then PassTcp else DropTcp)
    case UdpDatagram(_, moreFrags, _) =>
      if moreFrags && v == XdpDrop then Some(Fragments) else Some(if v == XdpPass then PassUdp else DropUdp)
  }

  /** The packets of a kind among the first `k` events. */
  ghost function Packets(run: Run, kind: Kind, k: nat): nat
    requires run.Valid() && k <= |run.events|
  {
    if k == 0 then 0
    else Packets(run, kind, k - 1) + if KindOf(run.Seen(k - 1), run.Out(k - 1).Verdict()) == Some(kind) then 1 else 0
  }

  /** The filtered packets among the first `k` events. */
  ghost function Filtered(run: Run, k: nat): nat
    requires run.Valid() && k <= |run.events|
  {
    if k == 0 then 0 else Filtered(run, k - 1) + if run.Seen(k - 1).Other? then 0 else 1
  }

  /** The packets of any source dropped for reason `r` among the first `k` events. */
  ghost function Drops(run: Run, r: Reason, k: nat): nat
    requires run.Valid() && k <= |run.events|
  {
    if k == 0 then 0 else Drops(run, r, k - 1) + if run.Out(k - 1) == Dropped(r) then 1 else 0
  }

  // ----- the counters, unbounded and in one row -----

  /** `exact` with each of `slots` in turn advanced by one. */
  function Tallied(exact: seq<nat>, slots: seq<nat>): (r: seq<nat>)
    requires |exact| == STAT_MAX && ValidSlots(slots)
    ensures |r| == STAT_MAX
  {
    if slots == [] then exact
    else
      var before := Tallied(exact, slots[..|slots| - 1]);
      var slot := slots[|slots| - 1];
      before[slot := before[slot] + 1]
  }

  /** The counters event `k` advances. */
  ghost function EventHits(run: Run, k: nat): (slots: seq<nat>)
    requires run.Valid() && k < |run.events|
    ensures ValidSlots(slots)
  {
    match run.events[k]
    case Packet(_, _, _) => Hits(run.Out(k))
    case Socket(cb, _, _) =>
      if OnGuardedPort(run.cfg, cb) && cb.op == PassiveEstablished then [STAT_TCP_ESTABLISHED_INSERTS] else []
    case Loss(_, _, _) => []
  }

  /** How often each counter was advanced in the first `k` events, on whichever CPU. */
  ghost function Tally(run: Run, k: nat): (r: seq<nat>)
    requires run.Valid() && k <= |run.events|
    ensures |r| == STAT_MAX
  {
    if k == 0 then Zeros(STAT_MAX) else Tallied(Tally(run, k - 1), EventHits(run, k - 1))
  }

  /** Summed over the CPUs, the counters keep 64 bits of `exact`. */
  ghost predicate Holds(stats: seq<Row>, exact: seq<nat>) {
    && (forall c :: 0 <= c < |stats| ==> |stats[c]| == STAT_MAX)
    && |exact| == STAT_MAX
    && forall i :: 0 <= i < STAT_MAX ==> Wrap64(Column(stats, i)) == Wrap64(exact[i])
  }

  lemma HoldsOne(stats: seq<Row>, exact: seq<nat>, cpu: nat, slot: nat)
    requires Holds(stats, exact) && cpu < |stats| && slot < STAT_MAX
    ensures var row: Row := stats[cpu];
            Holds(stats[cpu := row[slot := Wrap64(row[slot] + 1)]], exact[slot := exact[slot] + 1])
  {
    hide Wrap64;
    var row: Row := stats[cpu];
    var row' := row[slot := Wrap64(row[slot] + 1)];
    var exact' := exact[slot := exact[slot] + 1];
    forall i | 0 <= i < STAT_MAX
      ensures Wrap64(Column(stats[cpu := row'], i)) == Wrap64(exact'[i])
    {
      ColumnUpdate(stats, cpu, row', i);
      if i == slot {
        var rest := Column(stats, i) - row[i];
        assert rest >= 0 by { InColumn(stats, cpu, i); }
        WrapSum(row[i] + 1, rest);
        WrapSum(Column(stats, i), 1);
        WrapSum(exact[i], 1);
      }
    }
  }

  lemma {:induction false} InColumn(stats: seq<Row>, cpu: nat, slot: nat)
    requires slot < STAT_MAX && cpu < |stats| && forall c :: 0 <= c < |stats| ==> |stats[c]| == STAT_MAX
    ensures stats[cpu][slot] <= Column(stats, slot)
  {
    if cpu < |stats| - 1 {
      InColumn(stats[..|stats| - 1], cpu, slot);
    }
  }

  lemma {:induction false} HoldsAll(stats: seq<Row>, exact: seq<nat>, cpu: nat, slots: seq<nat>)
    requires Holds(stats, exact) && cpu < |stats| && ValidSlots(slots)
    ensures |stats[cpu]| == STAT_MAX && Holds(Advance(stats, cpu, slots), Tallied(exact, slots))
  {
    hide Wrap64;
    assert |stats[cpu]| == STAT_MAX;
    if slots != [] {
      var n := |slots| - 1;
      HoldsAll(stats, exact, cpu, slots[..n]);
      HoldsOne(Advance(stats, cpu, slots[..n]), Tallied(exact, slots[..n]), cpu, slots[n]);
    }
  }

  lemma StatsStep(run: Run, k: nat)
    requires run.Valid() && k < |run.events|
    ensures if EventHits(run, k) == [] then run.states[k + 1].stats == run.states[k].stats
            else && !run.events[k].Loss? && HasCpu(run.states[k], run.events[k].cpu)
                 && run.states[k + 1].stats == Advance(run.states[k].stats, run.events[k].cpu, EventHits(run, k))
  {
    hide *;
    Accessors(run, k, 0);
    HitsShape(run, k);
    match run.events[k]
    case Packet(_, _, _) =>
      if run.Seen(k).Other? {
        QuietFields(run, k);
      } else {
        PacketFields(run, k);
        SomethingHit(run, k);
      }
    case Socket(_, _, _) => SocketFields(run, k);
    case Loss(m, ip, _) =>
      QuietFields(run, k);
      LossFields(run.states[k], m, ip);
  }

  lemma HitsShape(run: Run, k: nat)
    requires run.Valid() && k < |run.events|
    ensures run.events[k].Packet? ==> EventHits(run, k) == Hits(run.Out(k))
    ensures run.events[k].Packet? && run.Seen(k).Other? ==> EventHits(run, k) == []
    ensures run.events[k].Socket? ==>
              EventHits(run, k)
              == if OnGuardedPort(run.cfg, run.events[k].cb) && run.events[k].cb.op == PassiveEstablished
                 then [STAT_TCP_ESTABLISHED_INSERTS] else []
    ensures run.events[k].Loss? ==> EventHits(run, k) == []
  {
    hide Run.Valid, Observe, Decide, OnGuardedPort;
  }

  lemma SomethingHit(run: Run, k: nat)
    requires run.Valid() && k < |run.events| && !run.Seen(k).Other?
    ensures Hits(run.Out(k)) != []
  {
    hide OutcomeOf, Run.Valid;
    FilteredIffSeen(run, k);
  }

  /** The counters, summed over the CPUs, say how often each was advanced, up to the 64 bits kept. */
  lemma {:induction false} CountersHoldTheTally(run: Run, k: nat)
    requires run.Valid() && Holds(run.states[0].stats, Zeros(STAT_MAX)) && k <= |run.events|
    ensures Holds(run.states[k].stats, Tally(run, k))
  {
    hide Run.Valid, Holds, EventHits, Advance, Tallied;
    if k > 0 {
      CountersHoldTheTally(run, k - 1);
      StatsStep(run, k - 1);
      if EventHits(run, k - 1) == [] {
        NoHits(Tally(run, k - 1));
      } else {
        HoldsAll(run.states[k - 1].stats, Tally(run, k - 1), run.events[k - 1].cpu, EventHits(run, k - 1));
      }
    }
  }

  lemma NoHits(exact: seq<nat>)
    requires |exact| == STAT_MAX
    ensures Tallied(exact, []) == exact
  {
  }

  lemma {:induction false} EmptyHolds(ncpu: nat)
    ensures Holds(Empty(ncpu).stats, Zeros(STAT_MAX))
  {
    forall i | 0 <= i < STAT_MAX
      ensures Column(Empty(ncpu).stats, i) == 0
    {
      ZeroColumn(Empty(ncpu).stats, i);
    }
  }

  lemma {:induction false} ZeroColumn(stats: seq<Row>, slot: nat)
    requires slot < STAT_MAX && forall c :: 0 <= c < |stats| ==> |stats[c]| == STAT_MAX && stats[c][slot] == 0
    ensures Column(stats, slot) == 0
  {
    if stats != [] {
      ZeroColumn(stats[..|stats| - 1], slot);
    }
  }

  // ----- every filtered packet is in exactly one total -----

  /** How many of `slots` belong to a total. */
  function GroupHits(slots: seq<nat>, kind: Kind): nat {
    if slots == [] then 0
    else GroupHits(slots[..|slots| - 1], kind) + if Group(slots[|slots| - 1]) == Some(kind) then 1 else 0
  }

  lemma {:induction false} GroupOfTallied(exact: seq<nat>, slots: seq<nat>, kind: Kind)
    requires |exact| == STAT_MAX && ValidSlots(slots)
    ensures GroupSum(Tallied(exact, slots), kind, STAT_MAX) == GroupSum(exact, kind, STAT_MAX) + GroupHits(slots, kind)
  {
    hide Group, GroupSum;
    if slots != [] {
      var n := |slots| - 1;
      GroupOfTallied(exact, slots[..n], kind);
      GroupSumBump(Tallied(exact, slots[..n]), slots[n], kind, STAT_MAX);
    }
  }

  lemma NoGroupHits(kind: Kind)
    ensures GroupHits([], kind) == 0
  {
  }

  lemma GroupHitsOfThree(a: nat, b: nat, c: nat, kind: Kind)
    ensures GroupHits([a], kind) == if Group(a) == Some(kind) then 1 else 0
    ensures GroupHits([a, b], kind) == GroupHits([a], kind) + if Group(b) == Some(kind) then 1 else 0
    ensures GroupHits([a, b, c], kind) == GroupHits([a, b], kind) + if Group(c) == Some(kind) then 1 else 0
  {
    hide Group;
    assert [a][..0] == [] && [a, b][..1] == [a] && [a, b, c][..2] == [a, b];
  }

  /** Which outcomes belong to which protocol. */
  lemma OutcomeShape(cfg: Config, s: Maps, t: Traffic, cpu: nat, now: nat)
    requires HasCpu(s, cpu)
    ensures var o := OutcomeOf(cfg, s, t, cpu, now);
            match t
            case Other => o == Unfiltered
            case TcpSegment(_, moreFrags, _, _) =>
              (o == Dropped(IpFragment) <==> moreFrags)
              && (o.Dropped? || o == PassedTcp || o.PassedPost? || o == PassedInfo)
              && (o.Dropped? && !moreFrags ==> Group(DropSlot(o.reason)) == Some(DropTcp))
            case UdpDatagram(_, moreFrags, _) =>
              (o == Dropped(IpFragment) <==> moreFrags)
              && (o.Dropped? || o == PassedUdp)
              && (o.Dropped? && !moreFrags ==> Group(DropSlot(o.reason)) == Some(DropUdp))
  {
    hide Take, Anomalous, IsBlacklisted, RequestOf, Wrap64, OverCap;
  }

  /** The counters of an outcome enter the packet into the total of its verdict, once, and into no other. */
  lemma HitsMatchVerdict(cfg: Config, s: Maps, t: Traffic, cpu: nat, now: nat, kind: Kind)
    requires HasCpu(s, cpu)
    ensures var o := OutcomeOf(cfg, s, t, cpu, now);
            GroupHits(Hits(o), kind) == if KindOf(t, o.Verdict()) == Some(kind) then 1 else 0
  {
    hide OutcomeOf, Group, GroupHits;
    OutcomeShape(cfg, s, t, cpu, now);
    OutcomeHits(OutcomeOf(cfg, s, t, cpu, now), kind);
    DropGroups();
  }

  lemma DropGroups()
    ensures Group(STAT_PASS_TCP) == Some(PassTcp) && Group(STAT_PASS_UDP_WHITELISTED) == Some(PassUdp)
    ensures Group(DropSlot(IpFragment)) == Some(Fragments)
  {
  }

  lemma OutcomeHits(o: Outcome, kind: Kind)
    ensures GroupHits(Hits(o), kind) ==
      match o
      case Unfiltered => 0
      case PassedTcp => if kind == PassTcp then 1 else 0
      case PassedPost(_) => if kind == PassTcp then 1 else 0
      case PassedInfo => if kind == PassTcp then 1 else 0
      case PassedUdp => if kind == PassUdp then 1 else 0
      case Dropped(r) => if Group(DropSlot(r)) == Some(kind) then 1 else 0
  {
    hide GroupHits;
    match o
    case Unfiltered => NoGroupHits(kind);
    case PassedTcp => GroupHitsOfThree(STAT_PASS_TCP, 0, 0, kind);
    case PassedPost(p) => GroupHitsOfThree(STAT_TCP_POST_CLIENT_SEEN, PostSlot(p), STAT_PASS_TCP, kind);
    case PassedInfo => GroupHitsOfThree(STAT_TCP_GETINFO_SEEN, STAT_PASS_TCP, 0, kind);
    case PassedUdp => GroupHitsOfThree(STAT_PASS_UDP_WHITELISTED, 0, 0, kind);
    case Dropped(r) =>
      GroupHitsOfThree(DropSlot(r), 0, 0, kind);
      GroupHitsOfThree(STAT_TCP_POST_CLIENT_SEEN, DropSlot(r), 0, kind);
      GroupHitsOfThree(STAT_TCP_GETINFO_SEEN, DropSlot(r), 0, kind);
  }

  lemma EventGroupHits(run: Run, k: nat, kind: Kind)
    requires run.Valid() && k < |run.events|
    ensures GroupHits(EventHits(run, k), kind)
         == if KindOf(run.Seen(k), run.Out(k).Verdict()) == Some(kind) then 1 else 0
  {
    hide Run.Valid, OutcomeOf, Group, GroupHits, KindOf, Observe, OnGuardedPort;
    HitsShape(run, k);
    if run.events[k].Packet? {
      assert HasCpu(run.states[k], run.events[k].cpu) by { OnItsCpu(run, k); }
      HitsMatchVerdict(run.cfg, run.states[k], run.Seen(k), run.events[k].cpu, run.events[k].now, kind);
    } else {
      NoGroupHits(kind);
      NoKind(run.Out(k).Verdict());
      SocketHits(kind);
    }
  }

  lemma OnItsCpu(run: Run, k: nat)
    requires run.Valid() && k < |run.events| && !run.events[k].Loss?
    ensures HasCpu(run.states[k], run.events[k].cpu)
  {
    hide Run.Follows;
  }

  lemma NoKind(v: Verdict)
    ensures KindOf(Other, v) == None
  {
  }

  lemma SocketHits(kind: Kind)
    ensures GroupHits([STAT_TCP_ESTABLISHED_INSERTS], kind) == 0
  {
    GroupHitsOfThree(STAT_TCP_ESTABLISHED_INSERTS, 0, 0, kind);
  }

  /** Unbounded, the counters of each total add up to the packets of its kind. */
  lemma {:induction false} TallyByKind(run: Run, kind: Kind, k: nat)
    requires run.Valid() && k <= |run.events|
    ensures GroupSum(Tally(run, k), kind, STAT_MAX) == Packets(run, kind, k)
  {
    hide Run.Valid, GroupSum, GroupHits, EventHits, KindOf, Tallied;
    if k == 0 {
      ZeroGroup(Zeros(STAT_MAX), kind, STAT_MAX);
    } else {
      TallyByKind(run, kind, k - 1);
      GroupOfTallied(Tally(run, k - 1), EventHits(run, k - 1), kind);
      EventGroupHits(run, k - 1, kind);
    }
  }

  lemma {:induction false} ZeroGroup(vals: seq<nat>, kind: Kind, n: nat)
    requires n <= |vals| && forall i :: 0 <= i < n ==> vals[i] == 0
    ensures GroupSum(vals, kind, n) == 0
  {
    hide Group;
    if n > 0 {
      ZeroGroup(vals, kind, n - 1);
    }
  }

  /** From the kernel to the summary: each of the five totals computed from the values read back is,
      up to the 64 bits kept, the number of packets with that protocol and verdict. */
  lemma SummaryCountsPackets(run: Run, k: nat, vals: seq<nat>, summary: Summary, kind: Kind)
    requires run.Valid() && Holds(run.states[0].stats, Zeros(STAT_MAX)) && k <= |run.events|
    requires Sized(run.states[k], run.ncpu) && IsReadOf(vals, run.states[k].stats)
    requires summary.Total(kind) == Wrap64(GroupSum(vals, kind, STAT_MAX))
    ensures summary.Total(kind) == Wrap64(Packets(run, kind, k))
  {
    hide Run.Valid, Wrap64, GroupSum, Column, Tally;
    CountersHoldTheTally(run, k);
    GroupSumWraps(vals, Tally(run, k), kind, STAT_MAX);
    TallyByKind(run, kind, k);
  }

  /** Every filtered packet is in exactly one total. */
  lemma {:induction false} TotalsCoverTraffic(run: Run, k: nat)
    requires run.Valid() && k <= |run.events|
    ensures Packets(run, PassTcp, k) + Packets(run, DropTcp, k) + Packets(run, PassUdp, k) + Packets(run, DropUdp, k)
            + Packets(run, Fragments, k) == Filtered(run, k)
  {
    hide Run.Valid, OutcomeOf, Observe;
    if k > 0 {
      TotalsCoverTraffic(run, k - 1);
    }
  }

  /** So the five totals of the summary add up to the packets filtered, as 64-bit words. */
  lemma SummaryCoversTraffic(run: Run, k: nat, vals: seq<nat>, summary: Summary)
    requires run.Valid() && Holds(run.states[0].stats, Zeros(STAT_MAX)) && k <= |run.events|
    requires Sized(run.states[k], run.ncpu) && IsReadOf(vals, run.states[k].stats)
    requires forall kind: Kind :: summary.Total(kind) == Wrap64(GroupSum(vals, kind, STAT_MAX))
    ensures Wrap64(summary.passTcp + summary.dropTcp + summary.passUdp + summary.dropUdp + summary.ipFragments)
         == Wrap64(Filtered(run, k))
  {
    hide Run.Valid, Wrap64, GroupSum, Column, Holds, IsReadOf, Sized, Packets, Filtered;
    forall kind: Kind
      ensures summary.Total(kind) == Wrap64(Packets(run, kind, k))
    {
      SummaryCountsPackets(run, k, vals, summary, kind);
    }
    assert summary.Total(PassTcp) == summary.passTcp && summary.Total(DropTcp) == summary.dropTcp;
    assert summary.Total(PassUdp) == summary.passUdp && summary.Total(DropUdp) == summary.dropUdp;
    assert summary.Total(Fragments) == summary.ipFragments;
    TotalsCoverTraffic(run, k);
    WrapSumOfFive(Packets(run, PassTcp, k), Packets(run, DropTcp, k), Packets(run, PassUdp, k),
                  Packets(run, DropUdp, k), Packets(run, Fragments, k));
  }

  // ----- relations between single counters -----

  function Occurs(slots: seq<nat>, slot: nat): nat {
    if slots == [] then 0
    else Occurs(slots[..|slots| - 1], slot) + if slots[|slots| - 1] == slot then 1 else 0
  }

  lemma {:induction false} TalliedAt(exact: seq<nat>, slots: seq<nat>, slot: nat)
    requires |exact| == STAT_MAX && ValidSlots(slots) && slot < STAT_MAX
    ensures Tallied(exact, slots)[slot] == exact[slot] + Occurs(slots, slot)
  {
    if slots != [] {
      TalliedAt(exact, slots[..|slots| - 1], slot);
    }
  }

  lemma OccursInThree(a: nat, b: nat, c: nat, slot: nat)
    ensures Occurs([], slot) == 0
    ensures Occurs([a], slot) == if a == slot then 1 else 0
    ensures Occurs([a, b], slot) == (if a == slot then 1 else 0) + (if b == slot then 1 else 0)
    ensures Occurs([a, b, c], slot)
         == (if a == slot then 1 else 0) + (if b == slot then 1 else 0) + (if c == slot then 1 else 0)
  {
    assert [a][..0] == [] && [a, b][..1] == [a] && [a, b, c][..2] == [a, b];
  }

  /** Whether an outcome advances a counter, said of the counter. */
  predicate Advances(o: Outcome, slot: nat) {
    match o
    case Unfiltered => false
    case PassedTcp => slot == STAT_PASS_TCP
    case PassedPost(p) => slot == STAT_PASS_TCP || slot == STAT_TCP_POST_CLIENT_SEEN || slot == PostSlot(p)
    case PassedInfo => slot == STAT_PASS_TCP || slot == STAT_TCP_GETINFO_SEEN
    case PassedUdp => slot == STAT_PASS_UDP_WHITELISTED
    case Dropped(r) =>
      slot == DropSlot(r)
      || (slot == STAT_TCP_POST_CLIENT_SEEN && r == TcpInitconnectRatelimit)
      || (slot == STAT_TCP_GETINFO_SEEN && r == TcpGetinfoRatelimit)
  }

  lemma HitsAt(o: Outcome, slot: nat)
    ensures Occurs(Hits(o), slot) == if Advances(o, slot) then 1 else 0
  {
    hide Occurs;
    match o
    case Unfiltered => OccursInThree(0, 0, 0, slot);
    case PassedTcp => OccursInThree(STAT_PASS_TCP, 0, 0, slot);
    case PassedPost(p) => OccursInThree(STAT_TCP_POST_CLIENT_SEEN, PostSlot(p), STAT_PASS_TCP, slot);
    case PassedInfo => OccursInThree(STAT_TCP_GETINFO_SEEN, STAT_PASS_TCP, 0, slot);
    case PassedUdp => OccursInThree(STAT_PASS_UDP_WHITELISTED, 0, 0, slot);
    case Dropped(r) =>
      OccursInThree(DropSlot(r), 0, 0, slot);
      OccursInThree(STAT_TCP_POST_CLIENT_SEEN, DropSlot(r), 0, slot);
      OccursInThree(STAT_TCP_GETINFO_SEEN, DropSlot(r), 0, slot);
  }

  /** One event's share in a counter. */
  lemma TallyStep(run: Run, k: nat, slot: nat)
    requires run.Valid() && k < |run.events| && slot < STAT_MAX && slot != STAT_TCP_ESTABLISHED_INSERTS
    ensures Tally(run, k + 1)[slot] == Tally(run, k)[slot] + if Advances(run.Out(k), slot) then 1 else 0
  {
    hide Run.Valid, OutcomeOf, Observe, OnGuardedPort, Hits, Occurs, Advances, EventHits, Tallied;
    HitsShape(run, k);
    TalliedAt(Tally(run, k), EventHits(run, k), slot);
    OccursInThree(STAT_TCP_ESTABLISHED_INSERTS, 0, 0, slot);
    HitsAt(run.Out(k), slot);
    HitsAt(Unfiltered, slot);
    NoAdvance(slot);
  }

  lemma NoAdvance(slot: nat)
    ensures !Advances(Unfiltered, slot)
  {
  }

  /** Each drop counter counts the packets dropped for its reason. */
  lemma {:induction false} DropCounterCountsDrops(run: Run, r: Reason, k: nat)
    requires run.Valid() && k <= |run.events|
    ensures Tally(run, k)[DropSlot(r)] == Drops(run, r, k)
  {
    hide Run.Valid, Tally, OutcomeOf, Advances, DropSlot;
    if k == 0 {
      NothingTallied(run);
    } else {
      DropCounterCountsDrops(run, r, k - 1);
      DropAdvances(run.Out(k - 1), r);
      TallyStep(run, k - 1, DropSlot(r));
    }
  }

  lemma NothingTallied(run: Run)
    requires run.Valid()
    ensures forall slot :: 0 <= slot < STAT_MAX ==> Tally(run, 0)[slot] == 0
  {
  }

  lemma DropAdvances(o: Outcome, r: Reason)
    ensures Advances(o, DropSlot(r)) <==> o == Dropped(r)
    ensures DropSlot(r) != STAT_TCP_ESTABLISHED_INSERTS
  {
  }

  /** Every connect request seen was promoted, or matched without a connection, or had an unknown
      agent, or was dropped by its limiter; and the info requests dropped are among those seen. */
  lemma {:induction false} RequestsAreAccountedFor(run: Run, k: nat)
    requires run.Valid() && k <= |run.events|
    ensures var t := Tally(run, k);
            t[STAT_TCP_POST_CLIENT_SEEN]
            == t[STAT_TCP_L7_PROMOTED] + t[STAT_TCP_L7_MATCH_NO_EST] + t[STAT_TCP_POST_UA_UNKNOWN]
               + t[STAT_DROP_TCP_INITCONNECT_RATELIMIT]
    ensures Tally(run, k)[STAT_DROP_TCP_GETINFO_RATELIMIT] <= Tally(run, k)[STAT_TCP_GETINFO_SEEN]
  {
    hide Run.Valid, Tally, OutcomeOf;
    if k == 0 {
      NothingTallied(run);
    } else {
      RequestsAreAccountedFor(run, k - 1);
      TallyStep(run, k - 1, STAT_TCP_POST_CLIENT_SEEN);
      TallyStep(run, k - 1, STAT_TCP_L7_PROMOTED);
      TallyStep(run, k - 1, STAT_TCP_L7_MATCH_NO_EST);
      TallyStep(run, k - 1, STAT_TCP_POST_UA_UNKNOWN);
      TallyStep(run, k - 1, STAT_DROP_TCP_INITCONNECT_RATELIMIT);
      TallyStep(run, k - 1, STAT_TCP_GETINFO_SEEN);
      TallyStep(run, k - 1, STAT_DROP_TCP_GETINFO_RATELIMIT);
    }
  }

  /** The same of the values read back: equal as 64-bit words. */
  lemma RequestCountersBalance(run: Run, k: nat, vals: seq<nat>)
    requires run.Valid() && Holds(run.states[0].stats, Zeros(STAT_MAX)) && k <= |run.events|
    requires Sized(run.states[k], run.ncpu) && IsReadOf(vals, run.states[k].stats)
    ensures vals[STAT_TCP_POST_CLIENT_SEEN]
         == Wrap64(vals[STAT_TCP_L7_PROMOTED] + vals[STAT_TCP_L7_MATCH_NO_EST] + vals[STAT_TCP_POST_UA_UNKNOWN]
                   + vals[STAT_DROP_TCP_INITCONNECT_RATELIMIT])
  {
    hide Run.Valid, Tally, Column, Wrap64, Sized;
    CountersHoldTheTally(run, k);
    RequestsAreAccountedFor(run, k);
    var t := Tally(run, k);
    WrapSumOfFive(t[STAT_TCP_L7_PROMOTED], t[STAT_TCP_L7_MATCH_NO_EST], t[STAT_TCP_POST_UA_UNKNOWN],
                  t[STAT_DROP_TCP_INITCONNECT_RATELIMIT], 0);
    WrapIsLess(0);
  }

  lemma WrapSumOfFive(a: nat, b: nat, c: nat, d: nat, e: nat)
    ensures Wrap64(Wrap64(a) + Wrap64(b) + Wrap64(c) + Wrap64(d) + Wrap64(e)) == Wrap64(a + b + c + d + e)
  {
    hide Wrap64;
    WrapSum(a, Wrap64(b) + Wrap64(c) + Wrap64(d) + Wrap64(e));
    WrapSum(b, a + Wrap64(c) + Wrap64(d) + Wrap64(e));
    WrapSum(c, a + b + Wrap64(d) + Wrap64(e));
    WrapSum(d, a + b + c + Wrap64(e));
    WrapSum(e, a + b + c + d);
  }
}
