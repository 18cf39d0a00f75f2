/** Reading the per-CPU counters back, and the five totals of the `info` command. */
module Reporting {
  import opened Options
  import opened Words
  import opened FilterMaps

  // ----- adding up over CPUs -----

  /** A counter's true sum over the CPUs. */
  function Column(stats: seq<Row>, slot: nat): nat
    requires slot < STAT_MAX && forall c :: 0 <= c < |stats| ==> |stats[c]| == STAT_MAX
  {
    if stats == [] then 0 else Column(stats[..|stats| - 1], slot) + stats[|stats| - 1][slot]
  }

  /** The values read back: each sum keeps 64 bits. */
  ghost predicate IsReadOf(vals: seq<nat>, stats: seq<Row>)
    requires forall c :: 0 <= c < |stats| ==> |stats[c]| == STAT_MAX
  {
    |vals| == STAT_MAX && forall i :: 0 <= i < STAT_MAX ==> vals[i] == Wrap64(Column(stats, i))
  }

  lemma ColumnStep(rows: seq<Row>, c: nat, slot: nat)
    requires slot < STAT_MAX && c < |rows| && forall c :: 0 <= c < |rows| ==> |rows[c]| == STAT_MAX
    ensures Column(rows[..c + 1], slot) == Column(rows[..c], slot) + rows[c][slot]
  {
    assert rows[..c + 1][..c] == rows[..c];
  }

  /** Why the counters cannot be read. */
  datatype ReadError = NoMap | NoCpuCount | NoCpus | NoSlot(slot: nat)

  datatype ReadResult = Values(vals: seq<nat>) | Failed(error: ReadError)

  /** The map may be missing, the number of possible CPUs unknown or not positive, and the lookups of the
      slots in `failing` may fail; the first of these is reported, and without any of them every slot is
      the sum over all CPUs. */
  method ReadStats(stats: Option<seq<Row>>, possible: Option<int>, failing: set<nat>) returns (r: ReadResult)
    requires stats.Some? ==> forall c :: 0 <= c < |stats.value| ==> |stats.value[c]| == STAT_MAX
    requires stats.Some? && possible.Some? && possible.value > 0 ==> |stats.value| == possible.value
    ensures r == Failed(NoMap) <==> stats.None?
    ensures r == Failed(NoCpuCount) <==> stats.Some? && possible.None?
    ensures r == Failed(NoCpus) <==> stats.Some? && possible.Some? && possible.value <= 0
    ensures forall slot: nat :: r == Failed(NoSlot(slot)) <==>
              && stats.Some? && possible.Some? && possible.value > 0
              && slot < STAT_MAX && slot in failing && forall i :: 0 <= i < slot ==> i !in failing
    ensures r.Values? ==> stats.Some? && IsReadOf(r.vals, stats.value)
  {
    if stats.None? {
      return Failed(NoMap);
    }
    if possible.None? {
      return Failed(NoCpuCount);
    }
    if possible.value <= 0 {
      return Failed(NoCpus);
    }
    hide Wrap64;
    var rows := stats.value;
    var out := new nat[STAT_MAX];
    for i := 0 to STAT_MAX
      invariant forall j :: 0 <= j < i ==> out[j] == Wrap64(Column(rows, j)) && j !in failing
    {
      if i in failing {
        return Failed(NoSlot(i));
      }
      var s: nat := 0;
      for c := 0 to |rows|
        invariant s == Wrap64(Column(rows[..c], i))
        modifies {}
      {
        ColumnStep(rows, c, i);
        WrapSum(Column(rows[..c], i), rows[c][i]);
        s := Wrap64(s + rows[c][i]);
      }
      assert rows[..|rows|] == rows;
      out[i] := s;
    }
    r := Values(out[..]);
  }

  // ----- labels -----

  function StatLabel(slot: nat): string
    requires slot < STAT_MAX
  {
    match slot
    case 0 => "pass_tcp"
    case 1 => "pass_udp_whitelisted"
    case 2 => "drop_udp_not_whitelisted"
    case 3 => "drop_udp_expired"
    case 4 => "drop_malformed"
    case 5 => "tcp_established_inserts"
    case 6 => "tcp_l7_promoted"
    case 7 => "tcp_l7_match_no_est"
    case 8 => "drop_udp_ratelimit"
    case 9 => "drop_tcp_initconnect_ratelimit"
    case 10 => "drop_udp_enet_malformed"
    case 11 => "drop_udp_unhealthy"
    case 12 => "tcp_post_client_seen"
    case 13 => "tcp_getinfo_seen"
    case 14 => "drop_tcp_getinfo_ratelimit"
    case 15 => "drop_tcp_bad_user_agent"
    case 16 => "drop_tcp_no_syn"
    case 17 => "drop_tcp_global_ratelimit"
    case 18 => "drop_tcp_too_many_open"
    case 19 => "tcp_post_ua_unknown"
    case _ => "drop_ip_fragment"
  }

  /** The names the drop history is printed with. */
  function DropReasonName(i: nat): string
    requires i < NUM_DROP_REASONS
  {
    match i
    case 0 => "tcp_no_syn"
    case 1 => "tcp_too_many_open"
    case 2 => "tcp_global_ratelimit"
    case 3 => "tcp_bad_user_agent"
    case 4 => "tcp_initconnect_ratelimit"
    case 5 => "tcp_getinfo_ratelimit"
    case 6 => "malformed"
    case 7 => "udp_not_whitelisted"
    case 8 => "udp_expired"
    case 9 => "udp_unhealthy"
    case 10 => "udp_enet_malformed"
    case 11 => "udp_ratelimit"
    case _ => "ip_fragment"
  }

  /** The five totals. */
  datatype Kind = PassTcp | DropTcp | PassUdp | DropUdp | Fragments

  /** The total a counter belongs to; some belong to none. */
  function Group(slot: nat): Option<Kind> {
    if slot == STAT_PASS_TCP then Some(PassTcp)
    else if slot == STAT_PASS_UDP_WHITELISTED then Some(PassUdp)
    else if slot == STAT_DROP_IP_FRAGMENT then Some(Fragments)
    else if slot in {STAT_DROP_MALFORMED, STAT_DROP_TCP_INITCONNECT_RATELIMIT, STAT_DROP_TCP_GETINFO_RATELIMIT,
                     STAT_DROP_TCP_BAD_USER_AGENT, STAT_DROP_TCP_NO_SYN, STAT_DROP_TCP_GLOBAL_RATELIMIT,
                     STAT_DROP_TCP_TOO_MANY_OPEN} then Some(DropTcp)
    else if slot in {STAT_DROP_UDP_NOT_WHITELISTED, STAT_DROP_UDP_EXPIRED, STAT_DROP_UDP_RATELIMIT,
                     STAT_DROP_UDP_ENET_MALFORMED, STAT_DROP_UDP_UNHEALTHY} then Some(DropUdp)
    else None
  }

  const DROP_TCP_PREFIX := "drop_tcp_"
  const DROP_UDP_PREFIX := "drop_udp_"

  /** The total a label is sent to. */
  function LabelKind(lbl: string): Option<Kind> {
    if lbl == "pass_tcp" then Some(PassTcp)
    else if lbl == "pass_udp_whitelisted" then Some(PassUdp)
    else if lbl == "drop_ip_fragment" then Some(Fragments)
    else if lbl == "drop_malformed" || DROP_TCP_PREFIX <= lbl then Some(DropTcp)
    else if DROP_UDP_PREFIX <= lbl then Some(DropUdp)
    else None
  }

  /** Sorting by the text of the labels sorts the counters as meant. */
  lemma LabelsSortCounters(slot: nat)
    requires slot < STAT_MAX
    ensures LabelKind(StatLabel(slot)) == Group(slot)
  {
    hide StatLabel, LabelKind;
    if Group(slot) == Some(DropTcp) && slot != STAT_DROP_MALFORMED {
      TcpDropLabel(slot);
    } else if Group(slot) == Some(DropUdp) {
      UdpDropLabel(slot);
    } else if slot in {STAT_DROP_MALFORMED, STAT_DROP_IP_FRAGMENT} {
      PlainDropLabel(slot);
    } else {
      OtherLabel(slot);
    }
  }

  lemma TcpDropLabel(slot: nat)
    requires Group(slot) == Some(DropTcp) && slot != STAT_DROP_MALFORMED
    ensures LabelKind(StatLabel(slot)) == Some(DropTcp)
  {
    assert StatLabel(slot)[..9] == DROP_TCP_PREFIX;
  }

  lemma UdpDropLabel(slot: nat)
    requires Group(slot) == Some(DropUdp)
    ensures LabelKind(StatLabel(slot)) == Some(DropUdp)
  {
    assert StatLabel(slot)[5] == 'u';
    assert StatLabel(slot)[..9] == DROP_UDP_PREFIX;
  }

  lemma PlainDropLabel(slot: nat)
    requires slot in {STAT_DROP_MALFORMED, STAT_DROP_IP_FRAGMENT}
    ensures LabelKind(StatLabel(slot)) == Group(slot)
  {
    assert StatLabel(slot)[5] in {'m', 'i'};
    assert DROP_TCP_PREFIX[5] == 't' && DROP_UDP_PREFIX[5] == 'u';
  }

  lemma OtherLabel(slot: nat)
    requires slot < STAT_MAX && slot !in {STAT_DROP_MALFORMED, STAT_DROP_IP_FRAGMENT}
    requires Group(slot) != Some(DropUdp) && Group(slot) != Some(DropTcp)
    ensures LabelKind(StatLabel(slot)) == Group(slot)
  {
    assert StatLabel(slot)[0] in {'p', 't'};
    assert DROP_TCP_PREFIX[0] == 'd' == DROP_UDP_PREFIX[0];
  }

  // ----- adding up over labels -----

  function GroupSum(vals: seq<nat>, kind: Kind, n: nat): nat
    requires n <= |vals|
  {
    if n == 0 then 0 else GroupSum(vals, kind, n - 1) + if Group(n - 1) == Some(kind) then vals[n - 1] else 0
  }

  lemma {:induction false} EmptyGroup(vals: seq<nat>, kind: Kind, n: nat)
    requires n <= |vals| && forall i :: 0 <= i < n ==> Group(i) != Some(kind)
    ensures GroupSum(vals, kind, n) == 0
  {
    if n > 0 {
      EmptyGroup(vals, kind, n - 1);
    }
  }

  datatype Summary = Summary(passTcp: nat, dropTcp: nat, passUdp: nat, dropUdp: nat, ipFragments: nat) {
    function Total(kind: Kind): nat {
      match kind
      case PassTcp => passTcp
      case DropTcp => dropTcp
      case PassUdp => passUdp
      case DropUdp => dropUdp
      case Fragments => ipFragments
    }
  }

  /** Each total is the 64-bit sum of the counters that belong to it. */
  method SummariseStats(vals: seq<nat>) returns (s: Summary)
    requires |vals| == STAT_MAX && forall i :: 0 <= i < STAT_MAX ==> vals[i] < TWO_64
    ensures forall kind: Kind :: s.Total(kind) == Wrap64(GroupSum(vals, kind, STAT_MAX))
  {
    hide StatLabel, Group, GroupSum, Wrap64;
    NothingSummed(vals);
    s := Summary(0, 0, 0, 0, 0);
    for i := 0 to STAT_MAX
      invariant forall kind: Kind :: s.Total(kind) == Wrap64(GroupSum(vals, kind, i))
    {
      var lbl := StatLabel(i);
      ghost var s0 := s;
      LabelsSortCounters(i);
      if lbl == "pass_tcp" {
        s := s.(passTcp := vals[i]);
        Sole(vals, i, PassTcp);
      } else if lbl == "pass_udp_whitelisted" {
        s := s.(passUdp := vals[i]);
        Sole(vals, i, PassUdp);
      } else if lbl == "drop_ip_fragment" {
        s := s.(ipFragments := vals[i]);
        Sole(vals, i, Fragments);
      } else if lbl == "drop_malformed" || DROP_TCP_PREFIX <= lbl {
        s := s.(dropTcp := Wrap64(s.dropTcp + vals[i]));
        WrapSum(GroupSum(vals, DropTcp, i), vals[i]);
      } else if DROP_UDP_PREFIX <= lbl {
        s := s.(dropUdp := Wrap64(s.dropUdp + vals[i]));
        WrapSum(GroupSum(vals, DropUdp, i), vals[i]);
      }
      forall kind: Kind
        ensures s.Total(kind) == Wrap64(GroupSum(vals, kind, i + 1))
      {
        GroupStep(vals, kind, i);
        assert s0.Total(kind) == Wrap64(GroupSum(vals, kind, i));
      }
    }
  }

  lemma NothingSummed(vals: seq<nat>)
    ensures forall kind: Kind :: Wrap64(GroupSum(vals, kind, 0)) == 0
  {
  }

  lemma GroupStep(vals: seq<nat>, kind: Kind, i: nat)
    requires i < |vals|
    ensures GroupSum(vals, kind, i + 1) == GroupSum(vals, kind, i) + if Group(i) == Some(kind) then vals[i] else 0
  {
  }

  /** These three totals have one counter each. */
  lemma Sole(vals: seq<nat>, i: nat, kind: Kind)
    requires i < |vals| && kind in {PassTcp, PassUdp, Fragments} && Group(i) == Some(kind) && vals[i] < TWO_64
    ensures Wrap64(GroupSum(vals, kind, i + 1)) == vals[i]
  {
    EmptyGroup(vals, kind, i);
  }

  // ----- sums of counters that move -----

  lemma {:induction false} GroupSumBump(vals: seq<nat>, slot: nat, kind: Kind, n: nat)
    requires n <= |vals| && slot < |vals|
    ensures GroupSum(vals[slot := vals[slot] + 1], kind, n)
         == GroupSum(vals, kind, n) + if slot < n && Group(slot) == Some(kind) then 1 else 0
  {
    hide Group;
    if n > 0 {
      GroupSumBump(vals, slot, kind, n - 1);
    }
  }

  /** Cutting each counter to 64 bits before adding changes nothing that is kept. */
  lemma {:induction false} GroupSumWraps(vals: seq<nat>, exact: seq<nat>, kind: Kind, n: nat)
    requires n <= |vals| == |exact| && forall i :: 0 <= i < n ==> vals[i] == Wrap64(exact[i])
    ensures Wrap64(GroupSum(vals, kind, n)) == Wrap64(GroupSum(exact, kind, n))
  {
    hide Group, Wrap64;
    if n > 0 {
      GroupSumWraps(vals, exact, kind, n - 1);
      WrapSum(GroupSum(vals, kind, n - 1), vals[n - 1]);
      WrapSum(GroupSum(exact, kind, n - 1), vals[n - 1]);
      WrapSum(exact[n - 1], GroupSum(exact, kind, n - 1));
    }
  }

  lemma {:induction false} ColumnUpdate(stats: seq<Row>, cpu: nat, row: Row, slot: nat)
    requires slot < STAT_MAX && cpu < |stats| && |row| == STAT_MAX
    requires forall c :: 0 <= c < |stats| ==> |stats[c]| == STAT_MAX
    ensures Column(stats[cpu := row], slot) == Column(stats, slot) - stats[cpu][slot] + row[slot]
  {
    var n := |stats| - 1;
    if cpu == n {
      assert stats[cpu := row][..n] == stats[..n];
    } else {
      assert stats[cpu := row][..n] == stats[..n][cpu := row];
      ColumnUpdate(stats[..n], cpu, row, slot);
    }
  }
}
