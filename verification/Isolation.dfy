/** Sources do not affect each other: the filter is one small automaton per source, as long as the
    SYN breaker, which all sources share, is off. */
module Isolation {
  import opened Bytes
  import opened Options
  import opened Words
  import opened Wire
  import opened Payload
  import opened Limiter
  import opened HealthWindow
  import opened FilterMaps
  import opened Scenarios
  import opened Runs
  import opened Sockets

  // ----- the automaton of one source -----

  function DropCell(enabled: bool, h: Option<History>, r: Reason, known: bool, now: nat): Option<History> {
    if !enabled then h
    else if h.Some? then Some(AddDrop(h.value, r, now))
    else if known then Some(AddDrop(History(now, now, Zeros(NUM_DROP_REASONS)), r, now))
    else None
  }

  /** What a packet with outcome `o` does to the entries of its source. */
  function PacketCell(cfg: Config, v: View, t: Traffic, o: Outcome, now: nat): View {
    v.(
      whitelist := if o == PassedPost(Promoted) || (o.Passed() && v.whitelist.Some?) then Some(now) else v.whitelist,
      synSeen := if AdmittedSyn(t, o) then Some(now) else v.synSeen,
      udp := if SpendsUdp(o) then Take(cfg.udp, v.udp, now).bucket else v.udp,
      init := if SpendsInit(o) then Take(cfg.init, v.init, now).bucket else v.init,
      info := if SpendsInfo(o) then Take(cfg.info, v.info, now).bucket else v.info,
      health := if o == Dropped(UdpEnetMalformed) then Some(Record(cfg.health, v.health, now)) else v.health,
      drops := if o.Dropped?
               then DropCell(cfg.history, v.drops, o.reason, KnownSource(v.whitelist.Some?, o.reason), now)
               else v.drops
    )
  }

  function CallbackCell(v: View, op: SockOp, now: nat): View {
    if op == PassiveEstablished then
      v.(established := Some(now), open := Some((if v.open.Some? then v.open.value else 0) + 1))
    else if Uncounts(op) && v.open.Some? && v.open.value > 0 then v.(open := Some(v.open.value - 1))
    else v
  }

  function LossCell(v: View, m: MapName): View {
    match m
    case WhitelistMap => v.(whitelist := None)
    case SynSeenMap => v.(synSeen := None)
    case EstablishedMap => v.(established := None)
    case OpenMap => v.(open := None)
    case UdpMap => v.(udp := None)
    case InitMap => v.(init := None)
    case InfoMap => v.(info := None)
    case HealthMap => v.(health := None)
    case DropsMap => v.(drops := None)
  }

  /** The event is about `ip`: its packet, its connection, or the loss of one of its entries. */
  predicate Concerns(cfg: Config, e: Event, ip: Ip) {
    match e
    case Packet(frame, _, _) => var t := Observe(cfg.port, frame); !t.Other? && t.src == ip
    case Socket(cb, _, _) => OnGuardedPort(cfg, cb) && cb.remote == ip
    case Loss(_, x, _) => x == ip
  }

  /** The automaton: the outcome of an event about this source, without the breaker. */
  function CellOutcome(cfg: Config, v: View, e: Event): Outcome {
    if e.Packet? then Decide(cfg, v, Bucket(0, 0), Observe(cfg.port, e.frame), e.now) else Unfiltered
  }

  function CellStep(cfg: Config, v: View, e: Event): View {
    match e
    case Packet(frame, _, now) => PacketCell(cfg, v, Observe(cfg.port, frame), CellOutcome(cfg, v, e), now)
    case Socket(cb, _, now) => CallbackCell(v, cb.op, now)
    case Loss(m, _, _) => LossCell(v, m)
  }

  // ----- the filter is these automata side by side -----

  /** The packet, if it is one, does not get to the breaker: that is off, or the packet is no SYN. */
  predicate AvoidsBreaker(cfg: Config, t: Traffic) {
    cfg.syn.Enabled() && t.TcpSegment? && t.syn ==> t.moreFrags
  }

  lemma BreakerIsIrrelevant(cfg: Config, v: View, b: Bucket, t: Traffic, now: nat)
    requires AvoidsBreaker(cfg, t)
    ensures Decide(cfg, v, b, t, now) == Decide(cfg, v, Bucket(0, 0), t, now)
  {
    hide DecideUdp, DecideBody, TakeFrom;
  }

  lemma SpendCell(l: Limit, m: map<Ip, Bucket>, ip: Ip, now: nat, x: Ip)
    ensures Get(Spend(l, m, ip, now), x) == if x == ip then Take(l, Get(m, ip), now).bucket else Get(m, x)
  {
  }

  lemma StampCell(m: map<Ip, nat>, ip: Ip, o: Outcome, now: nat, x: Ip)
    ensures Get(Stamp(m, ip, o, now), x)
         == if x == ip && (o == PassedPost(Promoted) || (o.Passed() && ip in m)) then Some(now) else Get(m, x)
  {
  }

  lemma DropsCell(cfg: Config, s: Maps, ip: Ip, o: Outcome, now: nat, x: Ip)
    ensures Get(DropsAfter(cfg, s, ip, o, now), x)
         == if x == ip && o.Dropped?
            then DropCell(cfg.history, Get(s.drops, ip), o.reason, KnownSource(ip in s.whitelist, o.reason), now)
            else Get(s.drops, x)
  {
    hide AddDrop;
  }

  lemma ViewFrom(s: Maps, x: Ip, v: View)
    requires Get(s.whitelist, x) == v.whitelist && Get(s.synSeen, x) == v.synSeen
    requires Get(s.established, x) == v.established && Get(s.open, x) == v.open
    requires Get(s.udp, x) == v.udp && Get(s.init, x) == v.init && Get(s.info, x) == v.info
    requires Get(s.health, x) == v.health && Get(s.drops, x) == v.drops
    ensures ViewOf(s, x) == v
  {
  }

  lemma PutCell<V>(m: map<Ip, V>, ip: Ip, put: bool, val: V, x: Ip)
    ensures Get(if put then m[ip := val] else m, x) == if put && x == ip then Some(val) else Get(m, x)
  {
  }

  lemma PacketViews(cfg: Config, s: Maps, t: Traffic, cpu: nat, now: nat, x: Ip)
    requires HasCpu(s, cpu) && !t.Other?
    ensures ViewOf(XdpStep(cfg, s, t, cpu, now), x)
         == if x == t.src then PacketCell(cfg, ViewOf(s, x), t, OutcomeOf(cfg, s, t, cpu, now), now) else ViewOf(s, x)
  {
    hide XdpStep, OutcomeOf, Stamp, AdmittedSyn, SpendsUdp, SpendsInit, SpendsInfo, Spend, Record, DropsAfter,
      ReachesBreaker, Take, Advance, Hits, DropCell, KnownSource, Get;
    var o := OutcomeOf(cfg, s, t, cpu, now);
    var s' := XdpStep(cfg, s, t, cpu, now);
    var v := ViewOf(s, x);
    var ip := t.src;
    XdpFields(cfg, s, t, cpu, now);
    StampCell(s.whitelist, ip, o, now, x);
    PutCell(s.synSeen, ip, AdmittedSyn(t, o), now, x);
    SpendCell(cfg.udp, s.udp, ip, now, x);
    SpendCell(cfg.init, s.init, ip, now, x);
    SpendCell(cfg.info, s.info, ip, now, x);
    PutCell(s.health, ip, o == Dropped(UdpEnetMalformed), Record(cfg.health, Get(s.health, ip), now), x);
    DropsCell(cfg, s, ip, o, now, x);
    GetSome(s.whitelist, ip);
    ViewFrom(s', x, if x == ip then PacketCell(cfg, v, t, o, now) else v);
  }

  lemma GetSome<V>(m: map<Ip, V>, ip: Ip)
    ensures Get(m, ip).Some? <==> ip in m
  {
  }

  lemma CallbackViews(cfg: Config, s: Maps, cb: Callback, cpu: nat, now: nat, x: Ip)
    requires HasCpu(s, cpu)
    ensures ViewOf(SockStep(cfg, s, cb, cpu, now), x)
         == if OnGuardedPort(cfg, cb) && cb.remote == x then CallbackCell(ViewOf(s, x), cb.op, now) else ViewOf(s, x)
  {
    hide SockStep, OnGuardedPort, Uncounts, Advance, OpenInc, OpenDec, Get;
    var s' := SockStep(cfg, s, cb, cpu, now);
    var v := ViewOf(s, x);
    SockFields(cfg, s, cb, cpu, now);
    PutCell(s.established, cb.remote, OnGuardedPort(cfg, cb) && cb.op == PassiveEstablished, now, x);
    OpenCells(s.open, cb.remote, x);
    ViewFrom(s', x, if OnGuardedPort(cfg, cb) && cb.remote == x then CallbackCell(v, cb.op, now) else v);
  }

  lemma OpenCells(m: map<Ip, int>, ip: Ip, x: Ip)
    ensures Get(OpenInc(m, ip), x)
         == if x == ip then Some((if Get(m, x).Some? then Get(m, x).value else 0) + 1) else Get(m, x)
    ensures Get(OpenDec(m, ip), x)
         == if x == ip && Get(m, x).Some? && Get(m, x).value > 0 then Some(Get(m, x).value - 1) else Get(m, x)
  {
  }

  lemma LossViews(s: Maps, m: MapName, ip: Ip, x: Ip)
    ensures ViewOf(LossStep(s, m, ip), x) == if x == ip then LossCell(ViewOf(s, x), m) else ViewOf(s, x)
  {
  }

  /** One event of a run, seen from one source. */
  lemma CellFollows(run: Run, k: nat, ip: Ip)
    requires run.Valid() && k < |run.events|
    requires Concerns(run.cfg, run.events[k], ip) ==> AvoidsBreaker(run.cfg, run.Seen(k))
    ensures ViewOf(run.states[k + 1], ip)
         == if Concerns(run.cfg, run.events[k], ip) then CellStep(run.cfg, ViewOf(run.states[k], ip), run.events[k])
            else ViewOf(run.states[k], ip)
    ensures Concerns(run.cfg, run.events[k], ip) ==>
              run.Out(k) == CellOutcome(run.cfg, ViewOf(run.states[k], ip), run.events[k])
  {
    hide XdpStep, SockStep, LossStep, Observe, Decide, PacketCell, CallbackCell, LossCell, ViewOf, OnGuardedPort,
      AvoidsBreaker;
    var s, e := run.states[k], run.events[k];
    assert run.Follows(k);
    match e
    case Packet(frame, cpu, now) =>
      var t := Observe(run.cfg.port, frame);
      if t.Other? {
        QuietFields(run, k);
      } else {
        if AvoidsBreaker(run.cfg, t) {
          BreakerIsIrrelevant(run.cfg, ViewOf(s, t.src), s.breaker[cpu], t, now);
        }
        PacketViews(run.cfg, s, t, cpu, now, ip);
      }
    case Socket(cb, cpu, now) => CallbackViews(run.cfg, s, cb, cpu, now, ip);
    case Loss(m, x, _) => LossViews(s, m, x, ip);
  }

  // ----- isolation -----

  /** The events about one source. */
  function Project(cfg: Config, events: seq<Event>, ip: Ip): seq<Event> {
    if events == [] then []
    else
      var front := Project(cfg, events[..|events| - 1], ip);
      var e := events[|events| - 1];
      if Concerns(cfg, e, ip) then front + [e] else front
  }

  lemma {:induction false} ProjectPrefix(cfg: Config, events: seq<Event>, ip: Ip, k: nat)
    requires k <= |events|
    ensures Project(cfg, events[..k], ip) <= Project(cfg, events, ip)
  {
    hide Concerns;
    if k == |events| {
      assert events[..k] == events;
    } else {
      var n := |events| - 1;
      ProjectPrefix(cfg, events[..n], ip, k);
      assert events[..n][..k] == events[..k];
    }
  }

  /** Where event `k` of the whole run stands in the projected one. */
  function Position(cfg: Config, events: seq<Event>, ip: Ip, k: nat): nat
    requires k <= |events|
  {
    |Project(cfg, events[..k], ip)|
  }

  lemma PositionStep(cfg: Config, events: seq<Event>, ip: Ip, k: nat)
    requires k < |events|
    ensures var p := Position(cfg, events, ip, k);
            if Concerns(cfg, events[k], ip)
            then p < |Project(cfg, events, ip)| && Project(cfg, events, ip)[p] == events[k]
                 && Position(cfg, events, ip, k + 1) == p + 1
            else Position(cfg, events, ip, k + 1) == p
  {
    hide Concerns;
    assert events[..k + 1][..k] == events[..k];
    ProjectPrefix(cfg, events, ip, k + 1);
  }

  /** `alone` holds just the events of `whole` about `ip`, from the same entries of `ip`. */
  ghost predicate IsAlone(whole: Run, alone: Run, ip: Ip) {
    && whole.Valid() && alone.Valid() && whole.cfg == alone.cfg
    && alone.events == Project(whole.cfg, whole.events, ip)
    && ViewOf(whole.states[0], ip) == ViewOf(alone.states[0], ip)
  }

  /** The source cannot tell the two runs apart: same entries after every event, same outcomes. */
  ghost predicate Same(whole: Run, alone: Run, ip: Ip)
    requires IsAlone(whole, alone, ip)
  {
    forall k :: 0 <= k <= |whole.events| ==> SameAt(whole, alone, ip, k)
  }

  ghost predicate SameAt(whole: Run, alone: Run, ip: Ip, k: nat)
    requires IsAlone(whole, alone, ip) && k <= |whole.events|
  {
    var p := Position(whole.cfg, whole.events, ip, k);
    && p < |alone.states|
    && ViewOf(whole.states[k], ip) == ViewOf(alone.states[p], ip)
    && (k < |whole.events| && Concerns(whole.cfg, whole.events[k], ip) ==>
          p < |alone.events| && whole.Out(k) == alone.Out(p))
  }

  /** No SYN of the source gets to the breaker: it sends none, or the breaker is off. */
  ghost predicate Apart(run: Run, ip: Ip) {
    forall k :: 0 <= k < |run.events| && Concerns(run.cfg, run.events[k], ip) ==> AvoidsBreaker(run.cfg, run.Seen(k))
  }

  lemma OffIsApart(run: Run, ip: Ip)
    requires !run.cfg.syn.Enabled()
    ensures Apart(run, ip)
  {
  }

  lemma {:induction false} SameViews(whole: Run, alone: Run, ip: Ip, k: nat)
    requires IsAlone(whole, alone, ip) && k <= |whole.events| && Apart(whole, ip)
    ensures var p := Position(whole.cfg, whole.events, ip, k);
            p <= |alone.events| && ViewOf(whole.states[k], ip) == ViewOf(alone.states[p], ip)
  {
    hide Run.Valid, Run.Seen, ViewOf, Concerns, CellStep, CellOutcome, Project, Position, AvoidsBreaker;
    if k == 0 {
      assert Position(whole.cfg, whole.events, ip, 0) == 0 by {
        PositionStart(whole.cfg, whole.events, ip);
      }
    } else {
      SameViews(whole, alone, ip, k - 1);
      PositionStep(whole.cfg, whole.events, ip, k - 1);
      CellFollows(whole, k - 1, ip);
      var p := Position(whole.cfg, whole.events, ip, k - 1);
      if Concerns(whole.cfg, whole.events[k - 1], ip) {
        SameSeen(whole, alone, k - 1, p);
        CellFollows(alone, p, ip);
      }
    }
  }

  lemma SameSeen(run: Run, other: Run, k: nat, j: nat)
    requires k < |run.events| && j < |other.events| && run.cfg == other.cfg && run.events[k] == other.events[j]
    ensures run.Seen(k) == other.Seen(j)
  {
  }

  lemma PositionStart(cfg: Config, events: seq<Event>, ip: Ip)
    ensures Position(cfg, events, ip, 0) == 0
  {
  }

  /** Without a SYN at the breaker every source is on its own: in any interleaving, with any losses of
      entries, its outcomes and its nine entries are those of the run holding only the events about it. */
  lemma SourcesAreIsolated(whole: Run, alone: Run, ip: Ip)
    requires IsAlone(whole, alone, ip) && Apart(whole, ip)
    ensures Same(whole, alone, ip)
  {
    forall k | 0 <= k <= |whole.events|
      ensures SameAt(whole, alone, ip, k)
    {
      hide Run.Valid, Run.Seen, ViewOf, Concerns, CellStep, CellOutcome, Project, Position, AvoidsBreaker;
      SameViews(whole, alone, ip, k);
      if k < |whole.events| {
        PositionStep(whole.cfg, whole.events, ip, k);
        if Concerns(whole.cfg, whole.events[k], ip) {
          var p := Position(whole.cfg, whole.events, ip, k);
          SameSeen(whole, alone, k, p);
          CellFollows(whole, k, ip);
          CellFollows(alone, p, ip);
        }
      }
    }
  }

  // ----- with the breaker on -----

  /** A SYN from `src` to `port`. */
  function SynFrame(port: nat, src: Ip): Bytes
    requires port < 0x1_0000 && src < 0x1_0000_0000
  {
    TcpFrame(port, src, SYN, [])
  }

  lemma ObserveSyn(port: nat, src: Ip)
    requires port < 0x1_0000 && src < 0x1_0000_0000
    ensures Observe(port, SynFrame(port, src)) == TcpSegment(src, false, true, Some([]))
  {
    hide Observe, TcpFrame;
    ObserveTcpFrame(port, src, SYN, []);
  }

  /** A first SYN from a source without entries: only the breaker can refuse it. */
  lemma FirstSyn(cfg: Config, s: Maps, t: Traffic, cpu: nat, now: nat)
    requires HasCpu(s, cpu) && t.TcpSegment? && t.syn && !t.moreFrags && t.body == Some([]) && t.src !in s.open
    ensures OutcomeOf(cfg, s, t, cpu, now)
         == if Take(cfg.syn, Some(s.breaker[cpu]), now).ok then PassedTcp else Dropped(TcpGlobalRatelimit)
  {
    hide Take;
    assert RequestOf([]) == NoRequest;
  }

  /** A fresh breaker at the end of its first period admits one SYN and then none. */
  lemma FreshBreaker(l: Limit)
    requires l.Enabled() && l.period < TWO_64
    ensures Take(l, Some(Bucket(0, 0)), l.period) == Taken(true, Some(Bucket(0, l.period)))
    ensures !Take(l, Some(Bucket(0, l.period)), l.period).ok
  {
    hide TakeFrom, PlainTake;
    DivUnique(l.period, l.period, 1);
    var k, grown := TakeInWords(l, Bucket(0, 0), l.period);
    DivUnique(0, l.period, 0);
    var k', grown' := TakeInWords(l, Bucket(0, l.period), l.period);
  }

  /** Whatever the breaker's settings, two SYNs of different sources in one period are enough: the
      second is dropped although alone it would have passed. */
  lemma BreakerCouplesSources(cfg: Config, a: Ip, b: Ip) returns (whole: Run, alone: Run)
    requires cfg.syn.Enabled() && cfg.syn.period < TWO_64 && cfg.port < 0x1_0000
    requires a != b && a < 0x1_0000_0000 && b < 0x1_0000_0000
    ensures whole.cfg == cfg && IsAlone(whole, alone, b) && !Same(whole, alone, b)
  {
    hide XdpStep, OutcomeOf, Observe, SynFrame, Take, Spend, Advance;
    var p := cfg.syn.period;
    var ea, eb := Packet(SynFrame(cfg.port, a), 0, p), Packet(SynFrame(cfg.port, b), 0, p);
    ObserveSyn(cfg.port, a);
    ObserveSyn(cfg.port, b);
    FreshBreaker(cfg.syn);
    whole := Exec(cfg, 1, Empty(1), [ea, eb]);
    alone := Exec(cfg, 1, Empty(1), [eb]);
    assert !Concerns(cfg, ea, b) && Concerns(cfg, eb, b);
    assert [ea, eb][..1] == [ea] && [ea][..0] == [] && [eb][..0] == [];
    assert Project(cfg, [ea], b) == [];
    assert Project(cfg, [ea, eb], b) == [eb];
    assert Position(cfg, [ea, eb], b, 1) == 0;
    FirstSyn(cfg, alone.states[0], alone.Seen(0), 0, p);
    FirstSyn(cfg, whole.states[0], whole.Seen(0), 0, p);
    PacketFields(whole, 0);
    FirstSyn(cfg, whole.states[1], whole.Seen(1), 0, p);
    assert !SameAt(whole, alone, b, 1);
  }

  /** So isolation is exactly the breaker being off. */
  lemma IsolatedIffBreakerOff(cfg: Config)
    requires cfg.syn.period < TWO_64 && cfg.port < 0x1_0000
    ensures !cfg.syn.Enabled() <==>
            forall whole: Run, alone: Run, ip: Ip ::
              whole.cfg == cfg && IsAlone(whole, alone, ip) ==> Same(whole, alone, ip)
  {
    hide IsAlone, Same;
    if cfg.syn.Enabled() {
      var whole, alone := BreakerCouplesSources(cfg, 1, 2);
    } else {
      forall whole: Run, alone: Run, ip: Ip | whole.cfg == cfg && IsAlone(whole, alone, ip)
        ensures Same(whole, alone, ip)
      {
        assert Apart(whole, ip) by { OffIsApart(whole, ip); }
        SourcesAreIsolated(whole, alone, ip);
      }
    }
  }
}
