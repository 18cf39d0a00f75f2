/** The open-connection counter against the sockets the kernel really has, and the cap it feeds. */
module Connections {
  import opened Bytes
  import opened Options
  import opened Words
  import opened Wire
  import opened Payload
  import opened Limiter
  import opened HealthWindow
  import opened FilterMaps
  import opened Runs
  import opened Sockets
  import Isolation

  // ----- the life of a connection -----

  /** The transitions of an accepted connection in sections 3.3.2 and 3.10.7.4 of RFC 9293, with a reset
      or an abort leading to CLOSED from every state. */
  predicate Edge(a: TcpState, b: TcpState) {
    match a
    case SynRecv => b in {Established, FinWait1, CloseWait, Close}
    case Established => b in {FinWait1, CloseWait, Close}
    case FinWait1 => b in {FinWait2, Closing, TimeWait, Close}
    case FinWait2 => b in {TimeWait, Close}
    case Closing => b in {TimeWait, Close}
    case CloseWait => b in {LastAck, Close}
    case LastAck => b == Close
    case TimeWait => b == Close
    case _ => false
  }

  /** The passive-established callback comes while the socket is still in SYN-RECEIVED. */
  predicate Path(states: seq<TcpState>) {
    && |states| > 0 && states[0] in {SynRecv, Established}
    && forall i :: 0 <= i < |states| - 1 ==> Edge(states[i], states[i + 1])
  }

  /** How many of the state callbacks along a path the program takes for a close. */
  function Uncounted(states: seq<TcpState>): nat {
    if |states| < 2 then 0
    else
      var n := |states|;
      Uncounted(states[..n - 1]) + if Uncounts(StateChange(states[n - 2], states[n - 1])) then 1 else 0
  }

  /** Each counted connection is uncounted at most once, and not before it is closed: exactly once if it
      has ever left SYN-RECEIVED for another state than CLOSED, and never if it closed from there. */
  lemma {:induction false} UncountedOnce(states: seq<TcpState>)
    requires Path(states)
    ensures Uncounted(states) == if states[|states| - 1] == Close && states != [SynRecv, Close] then 1 else 0
    ensures states[|states| - 1] == SynRecv <==> states == [SynRecv]
    ensures states[|states| - 1] in {SynRecv, Close} || Counted(states[|states| - 1])
  {
    var n := |states|;
    if n > 1 {
      var front := states[..n - 1];
      UncountedOnce(front);
      assert Edge(states[n - 2], states[n - 1]);
      assert states == front + [states[n - 1]];
    }
  }

  // ----- the kernel's sockets -----

  /** A socket that reports its state changes: it was passively established on the guarded port. */
  datatype Sock = Sock(src: Ip, state: TcpState)

  type Table = map<nat, Sock>

  /** The kernel delivers callbacks of a socket in the order of its state changes: the passive-established
      one in SYN-RECEIVED, then along the edges until it is closed. Of other sockets it reports at most
      changes before establishment. */
  predicate Proper(cfg: Config, tab: Table, e: Event) {
    e.Socket? && OnGuardedPort(cfg, e.cb) ==>
      match e.cb.op
      case PassiveEstablished => e.cb.sock !in tab
      case StateChange(a, b) =>
        if e.cb.sock in tab then tab[e.cb.sock] == Sock(e.cb.remote, a) && Edge(a, b) else !Counted(a)
      case OtherOp => true
  }

  function TableStep(cfg: Config, tab: Table, e: Event): Table {
    if e.Socket? && OnGuardedPort(cfg, e.cb) then
      match e.cb.op
      case PassiveEstablished => tab[e.cb.sock := Sock(e.cb.remote, SynRecv)]
      case StateChange(_, b) =>
        if e.cb.sock !in tab then tab
        else if b == Close then tab - {e.cb.sock}
        else tab[e.cb.sock := Sock(e.cb.remote, b)]
      case OtherOp => tab
    else tab
  }

  /** The states of a socket in the table. */
  predicate Tracked(st: TcpState) {
    st == SynRecv || Counted(st)
  }

  predicate AllTracked(tab: Table) {
    forall x :: x in tab ==> Tracked(tab[x].state)
  }

  /** `tabs` are the kernel's sockets before each event of the run and after the last. */
  ghost predicate Kernel(run: Run, tabs: seq<Table>)
    ensures Kernel(run, tabs) ==> |tabs| == |run.events| + 1
  {
    && |tabs| == |run.events| + 1
    && AllTracked(tabs[0])
    && forall k :: 0 <= k < |run.events| ==> KernelStep(run.cfg, tabs[k], run.events[k], tabs[k + 1])
  }

  predicate KernelStep(cfg: Config, tab: Table, e: Event, tab': Table) {
    Proper(cfg, tab, e) && tab' == TableStep(cfg, tab, e)
  }

  function SocketsOf(tab: Table, ip: Ip): set<nat> {
    set x | x in tab && tab[x].src == ip
  }

  /** The sockets a source holds. */
  function Live(tab: Table, ip: Ip): nat {
    |SocketsOf(tab, ip)|
  }

  function OpenCount(s: Maps, ip: Ip): int {
    if ip in s.open then s.open[ip] else 0
  }

  predicate Opens(cfg: Config, e: Event, ip: Ip) {
    e.Socket? && OnGuardedPort(cfg, e.cb) && e.cb.op == PassiveEstablished && e.cb.remote == ip
  }

  predicate Closes(cfg: Config, e: Event, ip: Ip) {
    e.Socket? && OnGuardedPort(cfg, e.cb) && Uncounts(e.cb.op) && e.cb.remote == ip
  }

  /** A socket of `ip` closes from SYN-RECEIVED: it goes, and stays counted. */
  predicate Leaks(cfg: Config, tab: Table, e: Event, ip: Ip) {
    && e.Socket? && OnGuardedPort(cfg, e.cb) && e.cb.op == StateChange(SynRecv, Close)
    && e.cb.sock in tab && e.cb.remote == ip
  }

  /** The leaks of `ip` among events `lo` to `hi - 1`. */
  ghost function Leaked(run: Run, tabs: seq<Table>, ip: Ip, lo: nat, hi: nat): nat
    requires Kernel(run, tabs) && lo <= hi <= |run.events|
    decreases hi
  {
    if lo == hi then 0
    else Leaked(run, tabs, ip, lo, hi - 1) + if Leaks(run.cfg, tabs[hi - 1], run.events[hi - 1], ip) then 1 else 0
  }

  lemma TableAdds(tab: Table, x: nat, sock: Sock, ip: Ip)
    requires x !in tab && AllTracked(tab) && Tracked(sock.state)
    ensures AllTracked(tab[x := sock])
    ensures Live(tab[x := sock], ip) == Live(tab, ip) + if sock.src == ip then 1 else 0
  {
    hide Tracked;
    assert SocketsOf(tab[x := sock], ip) == if sock.src == ip then SocketsOf(tab, ip) + {x} else SocketsOf(tab, ip);
  }

  lemma TableMoves(tab: Table, x: nat, sock: Sock, ip: Ip)
    requires x in tab && AllTracked(tab) && Tracked(sock.state) && tab[x].src == sock.src
    ensures AllTracked(tab[x := sock])
    ensures Live(tab[x := sock], ip) == Live(tab, ip)
  {
    hide Tracked;
    assert SocketsOf(tab[x := sock], ip) == SocketsOf(tab, ip);
  }

  lemma TableRemoves(tab: Table, x: nat, ip: Ip)
    requires x in tab && AllTracked(tab)
    ensures AllTracked(tab - {x})
    ensures Live(tab, ip) == Live(tab - {x}, ip) + if tab[x].src == ip then 1 else 0
  {
    hide Tracked;
    assert SocketsOf(tab - {x}, ip) == SocketsOf(tab, ip) - {x};
    assert x in SocketsOf(tab, ip) <==> tab[x].src == ip;
  }

  lemma EdgesStayTracked(a: TcpState, b: TcpState)
    requires Edge(a, b)
    ensures b == Close || Tracked(b)
    ensures Tracked(SynRecv)
    ensures Tracked(a) && a != SynRecv ==> Counted(a)
    ensures !Counted(SynRecv)
  {
  }

  /** One event changes a source's sockets by one exactly when the program counts it, or should. */
  lemma TableCounts(cfg: Config, tab: Table, e: Event, tab': Table, ip: Ip)
    requires AllTracked(tab) && KernelStep(cfg, tab, e, tab')
    ensures AllTracked(tab')
    ensures Live(tab', ip)
         == Live(tab, ip) + (if Opens(cfg, e, ip) then 1 else 0)
            - (if Closes(cfg, e, ip) then 1 else 0) - (if Leaks(cfg, tab, e, ip) then 1 else 0)
  {
    hide OnGuardedPort, Live, Edge, Counted, Tracked;
    if e.Socket? && OnGuardedPort(cfg, e.cb) {
      match e.cb.op
      case PassiveEstablished =>
        NewIsTracked();
        TableAdds(tab, e.cb.sock, Sock(e.cb.remote, SynRecv), ip);
      case StateChange(a, b) =>
        if e.cb.sock in tab {
          EdgesStayTracked(a, b);
          if b == Close {
            TableRemoves(tab, e.cb.sock, ip);
          } else {
            TableMoves(tab, e.cb.sock, Sock(e.cb.remote, b), ip);
          }
        }
      case OtherOp =>
    }
  }

  lemma NewIsTracked()
    ensures Tracked(SynRecv)
  {
  }

  /** What one event does to a source's counter. */
  lemma OpenStep(run: Run, k: nat, ip: Ip)
    requires run.Valid() && k < |run.events|
    ensures Get(run.states[k + 1].open, ip)
         == if Opens(run.cfg, run.events[k], ip) then Some(OpenCount(run.states[k], ip) + 1)
            else if Closes(run.cfg, run.events[k], ip) && OpenCount(run.states[k], ip) > 0
              then Some(OpenCount(run.states[k], ip) - 1)
            else if run.Loses(k, OpenMap, ip) then None
            else Get(run.states[k].open, ip)
  {
    hide XdpStep, SockStep, LossStep, Observe, OutcomeOf, Record, Run.Valid, Stamp, Spend, DropsAfter, Advance, Hits,
      Take, SpendsUdp, SpendsInit, SpendsInfo, AdmittedSyn, ReachesBreaker, OnGuardedPort, Uncounts, OpenInc, OpenDec;
    var s, e := run.states[k], run.events[k];
    match e
    case Packet(_, _, _) =>
      if run.Seen(k).Other? {
        QuietFields(run, k);
      } else {
        PacketFields(run, k);
      }
    case Socket(cb, _, _) =>
      SocketFields(run, k);
      Isolation.OpenCells(s.open, cb.remote, ip);
      OpensOrCloses(cb.op);
    case Loss(m, x, _) =>
      QuietFields(run, k);
      LossFields(s, m, x);
  }

  lemma OpensOrCloses(op: SockOp)
    ensures !(op == PassiveEstablished && Uncounts(op))
  {
  }

  lemma {:induction false} TablesTracked(run: Run, tabs: seq<Table>, k: nat)
    requires Kernel(run, tabs) && k <= |run.events|
    ensures AllTracked(tabs[k])
  {
    hide AllTracked, KernelStep;
    if k > 0 {
      TablesTracked(run, tabs, k - 1);
      TableCounts(run.cfg, tabs[k - 1], run.events[k - 1], tabs[k], 0);
    }
  }

  /** The counter understates, or is exact. */
  predicate Low(s: Maps, tab: Table, ip: Ip) {
    0 <= OpenCount(s, ip) <= Live(tab, ip)
  }

  /** A reset makes it low, whatever it was: the reset deletes the entry. */
  lemma ResetIsLow(run: Run, tabs: seq<Table>, k: nat, ip: Ip)
    requires run.Valid() && Kernel(run, tabs) && k < |run.events| && run.Loses(k, OpenMap, ip)
    ensures Low(run.states[k + 1], tabs[k + 1], ip)
  {
    hide Run.Valid, Live;
    OpenStep(run, k, ip);
  }

  /** The counter overstates by leaks alone: from its reset on, or from a time at which it was low, whatever
      is evicted or deleted, it lies between zero and the sockets the source really holds and those that
      have closed from SYN-RECEIVED since. */
  lemma {:induction false} CounterNeverOverstates(run: Run, tabs: seq<Table>, from: nat, k: nat, ip: Ip)
    requires run.Valid() && Kernel(run, tabs) && from <= k <= |run.events| && Low(run.states[from], tabs[from], ip)
    ensures 0 <= OpenCount(run.states[k], ip) <= Live(tabs[k], ip) + Leaked(run, tabs, ip, from, k)
    decreases k
  {
    hide Run.Valid, KernelStep, AllTracked, Opens, Closes, Leaks, Live, Run.Loses;
    if from < k {
      CounterNeverOverstates(run, tabs, from, k - 1, ip);
      TablesTracked(run, tabs, k - 1);
      assert KernelStep(run.cfg, tabs[k - 1], run.events[k - 1], tabs[k]);
      TableCounts(run.cfg, tabs[k - 1], run.events[k - 1], tabs[k], ip);
      OpenStep(run, k - 1, ip);
      NotBoth(run.cfg, run.events[k - 1], ip);
    }
  }

  lemma NotBoth(cfg: Config, e: Event, ip: Ip)
    ensures !(Opens(cfg, e, ip) && Closes(cfg, e, ip))
  {
    hide OnGuardedPort;
  }

  /** Without losses it is just that, once it was exact. */
  lemma {:induction false} CounterIsExact(run: Run, tabs: seq<Table>, from: nat, k: nat, ip: Ip)
    requires run.Valid() && Kernel(run, tabs) && from <= k <= |run.events|
    requires OpenCount(run.states[from], ip) == Live(tabs[from], ip)
    requires forall j :: from <= j < k ==> !run.Loses(j, OpenMap, ip)
    ensures OpenCount(run.states[k], ip) == Live(tabs[k], ip) + Leaked(run, tabs, ip, from, k)
    decreases k
  {
    hide Run.Valid, KernelStep, AllTracked, Opens, Closes, Leaks, Live, Run.Loses;
    if from < k {
      CounterIsExact(run, tabs, from, k - 1, ip);
      TablesTracked(run, tabs, k - 1);
      assert KernelStep(run.cfg, tabs[k - 1], run.events[k - 1], tabs[k]);
      TableCounts(run.cfg, tabs[k - 1], run.events[k - 1], tabs[k], ip);
      OpenStep(run, k - 1, ip);
      NotBoth(run.cfg, run.events[k - 1], ip);
    }
  }

  // ----- the cap -----

  lemma CapMeans(cfg: Config, s: Maps, t: Traffic, cpu: nat, now: nat)
    requires HasCpu(s, cpu) && !t.Other? && OutcomeOf(cfg, s, t, cpu, now) == Dropped(TcpTooManyOpen)
    ensures t.src in s.open && s.open[t.src] >= Signed64(cfg.maxOpen)
  {
    hide Take, Anomalous, IsBlacklisted, Wrap64, MatchPostClient, MatchGetEndpoint, AgentOf, Signed64;
  }

  /** A SYN is refused as too many open only when its source holds that many sockets, leaked ones
      included, for every cap below half the 64-bit range. */
  lemma CapIsSound(run: Run, tabs: seq<Table>, from: nat, k: nat, ip: Ip)
    requires run.Valid() && Kernel(run, tabs) && from <= k < |run.events| && Low(run.states[from], tabs[from], ip)
    requires run.From(k, ip) && run.Out(k) == Dropped(TcpTooManyOpen) && run.cfg.maxOpen < TWO_63
    ensures Live(tabs[k], ip) + Leaked(run, tabs, ip, from, k) >= run.cfg.maxOpen
  {
    hide Run.Valid, Observe, OutcomeOf, Kernel, Live, Leaked;
    PacketFields(run, k);
    CapMeans(run.cfg, run.states[k], run.Seen(k), run.events[k].cpu, run.events[k].now);
    CounterNeverOverstates(run, tabs, from, k, ip);
  }

  lemma CapDecides(cfg: Config, s: Maps, t: Traffic, cpu: nat, now: nat)
    requires HasCpu(s, cpu) && t.TcpSegment? && t.syn && !t.moreFrags && 0 < cfg.maxOpen < TWO_63
    ensures OutcomeOf(cfg, s, t, cpu, now) == Dropped(TcpTooManyOpen) <==> OpenCount(s, t.src) >= cfg.maxOpen
  {
    hide Take, RequestOf;
  }

  /** And without loss a SYN is refused whenever it does. */
  lemma CapIff(run: Run, tabs: seq<Table>, from: nat, k: nat, ip: Ip)
    requires run.Valid() && Kernel(run, tabs) && from <= k < |run.events| && 0 < run.cfg.maxOpen < TWO_63
    requires OpenCount(run.states[from], ip) == Live(tabs[from], ip)
    requires forall j :: from <= j < k ==> !run.Loses(j, OpenMap, ip)
    requires run.From(k, ip) && run.Seen(k).TcpSegment? && run.Seen(k).syn && !run.Seen(k).moreFrags
    ensures run.Out(k) == Dropped(TcpTooManyOpen)
       <==> Live(tabs[k], ip) + Leaked(run, tabs, ip, from, k) >= run.cfg.maxOpen
  {
    hide Run.Valid, Observe, OutcomeOf, Kernel, Live, Leaked;
    PacketFields(run, k);
    CapDecides(run.cfg, run.states[k], run.Seen(k), run.events[k].cpu, run.events[k].now);
    CounterIsExact(run, tabs, from, k, ip);
  }

  /** The counters of all sources are low at the start. */
  ghost predicate StartsLow(run: Run, tabs: seq<Table>)
    requires |run.states| > 0 && |tabs| > 0
  {
    forall ip: Ip :: Low(run.states[0], tabs[0], ip)
  }

  /** Event `k` is refused by the cap although its source holds fewer sockets. */
  ghost predicate WronglyCapped(run: Run, tabs: seq<Table>, k: nat)
    requires run.Valid() && Kernel(run, tabs) && k < |run.events|
  {
    !run.Seen(k).Other? && run.Out(k) == Dropped(TcpTooManyOpen) && Live(tabs[k], run.Seen(k).src) < run.cfg.maxOpen
  }

  /** No socket closes from SYN-RECEIVED. */
  ghost predicate NoLeaks(run: Run, tabs: seq<Table>)
    requires Kernel(run, tabs)
  {
    forall k, ip: Ip :: 0 <= k < |run.events| ==> !Leaks(run.cfg, tabs[k], run.events[k], ip)
  }

  lemma {:induction false} NoneLeaked(run: Run, tabs: seq<Table>, ip: Ip, lo: nat, hi: nat)
    requires Kernel(run, tabs) && NoLeaks(run, tabs) && lo <= hi <= |run.events|
    ensures Leaked(run, tabs, ip, lo, hi) == 0
    decreases hi
  {
    hide Leaks, KernelStep;
    if lo < hi {
      NoneLeaked(run, tabs, ip, lo, hi - 1);
    }
  }

  // ----- witness runs -----

  const VISITOR: Ip := 1

  function Notice(cfg: Config, op: SockOp): Event {
    Socket(Callback(op, cfg.port, AF_INET, VISITOR, 7), 0, 1)
  }

  const ACCEPT: SockOp := PassiveEstablished
  const ESTABLISH: SockOp := StateChange(SynRecv, Established)
  const ABORT: SockOp := StateChange(SynRecv, Close)
  const RESET: SockOp := StateChange(Established, Close)

  const NOBODY: Table := map[]
  const NEW: Table := map[7 := Sock(VISITOR, SynRecv)]
  const CONNECTED: Table := map[7 := Sock(VISITOR, Established)]

  lemma NoticesInTable(cfg: Config, e: Event)
    ensures KernelStep(cfg, NOBODY, Notice(cfg, ACCEPT), NEW)
    ensures KernelStep(cfg, NEW, Notice(cfg, ESTABLISH), CONNECTED)
    ensures KernelStep(cfg, CONNECTED, Notice(cfg, RESET), NOBODY)
    ensures KernelStep(cfg, NEW, Notice(cfg, ABORT), NOBODY)
    ensures !e.Socket? ==> KernelStep(cfg, NOBODY, e, NOBODY)
  {
    assert NEW[7 := Sock(VISITOR, Established)] == CONNECTED;
    assert CONNECTED - {7} == NOBODY && NEW - {7} == NOBODY;
  }

  /** What the notices do to the counter. */
  lemma NoticeCounts(run: Run, k: nat, op: SockOp)
    requires run.Valid() && k < |run.events| && run.events[k] == Notice(run.cfg, op)
    requires op in {ACCEPT, ESTABLISH, ABORT, RESET} && OpenCount(run.states[k], VISITOR) >= 0
    ensures OpenCount(run.states[k + 1], VISITOR)
         == OpenCount(run.states[k], VISITOR) + (if op == ACCEPT then 1 else 0)
            - (if op == RESET && OpenCount(run.states[k], VISITOR) > 0 then 1 else 0)
    ensures VISITOR in run.states[k].open || op == ACCEPT ==> VISITOR in run.states[k + 1].open
  {
    hide Run.Valid;
    OpenStep(run, k, VISITOR);
  }

  lemma SynOverCap(cfg: Config, s: Maps, t: Traffic, cpu: nat, now: nat)
    requires HasCpu(s, cpu) && t.TcpSegment? && t.syn && !t.moreFrags
    requires 0 < cfg.maxOpen < TWO_64 && t.src in s.open && s.open[t.src] >= Signed64(cfg.maxOpen)
    ensures OutcomeOf(cfg, s, t, cpu, now) == Dropped(TcpTooManyOpen)
  {
    hide Take, DecideRequest;
  }

  lemma LastSynIsRefused(run: Run, k: nat)
    requires run.Valid() && k < |run.events| && run.cfg.port < 0x1_0000 && 0 < run.cfg.maxOpen < TWO_64
    requires run.events[k] == Packet(Isolation.SynFrame(run.cfg.port, VISITOR), 0, 1)
    requires VISITOR in run.states[k].open && run.states[k].open[VISITOR] >= Signed64(run.cfg.maxOpen)
    ensures run.From(k, VISITOR) && run.Out(k) == Dropped(TcpTooManyOpen)
  {
    hide Run.Follows, Observe, OutcomeOf, Isolation.SynFrame, Signed64;
    Isolation.ObserveSyn(run.cfg.port, VISITOR);
    SynOverCap(run.cfg, run.states[k], run.Seen(k), 0, 1);
  }

  lemma EmptyStartsLow(run: Run, tabs: seq<Table>)
    requires |run.states| > 0 && |tabs| > 0 && run.states[0].open == map[]
    ensures StartsLow(run, tabs)
  {
  }

  lemma NobodyHere(ip: Ip)
    ensures Live(NOBODY, ip) == 0
  {
    assert SocketsOf(NOBODY, ip) == {};
  }

  /** A cap in the upper half of the range is read as a negative number, and then refuses every source
      that has ever connected: here one whose only connection is closed again. */
  lemma HugeCapRefusesEveryone(cfg: Config) returns (run: Run, tabs: seq<Table>)
    requires TWO_63 <= cfg.maxOpen < TWO_64 && cfg.port < 0x1_0000
    ensures run.cfg == cfg && run.Valid() && run.states[0] == Empty(1) && |run.events| == 4
    ensures Kernel(run, tabs) && StartsLow(run, tabs) && NoLeaks(run, tabs) && WronglyCapped(run, tabs, 3)
  {
    hide Run.Follows, Observe, OutcomeOf, Isolation.SynFrame, Notice, Kernel, NoLeaks, Live, Low;
    run, tabs := ShortRun(cfg);
    NoticeCounts(run, 0, ACCEPT);
    NoticeCounts(run, 1, ESTABLISH);
    NoticeCounts(run, 2, RESET);
    LastSynIsRefused(run, 3);
    EmptyStartsLow(run, tabs);
    NobodyHere(VISITOR);
  }

  /** A connection is accepted, established and reset, and a SYN follows. */
  lemma ShortRun(cfg: Config) returns (run: Run, tabs: seq<Table>)
    requires cfg.port < 0x1_0000
    ensures run.cfg == cfg && run.Valid() && run.states[0] == Empty(1)
    ensures run.events == [Notice(cfg, ACCEPT), Notice(cfg, ESTABLISH), Notice(cfg, RESET),
                           Packet(Isolation.SynFrame(cfg.port, VISITOR), 0, 1)]
    ensures tabs == [NOBODY, NEW, CONNECTED, NOBODY, NOBODY] && Kernel(run, tabs) && NoLeaks(run, tabs)
  {
    hide Run.Valid, Isolation.SynFrame, Notice, KernelStep, Leaks;
    var syn := Packet(Isolation.SynFrame(cfg.port, VISITOR), 0, 1);
    NoticesRun(cfg);
    run := Exec(cfg, 1, Empty(1), [Notice(cfg, ACCEPT), Notice(cfg, ESTABLISH), Notice(cfg, RESET), syn]);
    tabs := [NOBODY, NEW, CONNECTED, NOBODY, NOBODY];
    NoticesInTable(cfg, syn);
    forall k, ip: Ip | 0 <= k < |run.events|
      ensures !Leaks(run.cfg, tabs[k], run.events[k], ip)
    {
      OnlyAbortsLeak(cfg, tabs[k], run.events[k], ip);
    }
  }

  lemma NoticesRun(cfg: Config)
    ensures forall op :: OnCpu(Notice(cfg, op), 1) && Notice(cfg, op).Socket?
    ensures forall op :: Notice(cfg, op).cb.op == op
  {
  }

  lemma OnlyAbortsLeak(cfg: Config, tab: Table, e: Event, ip: Ip)
    ensures Leaks(cfg, tab, e, ip) ==> e.Socket? && e.cb.op == ABORT
  {
  }

  // ----- leaks -----

  /** As many sockets closed from SYN-RECEIVED as the cap allows, one after the other, and a SYN. */
  function LeakEvent(cfg: Config, k: nat): Event
    requires cfg.port < 0x1_0000
  {
    if k >= 2 * cfg.maxOpen then Packet(Isolation.SynFrame(cfg.port, VISITOR), 0, 1)
    else Notice(cfg, if k % 2 == 0 then ACCEPT else ABORT)
  }

  function LeakTable(cfg: Config, k: nat): Table {
    if k < 2 * cfg.maxOpen && k % 2 == 1 then NEW else NOBODY
  }

  lemma LeakRun(cfg: Config) returns (run: Run, tabs: seq<Table>)
    requires cfg.port < 0x1_0000
    ensures run.cfg == cfg && run.Valid() && run.states[0] == Empty(1)
    ensures |run.events| == 2 * cfg.maxOpen + 1 && Kernel(run, tabs)
    ensures forall k :: 0 <= k < |run.events| ==> run.events[k] == LeakEvent(cfg, k)
    ensures forall k :: 0 <= k < |tabs| ==> tabs[k] == LeakTable(cfg, k)
  {
    hide Run.Valid, Notice, Isolation.SynFrame, KernelStep;
    var n := 2 * cfg.maxOpen + 1;
    var events := seq(n, k requires 0 <= k < n => LeakEvent(cfg, k));
    NoticesRun(cfg);
    run := Exec(cfg, 1, Empty(1), events);
    tabs := seq(n + 1, k requires 0 <= k < n + 1 => LeakTable(cfg, k));
    forall k | 0 <= k < n
      ensures KernelStep(cfg, tabs[k], events[k], tabs[k + 1])
    {
      NoticesInTable(cfg, events[k]);
    }
  }

  lemma {:induction false} LeaksAddUp(run: Run, i: nat)
    requires run.Valid() && run.cfg.port < 0x1_0000 && run.states[0].open == map[]
    requires |run.events| == 2 * run.cfg.maxOpen + 1 && i <= run.cfg.maxOpen
    requires forall k :: 0 <= k < |run.events| ==> run.events[k] == LeakEvent(run.cfg, k)
    ensures OpenCount(run.states[2 * i], VISITOR) == i && (i > 0 ==> VISITOR in run.states[2 * i].open)
  {
    hide Run.Valid, Notice, Isolation.SynFrame;
    if i > 0 {
      LeaksAddUp(run, i - 1);
      NoticeCounts(run, 2 * i - 2, ACCEPT);
      NoticeCounts(run, 2 * i - 1, ABORT);
    }
  }

  /** Leaks are real: with any cap below half the range that is on, a source that holds no socket is
      refused after that many have closed from SYN-RECEIVED. */
  lemma LeaksFillTheCap(cfg: Config) returns (run: Run, tabs: seq<Table>)
    requires 0 < cfg.maxOpen < TWO_63 && cfg.port < 0x1_0000
    ensures run.cfg == cfg && run.Valid() && run.states[0] == Empty(1)
    ensures |run.events| == 2 * cfg.maxOpen + 1
    ensures Kernel(run, tabs) && StartsLow(run, tabs) && WronglyCapped(run, tabs, 2 * cfg.maxOpen)
  {
    hide Run.Follows, Kernel, Observe, OutcomeOf, Isolation.SynFrame, Notice, Live, Low;
    run, tabs := LeakRun(cfg);
    LeaksAddUp(run, cfg.maxOpen);
    LastSynIsRefused(run, 2 * cfg.maxOpen);
    EmptyStartsLow(run, tabs);
    NobodyHere(VISITOR);
  }

  /** So as long as no counted socket closes from SYN-RECEIVED the cap does what it says exactly when it is
      below half the range. */
  lemma CapIsSoundIff(cfg: Config)
    requires cfg.maxOpen < TWO_64 && cfg.port < 0x1_0000
    ensures cfg.maxOpen < TWO_63 <==>
            forall run: Run, tabs: seq<Table>, k: nat |
              && run.cfg == cfg && run.Valid() && Kernel(run, tabs) && StartsLow(run, tabs) && k < |run.events|
              && NoLeaks(run, tabs) ::
              !WronglyCapped(run, tabs, k)
  {
    hide Run.Valid, Kernel, Observe, OutcomeOf, Live, Low, NoLeaks, Leaked;
    if cfg.maxOpen < TWO_63 {
      forall run: Run, tabs: seq<Table>, k: nat
        | && run.cfg == cfg && run.Valid() && Kernel(run, tabs) && StartsLow(run, tabs) && k < |run.events|
          && NoLeaks(run, tabs)
        ensures !WronglyCapped(run, tabs, k)
      {
        if WronglyCapped(run, tabs, k) {
          NoneLeaked(run, tabs, run.Seen(k).src, 0, k);
          CapIsSound(run, tabs, 0, k, run.Seen(k).src);
        }
      }
    } else {
      var run, tabs := HugeCapRefusesEveryone(cfg);
      assert WronglyCapped(run, tabs, 3);
    }
  }

  lemma OffCapsNobody(cfg: Config, s: Maps, t: Traffic, cpu: nat, now: nat)
    requires HasCpu(s, cpu) && !t.Other? && cfg.maxOpen == 0
    ensures OutcomeOf(cfg, s, t, cpu, now) != Dropped(TcpTooManyOpen)
  {
    hide Take, RequestOf, Wrap64, Anomalous, IsBlacklisted;
  }

  /** And where they do, as a connection opened by TCP Fast Open can, exactly when it is off. */
  lemma CapIsSoundWithLeaksIff(cfg: Config)
    requires cfg.maxOpen < TWO_64 && cfg.port < 0x1_0000
    ensures cfg.maxOpen == 0 <==>
            forall run: Run, tabs: seq<Table>, k: nat |
              run.cfg == cfg && run.Valid() && Kernel(run, tabs) && StartsLow(run, tabs) && k < |run.events| ::
              !WronglyCapped(run, tabs, k)
  {
    hide Run.Valid, Kernel, Observe, OutcomeOf, Live, Low, NoLeaks;
    if cfg.maxOpen == 0 {
      forall run: Run, tabs: seq<Table>, k: nat
        | run.cfg == cfg && run.Valid() && Kernel(run, tabs) && StartsLow(run, tabs) && k < |run.events|
        ensures !WronglyCapped(run, tabs, k)
      {
        if !run.Seen(k).Other? {
          PacketFields(run, k);
          OffCapsNobody(cfg, run.states[k], run.Seen(k), run.events[k].cpu, run.events[k].now);
        }
      }
    } else if cfg.maxOpen < TWO_63 {
      var run, tabs := LeaksFillTheCap(cfg);
      assert WronglyCapped(run, tabs, 2 * cfg.maxOpen);
    } else {
      var run, tabs := HugeCapRefusesEveryone(cfg);
      assert WronglyCapped(run, tabs, 3);
    }
  }
}
