/** The shared maps, the configuration, and what one packet or socket callback does to them,
    stated map by map. */
module FilterMaps {
  import opened Bytes
  import opened Options
  import opened Words
  import opened Wire
  import opened Payload
  import opened Limiter
  import opened HealthWindow

  /** The constants the loader sets before the programs run. */
  datatype Config = Config(
    port: nat,
    ttl: nat,
    udp: Limit,
    init: Limit,
    info: Limit,
    syn: Limit,
    maxOpen: nat,
    health: Policy,
    history: bool
  )

  datatype Verdict = XdpPass | XdpDrop

  // ----- drop reasons and counters -----

  datatype Reason =
    | TcpNoSyn
    | TcpTooManyOpen
    | TcpGlobalRatelimit
    | TcpBadUserAgent
    | TcpInitconnectRatelimit
    | TcpGetinfoRatelimit
    | Malformed
    | UdpNotWhitelisted
    | UdpExpired
    | UdpUnhealthy
    | UdpEnetMalformed
    | UdpRatelimit
    | IpFragment

  const NUM_DROP_REASONS: nat := 13

  /** The `DROP_REASON_` index. */
  function ReasonIndex(r: Reason): (i: nat)
    ensures i < NUM_DROP_REASONS
  {
    match r
    case TcpNoSyn => 0
    case TcpTooManyOpen => 1
    case TcpGlobalRatelimit => 2
    case TcpBadUserAgent => 3
    case TcpInitconnectRatelimit => 4
    case TcpGetinfoRatelimit => 5
    case Malformed => 6
    case UdpNotWhitelisted => 7
    case UdpExpired => 8
    case UdpUnhealthy => 9
    case UdpEnetMalformed => 10
    case UdpRatelimit => 11
    case IpFragment => 12
  }

  const STAT_PASS_TCP: nat := 0
  const STAT_PASS_UDP_WHITELISTED: nat := 1
  const STAT_DROP_UDP_NOT_WHITELISTED: nat := 2
  const STAT_DROP_UDP_EXPIRED: nat := 3
  const STAT_DROP_MALFORMED: nat := 4
  const STAT_TCP_ESTABLISHED_INSERTS: nat := 5
  const STAT_TCP_L7_PROMOTED: nat := 6
  const STAT_TCP_L7_MATCH_NO_EST: nat := 7
  const STAT_DROP_UDP_RATELIMIT: nat := 8
  const STAT_DROP_TCP_INITCONNECT_RATELIMIT: nat := 9
  const STAT_DROP_UDP_ENET_MALFORMED: nat := 10
  const STAT_DROP_UDP_UNHEALTHY: nat := 11
  const STAT_TCP_POST_CLIENT_SEEN: nat := 12
  const STAT_TCP_GETINFO_SEEN: nat := 13
  const STAT_DROP_TCP_GETINFO_RATELIMIT: nat := 14
  const STAT_DROP_TCP_BAD_USER_AGENT: nat := 15
  const STAT_DROP_TCP_NO_SYN: nat := 16
  const STAT_DROP_TCP_GLOBAL_RATELIMIT: nat := 17
  const STAT_DROP_TCP_TOO_MANY_OPEN: nat := 18
  const STAT_TCP_POST_UA_UNKNOWN: nat := 19
  const STAT_DROP_IP_FRAGMENT: nat := 20
  const STAT_MAX: nat := 21

  /** The counter a drop is entered in. */
  function DropSlot(r: Reason): (slot: nat)
    ensures slot < STAT_MAX
  {
    match r
    case TcpNoSyn => STAT_DROP_TCP_NO_SYN
    case TcpTooManyOpen => STAT_DROP_TCP_TOO_MANY_OPEN
    case TcpGlobalRatelimit => STAT_DROP_TCP_GLOBAL_RATELIMIT
    case TcpBadUserAgent => STAT_DROP_TCP_BAD_USER_AGENT
    case TcpInitconnectRatelimit => STAT_DROP_TCP_INITCONNECT_RATELIMIT
    case TcpGetinfoRatelimit => STAT_DROP_TCP_GETINFO_RATELIMIT
    case Malformed => STAT_DROP_MALFORMED
    case UdpNotWhitelisted => STAT_DROP_UDP_NOT_WHITELISTED
    case UdpExpired => STAT_DROP_UDP_EXPIRED
    case UdpUnhealthy => STAT_DROP_UDP_UNHEALTHY
    case UdpEnetMalformed => STAT_DROP_UDP_ENET_MALFORMED
    case UdpRatelimit => STAT_DROP_UDP_RATELIMIT
    case IpFragment => STAT_DROP_IP_FRAGMENT
  }

  // ----- map contents -----

  /** A zeroed array of counters. */
  function Zeros(n: nat): (z: seq<nat>)
    ensures |z| == n && forall i :: 0 <= i < n ==> z[i] == 0
  {
    seq(n, _ => 0)
  }

  type Counts = c: seq<nat> | |c| == NUM_DROP_REASONS witness Zeros(NUM_DROP_REASONS)

  /** `struct ip_drop_history`. */
  datatype History = History(first: nat, last: nat, counts: Counts)

  /** One CPU's counters. */
  type Row = seq<nat>

  /** Everything the two programs share: nine maps keyed by source, and the SYN breaker's bucket and
      the counters of each CPU. `open` holds the counter as the signed word it is compared as. */
  datatype Maps = Maps(
    whitelist: map<Ip, nat>,
    synSeen: map<Ip, nat>,
    established: map<Ip, nat>,
    open: map<Ip, int>,
    udp: map<Ip, Bucket>,
    init: map<Ip, Bucket>,
    info: map<Ip, Bucket>,
    health: map<Ip, Health>,
    drops: map<Ip, History>,
    breaker: seq<Bucket>,
    stats: seq<Row>
  )

  /** The nine entries of one source. */
  datatype View = View(
    whitelist: Option<nat>,
    synSeen: Option<nat>,
    established: Option<nat>,
    open: Option<int>,
    udp: Option<Bucket>,
    init: Option<Bucket>,
    info: Option<Bucket>,
    health: Option<Health>,
    drops: Option<History>
  )

  function ViewOf(s: Maps, ip: Ip): View {
    View(Get(s.whitelist, ip), Get(s.synSeen, ip), Get(s.established, ip), Get(s.open, ip),
         Get(s.udp, ip), Get(s.init, ip), Get(s.info, ip), Get(s.health, ip), Get(s.drops, ip))
  }

  /** Freshly created maps on `ncpu` CPUs. */
  function Empty(ncpu: nat): Maps {
    Maps(map[], map[], map[], map[], map[], map[], map[], map[], map[],
         seq(ncpu, _ => Bucket(0, 0)), seq(ncpu, _ => Zeros(STAT_MAX)))
  }

  // ----- the decision -----

  /** What a passed `POST /client` led to. */
  datatype Post = Promoted | MatchNoEst | PostUaUnknown

  /** What the filter makes of a frame. */
  datatype Outcome =
    | Unfiltered
    | PassedTcp
    | PassedPost(post: Post)
    | PassedInfo
    | PassedUdp
    | Dropped(reason: Reason)
  {
    /** The frame was filtered and let through. */
    predicate Passed() {
      PassedTcp? || PassedPost? || PassedInfo? || PassedUdp?
    }

    predicate Filtered() {
      !Unfiltered?
    }

    function Verdict(): Verdict {
      if Dropped? then XdpDrop else XdpPass
    }
  }

  /** The cap compares both words as signed ones. */
  predicate OverCap(cfg: Config, open: Option<int>) {
    cfg.maxOpen > 0 && open.Some? && open.value >= Signed64(cfg.maxOpen)
  }

  function DecidePost(cfg: Config, v: View, ua: UserAgent, now: nat): Outcome {
    if !Take(cfg.init, v.init, now).ok then Dropped(TcpInitconnectRatelimit)
    else PassedPost(if ua != UaValid then PostUaUnknown
                    else if v.established.Some? then Promoted
                    else MatchNoEst)
  }

  function DecideGetInfo(cfg: Config, v: View, now: nat): Outcome {
    if !Take(cfg.info, v.info, now).ok then Dropped(TcpGetinfoRatelimit) else PassedInfo
  }

  function DecideRequest(cfg: Config, v: View, body: Bytes, now: nat): Outcome {
    match RequestOf(body)
    case NoRequest => PassedTcp
    case PostClient(ua) => if ua == UaBot then Dropped(TcpBadUserAgent) else DecidePost(cfg, v, ua, now)
    case GetInfo(ua) => if ua == UaBot then Dropped(TcpBadUserAgent) else DecideGetInfo(cfg, v, now)
  }

  /** Why a segment is refused before its header is read. */
  function Refusal(cfg: Config, v: View, breaker: Bucket, syn: bool, now: nat): Option<Reason> {
    if !syn then
      if v.whitelist.None? && v.synSeen.None? && v.established.None? then Some(TcpNoSyn) else None
    else if OverCap(cfg, v.open) then Some(TcpTooManyOpen)
    else if !Take(cfg.syn, Some(breaker), now).ok then Some(TcpGlobalRatelimit)
    else None
  }

  function DecideBody(cfg: Config, v: View, body: Option<Bytes>, now: nat): Outcome {
    if body.None? then Dropped(Malformed) else DecideRequest(cfg, v, body.value, now)
  }

  function DecideTcp(cfg: Config, v: View, breaker: Bucket, syn: bool, body: Option<Bytes>, now: nat): Outcome {
    match Refusal(cfg, v, breaker, syn, now)
    case Some(reason) => Dropped(reason)
    case None => DecideBody(cfg, v, body, now)
  }

  /** A datagram from a whitelisted source in good standing. */
  function DecideGame(cfg: Config, v: View, payload: Bytes, now: nat): Outcome {
    if Anomalous(payload) then Dropped(UdpEnetMalformed)
    else if !Take(cfg.udp, v.udp, now).ok then Dropped(UdpRatelimit)
    else PassedUdp
  }

  function DecideUdp(cfg: Config, v: View, payload: Bytes, now: nat): Outcome {
    if v.whitelist.None? then Dropped(UdpNotWhitelisted)
    else if Wrap64(now - v.whitelist.value) > cfg.ttl then Dropped(UdpExpired)
    else if IsBlacklisted(v.health, now) then Dropped(UdpUnhealthy)
    else DecideGame(cfg, v, payload, now)
  }

  /** The outcome depends on the source's own entries and, for a SYN, on the CPU's breaker bucket. */
  function Decide(cfg: Config, v: View, breaker: Bucket, t: Traffic, now: nat): Outcome {
    match t
    case Other => Unfiltered
    case TcpSegment(_, moreFrags, syn, body) =>
      if moreFrags then Dropped(IpFragment) else DecideTcp(cfg, v, breaker, syn, body, now)
    case UdpDatagram(_, moreFrags, payload) =>
      if moreFrags then Dropped(IpFragment) else DecideUdp(cfg, v, payload, now)
  }

  // ----- the effects, map by map -----

  /** A SYN that got past the cap, and so reached the breaker. */
  predicate ReachesBreaker(t: Traffic, o: Outcome) {
    t.TcpSegment? && t.syn && !t.moreFrags && o != Dropped(TcpTooManyOpen)
  }

  /** A SYN the breaker admitted. */
  predicate AdmittedSyn(t: Traffic, o: Outcome) {
    ReachesBreaker(t, o) && o != Dropped(TcpGlobalRatelimit)
  }

  /** Only a promotion creates a whitelist entry; after that every passed packet stamps it. */
  function Stamp(m: map<Ip, nat>, ip: Ip, o: Outcome, now: nat): map<Ip, nat> {
    if o == PassedPost(Promoted) || (o.Passed() && ip in m) then m[ip := now] else m
  }

  /** A limiter's map after one request: only an admitted request changes it. */
  function Spend(l: Limit, m: map<Ip, Bucket>, ip: Ip, now: nat): map<Ip, Bucket> {
    var r := Take(l, Get(m, ip), now);
    if l.Enabled() && r.ok then m[ip := r.bucket.value] else m
  }

  predicate SpendsUdp(o: Outcome) {
    o == PassedUdp || o == Dropped(UdpRatelimit)
  }

  predicate SpendsInit(o: Outcome) {
    o.PassedPost? || o == Dropped(TcpInitconnectRatelimit)
  }

  predicate SpendsInfo(o: Outcome) {
    o == PassedInfo || o == Dropped(TcpGetinfoRatelimit)
  }

  /** Whether a drop may open a history entry for its source. */
  predicate KnownSource(whitelisted: bool, r: Reason) {
    match r
    case TcpNoSyn => false
    case TcpTooManyOpen => true
    case TcpGlobalRatelimit => whitelisted
    case TcpBadUserAgent => true
    case TcpInitconnectRatelimit => true
    case TcpGetinfoRatelimit => true
    case Malformed => false
    case UdpNotWhitelisted => false
    case UdpExpired => true
    case UdpUnhealthy => true
    case UdpEnetMalformed => true
    case UdpRatelimit => true
    case IpFragment => false
  }

  function AddDrop(h: History, r: Reason, now: nat): History {
    h.(last := now, counts := h.counts[ReasonIndex(r) := Wrap64(h.counts[ReasonIndex(r)] + 1)])
  }

  function WithDrop(enabled: bool, m: map<Ip, History>, ip: Ip, r: Reason, known: bool, now: nat): map<Ip, History> {
    if !enabled then m
    else if ip in m then m[ip := AddDrop(m[ip], r, now)]
    else if known then m[ip := AddDrop(History(now, now, Zeros(NUM_DROP_REASONS)), r, now)]
    else m
  }

  function DropsAfter(cfg: Config, s: Maps, ip: Ip, o: Outcome, now: nat): map<Ip, History> {
    if o.Dropped?
    then WithDrop(cfg.history, s.drops, ip, o.reason, KnownSource(ip in s.whitelist, o.reason), now)
    else s.drops
  }

  /** The counters an outcome advances, in the order it does. */
  function Hits(o: Outcome): (slots: seq<nat>)
    ensures ValidSlots(slots)
  {
    match o
    case Unfiltered => []
    case PassedTcp => [STAT_PASS_TCP]
    case PassedPost(p) => [STAT_TCP_POST_CLIENT_SEEN, PostSlot(p), STAT_PASS_TCP]
    case PassedInfo => [STAT_TCP_GETINFO_SEEN, STAT_PASS_TCP]
    case PassedUdp => [STAT_PASS_UDP_WHITELISTED]
    case Dropped(r) =>
      if r == TcpInitconnectRatelimit then [STAT_TCP_POST_CLIENT_SEEN, DropSlot(r)]
      else if r == TcpGetinfoRatelimit then [STAT_TCP_GETINFO_SEEN, DropSlot(r)]
      else [DropSlot(r)]
  }

  function PostSlot(p: Post): nat {
    match p
    case Promoted => STAT_TCP_L7_PROMOTED
    case MatchNoEst => STAT_TCP_L7_MATCH_NO_EST
    case PostUaUnknown => STAT_TCP_POST_UA_UNKNOWN
  }

  predicate ValidSlots(slots: seq<nat>) {
    forall i :: 0 <= i < |slots| ==> slots[i] < STAT_MAX
  }

  /** One CPU's counters after each of `slots` in turn advanced by one 64-bit step. */
  function Advance(stats: seq<Row>, cpu: nat, slots: seq<nat>): (r: seq<Row>)
    requires cpu < |stats| && |stats[cpu]| == STAT_MAX && ValidSlots(slots)
    ensures |r| == |stats| && |r[cpu]| == STAT_MAX
    ensures forall c :: 0 <= c < |stats| && c != cpu ==> r[c] == stats[c]
  {
    if slots == [] then stats
    else
      var before := Advance(stats, cpu, slots[..|slots| - 1]);
      var slot := slots[|slots| - 1];
      var row: Row := before[cpu];
      before[cpu := row[slot := Wrap64(row[slot] + 1)]]
  }

  predicate HasCpu(s: Maps, cpu: nat) {
    cpu < |s.breaker| && cpu < |s.stats| && |s.stats[cpu]| == STAT_MAX
  }

  function OutcomeOf(cfg: Config, s: Maps, t: Traffic, cpu: nat, now: nat): Outcome
    requires HasCpu(s, cpu)
  {
    if t.Other? then Unfiltered else Decide(cfg, ViewOf(s, t.src), s.breaker[cpu], t, now)
  }

  /** What a filtered packet with outcome `o` leaves. */
  function Apply(cfg: Config, s: Maps, t: Traffic, o: Outcome, cpu: nat, now: nat): Maps
    requires HasCpu(s, cpu) && !t.Other?
  {
    var ip := t.src;
    var v := ViewOf(s, ip);
    s.(
      whitelist := Stamp(s.whitelist, ip, o, now),
      synSeen := if AdmittedSyn(t, o) then s.synSeen[ip := now] else s.synSeen,
      udp := if SpendsUdp(o) then Spend(cfg.udp, s.udp, ip, now) else s.udp,
      init := if SpendsInit(o) then Spend(cfg.init, s.init, ip, now) else s.init,
      info := if SpendsInfo(o) then Spend(cfg.info, s.info, ip, now) else s.info,
      health := if o == Dropped(UdpEnetMalformed) then s.health[ip := Record(cfg.health, v.health, now)] else s.health,
      drops := DropsAfter(cfg, s, ip, o, now),
      breaker := if ReachesBreaker(t, o)
                 then s.breaker[cpu := Take(cfg.syn, Some(s.breaker[cpu]), now).bucket.value]
                 else s.breaker,
      stats := Advance(s.stats, cpu, Hits(o))
    )
  }

  /** One packet on one CPU at one time. */
  function XdpStep(cfg: Config, s: Maps, t: Traffic, cpu: nat, now: nat): Maps
    requires HasCpu(s, cpu)
  {
    if t.Other? then s else Apply(cfg, s, t, OutcomeOf(cfg, s, t, cpu, now), cpu, now)
  }

  // ----- socket callbacks -----

  /** The kernel's TCP states. */
  datatype TcpState =
    | Established | SynSent | SynRecv | FinWait1 | FinWait2 | TimeWait
    | Close | CloseWait | LastAck | Listen | Closing | NewSynRecv

  datatype SockOp = PassiveEstablished | StateChange(oldState: TcpState, newState: TcpState) | OtherOp

  const AF_INET: nat := 2
  const AF_INET6: nat := 10
  const NO_ADDRESS: Ip := 0

  /** A callback. `sock` says which socket it is about; the program does not see it. */
  datatype Callback = Callback(op: SockOp, localPort: nat, family: nat, remote: Ip, sock: nat)

  /** The callback is about a connection to the guarded port from an IPv4 source. */
  predicate Relevant(cfg: Config, cb: Callback) {
    cb.localPort == cfg.port && (cb.family == AF_INET || cb.family == AF_INET6) && cb.remote != NO_ADDRESS
  }

  /** The states a counted connection can close from. */
  predicate Counted(st: TcpState) {
    st in {Established, FinWait1, FinWait2, CloseWait, LastAck, TimeWait, Closing}
  }

  predicate Uncounts(op: SockOp) {
    op.StateChange? && op.newState == Close && Counted(op.oldState)
  }

  function OpenInc(m: map<Ip, int>, ip: Ip): map<Ip, int> {
    m[ip := (if ip in m then m[ip] else 0) + 1]
  }

  function OpenDec(m: map<Ip, int>, ip: Ip): map<Ip, int> {
    if ip in m && m[ip] > 0 then m[ip := m[ip] - 1] else m
  }

  function SockStep(cfg: Config, s: Maps, cb: Callback, cpu: nat, now: nat): Maps
    requires HasCpu(s, cpu)
  {
    var opens := Relevant(cfg, cb) && cb.op == PassiveEstablished;
    var closes := Relevant(cfg, cb) && Uncounts(cb.op);
    s.(
      established := if opens then s.established[cb.remote := now] else s.established,
      open := if opens then OpenInc(s.open, cb.remote) else if closes then OpenDec(s.open, cb.remote) else s.open,
      stats := if opens then Advance(s.stats, cpu, [STAT_TCP_ESTABLISHED_INSERTS]) else s.stats
    )
  }

  // ----- losing an entry -----

  datatype MapName =
    | WhitelistMap | SynSeenMap | EstablishedMap | OpenMap | UdpMap | InitMap | InfoMap | HealthMap | DropsMap

  /** An eviction by the kernel, or a deletion by hand, of one source's entry in one map. */
  function LossStep(s: Maps, m: MapName, ip: Ip): Maps {
    match m
    case WhitelistMap => s.(whitelist := s.whitelist - {ip})
    case SynSeenMap => s.(synSeen := s.synSeen - {ip})
    case EstablishedMap => s.(established := s.established - {ip})
    case OpenMap => s.(open := s.open - {ip})
    case UdpMap => s.(udp := s.udp - {ip})
    case InitMap => s.(init := s.init - {ip})
    case InfoMap => s.(info := s.info - {ip})
    case HealthMap => s.(health := s.health - {ip})
    case DropsMap => s.(drops := s.drops - {ip})
  }
}
