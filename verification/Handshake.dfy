/** Who is known: what puts a source into the three maps that let its segments in, and what keeps it there. */
module Handshake {
  import opened Bytes
  import opened Options
  import opened Wire
  import opened Payload
  import opened FilterMaps
  import opened Runs
  import opened Sockets
  import opened Authorisation
  import opened Verdicts

  /** The traces a source can leave: a SYN, an accepted connection, a connect request. */
  datatype Trace = Knock | Connection | Entry

  function MapOf(tr: Trace): MapName {
    match tr
    case Knock => SynSeenMap
    case Connection => EstablishedMap
    case Entry => WhitelistMap
  }

  predicate Holds(s: Maps, tr: Trace, ip: Ip) {
    match tr
    case Knock => ip in s.synSeen
    case Connection => ip in s.established
    case Entry => ip in s.whitelist
  }

  /** Event `h` is a connect request of `ip`, from the game's client, that passes and finds it established. */
  ghost predicate Joined(run: Run, h: nat, ip: Ip)
    requires run.Valid() && h < |run.events|
  {
    && run.PassedFrom(h, ip) && run.Seen(h).TcpSegment? && run.Seen(h).body.Some?
    && Ascii("POST /client") <= run.Seen(h).body.value && AgentOf(run.Seen(h).body.value) == UaValid
    && ip in run.states[h].established
  }

  /** Event `h` leaves the trace. */
  ghost predicate Leaves(run: Run, tr: Trace, h: nat, ip: Ip)
    requires run.Valid() && h < |run.events|
  {
    match tr
    case Knock => Knocked(run, h, ip)
    case Connection => Accepted(run, h, ip)
    case Entry => Joined(run, h, ip)
  }

  /** It is not lost among events `h + 1` to `k - 1`. */
  predicate Kept(run: Run, tr: Trace, h: nat, k: nat, ip: Ip)
    requires k <= |run.events|
  {
    forall j :: h < j < k ==> !run.Loses(j, MapOf(tr), ip)
  }

  /** Some event before `k` left the trace, and it has been kept since. */
  ghost predicate LeftAndKept(run: Run, tr: Trace, k: nat, ip: Ip)
    requires run.Valid() && k <= |run.events|
  {
    exists h :: 0 <= h < k && Leaves(run, tr, h, ip) && Kept(run, tr, h, k, ip)
  }

  lemma JoinedIsPromoted(run: Run, k: nat, ip: Ip)
    requires run.Valid() && k < |run.events|
    ensures Joined(run, k, ip) <==> run.From(k, ip) && run.Out(k) == PassedPost(Promoted)
  {
    hide *;
    Accessors(run, k, ip);
    if run.From(k, ip) {
      JoinedOutcome(run, k, ip);
    } else {
      JoinedIsFrom(run, k, ip);
    }
  }

  lemma JoinedIsFrom(run: Run, k: nat, ip: Ip)
    requires run.Valid() && k < |run.events|
    ensures Joined(run, k, ip) ==> run.From(k, ip)
  {
    hide Run.Valid, Run.From, Run.Out;
  }

  lemma JoinedOutcome(run: Run, k: nat, ip: Ip)
    requires run.Valid() && k < |run.events| && run.From(k, ip)
    ensures Joined(run, k, ip) <==> run.Out(k) == PassedPost(Promoted)
  {
    hide Run.Follows, Observe, OutcomeOf, Ascii, AgentOf, GetsInfo, Heard;
    var s, t, e := run.states[k], run.Seen(k), run.events[k];
    if t.TcpSegment? {
      if run.Out(k).Verdict() == XdpPass {
        PassedIsHeard(run.cfg, s, t, e.cpu, e.now);
        HeardSegments(run.cfg, s, t, e.cpu, e.now);
      }
    } else {
      PromotionIsTcp(run.cfg, s, t, e.cpu, e.now);
    }
  }

  lemma PromotionIsTcp(cfg: Config, s: Maps, t: Traffic, cpu: nat, now: nat)
    requires HasCpu(s, cpu) && t.UdpDatagram?
    ensures OutcomeOf(cfg, s, t, cpu, now) != PassedPost(Promoted)
  {
    hide OutcomeOf, EnetLooksValid;
    Datagrams(cfg, s, t, cpu, now);
  }

  /** What one event does to a trace. */
  lemma TraceStep(run: Run, k: nat, tr: Trace, ip: Ip)
    requires run.Valid() && k < |run.events|
    ensures Holds(run.states[k + 1], tr, ip)
       <==> Leaves(run, tr, k, ip) || (Holds(run.states[k], tr, ip) && !run.Loses(k, MapOf(tr), ip))
  {
    match tr
    case Knock => KnockStep(run, k, ip);
    case Connection => ConnectionStep(run, k, ip);
    case Entry => EntryStep(run, k, ip);
  }

  lemma KnockStep(run: Run, k: nat, ip: Ip)
    requires run.Valid() && k < |run.events|
    ensures ip in run.states[k + 1].synSeen
       <==> Knocked(run, k, ip) || (ip in run.states[k].synSeen && !run.Loses(k, SynSeenMap, ip))
  {
    hide *;
    Accessors(run, k, ip);
    KnockMeans(run, k, ip);
    LosesMeans(run, k, SynSeenMap, ip);
    match run.events[k]
    case Packet(_, _, _) =>
      if run.Seen(k).Other? {
        QuietFields(run, k);
      } else {
        PacketFields(run, k);
      }
    case Socket(_, _, _) => SocketFields(run, k);
    case Loss(m, x, _) =>
      QuietFields(run, k);
      LossFields(run.states[k], m, x);
  }

  lemma LosesMeans(run: Run, k: nat, m: MapName, ip: Ip)
    requires k < |run.events|
    ensures run.Loses(k, m, ip) <==> run.events[k].Loss? && run.events[k].m == m && run.events[k].ip == ip
  {
  }

  lemma ConnectionStep(run: Run, k: nat, ip: Ip)
    requires run.Valid() && k < |run.events|
    ensures ip in run.states[k + 1].established
       <==> Accepted(run, k, ip) || (ip in run.states[k].established && !run.Loses(k, EstablishedMap, ip))
  {
    hide *;
    Accessors(run, k, ip);
    AcceptedMeans(run, k, ip);
    LosesMeans(run, k, EstablishedMap, ip);
    match run.events[k]
    case Packet(_, _, _) =>
      if run.Seen(k).Other? {
        QuietFields(run, k);
      } else {
        PacketFields(run, k);
      }
    case Socket(_, _, _) => SocketFields(run, k);
    case Loss(m, x, _) =>
      QuietFields(run, k);
      LossFields(run.states[k], m, x);
  }

  lemma AcceptedMeans(run: Run, k: nat, ip: Ip)
    requires k < |run.events|
    ensures Accepted(run, k, ip) <==>
            && run.events[k].Socket? && OnGuardedPort(run.cfg, run.events[k].cb)
            && run.events[k].cb.op == PassiveEstablished && run.events[k].cb.remote == ip
  {
    hide OnGuardedPort;
  }

  lemma EntryStep(run: Run, k: nat, ip: Ip)
    requires run.Valid() && k < |run.events|
    ensures ip in run.states[k + 1].whitelist
       <==> Joined(run, k, ip) || (ip in run.states[k].whitelist && !run.Loses(k, WhitelistMap, ip))
  {
    hide *;
    Accessors(run, k, ip);
    JoinedIsPromoted(run, k, ip);
    LosesMeans(run, k, WhitelistMap, ip);
    WhitelistStep(run, k);
    if !run.Seen(k).Other? {
      StampKeys(run.states[k].whitelist, run.Seen(k).src, run.Out(k), run.events[k].now, ip);
    } else if run.events[k].Loss? {
      LossFields(run.states[k], run.events[k].m, run.events[k].ip);
    }
  }

  lemma StampKeys(m: map<Ip, nat>, src: Ip, o: Outcome, now: nat, ip: Ip)
    ensures ip in Stamp(m, src, o, now) <==> ip in m || (ip == src && o == PassedPost(Promoted))
  {
  }

  /** A map holds a source exactly when some event has put it there and nothing has taken it away since: in
      every state reachable from empty maps. */
  lemma {:induction false} HoldsIff(run: Run, tr: Trace, k: nat, ip: Ip)
    requires run.Valid() && k <= |run.events| && !Holds(run.states[0], tr, ip)
    ensures Holds(run.states[k], tr, ip) <==> LeftAndKept(run, tr, k, ip)
  {
    hide Run.Valid, Holds, Leaves, Run.Loses;
    if k > 0 {
      HoldsIff(run, tr, k - 1, ip);
      TraceStep(run, k - 1, tr, ip);
      if LeftAndKept(run, tr, k - 1, ip) && !run.Loses(k - 1, MapOf(tr), ip) {
        var h :| 0 <= h < k - 1 && Leaves(run, tr, h, ip) && Kept(run, tr, h, k - 1, ip);
        assert Kept(run, tr, h, k, ip);
      }
      if Leaves(run, tr, k - 1, ip) {
        assert Kept(run, tr, k - 1, k, ip);
      }
      if LeftAndKept(run, tr, k, ip) && !Leaves(run, tr, k - 1, ip) {
        var h :| 0 <= h < k && Leaves(run, tr, h, ip) && Kept(run, tr, h, k, ip);
        assert Kept(run, tr, h, k - 1, ip);
      }
    }
  }

  /** A trace that is kept is there, from whatever start. */
  lemma {:induction false} KeptIsHeld(run: Run, tr: Trace, h: nat, k: nat, ip: Ip)
    requires run.Valid() && h < k <= |run.events| && Leaves(run, tr, h, ip) && Kept(run, tr, h, k, ip)
    ensures Holds(run.states[k], tr, ip)
    decreases k
  {
    hide Run.Valid, Holds, Leaves, Run.Loses;
    TraceStep(run, k - 1, tr, ip);
    if h < k - 1 {
      KeptIsHeld(run, tr, h, k - 1, ip);
    }
  }

  lemma StrangerAt(run: Run, k: nat, ip: Ip)
    requires run.Valid() && k < |run.events| && run.From(k, ip) && run.Seen(k).TcpSegment?
    ensures run.Out(k) == Dropped(TcpNoSyn) <==>
            && !run.Seen(k).syn && !run.Seen(k).moreFrags
            && forall tr: Trace :: !Holds(run.states[k], tr, ip)
  {
    hide Run.Follows, Observe, OutcomeOf;
    RefusedSegments(run.cfg, run.states[k], run.Seen(k), run.events[k].cpu, run.events[k].now);
    assert Holds(run.states[k], Knock, ip) <==> ip in run.states[k].synSeen;
    assert Holds(run.states[k], Connection, ip) <==> ip in run.states[k].established;
    assert Holds(run.states[k], Entry, ip) <==> ip in run.states[k].whitelist;
  }

  /** A handshake is let through: after an admitted SYN, an accepted connection or a connect request of its
      source that has not been lost since, no segment is dropped for want of a SYN. */
  lemma HandshakeLetsIn(run: Run, tr: Trace, h: nat, k: nat, ip: Ip)
    requires run.Valid() && h < k < |run.events| && Leaves(run, tr, h, ip) && Kept(run, tr, h, k, ip)
    requires run.From(k, ip) && run.Seen(k).TcpSegment?
    ensures run.Out(k) != Dropped(TcpNoSyn)
  {
    hide Run.Valid, Run.Seen, Run.Out, Holds, Leaves, Kept;
    KeptIsHeld(run, tr, h, k, ip);
    StrangerAt(run, k, ip);
  }

  /** And from empty maps that is exact: a segment without SYN is dropped as such if and only if its source has
      left no trace that has been kept. */
  lemma NoSynIff(run: Run, k: nat, ip: Ip)
    requires run.Valid() && k < |run.events| && run.From(k, ip) && run.Seen(k).TcpSegment?
    requires run.states[0].whitelist == map[] && run.states[0].synSeen == map[] && run.states[0].established == map[]
    ensures run.Out(k) == Dropped(TcpNoSyn) <==>
            && !run.Seen(k).syn && !run.Seen(k).moreFrags
            && forall tr: Trace :: !LeftAndKept(run, tr, k, ip)
  {
    hide Run.Valid, Run.Seen, Run.Out, LeftAndKept;
    StrangerAt(run, k, ip);
    forall tr: Trace
      ensures Holds(run.states[k], tr, ip) <==> LeftAndKept(run, tr, k, ip)
    {
      HoldsIff(run, tr, k, ip);
    }
  }

  // ----- the times -----

  /** The time the maps of SYNs and of connections keep for a source. */
  function TimeOf(s: Maps, tr: Trace, ip: Ip): Option<nat> {
    match tr
    case Knock => Get(s.synSeen, ip)
    case Connection => Get(s.established, ip)
    case Entry => Get(s.whitelist, ip)
  }

  lemma TimeStep(run: Run, k: nat, tr: Trace, ip: Ip)
    requires run.Valid() && k < |run.events| && tr != Entry && TimeOf(run.states[k + 1], tr, ip).Some?
    ensures TimeOf(run.states[k + 1], tr, ip)
         == if Leaves(run, tr, k, ip) then Some(run.events[k].now) else TimeOf(run.states[k], tr, ip)
  {
    hide *;
    Accessors(run, k, ip);
    KnockMeans(run, k, ip);
    AcceptedMeans(run, k, ip);
    LeavesMeans(run, k, ip);
    TimesMean(run.states[k], ip);
    TimesMean(run.states[k + 1], ip);
    match run.events[k]
    case Packet(_, _, _) =>
      if run.Seen(k).Other? {
        QuietFields(run, k);
      } else {
        PacketFields(run, k);
      }
    case Socket(_, _, _) => SocketFields(run, k);
    case Loss(m, x, _) =>
      QuietFields(run, k);
      LossFields(run.states[k], m, x);
  }

  lemma LeavesMeans(run: Run, k: nat, ip: Ip)
    requires run.Valid() && k < |run.events|
    ensures Leaves(run, Knock, k, ip) <==> Knocked(run, k, ip)
    ensures Leaves(run, Connection, k, ip) <==> Accepted(run, k, ip)
  {
    hide Run.Valid, Knocked, Accepted;
  }

  lemma TimesMean(s: Maps, ip: Ip)
    ensures TimeOf(s, Knock, ip) == if ip in s.synSeen then Some(s.synSeen[ip]) else None
    ensures TimeOf(s, Connection, ip) == if ip in s.established then Some(s.established[ip]) else None
  {
  }

  /** It is that of the source's last admitted SYN, or last accepted connection. */
  lemma {:induction false} TimeMeaning(run: Run, k: nat, tr: Trace, ip: Ip) returns (h: nat)
    requires run.Valid() && k <= |run.events| && tr != Entry
    requires TimeOf(run.states[0], tr, ip).None? && TimeOf(run.states[k], tr, ip).Some?
    ensures h < k && Leaves(run, tr, h, ip) && forall j :: h < j < k ==> !Leaves(run, tr, j, ip)
    ensures TimeOf(run.states[k], tr, ip) == Some(run.events[h].now)
  {
    hide Run.Valid, Leaves, TimeOf;
    assert k > 0;
    TimeStep(run, k - 1, tr, ip);
    if Leaves(run, tr, k - 1, ip) {
      h := k - 1;
    } else {
      h := TimeMeaning(run, k - 1, tr, ip);
    }
  }
}
