/** The connections the open counter and the established map are about, and what a callback of one does. */
module Sockets {
  import opened FilterMaps

  /** A socket on the guarded port whose peer has an IPv4 address: of an IPv4 listener (2) or of one that
      takes both families (10). */
  predicate OnGuardedPort(cfg: Config, cb: Callback) {
    cb.localPort == cfg.port && cb.family in {2, 10} && cb.remote != 0
  }

  /** These are the ones the program goes on with. */
  lemma GuardedIsRelevant(cfg: Config, cb: Callback)
    ensures OnGuardedPort(cfg, cb) <==> Relevant(cfg, cb)
  {
  }

  /** An established connection on its way to CLOSED, in whatever state that finds it. */
  predicate ClosesEstablished(op: SockOp) {
    op.StateChange? && op.newState == Close
    && op.oldState in {Established, FinWait1, FinWait2, CloseWait, LastAck, TimeWait, Closing}
  }

  /** An accepted connection is entered and counted; a closed one takes a positive count down by one; no
      other callback changes anything. */
  lemma CallbackEffect(cfg: Config, s: Maps, cb: Callback, cpu: nat, now: nat)
    requires HasCpu(s, cpu)
    ensures var s' := SockStep(cfg, s, cb, cpu, now);
            var count := if cb.remote in s.open then s.open[cb.remote] else 0;
            if OnGuardedPort(cfg, cb) && cb.op == PassiveEstablished then
              s' == s.(established := s.established[cb.remote := now], open := s.open[cb.remote := count + 1],
                       stats := Advance(s.stats, cpu, [STAT_TCP_ESTABLISHED_INSERTS]))
            else if OnGuardedPort(cfg, cb) && ClosesEstablished(cb.op) && count > 0 then
              s' == s.(open := s.open[cb.remote := count - 1])
            else s' == s
  {
    hide Advance;
  }
}
