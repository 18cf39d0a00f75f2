/** The programs, called event by event, make the runs that everything is proved about. */
module Replay {
  import opened Bytes
  import opened FilterMaps
  import opened Runs
  import opened Programs
  import opened Wire

  /** One event: a program on one frame or callback, or the loss of an entry. Socket callbacks and losses
      have no verdict of their own. */
  method Deliver(f: Filter, ncpu: nat, e: Event) returns (verdict: Verdict)
    requires Sized(f.Contents(), ncpu) && OnCpu(e, ncpu)
    modifies f
    ensures f.Contents() == Step(f.cfg, ncpu, old(f.Contents()), e)
    ensures e.Packet? ==>
              verdict == OutcomeOf(f.cfg, old(f.Contents()), Observe(f.cfg.port, e.frame), e.cpu, e.now).Verdict()
    ensures !e.Packet? ==> verdict == XdpPass
  {
    hide XdpStep, SockStep, LossStep, Observe, OutcomeOf;
    verdict := XdpPass;
    match e {
      case Packet(frame, cpu, now) => verdict := f.FivemXdp(frame, cpu, now);
      case Socket(cb, cpu, now) => f.FivemSockops(cb, cpu, now);
      case Loss(m, ip, _) => f.Lose(m, ip);
    }
  }

  /** Any sequence of events leaves the filter in the last state of its run, and gives every packet the
      verdict of its outcome there. */
  method Deliveries(f: Filter, ncpu: nat, events: seq<Event>) returns (verdicts: seq<Verdict>)
    requires Sized(f.Contents(), ncpu) && forall k :: 0 <= k < |events| ==> OnCpu(events[k], ncpu)
    modifies f
    ensures var run := Exec(f.cfg, ncpu, old(f.Contents()), events);
            && f.Contents() == run.states[|events|]
            && |verdicts| == |events|
            && forall k :: 0 <= k < |events| && events[k].Packet? ==> verdicts[k] == run.Out(k).Verdict()
  {
    hide Step, Sized, OnCpu, Exec, Observe, OutcomeOf, Run.Follows;
    ghost var start := f.Contents();
    ghost var run := Exec(f.cfg, ncpu, start, events);
    verdicts := [];
    for k := 0 to |events|
      invariant f.Contents() == run.states[k] && |verdicts| == k
      invariant forall j :: 0 <= j < k && events[j].Packet? ==> verdicts[j] == run.Out(j).Verdict()
    {
      StepOf(run, k);
      var verdict := Deliver(f, ncpu, events[k]);
      verdicts := verdicts + [verdict];
    }
  }

  lemma StepOf(run: Run, k: nat)
    requires run.Valid() && k < |run.events|
    ensures Sized(run.states[k], run.ncpu) && OnCpu(run.events[k], run.ncpu)
    ensures run.states[k + 1] == Step(run.cfg, run.ncpu, run.states[k], run.events[k])
    ensures run.events[k].Packet? ==>
              HasCpu(run.states[k], run.events[k].cpu)
              && run.Out(k) == OutcomeOf(run.cfg, run.states[k], Observe(run.cfg.port, run.events[k].frame),
                                         run.events[k].cpu, run.events[k].now)
  {
    hide Step, Observe, OutcomeOf;
    assert run.Follows(k);
  }

  /** The deletions of a reset, as events. */
  function Deletions(keys: seq<Ip>, now: nat): (events: seq<Event>)
    ensures |events| == |keys| && forall k :: 0 <= k < |keys| ==> events[k] == Loss(OpenMap, keys[k], now)
  {
    seq(|keys|, k requires 0 <= k < |keys| => Loss(OpenMap, keys[k], now))
  }

  function Without(m: map<Ip, int>, keys: seq<Ip>): map<Ip, int> {
    map ip | ip in m && ip !in keys :: m[ip]
  }

  /** A reset is a run of losses: it leaves no open counter of the keys collected, and all else as it was. */
  lemma {:induction false} ResetIsLosses(cfg: Config, ncpu: nat, s: Maps, keys: seq<Ip>, now: nat)
    requires Sized(s, ncpu)
    ensures Exec(cfg, ncpu, s, Deletions(keys, now)).states[|keys|] == s.(open := Without(s.open, keys))
  {
    hide Sized, Step, Without;
    if keys == [] {
      WithoutMore(s.open, [], 0);
    } else {
      var n := |keys| - 1;
      var events := Deletions(keys, now);
      assert events[..n] == Deletions(keys[..n], now);
      ResetIsLosses(cfg, ncpu, s, keys[..n], now);
      WithoutMore(s.open, keys[..n], keys[n]);
      OneDeletion(cfg, ncpu, s.(open := Without(s.open, keys[..n])), keys[n], now);
      assert keys == keys[..n] + [keys[n]];
    }
  }

  lemma WithoutMore(m: map<Ip, int>, keys: seq<Ip>, key: Ip)
    ensures Without(m, []) == m
    ensures Without(m, keys + [key]) == Without(m, keys) - {key}
  {
  }

  lemma OneDeletion(cfg: Config, ncpu: nat, s: Maps, key: Ip, now: nat)
    requires Sized(s, ncpu)
    ensures Step(cfg, ncpu, s, Loss(OpenMap, key, now)) == s.(open := s.open - {key})
  {
    hide Sized;
  }
}
