/** The open counter of one source under concurrency: any number of CPUs run its increments and
    decrements at once, and only their single steps are atomic. */
module OpenCounter {
  import opened Options
  import opened Bytes
  import opened FilterMaps

  /** Where a CPU stands: about to look the entry up, about to add through the pointer it found or
      did not find, or about to subtract after the guard held. */
  datatype Pc = Idle | LookingUp | Adding(found: bool) | Subtracting

  /** One atomic step of `open_count_inc` (insert if absent, look up, add) or of `open_count_dec`
      (look up and check the guard, subtract). */
  datatype Action = InsertIfAbsent | LookUp | Add | Check | Subtract

  datatype Step = Step(cpu: nat, action: Action)

  /** The entry is a signed 64-bit word that never comes near its limits. `closable` counts the
      connections whose increment has finished and whose decrement has not begun; `refused` counts
      failed guards. */
  datatype Counter = Counter(
    entry: Option<int>,
    cpus: seq<Pc>,
    finished: nat,
    subtracted: nat,
    refused: nat,
    closable: nat
  )

  predicate Enabled(s: Counter, x: Step) {
    && x.cpu < |s.cpus|
    && match x.action
       case InsertIfAbsent => s.cpus[x.cpu] == Idle
       case LookUp => s.cpus[x.cpu] == LookingUp
       case Add => s.cpus[x.cpu].Adding?
       case Check => s.cpus[x.cpu] == Idle
       case Subtract => s.cpus[x.cpu] == Subtracting
  }

  function Next(s: Counter, x: Step): Counter
    requires Enabled(s, x)
  {
    match x.action
    case InsertIfAbsent =>
      s.(entry := if s.entry.None? then Some(0) else s.entry, cpus := s.cpus[x.cpu := LookingUp])
    case LookUp => s.(cpus := s.cpus[x.cpu := Adding(s.entry.Some?)])
    case Add =>
      s.(entry := if s.cpus[x.cpu].found && s.entry.Some? then Some(s.entry.value + 1) else s.entry,
         cpus := s.cpus[x.cpu := Idle], finished := s.finished + 1, closable := s.closable + 1)
    case Check =>
      var taken := s.(closable := if s.closable > 0 then s.closable - 1 else 0);
      if s.entry.Some? && s.entry.value > 0 then taken.(cpus := s.cpus[x.cpu := Subtracting])
      else taken.(refused := s.refused + 1)
    case Subtract =>
      s.(entry := if s.entry.Some? then Some(s.entry.value - 1) else None,
         cpus := s.cpus[x.cpu := Idle], subtracted := s.subtracted + 1)
  }

  /** Undisturbed, the steps of one CPU make up the atomic operations of the socket program. */
  lemma AloneIsAtomic(s: Counter, cpu: nat, m: map<Ip, int>, ip: Ip)
    requires cpu < |s.cpus| && s.cpus[cpu] == Idle && s.entry == Get(m, ip)
    ensures var s1 := Next(s, Step(cpu, InsertIfAbsent));
            var s2 := Next(s1, Step(cpu, LookUp));
            Next(s2, Step(cpu, Add)).entry == Get(OpenInc(m, ip), ip)
    ensures var s1 := Next(s, Step(cpu, Check));
            (if s1.cpus[cpu] == Subtracting then Next(s1, Step(cpu, Subtract)) else s1).entry == Get(OpenDec(m, ip), ip)
  {
  }

  /** The state after a sequence of enabled steps. */
  ghost predicate Leads(s: Counter, steps: seq<Step>, end: Counter)
    decreases |steps|
  {
    if steps == [] then end == s else Enabled(s, steps[0]) && Leads(Next(s, steps[0]), steps[1..], end)
  }

  /** Every decrement belongs to a connection whose increment has finished, and to no other's. */
  ghost predicate Matched(s: Counter, steps: seq<Step>)
    decreases |steps|
  {
    steps == []
    || (Enabled(s, steps[0]) && (steps[0].action == Check ==> s.closable > 0) && Matched(Next(s, steps[0]), steps[1..]))
  }

  function Value(s: Counter): int {
    if s.entry.Some? then s.entry.value else 0
  }

  /** The CPUs between a guard that held and their subtraction. */
  function Pending(cpus: seq<Pc>): nat {
    if cpus == [] then 0 else Pending(cpus[..|cpus| - 1]) + if cpus[|cpus| - 1] == Subtracting then 1 else 0
  }

  lemma {:induction false} PendingUpdate(cpus: seq<Pc>, i: nat, pc: Pc)
    requires i < |cpus|
    ensures Pending(cpus[i := pc])
         == Pending(cpus) - (if cpus[i] == Subtracting then 1 else 0) + (if pc == Subtracting then 1 else 0)
  {
    var n := |cpus| - 1;
    if i == n {
      assert cpus[i := pc][..n] == cpus[..n];
    } else {
      assert cpus[i := pc][..n] == cpus[..n][i := pc];
      PendingUpdate(cpus[..n], i, pc);
    }
  }

  lemma {:induction false} PendingBound(cpus: seq<Pc>)
    ensures Pending(cpus) <= |cpus|
    ensures (exists i :: 0 <= i < |cpus| && cpus[i] != Subtracting) ==> Pending(cpus) < |cpus|
  {
    if cpus != [] {
      var n := |cpus| - 1;
      PendingBound(cpus[..n]);
      if i: nat :| i < |cpus| && cpus[i] != Subtracting {
        if i < n {
          assert cpus[..n][i] != Subtracting;
        }
      }
    }
  }

  /** A CPU that has inserted finds the entry: nothing removes it. */
  predicate Present(s: Counter) {
    forall i :: 0 <= i < |s.cpus| && s.cpus[i] != Idle ==> s.entry.Some? && s.cpus[i] != Adding(false)
  }

  // ----- matched decrements: the counter is exact -----

  /** The books balance: what is stored is what can still be closed or is about to be subtracted. */
  predicate Balanced(s: Counter, base: int) {
    && Present(s)
    && Value(s) == base + s.finished - s.subtracted
    && Value(s) == s.closable + Pending(s.cpus)
  }

  lemma BalancedStep(s: Counter, x: Step, base: int)
    requires Enabled(s, x) && Balanced(s, base) && (x.action == Check ==> s.closable > 0)
    ensures Balanced(Next(s, x), base) && Next(s, x).refused == s.refused
  {
    hide Pending;
    var pc := Next(s, x).cpus[x.cpu];
    PendingUpdate(s.cpus, x.cpu, pc);
    assert Next(s, x).cpus == s.cpus[x.cpu := pc];
  }

  /** With matched decrements and no lost entry, under every interleaving of any number of CPUs, the
      counter equals finished increments minus finished subtractions, it is never negative, and no
      guard ever fails. */
  lemma {:induction false} CounterIsExact(s: Counter, steps: seq<Step>, end: Counter, base: int)
    requires Balanced(s, base) && Leads(s, steps, end) && Matched(s, steps)
    ensures Value(end) == base + end.finished - end.subtracted >= 0
    ensures end.refused == s.refused
    ensures |end.cpus| == |s.cpus|
    decreases |steps|
  {
    hide Balanced, Next, Enabled;
    if steps != [] {
      BalancedStep(s, steps[0], base);
      NextKeepsCpus(s, steps[0]);
      CounterIsExact(Next(s, steps[0]), steps[1..], end, base);
    } else {
      BalancedMeans(s, base);
    }
  }

  lemma BalancedMeans(s: Counter, base: int)
    requires Balanced(s, base)
    ensures Value(s) == base + s.finished - s.subtracted >= 0
  {
  }

  lemma NextKeepsCpus(s: Counter, x: Step)
    requires Enabled(s, x)
    ensures |Next(s, x).cpus| == |s.cpus|
  {
  }

  /** From no entry, or from an entry that counts just the open connections, with all CPUs idle. */
  lemma StartIsBalanced(s: Counter)
    requires forall i :: 0 <= i < |s.cpus| ==> s.cpus[i] == Idle
    requires s.finished == s.subtracted == 0 && Value(s) == s.closable
    ensures Balanced(s, Value(s))
  {
    NonePending(s.cpus);
  }

  lemma {:induction false} NonePending(cpus: seq<Pc>)
    requires forall i :: 0 <= i < |cpus| ==> cpus[i] != Subtracting
    ensures Pending(cpus) == 0
  {
    if cpus != [] {
      NonePending(cpus[..|cpus| - 1]);
    }
  }

  // ----- a stored count that is too low -----

  /** However low, the counter can still pay for all but `N - 1` of the subtractions on their way. */
  predicate Solvent(s: Counter) {
    |s.cpus| > 0 && Value(s) - Pending(s.cpus) >= 1 - |s.cpus|
  }

  lemma SolventStep(s: Counter, x: Step)
    requires Enabled(s, x) && Solvent(s)
    ensures Solvent(Next(s, x))
  {
    hide Pending;
    var pc := Next(s, x).cpus[x.cpu];
    PendingUpdate(s.cpus, x.cpu, pc);
    assert Next(s, x).cpus == s.cpus[x.cpu := pc];
    PendingBound(s.cpus);
  }

  /** Whatever was lost before, and whichever decrements come, from a nonnegative stored count `N` CPUs
      never take it below `1 - N`. */
  lemma {:induction false} NeverFarBelowZero(s: Counter, steps: seq<Step>, end: Counter)
    requires Solvent(s) && Leads(s, steps, end)
    ensures Value(end) >= 1 - |s.cpus| && |end.cpus| == |s.cpus|
    decreases |steps|
  {
    hide Solvent, Next, Enabled;
    if steps != [] {
      SolventStep(s, steps[0]);
      NextKeepsCpus(s, steps[0]);
      NeverFarBelowZero(Next(s, steps[0]), steps[1..], end);
    } else {
      SolventMeans(s);
    }
  }

  lemma SolventMeans(s: Counter)
    requires Solvent(s)
    ensures Value(s) >= 1 - |s.cpus|
  {
  }

  lemma IdleIsSolvent(s: Counter)
    requires |s.cpus| > 0 && Value(s) >= 0
    requires forall i :: 0 <= i < |s.cpus| ==> s.cpus[i] == Idle
    ensures Solvent(s)
  {
    NonePending(s.cpus);
  }

  /** `k` of `n` CPUs are about to subtract. */
  function Poised(n: nat, k: nat, value: int, subtracted: nat): Counter
    requires k <= n
  {
    Counter(Some(value), seq(n, i => if i < k then Subtracting else Idle), 0, subtracted, 0, 0)
  }

  /** The first `k` CPUs check one after the other. */
  function Checks(k: nat): seq<Step> {
    seq(k, i requires 0 <= i < k => Step(i, Check))
  }

  /** The first `k` CPUs subtract, the last of them first. */
  function Subtractions(k: nat): seq<Step> {
    seq(k, i requires 0 <= i < k => Step(k - 1 - i, Subtract))
  }

  lemma {:induction false} LeadsOn(s: Counter, a: seq<Step>, mid: Counter, b: seq<Step>, end: Counter)
    requires Leads(s, a, mid) && Leads(mid, b, end)
    ensures Leads(s, a + b, end)
    decreases |a|
  {
    hide Next, Enabled;
    if a == [] {
      assert a + b == b;
    } else {
      LeadsOn(Next(s, a[0]), a[1..], mid, b, end);
      assert (a + b)[0] == a[0] && (a + b)[1..] == a[1..] + b;
    }
  }

  lemma {:induction false} AllCheck(n: nat, k: nat)
    requires k <= n
    ensures Leads(Poised(n, 0, 1, 0), Checks(k), Poised(n, k, 1, 0))
  {
    if k > 0 {
      AllCheck(n, k - 1);
      var s, x := Poised(n, k - 1, 1, 0), Step(k - 1, Check);
      assert Next(s, x).cpus == Poised(n, k, 1, 0).cpus;
      assert [x][1..] == [];
      assert Leads(Next(s, x), [], Poised(n, k, 1, 0));
      assert Leads(s, [x], Poised(n, k, 1, 0));
      LeadsOn(Poised(n, 0, 1, 0), Checks(k - 1), s, [x], Poised(n, k, 1, 0));
      assert Checks(k - 1) + [x] == Checks(k);
    }
  }

  lemma {:induction false} AllSubtract(n: nat, k: nat, value: int, done: nat)
    requires k <= n
    ensures Leads(Poised(n, k, value, done), Subtractions(k), Poised(n, 0, value - k, done + k))
    decreases k
  {
    if k > 0 {
      var s, x := Poised(n, k, value, done), Step(k - 1, Subtract);
      assert Next(s, x).cpus == Poised(n, k - 1, value - 1, done + 1).cpus;
      assert Subtractions(k)[0] == x && Subtractions(k)[1..] == Subtractions(k - 1);
      AllSubtract(n, k - 1, value - 1, done + 1);
    }
  }

  /** The bound is reached: `N` CPUs that all check a stored count of one take it to `1 - N`. */
  lemma BelowZeroIsReached(n: nat)
    requires n >= 1
    ensures Solvent(Poised(n, 0, 1, 0))
    ensures Leads(Poised(n, 0, 1, 0), Checks(n) + Subtractions(n), Poised(n, 0, 1 - n, n))
  {
    IdleIsSolvent(Poised(n, 0, 1, 0));
    AllCheck(n, n);
    AllSubtract(n, n, 1, 0);
    LeadsOn(Poised(n, 0, 1, 0), Checks(n), Poised(n, n, 1, 0), Subtractions(n), Poised(n, 0, 1 - n, n));
  }
}
