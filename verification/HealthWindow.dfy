/** The anomaly window and the blacklist it feeds. */
module HealthWindow {
  import opened Options
  import opened Words

  /** health_window_ns, health_threshold and health_blacklist_ns. */
  datatype Policy = Policy(window: nat, threshold: nat, penalty: nat) {
    /** Zero and one both blacklist on the first anomaly. */
    function Needed(): nat {
      if threshold <= 1 then 1 else threshold
    }
  }

  /** `struct udp_health`; `anomalies` is a 32-bit counter. */
  datatype Health = Health(anomalies: nat, windowStart: nat, until: nat)

  predicate IsBlacklisted(oh: Option<Health>, now: nat) {
    oh.Some? && oh.value.until > now
  }

  /** The window has run out and the next anomaly starts a new one. */
  predicate Expired(p: Policy, h: Health, now: nat) {
    Wrap64(now - h.windowStart) > p.window
  }

  /** The count an anomaly at `now` leaves. */
  function CountAfter(p: Policy, oh: Option<Health>, now: nat): nat {
    match oh
    case None => 1
    case Some(h) => Wrap32((if Expired(p, h, now) then 0 else h.anomalies) + 1)
  }

  /** The anomaly at `now` renews the blacklisting. */
  predicate Trips(p: Policy, oh: Option<Health>, now: nat) {
    match oh
    case None => p.threshold <= 1
    case Some(h) => CountAfter(p, oh, now) >= p.threshold
  }

  function Record(p: Policy, oh: Option<Health>, now: nat): Health {
    var until := if Trips(p, oh, now) then Wrap64(now + p.penalty)
                 else if oh.Some? then oh.value.until else 0;
    var start := if oh.None? || Expired(p, oh.value, now) then now else oh.value.windowStart;
    Health(CountAfter(p, oh, now), start, until)
  }

  // ----- anomalies in a row -----

  /** The entry after anomalies at `times`. */
  function RecordAll(p: Policy, oh: Option<Health>, times: seq<nat>): Option<Health>
    decreases |times|
  {
    if times == [] then oh
    else
      var n := |times| - 1;
      Some(Record(p, RecordAll(p, oh, times[..n]), times[n]))
  }

  /** One of the anomalies at `times` renews the blacklisting. */
  predicate SomeTrips(p: Policy, oh: Option<Health>, times: seq<nat>) {
    exists i :: 0 <= i < |times| && Trips(p, RecordAll(p, oh, times[..i]), times[i])
  }

  lemma SomeTripsSnoc(p: Policy, oh: Option<Health>, times: seq<nat>, t: nat)
    ensures RecordAll(p, oh, times + [t]) == Some(Record(p, RecordAll(p, oh, times), t))
    ensures SomeTrips(p, oh, times + [t]) <==> SomeTrips(p, oh, times) || Trips(p, RecordAll(p, oh, times), t)
  {
    hide Record, Trips;
    var more := times + [t];
    assert more[..|times|] == times;
    assert forall i :: 0 <= i < |times| ==> more[..i] == times[..i];
    if SomeTrips(p, oh, times) {
      var i :| 0 <= i < |times| && Trips(p, RecordAll(p, oh, times[..i]), times[i]);
      assert Trips(p, RecordAll(p, oh, more[..i]), more[i]);
    }
    if Trips(p, RecordAll(p, oh, times), t) {
      assert Trips(p, RecordAll(p, oh, more[..|times|]), more[|times|]);
    }
  }

  lemma {:induction false} RecordAllAppend(p: Policy, oh: Option<Health>, a: seq<nat>, b: seq<nat>)
    ensures RecordAll(p, oh, a + b) == RecordAll(p, RecordAll(p, oh, a), b)
    ensures SomeTrips(p, oh, a + b) <==> SomeTrips(p, oh, a) || SomeTrips(p, RecordAll(p, oh, a), b)
    decreases |b|
  {
    hide Record, Trips, SomeTrips;
    if b == [] {
      assert a + b == a;
      assert !SomeTrips(p, RecordAll(p, oh, a), []) by { NoneTrip(p, RecordAll(p, oh, a)); }
    } else {
      var n := |b| - 1;
      RecordAllAppend(p, oh, a, b[..n]);
      assert a + b == a + b[..n] + [b[n]];
      assert b == b[..n] + [b[n]];
      SomeTripsSnoc(p, oh, a + b[..n], b[n]);
      SomeTripsSnoc(p, RecordAll(p, oh, a), b[..n], b[n]);
    }
  }

  lemma NoneTrip(p: Policy, oh: Option<Health>)
    ensures !SomeTrips(p, oh, [])
  {
  }

  /** `n` anomalies at one time. */
  function Burst(t: nat, n: nat): (times: seq<nat>)
    ensures |times| == n && forall i :: 0 <= i < n ==> times[i] == t
  {
    seq(n, _ => t)
  }

  /** One anomaly in an open window, below the threshold or at the largest count. */
  lemma QuietRecord(p: Policy, h: Health, t: nat)
    requires h.windowStart <= t < TWO_64 && t - h.windowStart <= p.window && p.threshold < TWO_32
    ensures h.anomalies + 1 < p.threshold ==>
              !Trips(p, Some(h), t) && Record(p, Some(h), t) == h.(anomalies := h.anomalies + 1)
    ensures h.anomalies == TWO_32 - 1 && p.threshold > 0 ==>
              !Trips(p, Some(h), t) && Record(p, Some(h), t) == h.(anomalies := 0)
  {
    assert !Expired(p, h, t);
    assert Wrap32(TWO_32) == 0;
  }

  lemma {:induction false} BurstStaysQuiet(p: Policy, h: Health, t: nat, n: nat)
    requires p.threshold < TWO_32 && h.windowStart <= t < TWO_64 && t - h.windowStart <= p.window
    requires h.anomalies + n < p.threshold || n == 0
    ensures RecordAll(p, Some(h), Burst(t, n)) == Some(Health(h.anomalies + n, h.windowStart, h.until))
    ensures !SomeTrips(p, Some(h), Burst(t, n))
  {
    hide SomeTrips, Record, Trips;
    if n == 0 {
      NoneTrip(p, Some(h));
      assert Burst(t, 0) == [];
    } else {
      BurstStaysQuiet(p, h, t, n - 1);
      assert Burst(t, n) == Burst(t, n - 1) + [t];
      SomeTripsSnoc(p, Some(h), Burst(t, n - 1), t);
      QuietRecord(p, h.(anomalies := h.anomalies + n - 1), t);
    }
  }

  // ----- how many anomalies can go unpunished -----

  /** The anomalies that fit under the threshold in a window that holds `count` already. A counter at
      its largest value drops to zero with the next one, unless the threshold is zero. */
  function Spare(p: Policy, count: nat): nat {
    if p.threshold == 0 then 0
    else if count == TWO_32 - 1 then p.threshold
    else if count < p.threshold then p.threshold - 1 - count
    else 0
  }

  /** The most anomalies from `a` on, within one window length, that renew no blacklisting: those that
      fit in the window that is open, if it still is, and a whole window's worth once it has run out. */
  function Allowance(p: Policy, oh: Option<Health>, a: nat): nat {
    match oh
    case None => p.Needed() - 1
    case Some(h) =>
      if h.windowStart >= a then Spare(p, h.anomalies)
      else if a - h.windowStart > p.window then p.Needed() - 1
      else if h.windowStart + p.window + 1 >= TWO_63 then Spare(p, h.anomalies)
      else Spare(p, h.anomalies) + p.Needed() - 1
  }

  /** The entry fits its words and its window lies in the past. */
  predicate Sane(oh: Option<Health>, t: nat) {
    oh.Some? ==> oh.value.windowStart <= t && oh.value.anomalies < TWO_32
  }

  /** Every anomaly that renews nothing uses up one of the allowance. */
  lemma AllowanceStep(p: Policy, oh: Option<Health>, a: nat, now: nat)
    requires p.threshold < TWO_32 && Sane(oh, now)
    requires a <= now <= a + p.window && now < TWO_63
    requires !Trips(p, oh, now)
    ensures Allowance(p, Some(Record(p, oh, now)), a) + 1 <= Allowance(p, oh, a)
    ensures Sane(Some(Record(p, oh, now)), now)
  {
    if oh.Some? {
      assert Wrap64(now - oh.value.windowStart) == now - oh.value.windowStart;
      var c := oh.value.anomalies;
      assert c + 1 < TWO_32 ==> Wrap32(c + 1) == c + 1;
      assert c + 1 == TWO_32 ==> Wrap32(c + 1) == 0;
    }
  }

  /** Anomaly times from `a` on, in order, within one window length, on a clock below half its range. */
  predicate InOneWindow(p: Policy, times: seq<nat>, a: nat) {
    && (forall i :: 0 <= i < |times| ==> a <= times[i] <= a + p.window && times[i] < TWO_63)
    && (forall i, j :: 0 <= i <= j < |times| ==> times[i] <= times[j])
  }

  lemma {:induction false} QuietIsAllowed(p: Policy, oh: Option<Health>, times: seq<nat>, a: nat)
    requires p.threshold < TWO_32 && Sane(oh, a) && InOneWindow(p, times, a)
    requires !SomeTrips(p, oh, times)
    ensures Allowance(p, RecordAll(p, oh, times), a) + |times| <= Allowance(p, oh, a)
    ensures Sane(RecordAll(p, oh, times), if times == [] then a else times[|times| - 1])
    decreases |times|
  {
    hide Record, Trips, Allowance, SomeTrips;
    if times != [] {
      var n := |times| - 1;
      assert times == times[..n] + [times[n]];
      SomeTripsSnoc(p, oh, times[..n], times[n]);
      QuietIsAllowed(p, oh, times[..n], a);
      AllowanceStep(p, RecordAll(p, oh, times[..n]), a, times[n]);
    }
  }

  /** The allowance can be used up: in the window that is open at `a`, and again just past its end. */
  function Quietest(p: Policy, oh: Option<Health>, a: nat): seq<nat> {
    match oh
    case None => Burst(a, p.Needed() - 1)
    case Some(h) =>
      if h.windowStart >= a then Burst(a, Spare(p, h.anomalies))
      else if a - h.windowStart > p.window then Burst(a, p.Needed() - 1)
      else if h.windowStart + p.window + 1 >= TWO_63 then Burst(a, Spare(p, h.anomalies))
      else Burst(a, Spare(p, h.anomalies)) + Burst(h.windowStart + p.window + 1, p.Needed() - 1)
  }

  /** A new window takes one anomaly less than the threshold. */
  lemma NewWindowIsQuiet(p: Policy, oh: Option<Health>, t: nat)
    requires p.threshold < TWO_32 && t < TWO_64
    requires oh.Some? ==> oh.value.windowStart + p.window < t
    ensures !SomeTrips(p, oh, Burst(t, p.Needed() - 1))
  {
    hide SomeTrips;
    var n := p.Needed() - 1;
    if n == 0 {
      assert Burst(t, 0) == [];
      NoneTrip(p, oh);
    } else {
      assert Burst(t, n) == [t] + Burst(t, n - 1);
      assert [] + [t] == [t];
      NoneTrip(p, oh);
      SomeTripsSnoc(p, oh, [], t);
      RecordAllAppend(p, oh, [t], Burst(t, n - 1));
      BurstStaysQuiet(p, Record(p, oh, t), t, n - 1);
    }
  }

  /** The open window takes what is spare, even around the largest count. */
  lemma OpenWindowIsQuiet(p: Policy, h: Health, t: nat)
    requires p.threshold < TWO_32 && h.anomalies < TWO_32
    requires h.windowStart <= t < TWO_64 && t - h.windowStart <= p.window
    ensures !SomeTrips(p, Some(h), Burst(t, Spare(p, h.anomalies)))
    ensures RecordAll(p, Some(h), Burst(t, Spare(p, h.anomalies))).Some?
    ensures RecordAll(p, Some(h), Burst(t, Spare(p, h.anomalies))).value.windowStart == h.windowStart
  {
    hide SomeTrips, Record, Trips;
    var n := Spare(p, h.anomalies);
    if p.threshold > 0 && h.anomalies == TWO_32 - 1 {
      assert Burst(t, n) == [t] + Burst(t, n - 1);
      assert [] + [t] == [t];
      NoneTrip(p, Some(h));
      SomeTripsSnoc(p, Some(h), [], t);
      QuietRecord(p, h, t);
      RecordAllAppend(p, Some(h), [t], Burst(t, n - 1));
      BurstStaysQuiet(p, h.(anomalies := 0), t, n - 1);
    } else {
      BurstStaysQuiet(p, h, t, n);
    }
  }

  lemma QuietestIsQuiet(p: Policy, oh: Option<Health>, a: nat)
    requires p.threshold < TWO_32 && Sane(oh, a) && a < TWO_63
    ensures InOneWindow(p, Quietest(p, oh, a), a) && |Quietest(p, oh, a)| == Allowance(p, oh, a)
    ensures !SomeTrips(p, oh, Quietest(p, oh, a))
  {
    hide SomeTrips, RecordAll, Spare;
    if oh.None? || a - oh.value.windowStart > p.window {
      NewWindowIsQuiet(p, oh, a);
    } else {
      var h := oh.value;
      OpenWindowIsQuiet(p, h, a);
      var next := h.windowStart + p.window + 1;
      if h.windowStart < a && next < TWO_63 {
        var first, second := Burst(a, Spare(p, h.anomalies)), Burst(next, p.Needed() - 1);
        RecordAllAppend(p, oh, first, second);
        NewWindowIsQuiet(p, RecordAll(p, oh, first), next);
      }
    }
  }

  /** So `n` anomalies within one window length from `a` are sure to renew the blacklisting exactly when
      they are more than the allowance of the entry they find. */
  lemma MustTripIff(p: Policy, oh: Option<Health>, a: nat, n: nat)
    requires p.threshold < TWO_32 && Sane(oh, a) && a < TWO_63
    ensures n > Allowance(p, oh, a) <==>
            forall times: seq<nat> | |times| == n && InOneWindow(p, times, a) :: SomeTrips(p, oh, times)
  {
    hide SomeTrips, Allowance, RecordAll;
    if n > Allowance(p, oh, a) {
      forall times: seq<nat> | |times| == n && InOneWindow(p, times, a)
        ensures SomeTrips(p, oh, times)
      {
        if !SomeTrips(p, oh, times) {
          QuietIsAllowed(p, oh, times, a);
          assert false;
        }
      }
    } else {
      QuietestIsQuiet(p, oh, a);
      var times := Quietest(p, oh, a);
      FewerStayQuiet(p, oh, times, n);
      assert |times[..n]| == n && InOneWindow(p, times[..n], a);
    }
  }

  lemma FewerStayQuiet(p: Policy, oh: Option<Health>, times: seq<nat>, n: nat)
    requires n <= |times| && !SomeTrips(p, oh, times)
    ensures !SomeTrips(p, oh, times[..n])
  {
    hide SomeTrips;
    assert times == times[..n] + times[n..];
    RecordAllAppend(p, oh, times[..n], times[n..]);
  }

  /** What a stored counter is worth: one for the anomaly that opened its window, nothing for a counter
      that has just wrapped, and one lost by a counter that is about to wrap. */
  function Credit(oh: Option<Health>): int {
    if oh.Some? && oh.value.anomalies == 0 then 0
    else if oh.Some? && oh.value.anomalies == TWO_32 - 1 then -1
    else 1
  }

  /** In round numbers, with `T` for `max(1, threshold)`: at most `2T - 2` less the credit, and for every
      credit some entry is allowed that many. */
  lemma AllowanceAtMost(p: Policy, oh: Option<Health>, a: nat)
    requires p.threshold < TWO_32 && Sane(oh, a)
    ensures Allowance(p, oh, a) <= 2 * p.Needed() - 2 - Credit(oh) || Allowance(p, oh, a) == 0
    ensures forall h: Health ::
              oh == Some(h) && p.threshold >= 2 && h.anomalies in {0, 1, TWO_32 - 1}
              && h.windowStart < a <= h.windowStart + p.window && h.windowStart + p.window + 1 < TWO_63 ==>
              Allowance(p, oh, a) == 2 * p.Needed() - 2 - Credit(oh)
  {
  }

  // ----- the counter that wraps -----

  /** When the `i`-th anomaly of a source that is let back in after every blacklisting can come. */
  function Pace(p: Policy, i: nat): nat {
    if i < p.Needed() then 0 else (i + 1 - p.Needed()) * p.penalty
  }

  function Paced(p: Policy, n: nat): (times: seq<nat>)
    ensures |times| == n && forall i :: 0 <= i < n ==> times[i] == Pace(p, i)
  {
    seq(n, i requires 0 <= i < n => Pace(p, i))
  }

  lemma PaceMono(p: Policy, i: nat, j: nat)
    requires i <= j
    ensures Pace(p, i) <= Pace(p, j)
    ensures j == i + 1 && j >= p.Needed() ==> Pace(p, j) == Pace(p, i) + p.penalty
  {
    if j >= p.Needed() && i >= p.Needed() {
      MulMono(i + 1 - p.Needed(), j + 1 - p.Needed(), p.penalty);
    }
    if j == i + 1 && j >= p.Needed() {
      assert (j + 1 - p.Needed()) * p.penalty == (i + 1 - p.Needed()) * p.penalty + p.penalty;
    }
  }

  /** Such a source is counted up without end, and never blacklisted when it comes. */
  lemma {:induction false} PacedCountsUp(p: Policy, n: nat)
    requires 1 <= n < TWO_32 && p.threshold < TWO_32 && p.penalty < TWO_63
    requires Pace(p, n - 1) <= p.window && Pace(p, n - 1) < TWO_63
    ensures RecordAll(p, None, Paced(p, n))
         == Some(Health(n, 0, if n >= p.threshold then Pace(p, n - 1) + p.penalty else 0))
  {
    hide Pace, SomeTrips, Record, Trips;
    var last := n - 1;
    assert Paced(p, n) == Paced(p, last) + [Pace(p, last)];
    SomeTripsSnoc(p, None, Paced(p, last), Pace(p, last));
    if n > 1 {
      PaceMono(p, n - 2, last);
      PacedCountsUp(p, last);
      PacedRecord(p, RecordAll(p, None, Paced(p, last)), n, Pace(p, last));
    } else {
      assert Paced(p, 0) == [];
      PacedRecord(p, None, 1, 0);
      assert Pace(p, 0) == 0 by { PaceStart(p); }
    }
  }

  /** The `n`-th anomaly of a window that began at zero. */
  lemma PacedRecord(p: Policy, oh: Option<Health>, n: nat, t: nat)
    requires 1 <= n < TWO_32 && t <= p.window && t < TWO_63 && p.penalty < TWO_63
    requires if oh.Some? then oh.value.windowStart == 0 && oh.value.anomalies == n - 1 else n == 1 && t == 0
    ensures var before := if oh.Some? then oh.value.until else 0;
            Record(p, oh, t) == Health(n, 0, if n >= p.threshold then t + p.penalty else before)
  {
  }

  lemma PaceStart(p: Policy)
    ensures Pace(p, 0) == 0
  {
  }

  /** The wrap is reached, and real: after `2^32 - 1` anomalies that fit in one window the next one takes
      the counter to zero, and renews nothing, for every threshold but zero. */
  lemma WrappingCounterForgets(p: Policy)
    requires 1 <= p.threshold < TWO_32 && p.penalty < TWO_63
    requires (TWO_32 - p.threshold) * p.penalty <= Min(p.window, TWO_63 - 1)
    ensures var full := RecordAll(p, None, Paced(p, TWO_32 - 1));
            var now := Pace(p, TWO_32 - 1);
            && now == (TWO_32 - p.threshold) * p.penalty
            && full == Some(Health(TWO_32 - 1, 0, now))
            && !IsBlacklisted(full, now) && !Trips(p, full, now)
            && Record(p, full, now) == Health(0, 0, now)
  {
    PaceMono(p, TWO_32 - 2, TWO_32 - 1);
    PacedCountsUp(p, TWO_32 - 1);
    assert Wrap32(TWO_32) == 0;
  }
}
