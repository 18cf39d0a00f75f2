/** The lazy token bucket, the tick-by-tick bucket it stands in for, and how much it lets through. */
module Limiter {
  import opened Options
  import opened Words

  /** A refill period and a capacity. A zero in either switches the limiter off. */
  datatype Limit = Limit(period: nat, burst: nat) {
    predicate Enabled() {
      period != 0 && burst != 0
    }
  }

  /** `struct ratelimit`. */
  datatype Bucket = Bucket(tokens: nat, last: nat)

  datatype Taken<+B> = Taken(ok: bool, bucket: B)

  /** One request against an existing bucket, in 64-bit words. */
  function TakeFrom(l: Limit, b: Bucket, now: nat): Taken<Bucket>
    requires l.Enabled()
  {
    var refill := Wrap64(now - b.last) / l.period;
    var t := Min(Wrap64(b.tokens + refill), l.burst);
    if t == 0 then Taken(false, b)
    else Taken(true, Bucket(t - 1, Wrap64(b.last + Wrap64(refill * l.period))))
  }

  /** One request; the first one from a source creates its bucket. */
  function Take(l: Limit, ob: Option<Bucket>, now: nat): Taken<Option<Bucket>> {
    if !l.Enabled() then Taken(true, ob)
    else
      match ob
      case None => Taken(true, Some(Bucket(l.burst - 1, now)))
      case Some(b) => var r := TakeFrom(l, b, now); Taken(r.ok, Some(r.bucket))
  }

  // ----- without wrap-around -----

  /** The same request in unbounded arithmetic. */
  function PlainTake(l: Limit, b: Bucket, now: nat): Taken<Bucket>
    requires l.Enabled() && b.last <= now
  {
    var refill := (now - b.last) / l.period;
    var t := Min(b.tokens + refill, l.burst);
    if t == 0 then Taken(false, b)
    else Taken(true, Bucket(t - 1, b.last + refill * l.period))
  }

  /** A request in words, with the whole periods `k` it counts and the time `grown` they take: only
      the sum of tokens can overflow. */
  lemma TakeInWords(l: Limit, b: Bucket, now: nat) returns (k: nat, grown: nat)
    requires l.Enabled() && b.last <= now < TWO_64
    ensures k == (now - b.last) / l.period && grown == k * l.period && k <= now - b.last
    ensures b.last + grown <= now < b.last + grown + l.period
    ensures PlainTake(l, b, now) == TakeOne(l, b, b.tokens + k, grown)
    ensures TakeFrom(l, b, now) == TakeOne(l, b, Wrap64(b.tokens + k), grown)
  {
    hide Wrap64;
    var elapsed := now - b.last;
    k := elapsed / l.period;
    grown := k * l.period;
    DivBounds(elapsed, l.period);
    assert Wrap64(elapsed) == elapsed && Wrap64(grown) == grown && Wrap64(b.last + grown) == b.last + grown;
  }

  /** What spending one of `t` tokens, capped at the burst, leaves. */
  function TakeOne(l: Limit, b: Bucket, t: nat, grown: nat): Taken<Bucket> {
    var capped := Min(t, l.burst);
    if capped == 0 then Taken(false, b) else Taken(true, Bucket(capped - 1, b.last + grown))
  }

  /** For a bucket within its burst, the 64-bit arithmetic means what it says exactly when
      `tokens + refill` does not overflow; past that, the bucket loses tokens. */
  lemma TakeIsPlainIff(l: Limit, b: Bucket, now: nat)
    requires l.Enabled() && b.last <= now < TWO_64 && b.tokens <= l.burst < TWO_64
    ensures TakeFrom(l, b, now) == PlainTake(l, b, now)
       <==> b.tokens + (now - b.last) / l.period < TWO_64
  {
    hide TakeFrom, PlainTake;
    var k, grown := TakeInWords(l, b, now);
    if b.tokens + k >= TWO_64 {
      DivUnique(b.tokens + k, TWO_64, 1);
      assert Wrap64(b.tokens + k) == b.tokens + k - TWO_64;
    }
  }

  /** The bucket was last refilled in the past. */
  predicate Past(b: Bucket, now: nat) {
    b.last <= now < TWO_64
  }

  predicate PastOpt(ob: Option<Bucket>, now: nat) {
    ob.Some? ==> Past(ob.value, now)
  }

  /** The most whole periods a clock below half the 64-bit range can count. */
  function Horizon(l: Limit): nat
    requires l.Enabled()
  {
    (TWO_63 - 1) / l.period
  }

  /** A full bucket and the longest refill fit one word together. */
  predicate Roomy(l: Limit)
    requires l.Enabled()
  {
    l.burst - 1 + Horizon(l) < TWO_64
  }

  /** A bucket as a running filter holds it at `now`: its tokens leave room for the longest refill. */
  predicate Settled(l: Limit, b: Bucket, now: nat)
    requires l.Enabled()
  {
    b.last <= now < TWO_63 && b.tokens + Horizon(l) < TWO_64
  }

  predicate SettledOpt(l: Limit, ob: Option<Bucket>, now: nat)
    requires l.Enabled()
  {
    now < TWO_63 && (ob.Some? ==> Settled(l, ob.value, now))
  }

  /** One request against a settled bucket: nothing overflows. */
  lemma TakeShape(l: Limit, b: Bucket, now: nat) returns (k: nat, grown: nat)
    requires l.Enabled() && Settled(l, b, now)
    ensures k == (now - b.last) / l.period && grown == k * l.period
    ensures b.last + grown <= now < b.last + grown + l.period
    ensures PlainTake(l, b, now) == TakeOne(l, b, b.tokens + k, grown)
    ensures TakeFrom(l, b, now) == TakeOne(l, b, b.tokens + k, grown)
  {
    hide TakeFrom, PlainTake;
    k, grown := TakeInWords(l, b, now);
    DivMono(now - b.last, TWO_63 - 1, l.period);
  }

  lemma SettledIsPlain(l: Limit, b: Bucket, now: nat)
    requires l.Enabled() && Roomy(l) && Settled(l, b, now)
    ensures TakeFrom(l, b, now) == PlainTake(l, b, now)
    ensures Settled(l, TakeFrom(l, b, now).bucket, now)
    ensures TakeFrom(l, b, now).ok ==> now < TakeFrom(l, b, now).bucket.last + l.period
    ensures TakeFrom(l, b, now).ok ==> TakeFrom(l, b, now).bucket.tokens < l.burst
  {
    hide TakeFrom, PlainTake, Horizon;
    var k, grown := TakeShape(l, b, now);
  }

  /** Without room nothing is promised of the tokens, but a request never moves a bucket into the future. */
  lemma TakeStaysPast(l: Limit, ob: Option<Bucket>, now: nat)
    requires PastOpt(ob, now) && now < TWO_64
    ensures PastOpt(Take(l, ob, now).bucket, now)
  {
    hide TakeFrom, PlainTake;
    if l.Enabled() && ob.Some? {
      var k, grown := TakeInWords(l, ob.value, now);
    }
  }

  // ----- the bucket that ticks -----

  /** A bucket that gains one token at each whole period after its creation. */
  datatype Ticking = Ticking(created: nat, ticks: nat, tokens: nat)

  function Tick(l: Limit, k: Ticking): Ticking {
    Ticking(k.created, k.ticks + 1, if k.tokens < l.burst then k.tokens + 1 else l.burst)
  }

  function TickUntil(l: Limit, k: Ticking, n: nat): Ticking
    decreases n - k.ticks
  {
    if n <= k.ticks then k else TickUntil(l, Tick(l, k), n)
  }

  function Request(l: Limit, k: Ticking, now: nat): Taken<Ticking>
    requires l.Enabled() && k.created <= now
  {
    var k' := TickUntil(l, k, (now - k.created) / l.period);
    if k'.tokens == 0 then Taken(false, k') else Taken(true, k'.(tokens := k'.tokens - 1))
  }

  lemma {:induction false} TicksAddUp(l: Limit, k: Ticking, n: nat)
    requires k.ticks <= n && k.tokens <= l.burst
    ensures TickUntil(l, k, n) == Ticking(k.created, n, Min(k.tokens + (n - k.ticks), l.burst))
    decreases n - k.ticks
  {
    if k.ticks < n {
      TicksAddUp(l, Tick(l, k), n);
    }
  }

  /** Same tokens, and the refill stamp is the last tick counted: the phase is never lost. */
  predicate Represents(l: Limit, b: Bucket, k: Ticking) {
    && b.tokens == k.tokens <= l.burst
    && b.last == k.created + k.ticks * l.period
  }

  lemma RequestRefined(l: Limit, b: Bucket, k: Ticking, now: nat)
    requires l.Enabled() && Settled(l, b, now) && Represents(l, b, k)
    ensures k.created <= now
    ensures TakeFrom(l, b, now).ok == Request(l, k, now).ok
    ensures Represents(l, TakeFrom(l, b, now).bucket, Request(l, k, now).bucket)
  {
    hide TakeFrom, PlainTake, Request, TickUntil;
    var refill, grown := TakeShape(l, b, now);
    RequestShape(l, k, now, refill, grown);
  }

  lemma RequestShape(l: Limit, k: Ticking, now: nat, refill: nat, grown: nat)
    requires l.Enabled() && k.tokens <= l.burst && grown == refill * l.period
    requires var last := k.created + k.ticks * l.period; last + grown <= now < last + grown + l.period
    ensures k.created <= now
    ensures k.created + (k.ticks + refill) * l.period == k.created + k.ticks * l.period + grown
    ensures var t := Min(k.tokens + refill, l.burst);
            Request(l, k, now) == Taken(t != 0, Ticking(k.created, k.ticks + refill, if t == 0 then 0 else t - 1))
  {
    hide TickUntil;
    assert (k.ticks + refill) * l.period == k.ticks * l.period + grown;
    DivUnique(now - k.created, l.period, k.ticks + refill);
    TicksAddUp(l, k, k.ticks + refill);
  }

  /** Decisions of the lazy bucket on requests at `times`, and the bucket they leave. */
  function LazyRun(l: Limit, times: seq<nat>): LazyTrace {
    if times == [] then LazyTrace([], None)
    else
      var before := LazyRun(l, times[..|times| - 1]);
      var r := Take(l, before.bucket, times[|times| - 1]);
      LazyTrace(before.oks + [r.ok], r.bucket)
  }

  datatype LazyTrace = LazyTrace(oks: seq<bool>, bucket: Option<Bucket>)

  datatype TickingTrace = TickingTrace(oks: seq<bool>, bucket: Ticking)

  /** The same requests against a bucket created full at `created`. */
  function TickingRun(l: Limit, created: nat, times: seq<nat>): (r: TickingTrace)
    requires l.Enabled() && forall i :: 0 <= i < |times| ==> created <= times[i]
    ensures r.bucket.created == created
    decreases |times|
  {
    if times == [] then TickingTrace([], Ticking(created, 0, l.burst))
    else
      var before := TickingRun(l, created, times[..|times| - 1]);
      var r := Request(l, before.bucket, times[|times| - 1]);
      TickUntilCreated(l, before.bucket, (times[|times| - 1] - created) / l.period);
      TickingTrace(before.oks + [r.ok], r.bucket)
  }

  lemma {:induction false} TickUntilCreated(l: Limit, k: Ticking, n: nat)
    ensures TickUntil(l, k, n).created == k.created
    decreases n - k.ticks
  {
    if k.ticks < n {
      TickUntilCreated(l, Tick(l, k), n);
    }
  }

  predicate Nondecreasing(times: seq<nat>) {
    forall i, j :: 0 <= i <= j < |times| ==> times[i] <= times[j]
  }

  /** Requests in the order of a clock below half the 64-bit range. */
  predicate Clock(times: seq<nat>) {
    times != [] && Nondecreasing(times) && times[|times| - 1] < TWO_63
  }

  /** Both buckets take the same decisions on requests at `times`, hold the same tokens after them, and
      agree on the last tick. */
  predicate Agree(l: Limit, times: seq<nat>)
    requires l.Enabled() && Clock(times)
  {
    var lazy, ticking := LazyRun(l, times), TickingRun(l, times[0], times);
    lazy.oks == ticking.oks && lazy.bucket.Some? && Represents(l, lazy.bucket.value, ticking.bucket)
  }

  /** The lazy bucket refines the ticking one on every sequence of request times. */
  lemma {:induction false} LazyRefinesTicking(l: Limit, times: seq<nat>)
    requires l.Enabled() && Roomy(l) && Clock(times)
    ensures Agree(l, times)
    ensures Settled(l, LazyRun(l, times).bucket.value, times[|times| - 1])
    decreases |times|
  {
    hide Horizon;
    var n := |times| - 1;
    var front := times[..n];
    if n == 0 {
      assert front == [];
      var full := Ticking(times[0], 0, l.burst);
      assert TickUntil(l, full, 0) == full;
      assert TickingRun(l, times[0], times).bucket == full.(tokens := l.burst - 1);
      assert LazyRun(l, times).bucket == Some(Bucket(l.burst - 1, times[0]));
    } else {
      assert front[0] == times[0] && front[n - 1] <= times[n];
      LazyRefinesTicking(l, front);
      var b := LazyRun(l, front).bucket.value;
      var k := TickingRun(l, times[0], front).bucket;
      RequestRefined(l, b, k, times[n]);
      SettledIsPlain(l, b, times[n]);
    }
  }

  /** Without room the two come apart: a bucket created at the start of the clock and asked again at its
      end has overflowed, and holds fewer tokens than it should. */
  lemma CrampedDisagrees(l: Limit)
    requires l.Enabled() && l.burst < TWO_64 && !Roomy(l)
    ensures !Agree(l, [0, TWO_63 - 1])
  {
    hide TakeFrom, PlainTake, TickUntil;
    var end := TWO_63 - 1;
    var b := Bucket(l.burst - 1, 0);
    var full := Ticking(0, 0, l.burst);
    assert [0, end][..1] == [0] && [0][..0] == [];
    TicksAddUp(l, full, 0);
    TicksAddUp(l, full.(tokens := l.burst - 1), Horizon(l));
    DivUnique(0, l.period, 0);
    var k, grown := TakeInWords(l, b, end);
    DivBounds(end, l.period);
    DivUnique(b.tokens + k, TWO_64, 1);
    assert Wrap64(b.tokens + k) == b.tokens + k - TWO_64;
    assert LazyRun(l, [0]) == LazyTrace([true], Some(b));
    assert TickingRun(l, 0, [0]) == TickingTrace([true], full.(tokens := l.burst - 1));
    assert Request(l, full.(tokens := l.burst - 1), end) == Taken(true, Ticking(0, k, l.burst - 1));
    var r := TakeFrom(l, b, end);
    assert !r.ok || r.bucket.tokens < l.burst - 1;
    assert LazyRun(l, [0, end]) == LazyTrace([true] + [r.ok], Some(r.bucket));
    assert TickingRun(l, 0, [0, end]) == TickingTrace([true] + [true], Ticking(0, k, l.burst - 1));
    assert ([true] + [r.ok])[1] == r.ok;
  }

  /** So the lazy bucket is the ticking one exactly when its limit leaves room. */
  lemma LazyRefinesTickingIff(l: Limit)
    requires l.Enabled() && l.burst < TWO_64
    ensures Roomy(l) <==> forall times: seq<nat> | Clock(times) :: Agree(l, times)
  {
    hide Agree, Roomy;
    if Roomy(l) {
      forall times: seq<nat> | Clock(times)
        ensures Agree(l, times)
      {
        LazyRefinesTicking(l, times);
      }
    } else {
      CrampedDisagrees(l);
      assert Clock([0, TWO_63 - 1]);
    }
  }

  // ----- how much gets through -----

  /** `passes` requests admitted since `a` have been paid for by the burst and by ticks after `a`. */
  predicate Metered(l: Limit, ob: Option<Bucket>, a: nat, passes: nat)
    requires l.Enabled()
  {
    passes > 0 ==>
      && ob.Some?
      && a < ob.value.last + l.period
      && passes + ob.value.tokens <= l.burst + CeilDiv(ob.value.last - a, l.period)
  }

  lemma MeterTake(l: Limit, ob: Option<Bucket>, a: nat, passes: nat, now: nat)
    requires l.Enabled() && PastOpt(ob, now) && a <= now < TWO_64
    requires Metered(l, ob, a, passes)
    ensures var r := Take(l, ob, now);
            Metered(l, r.bucket, a, if r.ok then passes + 1 else passes)
  {
    hide TakeFrom, PlainTake, CeilDiv;
    if ob.Some? {
      var b := ob.value;
      var k, grown := TakeInWords(l, b, now);
      WrapIsLess(b.tokens + k);
      if passes > 0 {
        CeilDivShift(b.last - a, k, l.period);
        assert b.last + grown - a == b.last - a + k * l.period;
      }
    }
  }

  lemma MeterBound(l: Limit, ob: Option<Bucket>, a: nat, b: nat, passes: nat)
    requires l.Enabled() && a <= b && Metered(l, ob, a, passes)
    requires ob.Some? ==> ob.value.last <= b
    ensures passes <= l.burst + CeilDiv(b - a, l.period)
  {
    if passes > 0 {
      CeilDivMono(ob.value.last - a, b - a, l.period);
    }
  }

  /** `passes` requests admitted over the whole life of a bucket created at `born`. */
  predicate Lived(l: Limit, b: Bucket, born: nat, passes: nat)
    requires l.Enabled()
  {
    && born <= b.last
    && (b.last - born) % l.period == 0
    && passes + b.tokens <= l.burst + (b.last - born) / l.period
  }

  lemma LiveTake(l: Limit, b: Bucket, born: nat, passes: nat, now: nat)
    requires l.Enabled() && Past(b, now) && Lived(l, b, born, passes)
    ensures var r := TakeFrom(l, b, now);
            Lived(l, r.bucket, born, if r.ok then passes + 1 else passes)
  {
    hide TakeFrom, PlainTake;
    var k, grown := TakeInWords(l, b, now);
    WrapIsLess(b.tokens + k);
    WholePeriods(b.last - born, k, l.period);
    assert b.last + grown - born == b.last - born + k * l.period;
  }

  lemma WholePeriods(x: nat, k: nat, d: nat)
    requires d > 0 && x % d == 0
    ensures (x + k * d) % d == 0
    ensures (x + k * d) / d == x / d + k
  {
    assert x == x / d * d;
    assert (x / d + k) * d == x / d * d + k * d;
    DivUnique(x + k * d, d, x / d + k);
  }

  lemma LiveBound(l: Limit, b: Bucket, born: nat, passes: nat, t: nat)
    requires l.Enabled() && Lived(l, b, born, passes) && b.last <= t
    ensures passes <= l.burst + (t - born) / l.period
  {
    DivMono(b.last - born, t - born, l.period);
  }

  /** A request at least one period after the previous one is admitted, whatever that one left. */
  lemma PeriodApartIsAdmitted(l: Limit, ob: Option<Bucket>, before: nat, now: nat)
    requires l.Enabled() && Roomy(l) && SettledOpt(l, ob, before)
    requires before + l.period <= now < TWO_63
    ensures Take(l, Take(l, ob, before).bucket, now).ok
  {
    hide Horizon;
    if ob.Some? {
      SettledIsPlain(l, ob.value, before);
    }
    var b := Take(l, ob, before).bucket.value;
    SettledIsPlain(l, b, now);
    DivMono(l.period, now - b.last, l.period);
    DivUnique(l.period, l.period, 1);
  }

  /** Without room a full bucket can overflow to exactly nothing: its source has waited one period and
      more, and is refused. */
  lemma CrampedRefuses(l: Limit) returns (now: nat)
    requires l.Enabled() && l.burst < TWO_64 && !Roomy(l)
    ensures l.period <= now < TWO_63
    ensures !Take(l, Take(l, None, 0).bucket, now).ok
  {
    hide *;
    var k;
    k, now := OverflowTime(l);
    RefusedAtOverflow(l, k, now);
  }

  /** When the refill of a full bucket comes to exactly one word. */
  lemma OverflowTime(l: Limit) returns (k: nat, now: nat)
    requires l.Enabled() && l.burst < TWO_64 && !Roomy(l)
    ensures k >= 1 && l.burst - 1 + k == TWO_64 && now == k * l.period && l.period <= now < TWO_63
  {
    k := TWO_64 - (l.burst - 1);
    now := k * l.period;
    DivBounds(TWO_63 - 1, l.period);
    MulMono(k, Horizon(l), l.period);
    MulMono(1, k, l.period);
  }

  lemma RefusedAtOverflow(l: Limit, k: nat, now: nat)
    requires l.Enabled() && l.burst - 1 + k == TWO_64 && now == k * l.period && now < TWO_63
    ensures !Take(l, Take(l, None, 0).bucket, now).ok
  {
    hide TakeFrom, PlainTake;
    DivUnique(now, l.period, k);
    var k', grown := TakeInWords(l, Bucket(l.burst - 1, 0), now);
    assert Wrap64(TWO_64) == 0;
  }

  /** So waiting one period is always enough exactly when the limit leaves room. */
  lemma PatienceIff(l: Limit)
    requires l.Enabled() && l.burst < TWO_64
    ensures Roomy(l) <==>
            forall before: nat, now: nat | before + l.period <= now < TWO_63 ::
              Take(l, Take(l, None, before).bucket, now).ok
  {
    hide Take, Roomy;
    if Roomy(l) {
      forall before: nat, now: nat | before + l.period <= now < TWO_63
        ensures Take(l, Take(l, None, before).bucket, now).ok
      {
        PeriodApartIsAdmitted(l, None, before, now);
      }
    } else {
      var now := CrampedRefuses(l);
      assert 0 + l.period <= now;
    }
  }
}
