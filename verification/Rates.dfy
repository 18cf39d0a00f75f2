/** How the loader turns configured rates into bucket periods, and shares a limit among CPUs. */
module Rates {
  import opened Words
  import opened Limiter
  import opened HealthWindow
  import opened FilterMaps

  const NS_PER_SEC: nat := 1_000_000_000
  const NS_PER_MIN: nat := 60_000_000_000

  function PeriodNs(unit: nat, rate: nat): nat {
    if rate == 0 then 0 else unit / rate
  }

  /** `ncpu` is a Go `int`, so it may be zero or negative. */
  function PerCpu(v: nat, ncpu: int): nat {
    if v == 0 then 0
    else if ncpu <= 1 then v
    else Max(v / ncpu, 1)
  }

  /** Over `k` units from a tick a bucket gains `k` times the rate, and one token more for every period
      that the remainders of the division have added up to. */
  lemma UnitsDeliver(unit: nat, rate: nat, k: nat)
    requires rate >= 1 && PeriodNs(unit, rate) > 0
    ensures k * unit / PeriodNs(unit, rate) == k * rate + k * (unit % rate) / PeriodNs(unit, rate)
  {
    var p := PeriodNs(unit, rate);
    var rest := k * (unit % rate);
    assert unit == p * rate + unit % rate;
    assert k * unit == (k * rate) * p + rest by {
      assert k * (p * rate + unit % rate) == k * (p * rate) + rest;
      assert k * (p * rate) == (k * rate) * p;
    }
    DivBounds(rest, p);
    assert (k * rate + rest / p) * p == (k * rate) * p + rest / p * p;
    DivUnique(k * unit, p, k * rate + rest / p);
  }

  /** So `k` units deliver the rate exactly as long as the remainders stay below one period. */
  lemma DeliveredIff(unit: nat, rate: nat, k: nat)
    requires rate >= 1 && PeriodNs(unit, rate) > 0
    ensures k * unit / PeriodNs(unit, rate) == k * rate <==> k * (unit % rate) < PeriodNs(unit, rate)
  {
    var p := PeriodNs(unit, rate);
    var rest := k * (unit % rate);
    UnitsDeliver(unit, rate, k);
    if rest < p {
      DivUnique(rest, p, 0);
    } else {
      DivMono(p, rest, p);
      DivUnique(p, p, 1);
    }
  }

  /** In the long run a rate is delivered exactly if and only if it divides its unit. */
  lemma DeliveredForeverIff(unit: nat, rate: nat)
    requires rate >= 1 && PeriodNs(unit, rate) > 0
    ensures unit % rate == 0 <==> forall k: nat :: k * unit / PeriodNs(unit, rate) == k * rate
  {
    var p := PeriodNs(unit, rate);
    if unit % rate == 0 {
      forall k: nat
        ensures k * unit / p == k * rate
      {
        DeliveredIff(unit, rate, k);
      }
    } else {
      DeliveredIff(unit, rate, p);
      MulMono(1, unit % rate, p);
      assert p * unit / p != p * rate;
    }
  }

  /** A rate whose square fits `k` times in the unit is delivered exactly for the first `k` units. */
  lemma SmallRatesAreDelivered(unit: nat, rate: nat, k: nat)
    requires rate >= 1 && k >= 1 && k * rate * rate <= unit
    ensures PeriodNs(unit, rate) > 0
    ensures k * unit / PeriodNs(unit, rate) == k * rate
  {
    DivMono(k * rate * rate, unit, rate);
    DivUnique(k * rate * rate, rate, k * rate);
    MulMono(unit % rate, rate - 1, k);
    assert k * (unit % rate) <= k * (rate - 1) < k * rate;
    MulMono(1, k * rate, 1);
    DeliveredIff(unit, rate, k);
  }

  /** Between any two requests one unit apart a bucket gains `rate` tokens, capped at the burst, and one
      more when the first comes late enough after a tick. */
  lemma UnitRefill(unit: nat, rate: nat, burst: nat, b: Bucket, t: nat)
    requires rate >= 1 && rate * rate <= unit && burst > 0
    requires var l := Limit(PeriodNs(unit, rate), burst);
             l.Enabled() ==> Roomy(l) && Settled(l, b, t) && t + unit < TWO_63
    ensures var l := Limit(PeriodNs(unit, rate), burst);
            && l.Enabled()
            && var first := TakeFrom(l, b, t).bucket;
               var gain := rate + if t - first.last + unit % l.period >= l.period then 1 else 0;
               && first.last <= t < first.last + l.period
               && TakeFrom(l, first, t + unit).ok
               && TakeFrom(l, first, t + unit).bucket.tokens == Min(first.tokens + gain, burst) - 1
  {
    hide TakeFrom, PlainTake, Horizon, PeriodNs;
    assert 1 * rate * rate == rate * rate && 1 * unit == unit;
    SmallRatesAreDelivered(unit, rate, 1);
    var l := Limit(PeriodNs(unit, rate), burst);
    var k, grown := TakeShape(l, b, t);
    SettledIsPlain(l, b, t);
    var first := TakeFrom(l, b, t).bucket;
    assert Settled(l, first, t + unit);
    var k', grown' := TakeShape(l, first, t + unit);
    LateByPhase(t - first.last, unit, l.period);
  }

  /** The periods that end in a unit that starts `phase` after a tick. */
  lemma LateByPhase(phase: nat, unit: nat, p: nat)
    requires p > 0 && phase < p
    ensures (phase + unit) / p == unit / p + if phase + unit % p >= p then 1 else 0
  {
    var late := if phase + unit % p >= p then 1 else 0;
    assert unit == unit / p * p + unit % p;
    assert (unit / p + late) * p == unit / p * p + late * p;
    DivUnique(phase + unit, p, unit / p + late);
  }

  /** A rate above the unit disables the limiter it was meant to tighten. */
  lemma HugeRateDisables(unit: nat, rate: nat, burst: nat)
    ensures !Limit(PeriodNs(unit, rate), burst).Enabled() <==> rate == 0 || rate > unit || burst == 0
  {
    if 1 <= rate <= unit {
      DivMono(rate, unit, rate);
      DivUnique(rate, rate, 1);
    } else if rate > unit {
      DivUnique(unit, rate, 0);
    }
  }

  /** Shares never add up to more than the whole, except that every CPU gets at least one. */
  lemma SharesAddUp(v: nat, ncpu: nat)
    requires ncpu >= 1
    ensures ncpu * PerCpu(v, ncpu) <= Max(v, ncpu)
    ensures v > 0 ==> PerCpu(v, ncpu) >= 1
  {
    if ncpu > 1 && v > 0 {
      DivBounds(v, ncpu);
      assert v / ncpu * ncpu == ncpu * (v / ncpu);
    }
  }

  // ----- the options of one load -----

  /** The settings the loader takes, durations in nanoseconds. */
  datatype LoaderOptions = LoaderOptions(
    port: nat,
    ttl: nat,
    udpRatePerSec: nat,
    udpBurst: nat,
    initConnectPerMin: nat,
    initConnectBurst: nat,
    getInfoPerMin: nat,
    getInfoBurst: nat,
    tcpGlobalPerSec: nat,
    tcpGlobalBurst: nat,
    tcpMaxOpenPerIp: nat,
    healthWindow: nat,
    healthThreshold: nat,
    healthBlacklist: nat,
    dropHistory: bool
  )

  /** The constants the loader sets, on a machine with `ncpu` usable CPUs. */
  function Configure(o: LoaderOptions, ncpu: int): Config {
    Config(
      o.port,
      o.ttl,
      Limit(PeriodNs(NS_PER_SEC, o.udpRatePerSec), o.udpBurst),
      Limit(PeriodNs(NS_PER_MIN, o.initConnectPerMin), o.initConnectBurst),
      Limit(PeriodNs(NS_PER_MIN, o.getInfoPerMin), o.getInfoBurst),
      Limit(PeriodNs(NS_PER_SEC, PerCpu(o.tcpGlobalPerSec, ncpu)), PerCpu(o.tcpGlobalBurst, ncpu)),
      o.tcpMaxOpenPerIp,
      Policy(o.healthWindow, o.healthThreshold, o.healthBlacklist),
      o.dropHistory
    )
  }
}
