/** Per-second rates from successive counter samples (`traffic_monitor/ds/stat.go`). */
module Rates {

  /** `time` is in nanoseconds. The zero value is what a missing map entry reads as. */
  datatype LastStatData = LastStatData(perSec: real, stat: int, time: int)

  const ZERO := LastStatData(0.0, 0, 0)

  datatype Sample = Sample(stat: int, time: int)

  /** Which branch a sample takes. */
  datatype Branch = Duplicate | Rollover | OutOfOrder | FromZero | Rate

  function BranchOf(last: LastStatData, s: Sample): Branch {
    if last.time == s.time then Duplicate
    else if s.stat < last.stat then Rollover
    else if s.time < last.time then OutOfOrder
    else if last.stat == 0 then FromZero
    else Rate
  }

  function Seconds(nanoseconds: int): real {
    nanoseconds as real / 1000000000.0
  }

  /** The new data, and whether an error is returned with it. */
  function AddLastStat(last: LastStatData, s: Sample): (r: (LastStatData, bool))
    ensures last.perSec >= 0.0 ==> r.0.perSec >= 0.0
    ensures r.1 <==> last.time != s.time && (s.stat < last.stat || s.time < last.time)
  {
    match BranchOf(last, s)
    case Duplicate => (last, false)
    case Rollover => (last.(stat := s.stat, time := s.time), true)
    case OutOfOrder => (last, true)
    case FromZero => (last.(stat := s.stat, time := s.time), false)
    case Rate =>
      RateIsNonNegative(last, s);
      (LastStatData(PerSec(last, s), s.stat, s.time), false)
  }

  function PerSec(last: LastStatData, s: Sample): real
    requires s.time != last.time
  {
    (s.stat - last.stat) as real / Seconds(s.time - last.time)
  }

  lemma {:induction false} RateIsNonNegative(last: LastStatData, s: Sample)
    requires s.time > last.time && s.stat >= last.stat
    ensures PerSec(last, s) >= 0.0
  {
    var rise, elapsed := (s.stat - last.stat) as real, Seconds(s.time - last.time);
    assert elapsed > 0.0;
    assert (rise / elapsed) * elapsed == rise;
  }

  lemma {:induction false} RateTimesElapsed(last: LastStatData, s: Sample)
    requires s.time != last.time
    ensures PerSec(last, s) * Seconds(s.time - last.time) == (s.stat - last.stat) as real
  {
    var elapsed := Seconds(s.time - last.time);
    assert elapsed != 0.0;
  }

  // ---------- Runs of samples ----------

  function Run(last: LastStatData, samples: seq<Sample>): LastStatData
    decreases samples
  {
    if samples == [] then last else Run(AddLastStat(last, samples[0]).0, samples[1..])
  }

  /** The amount the rates of a run account for: each computed rate times the time it covers. */
  ghost function RateTimesTime(last: LastStatData, samples: seq<Sample>): real
    decreases samples
  {
    if samples == [] then 0.0
    else
      var next := AddLastStat(last, samples[0]).0;
      (if BranchOf(last, samples[0]) == Rate then next.perSec * Seconds(samples[0].time - last.time) else 0.0)
      + RateTimesTime(next, samples[1..])
  }

  /** The amount by which the counter fell at rollovers. */
  ghost function Fallen(last: LastStatData, samples: seq<Sample>): int
    decreases samples
  {
    if samples == [] then 0
    else
      (if BranchOf(last, samples[0]) == Rollover then last.stat - samples[0].stat else 0)
      + Fallen(AddLastStat(last, samples[0]).0, samples[1..])
  }

  /** The values taken as a first baseline, for which no rate is computed. */
  ghost function Baselines(last: LastStatData, samples: seq<Sample>): int
    decreases samples
  {
    if samples == [] then 0
    else
      (if BranchOf(last, samples[0]) == FromZero then samples[0].stat else 0)
      + Baselines(AddLastStat(last, samples[0]).0, samples[1..])
  }

  /** In every run, with duplicates, late samples and rollovers, no rate is ever negative. */
  lemma {:induction false} RatesStayNonNegative(last: LastStatData, samples: seq<Sample>)
    requires last.perSec >= 0.0
    ensures Run(last, samples).perSec >= 0.0
    ensures RateTimesTime(last, samples) >= 0.0
    decreases samples
  {
    if samples != [] {
      var next := AddLastStat(last, samples[0]).0;
      RatesStayNonNegative(next, samples[1..]);
      if BranchOf(last, samples[0]) == Rate {
        RateTimesElapsed(last, samples[0]);
      }
    }
  }

  /** Every change of the counter over a run is accounted for: by a rate, as a baseline, or as a fall
      at a rollover. */
  lemma {:induction false} EveryChangeIsAccountedFor(last: LastStatData, samples: seq<Sample>)
    ensures (Run(last, samples).stat - last.stat) as real
         == RateTimesTime(last, samples) + (Baselines(last, samples) - Fallen(last, samples)) as real
    decreases samples
  {
    if samples != [] {
      var next := AddLastStat(last, samples[0]).0;
      EveryChangeIsAccountedFor(next, samples[1..]);
      if BranchOf(last, samples[0]) == Rate {
        RateTimesElapsed(last, samples[0]);
      }
    }
  }

  /** The sample before the one at `i`: for the first one, the stored data. */
  ghost function Previous(last: LastStatData, samples: seq<Sample>, i: nat): Sample
    requires i < |samples|
  {
    if i == 0 then Sample(last.stat, last.time) else samples[i - 1]
  }

  /** Strictly later samples of a counter that started nonzero and never falls. */
  ghost predicate Steady(last: LastStatData, samples: seq<Sample>) {
    && last.stat > 0
    && (forall i | 0 <= i < |samples| ::
          && samples[i].time > Previous(last, samples, i).time
          && samples[i].stat >= Previous(last, samples, i).stat)
  }

  lemma {:induction false} SteadyTakesOnlyRates(last: LastStatData, samples: seq<Sample>)
    requires Steady(last, samples)
    ensures Baselines(last, samples) == 0 && Fallen(last, samples) == 0
    ensures samples != [] ==>
      && Run(last, samples).stat == samples[|samples| - 1].stat
      && Run(last, samples).time == samples[|samples| - 1].time
    decreases samples
  {
    if samples != [] {
      var next := AddLastStat(last, samples[0]).0;
      assert Previous(last, samples, 0) == Sample(last.stat, last.time);
      forall i | 0 <= i < |samples[1..]|
        ensures Previous(next, samples[1..], i) == Previous(last, samples, i + 1)
      {
      }
      SteadyTakesOnlyRates(next, samples[1..]);
    }
  }

  /** For a steady counter the rates times the elapsed times telescope to last minus first. */
  lemma {:induction false} RatesTelescope(last: LastStatData, samples: seq<Sample>)
    requires Steady(last, samples) && samples != []
    ensures RateTimesTime(last, samples) == (samples[|samples| - 1].stat - last.stat) as real
  {
    SteadyTakesOnlyRates(last, samples);
    EveryChangeIsAccountedFor(last, samples);
  }

  // ---------- The rate of a run ----------

  /** What a sample is compared with: the last one that had another time and was later, or lower. */
  function BaseAfter(base: Sample, samples: seq<Sample>): Sample
    decreases samples
  {
    if samples == [] then base
    else
      var s, before := samples[|samples| - 1], BaseAfter(base, samples[..|samples| - 1]);
      if s.time != before.time && (s.time > before.time || s.stat < before.stat) then s else before
  }

  /** Sample `k` is later than what it is compared with, not lower, and that is not zero. */
  predicate IsRise(base: Sample, samples: seq<Sample>, k: nat)
    requires k < |samples|
  {
    var before := BaseAfter(base, samples[..k]);
    samples[k].time > before.time && samples[k].stat >= before.stat && before.stat != 0
  }

  predicate IsPerSecond(perSec: real, rise: int, nanoseconds: int) {
    perSec * nanoseconds as real == rise as real * 1000000000.0
  }

  /** The rate is the rise at sample `k`, per second of the nanoseconds that it took. */
  predicate IsRateOf(perSec: real, base: Sample, samples: seq<Sample>, k: nat)
    requires k < |samples|
  {
    var before := BaseAfter(base, samples[..k]);
    IsPerSecond(perSec, samples[k].stat - before.stat, samples[k].time - before.time)
  }

  lemma {:induction false} RunMore(last: LastStatData, samples: seq<Sample>, s: Sample)
    ensures Run(last, samples + [s]) == AddLastStat(Run(last, samples), s).0
    decreases samples
  {
    if samples == [] {
      assert [] + [s] == [s] && [s][1..] == [];
    } else {
      assert (samples + [s])[1..] == samples[1..] + [s];
      RunMore(AddLastStat(last, samples[0]).0, samples[1..], s);
    }
  }

  /** One sample: the data that is kept is the base, and the rate changes only with a rise. */
  lemma {:induction false} SampleStep(last: LastStatData, s: Sample)
    ensures var next := AddLastStat(last, s).0;
      && Sample(next.stat, next.time)
         == (if s.time != last.time && (s.time > last.time || s.stat < last.stat) then s else Sample(last.stat, last.time))
      && if s.time > last.time && s.stat >= last.stat && last.stat != 0
         then IsPerSecond(next.perSec, s.stat - last.stat, s.time - last.time)
         else next.perSec == last.perSec
  {
    if BranchOf(last, s) == Rate {
      RateTimesElapsed(last, s);
      RateInNanoseconds(PerSec(last, s), s.time - last.time, (s.stat - last.stat) as real);
    }
  }

  lemma {:induction false} RateInNanoseconds(perSec: real, nanoseconds: int, rise: real)
    requires perSec * Seconds(nanoseconds) == rise
    ensures perSec * nanoseconds as real == rise * 1000000000.0
  {
    var n := nanoseconds as real;
    assert Seconds(nanoseconds) * 1000000000.0 == n;
    assert perSec * (Seconds(nanoseconds) * 1000000000.0) == (perSec * Seconds(nanoseconds)) * 1000000000.0;
  }

  /** The rate is that of the last rise, or the initial one. */
  ghost predicate FollowsRises(perSec: real, initial: real, base: Sample, samples: seq<Sample>) {
    if samples == [] then perSec == initial
    else if IsRise(base, samples, |samples| - 1) then IsRateOf(perSec, base, samples, |samples| - 1)
    else FollowsRises(perSec, initial, base, samples[..|samples| - 1])
  }

  ghost predicate Follows(data: LastStatData, initial: real, base: Sample, samples: seq<Sample>) {
    Sample(data.stat, data.time) == BaseAfter(base, samples) && FollowsRises(data.perSec, initial, base, samples)
  }

  lemma {:induction false} RiseStep(data: LastStatData, initial: real, base: Sample, before: seq<Sample>, s: Sample)
    requires Follows(data, initial, base, before)
    ensures Follows(AddLastStat(data, s).0, initial, base, before + [s])
  {
    var samples := before + [s];
    assert samples[..|before|] == before && samples[|before|] == s;
    SampleStep(data, s);
  }

  lemma {:induction false} RunFollowsRises(last: LastStatData, samples: seq<Sample>)
    ensures Follows(Run(last, samples), last.perSec, Sample(last.stat, last.time), samples)
    decreases |samples|
  {
    if samples != [] {
      var before, s := samples[..|samples| - 1], samples[|samples| - 1];
      RunFollowsRises(last, before);
      assert samples == before + [s];
      RunMore(last, before, s);
      RiseStep(Run(last, before), last.perSec, Sample(last.stat, last.time), before, s);
    }
  }

  lemma {:induction false} RiseBefore(base: Sample, samples: seq<Sample>, k: nat)
    requires k < |samples| - 1
    ensures IsRise(base, samples, k) <==> IsRise(base, samples[..|samples| - 1], k)
    ensures forall r :: IsRateOf(r, base, samples, k) <==> IsRateOf(r, base, samples[..|samples| - 1], k)
  {
    var before := samples[..|samples| - 1];
    assert before[..k] == samples[..k] && before[k] == samples[k];
  }

  lemma {:induction false} LastRiseCounts(perSec: real, initial: real, base: Sample, samples: seq<Sample>, k: nat)
    requires FollowsRises(perSec, initial, base, samples) && k < |samples| && IsRise(base, samples, k)
    requires forall j | k < j < |samples| :: !IsRise(base, samples, j)
    ensures IsRateOf(perSec, base, samples, k)
  {
    if k < |samples| - 1 {
      var before := samples[..|samples| - 1];
      assert !IsRise(base, samples, |samples| - 1);
      forall j | k <= j < |before|
        ensures IsRise(base, before, j) <==> IsRise(base, samples, j)
      {
        RiseBefore(base, samples, j);
      }
      LastRiseCounts(perSec, initial, base, before, k);
      RiseBefore(base, samples, k);
    }
  }

  lemma {:induction false} NoRiseKeeps(perSec: real, initial: real, base: Sample, samples: seq<Sample>)
    requires FollowsRises(perSec, initial, base, samples) && forall j | 0 <= j < |samples| :: !IsRise(base, samples, j)
    ensures perSec == initial
  {
    if samples != [] {
      var before := samples[..|samples| - 1];
      assert !IsRise(base, samples, |samples| - 1);
      forall j | 0 <= j < |before|
        ensures !IsRise(base, before, j)
      {
        RiseBefore(base, samples, j);
      }
      NoRiseKeeps(perSec, initial, base, before);
    }
  }

  /** After every run the rate is that of the last rise, or the initial one if there was none. Duplicates, late samples,
      falls and baselines from zero never change it. */
  lemma {:induction false} RateIsThatOfLastRise(last: LastStatData, samples: seq<Sample>)
    ensures var perSec, base := Run(last, samples).perSec, Sample(last.stat, last.time);
      && ((forall k | 0 <= k < |samples| :: !IsRise(base, samples, k)) ==> perSec == last.perSec)
      && (forall k | 0 <= k < |samples| && IsRise(base, samples, k) && (forall j | k < j < |samples| :: !IsRise(base, samples, j)) ::
            IsRateOf(perSec, base, samples, k))
  {
    var perSec, base := Run(last, samples).perSec, Sample(last.stat, last.time);
    RunFollowsRises(last, samples);
    if forall k | 0 <= k < |samples| :: !IsRise(base, samples, k) {
      NoRiseKeeps(perSec, last.perSec, base, samples);
    }
    forall k | 0 <= k < |samples| && IsRise(base, samples, k) && (forall j | k < j < |samples| :: !IsRise(base, samples, j))
      ensures IsRateOf(perSec, base, samples, k)
    {
      LastRiseCounts(perSec, last.perSec, base, samples, k);
    }
  }
}
