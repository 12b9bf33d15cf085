/** The daily solar report engine of src/daily-reports.ts: per-day statistics folded
    from a stream of power samples, the time of day after which the report is due,
    the comparison with yesterday or the weekly average, the efficiency and the
    weather guess, and the manager that decides when the report is sent.

    Instants are integers in milliseconds since the epoch. The day key of the source
    is the UTC calendar date (`toISOString`), modelled as the UTC day number. The
    report time is set in local time; the local zone is a fixed offset `tzOffsetMs`
    (local = UTC + offset), so daylight-saving changes are not modelled. */
module DailyReports {
  import opened Sequences
  import opened Text
  import I18n

  const MINUTE_MS: int := 60000
  const HOUR_MS: int := 3600000
  const DAY_MS: int := 86400000

  datatype Sample = Sample(time: int, power: real)

  /** The per-day record; `date` is the UTC day number that keys it. */
  datatype DailyStats = DailyStats(
    date: int,
    energyWh: real,
    peakPowerW: real,
    peakTime: int,
    firstProduction: Option<int>,
    lastProduction: Option<int>,
    totalProductionMinutes: real,
    samples: seq<Sample>)

  /** `getDateKey`: the UTC day that contains the instant. */
  function DateKey(t: int): (day: int)
    ensures day * DAY_MS <= t < (day + 1) * DAY_MS
  {
    t / DAY_MS
  }

  /** Moving an instant by whole days moves its day key by as many days. */
  lemma DateKeyShift(t: int, i: int)
    ensures DateKey(t - i * DAY_MS) == DateKey(t) - i
  {
    var d := DateKey(t);
    assert (d - i) * DAY_MS <= t - i * DAY_MS < (d - i + 1) * DAY_MS;
    DateKeyUnique(t - i * DAY_MS, d - i);
  }

  lemma DateKeyUnique(t: int, d: int)
    ensures d * DAY_MS <= t < (d + 1) * DAY_MS ==> DateKey(t) == d
  {
  }

  /** `createNewDayStats`: nothing produced yet, the peak time is the creation time. */
  function NewDayStats(key: int, t: int): DailyStats
  {
    DailyStats(key, 0.0, 0.0, t, None, None, 0.0, [])
  }

  // ---------------------------------------------------------------------------
  // Folding one sample into the day

  /** Energy added between the previous sample and a new one: the trapezoid of the
      two powers over the gap, only when the gap is more than 0 and less than 60
      minutes. */
  function GapWh(prev: Sample, t: int, p: real): real
  {
    var minutesDiff := (t - prev.time) as real / MINUTE_MS as real;
    if 0.0 < minutesDiff < 60.0 then (p + prev.power) / 2.0 * minutesDiff / 60.0 else 0.0
  }

  /** `samples.filter(s => s.time > cutoff)`. */
  function FilterRecent(xs: seq<Sample>, cutoff: int): seq<Sample>
  {
    if |xs| == 0 then []
    else if xs[|xs| - 1].time > cutoff then FilterRecent(xs[..|xs| - 1], cutoff) + [xs[|xs| - 1]]
    else FilterRecent(xs[..|xs| - 1], cutoff)
  }

  /** The filter keeps, in order, exactly the samples younger than the cutoff. */
  lemma {:induction false} FilterRecentKeeps(xs: seq<Sample>, cutoff: int)
    ensures var r := FilterRecent(xs, cutoff);
      (forall k | 0 <= k < |r| :: r[k].time > cutoff) &&
      IsSubsequence(r, xs) &&
      (forall k | 0 <= k < |xs| && xs[k].time > cutoff :: xs[k] in r) &&
      (|xs| > 0 && xs[|xs| - 1].time > cutoff ==> |r| > 0 && r[|r| - 1] == xs[|xs| - 1])
  {
    if |xs| > 0 {
      var init := xs[..|xs| - 1];
      var x := xs[|xs| - 1];
      var r := FilterRecent(init, cutoff);
      FilterRecentKeeps(init, cutoff);
      assert xs == init + [x];
      if x.time > cutoff {
        SubsequenceSnoc(r, init, x);
      } else {
        SubsequenceExtend(r, init, x);
      }
    }
  }

  /** `updateDailyStats`: integrates energy against the previous sample, raises the
      peak, records the production window, appends the sample and drops samples 24
      hours old or older. */
  function UpdateDailyStats(s: DailyStats, p: real, t: int): (r: DailyStats)
    ensures r.date == s.date
    ensures r.energyWh == s.energyWh + (if |s.samples| > 0 then GapWh(s.samples[|s.samples| - 1], t, p) else 0.0)
    ensures r.peakPowerW == Max(s.peakPowerW, p)
    ensures r.peakTime == (if p > s.peakPowerW then t else s.peakTime)
    ensures r.firstProduction == (if p > 0.0 && s.firstProduction.None? then Some(t) else s.firstProduction)
    ensures r.lastProduction == (if p > 0.0 then Some(t) else s.lastProduction)
    ensures r.samples == FilterRecent(s.samples + [Sample(t, p)], t - DAY_MS)
    ensures r.firstProduction.Some? && r.lastProduction.Some? ==>
      r.totalProductionMinutes * MINUTE_MS as real == (r.lastProduction.value - r.firstProduction.value) as real
    ensures !(r.firstProduction.Some? && r.lastProduction.Some?) ==>
      r.totalProductionMinutes == s.totalProductionMinutes
  {
    var energy := if |s.samples| > 0 then s.energyWh + GapWh(s.samples[|s.samples| - 1], t, p) else s.energyWh;
    var peak := if p > s.peakPowerW then p else s.peakPowerW;
    var peakTime := if p > s.peakPowerW then t else s.peakTime;
    var first := if p > 0.0 && s.firstProduction.None? then Some(t) else s.firstProduction;
    var last := if p > 0.0 then Some(t) else s.lastProduction;
    var pushed := s.samples + [Sample(t, p)];
    var kept := FilterRecent(pushed, t - DAY_MS);
    var minutes := if first.Some? && last.Some? then (last.value - first.value) as real / MINUTE_MS as real
                   else s.totalProductionMinutes;
    DailyStats(s.date, energy, peak, peakTime, first, last, minutes, kept)
  }

  /** The buffer after one update: the new sample last, nothing 24 hours older than
      it, the rest in order from the earlier buffer, and every earlier sample younger
      than 24 hours kept. */
  lemma UpdateBuffer(s: DailyStats, p: real, t: int)
    ensures var b := UpdateDailyStats(s, p, t).samples;
      |b| > 0 && b[|b| - 1] == Sample(t, p) &&
      (forall k | 0 <= k < |b| :: t - DAY_MS < b[k].time) &&
      IsSubsequence(b, s.samples + [Sample(t, p)]) &&
      forall k | 0 <= k < |s.samples| && s.samples[k].time > t - DAY_MS :: s.samples[k] in b
  {
    var pushed := s.samples + [Sample(t, p)];
    FilterRecentKeeps(pushed, t - DAY_MS);
    assert forall k | 0 <= k < |s.samples| :: pushed[k] == s.samples[k];
  }

  /** The stats after a sequence of samples has been folded in, in order. */
  function Replay(s: DailyStats, xs: seq<Sample>): DailyStats
  {
    if |xs| == 0 then s
    else UpdateDailyStats(Replay(s, xs[..|xs| - 1]), xs[|xs| - 1].power, xs[|xs| - 1].time)
  }

  // ---------------------------------------------------------------------------
  // Reference definitions for what a replay computes

  /** Index of the first sample with the largest power, provided that power exceeds
      `peak0`; -1 when no sample exceeds `peak0`. */
  function PeakIndex(peak0: real, xs: seq<Sample>): (i: int)
    ensures -1 <= i < |xs|
    ensures i < 0 ==> forall k | 0 <= k < |xs| :: xs[k].power <= peak0
    ensures i >= 0 ==> xs[i].power > peak0
    ensures i >= 0 ==> forall k | 0 <= k < |xs| :: xs[k].power <= xs[i].power
    ensures i >= 0 ==> forall k | 0 <= k < i :: xs[k].power < xs[i].power
  {
    if |xs| == 0 then -1
    else
      var init := xs[..|xs| - 1];
      var j := PeakIndex(peak0, init);
      var best := if j < 0 then peak0 else init[j].power;
      if xs[|xs| - 1].power > best then |xs| - 1 else j
  }

  /** Index of the first sample with positive power, -1 when there is none. */
  function FirstProducing(xs: seq<Sample>): (i: int)
    ensures -1 <= i < |xs|
    ensures i < 0 ==> forall k | 0 <= k < |xs| :: xs[k].power <= 0.0
    ensures i >= 0 ==> xs[i].power > 0.0 && forall k | 0 <= k < i :: xs[k].power <= 0.0
  {
    if |xs| == 0 then -1
    else
      var j := FirstProducing(xs[..|xs| - 1]);
      if j >= 0 then j else if xs[|xs| - 1].power > 0.0 then |xs| - 1 else -1
  }

  /** Index of the last sample with positive power, -1 when there is none. */
  function LastProducing(xs: seq<Sample>): (i: int)
    ensures -1 <= i < |xs|
    ensures i < 0 ==> forall k | 0 <= k < |xs| :: xs[k].power <= 0.0
    ensures i >= 0 ==> xs[i].power > 0.0 && forall k | i < k < |xs| :: xs[k].power <= 0.0
  {
    if |xs| == 0 then -1
    else if xs[|xs| - 1].power > 0.0 then |xs| - 1
    else LastProducing(xs[..|xs| - 1])
  }

  /** The energy of a sample stream: the trapezoids between consecutive samples whose
      gap is more than 0 and less than an hour. */
  function GuardedTrapezoidWh(xs: seq<Sample>): real
  {
    if |xs| < 2 then 0.0
    else GuardedTrapezoidWh(xs[..|xs| - 1]) + GapWh(xs[|xs| - 2], xs[|xs| - 1].time, xs[|xs| - 1].power)
  }

  predicate TimesNonDecreasing(xs: seq<Sample>)
  {
    forall i, j | 0 <= i <= j < |xs| :: xs[i].time <= xs[j].time
  }

  // ---------------------------------------------------------------------------
  // What a replay computes

  /** The peak is the largest power seen (or the starting peak if nothing exceeds
      it), and its time is that of the first sample reaching it. */
  lemma {:induction false} ReplayPeak(s: DailyStats, xs: seq<Sample>)
    ensures var i := PeakIndex(s.peakPowerW, xs);
      Replay(s, xs).peakPowerW == (if i < 0 then s.peakPowerW else xs[i].power) &&
      Replay(s, xs).peakTime == (if i < 0 then s.peakTime else xs[i].time)
  {
    if |xs| > 0 {
      var init := xs[..|xs| - 1];
      ReplayPeak(s, init);
      assert forall k | 0 <= k < |init| :: init[k] == xs[k];
    }
  }

  /** The production window: the first and the last sample with positive power, and
      the minutes between them. */
  lemma {:induction false} ReplayProduction(s: DailyStats, xs: seq<Sample>)
    requires s.firstProduction.None? && s.lastProduction.None? && s.totalProductionMinutes == 0.0
    ensures var r := Replay(s, xs);
      var f := FirstProducing(xs);
      var l := LastProducing(xs);
      r.firstProduction == (if f < 0 then None else Some(xs[f].time)) &&
      r.lastProduction == (if l < 0 then None else Some(xs[l].time)) &&
      r.totalProductionMinutes * MINUTE_MS as real == (if f < 0 then 0.0 else (xs[l].time - xs[f].time) as real)
  {
    if |xs| > 0 {
      var init := xs[..|xs| - 1];
      ReplayProduction(s, init);
      assert forall k | 0 <= k < |init| :: init[k] == xs[k];
      FirstBeforeLast(xs);
    }
  }

  lemma FirstBeforeLast(xs: seq<Sample>)
    ensures FirstProducing(xs) < 0 <==> LastProducing(xs) < 0
    ensures FirstProducing(xs) <= LastProducing(xs)
  {
  }

  /** With samples in time order, the production minutes are never negative. */
  lemma ProductionMinutesNonNegative(s: DailyStats, xs: seq<Sample>)
    requires s.firstProduction.None? && s.lastProduction.None? && s.totalProductionMinutes == 0.0
    requires TimesNonDecreasing(xs)
    ensures Replay(s, xs).totalProductionMinutes >= 0.0
  {
    ReplayProduction(s, xs);
    FirstBeforeLast(xs);
  }

  /** The sample buffer ends with the latest sample and holds nothing 24 hours older
      than it. */
  lemma {:induction false} ReplayBufferLatest(s: DailyStats, xs: seq<Sample>)
    requires |xs| > 0
    ensures var b := Replay(s, xs).samples; var x := xs[|xs| - 1];
      |b| > 0 && b[|b| - 1] == x && forall k | 0 <= k < |b| :: x.time - DAY_MS < b[k].time
  {
    var x := xs[|xs| - 1];
    var prev := Replay(s, xs[..|xs| - 1]);
    assert Replay(s, xs) == UpdateDailyStats(prev, x.power, x.time);
    UpdateBuffer(prev, x.power, x.time);
  }

  /** The sample buffer keeps its samples in order, taken from the earlier buffer and
      the stream. */
  lemma {:induction false} ReplayBufferOrder(s: DailyStats, xs: seq<Sample>)
    ensures IsSubsequence(Replay(s, xs).samples, s.samples + xs)
  {
    if |xs| == 0 {
      assert s.samples + xs == s.samples;
      SubsequenceOfSelf(s.samples);
    } else {
      var init := xs[..|xs| - 1];
      var x := xs[|xs| - 1];
      ReplayBufferOrder(s, init);
      assert s.samples + init + [x] == s.samples + xs;
      StepOrder(Replay(s, init).samples, s.samples + init, x);
    }
  }

  lemma StepOrder(before: seq<Sample>, all: seq<Sample>, x: Sample)
    requires IsSubsequence(before, all)
    ensures IsSubsequence(FilterRecent(before + [x], x.time - DAY_MS), all + [x])
  {
    SubsequenceSnoc(before, all, x);
    FilterRecentKeeps(before + [x], x.time - DAY_MS);
    SubsequenceTrans(FilterRecent(before + [x], x.time - DAY_MS), before + [x], all + [x]);
  }

  /** Energy never decreases while the powers are non-negative. */
  lemma {:induction false} EnergyNeverDecreases(s: DailyStats, xs: seq<Sample>)
    requires forall k | 0 <= k < |s.samples| :: s.samples[k].power >= 0.0
    requires forall k | 0 <= k < |xs| :: xs[k].power >= 0.0
    ensures Replay(s, xs).energyWh >= s.energyWh
  {
    if |xs| > 0 {
      var init := xs[..|xs| - 1];
      var x := xs[|xs| - 1];
      var prev := Replay(s, init);
      assert Replay(s, xs) == UpdateDailyStats(prev, x.power, x.time);
      EnergyNeverDecreases(s, init);
      if |prev.samples| > 0 {
        BufferPowersNonNegative(s, init);
        GapWhNonNegative(prev.samples[|prev.samples| - 1], x.time, x.power);
      }
    }
  }

  lemma GapWhNonNegative(prev: Sample, t: int, p: real)
    requires prev.power >= 0.0 && p >= 0.0
    ensures GapWh(prev, t, p) >= 0.0
  {
    var minutesDiff := (t - prev.time) as real / MINUTE_MS as real;
    if 0.0 < minutesDiff < 60.0 {
      assert (p + prev.power) / 2.0 >= 0.0;
      assert (p + prev.power) / 2.0 * minutesDiff >= 0.0;
    }
  }

  lemma BufferPowersNonNegative(s: DailyStats, xs: seq<Sample>)
    requires forall k | 0 <= k < |s.samples| :: s.samples[k].power >= 0.0
    requires forall k | 0 <= k < |xs| :: xs[k].power >= 0.0
    ensures forall k | 0 <= k < |Replay(s, xs).samples| :: Replay(s, xs).samples[k].power >= 0.0
  {
    var b := Replay(s, xs).samples;
    var all := s.samples + xs;
    ReplayBufferOrder(s, xs);
    SubsequenceMembers(b, all);
    assert forall x | x in all :: x.power >= 0.0;
  }

  /** Starting from an empty buffer, the energy of a day is the guarded trapezoid sum
      over its samples. */
  lemma {:induction false} ReplayEnergy(s: DailyStats, xs: seq<Sample>)
    requires s.samples == []
    ensures Replay(s, xs).energyWh == s.energyWh + GuardedTrapezoidWh(xs)
  {
    if |xs| > 0 {
      var init := xs[..|xs| - 1];
      ReplayEnergy(s, init);
      if |xs| >= 2 {
        ReplayBufferLatest(s, init);
        assert init[|init| - 1] == xs[|xs| - 2];
      }
    }
  }

  // ---------------------------------------------------------------------------
  // Report time

  /** `parseInt` on an optional sign followed by decimal digits; None stands for NaN.
      Leading whitespace and the hexadecimal prefix are not modelled. */
  function ParseInt(s: string): (r: Option<int>)
    ensures |s| > 0 && AllDigits(s) ==> r == Some(DigitsValue(s))
    ensures |s| > 1 && s[0] == '-' && AllDigits(s[1..]) ==>
      var v: int := DigitsValue(s[1..]); r == Some(-v)
    ensures r.None? <==>
      |s| == 0 ||
      (!IsDigit(s[0]) && (!(s[0] == '-' || s[0] == '+') || |s| == 1 || !IsDigit(s[1])))
  {
    var negative := |s| > 0 && s[0] == '-';
    var rest := if |s| > 0 && (s[0] == '-' || s[0] == '+') then s[1..] else s;
    var n := DigitRun(rest);
    if n == 0 then None
    else
      var v: int := DigitsValue(rest[..n]);
      AllDigitsRun(s);
      AllDigitsRun(s[1..]);
      assert |s| > 0 && AllDigits(s) ==> rest[..n] == s;
      assert |s| > 1 && s[0] == '-' && AllDigits(s[1..]) ==> rest[..n] == s[1..];
      Some(if negative then -v else v)
  }

  lemma {:induction false} AllDigitsRun(s: string)
    ensures AllDigits(s) ==> DigitRun(s) == |s|
  {
    if |s| > 0 && AllDigits(s) {
      assert AllDigits(s[1..]) by { assert forall k | 0 <= k < |s[1..]| :: s[1..][k] == s[k + 1]; }
      AllDigitsRun(s[1..]);
    }
  }

  datatype ClockTime = ClockTime(hour: int, minute: int)

  /** The named report times; any other setting is read as `hours:minutes`. */
  predicate IsNamedReportTime(setting: string)
  {
    setting == "sunset" || setting == "sunset+30" || setting == "sunset+60"
  }

  /** The local time of day the report is due at; None when a custom time does not
      parse (the source then builds an invalid date, and the report is never due). */
  function ReportClock(setting: string): (r: Option<ClockTime>)
    ensures setting == "sunset" ==> r == Some(ClockTime(19, 0))
    ensures setting == "sunset+30" ==> r == Some(ClockTime(19, 30))
    ensures setting == "sunset+60" ==> r == Some(ClockTime(20, 0))
    ensures !IsNamedReportTime(setting) && Count(setting, ':') != 1 ==> r == Some(ClockTime(19, 30))
    ensures !IsNamedReportTime(setting) && Count(setting, ':') == 1 ==>
      var parts := Split(setting, ':');
      |parts| == 2 &&
      (r.None? <==> ParseInt(parts[0]).None? || ParseInt(parts[1]).None?) &&
      (r.Some? ==> r.value == ClockTime(ParseInt(parts[0]).value, ParseInt(parts[1]).value))
  {
    if setting == "sunset" then Some(ClockTime(19, 0))
    else if setting == "sunset+30" then Some(ClockTime(19, 30))
    else if setting == "sunset+60" then Some(ClockTime(20, 0))
    else
      var parts := Split(setting, ':');
      SplitPieces(setting, ':');
      if |parts| == 2 then
        match (ParseInt(parts[0]), ParseInt(parts[1]))
        case (Some(h), Some(m)) => Some(ClockTime(h, m))
        case _ => None
      else Some(ClockTime(19, 30))
  }

  /** A custom time written as `hours:minutes` in plain decimal is read back as is. */
  lemma CustomReportClock(h: nat, m: nat)
    ensures ReportClock(NatToDecimal(h) + ":" + NatToDecimal(m)) == Some(ClockTime(h, m))
  {
    var a := NatToDecimal(h);
    var b := NatToDecimal(m);
    var setting := a + ":" + b;
    assert ':' !in a && ':' !in b by {
      assert forall k | 0 <= k < |a| :: IsDigit(a[k]);
      assert forall k | 0 <= k < |b| :: IsDigit(b[k]);
    }
    assert setting == Join([a, b], ':') by {
      assert [a, b][1..] == [b];
    }
    SplitJoin([a, b], ':');
    assert !IsNamedReportTime(setting) by {
      assert setting[|a|] == ':';
      NamesWithoutColon();
    }
    NatToDecimalValue(h);
    NatToDecimalValue(m);
    assert ParseInt(a) == Some(h) && ParseInt(b) == Some(m);
  }

  lemma NamesWithoutColon()
    ensures ':' !in "sunset" && ':' !in "sunset+30" && ':' !in "sunset+60"
  {
  }

  /** The elapsed-minutes test in real arithmetic agrees with the integer bound. */
  lemma ThirtyMinutes(elapsed: int)
    ensures elapsed as real / MINUTE_MS as real >= 30.0 <==> elapsed >= 30 * MINUTE_MS
  {
    var q := elapsed as real / MINUTE_MS as real;
    assert elapsed as real == q * MINUTE_MS as real;
  }

  /** Local midnight of the local day containing `t`. */
  function LocalMidnight(t: int, tzOffsetMs: int): int
  {
    DateKey(t + tzOffsetMs) * DAY_MS - tzOffsetMs
  }

  /** `calculateReportTime`: `setHours(h, m, 0, 0)` on the local day of `t`; hours
      and minutes out of range roll over as the JavaScript Date does. */
  function CalculateReportTime(t: int, setting: string, tzOffsetMs: int): (r: Option<int>)
    ensures r.None? <==> ReportClock(setting).None?
    ensures r.Some? ==> (r.value + tzOffsetMs) % MINUTE_MS == 0
    ensures r.Some? ==> var c := ReportClock(setting).value;
      0 <= c.hour < 24 && 0 <= c.minute < 60 ==>
        DateKey(r.value + tzOffsetMs) == DateKey(t + tzOffsetMs) &&
        (r.value + tzOffsetMs) % DAY_MS == c.hour * HOUR_MS + c.minute * MINUTE_MS
  {
    match ReportClock(setting)
    case None => None
    case Some(c) =>
      var d := DateKey(t + tzOffsetMs);
      LocalClock(d, c.hour, c.minute);
      Some(LocalMidnight(t, tzOffsetMs) + c.hour * HOUR_MS + c.minute * MINUTE_MS)
  }

  /** The local instant `h:m` on local day `d` is a whole minute, and with `h` and `m`
      in range it falls on day `d` at that time of day. */
  lemma LocalClock(d: int, h: int, m: int)
    ensures var x := d * DAY_MS + h * HOUR_MS + m * MINUTE_MS;
      x % MINUTE_MS == 0 &&
      (0 <= h < 24 && 0 <= m < 60 ==> DateKey(x) == d && x % DAY_MS == h * HOUR_MS + m * MINUTE_MS)
  {
  }

  // ---------------------------------------------------------------------------
  // Comparison, efficiency and weather

  /** `calculateComparison`: the change against yesterday when yesterday produced,
      else against the weekly average when it is positive, else 0 % against
      yesterday. The percentage is the one that takes the reference to today. */
  function CalculateComparison(todayWh: real, yesterday: Option<DailyStats>, weeklyAverage: real): (c: I18n.Comparison)
    ensures yesterday.Some? && yesterday.value.energyWh > 0.0 ==>
      c.kind == I18n.Yesterday && yesterday.value.energyWh * (1.0 + c.percent / 100.0) == todayWh
    ensures !(yesterday.Some? && yesterday.value.energyWh > 0.0) && weeklyAverage > 0.0 ==>
      c.kind == I18n.Average && weeklyAverage * (1.0 + c.percent / 100.0) == todayWh
    ensures !(yesterday.Some? && yesterday.value.energyWh > 0.0) && weeklyAverage <= 0.0 ==>
      c == I18n.Comparison(0.0, I18n.Yesterday)
  {
    if yesterday.Some? && yesterday.value.energyWh > 0.0 then
      I18n.Comparison((todayWh - yesterday.value.energyWh) / yesterday.value.energyWh * 100.0, I18n.Yesterday)
    else if weeklyAverage > 0.0 then
      I18n.Comparison((todayWh - weeklyAverage) / weeklyAverage * 100.0, I18n.Average)
    else I18n.Comparison(0.0, I18n.Yesterday)
  }

  /** `calculateEfficiency`: the day's energy as a percentage of a 10 kWh day, capped
      at 100. */
  function CalculateEfficiency(energyWh: real): (e: real)
    ensures e <= 100.0
    ensures e == 100.0 <==> energyWh >= 10000.0
    ensures e < 100.0 ==> e * 100.0 == energyWh
  {
    Min(100.0, energyWh / 1000.0 / 10.0 * 100.0)
  }

  function Powers(xs: seq<Sample>): (ps: seq<real>)
    ensures |ps| == |xs| && forall k | 0 <= k < |xs| :: ps[k] == xs[k].power
  {
    seq(|xs|, k requires 0 <= k < |xs| => xs[k].power)
  }

  function Mean(ps: seq<real>): real
    requires |ps| > 0
  {
    Sum(ps) / |ps| as real
  }

  /** Sum of the squared deviations from `m`. */
  function SquaredDeviations(ps: seq<real>, m: real): (r: real)
    ensures r >= 0.0
  {
    if |ps| == 0 then 0.0
    else
      var d := ps[|ps| - 1] - m;
      SquareMonotone(0.0, if d >= 0.0 then d else -d);
      SquaredDeviations(ps[..|ps| - 1], m) + d * d
  }

  function Variance(ps: seq<real>): real
    requires |ps| > 0
  {
    SquaredDeviations(ps, Mean(ps)) / |ps| as real
  }

  /** For non-negative reals, comparing squares is comparing the values. */
  lemma SquareMonotone(a: real, b: real)
    requires a >= 0.0 && b >= 0.0
    ensures a < b <==> a * a < b * b
    ensures b * b >= 0.0
  {
    var aa := a * a;
    var ab := a * b;
    var bb := b * b;
    assert bb >= 0.0 by { assert bb == b * b; }
    if a < b {
      assert aa <= ab by { assert ab - aa == a * (b - a); }
      assert ab < bb by { assert bb - ab == (b - a) * b; }
    } else {
      assert bb <= ab by { assert ab - bb == b * (a - b); }
      assert ab <= aa by { assert aa - ab == (a - b) * a; }
    }
  }

  /** `calculateVariability(samples) < k`, where the variability is the coefficient of
      variation (0 for fewer than two samples or a non-positive mean). The square
      root is avoided: for a positive mean and k >= 0, stdDev / mean < k is
      variance < k^2 mean^2. */
  predicate VariabilityBelow(ps: seq<real>, k: real)
  {
    if |ps| < 2 then 0.0 < k
    else
      var mean := Mean(ps);
      if mean > 0.0 then 0.0 <= k && Variance(ps) < k * k * mean * mean
      else 0.0 < k
  }

  /** The square-root-free test agrees with comparing the coefficient of variation. */
  lemma VariabilityBelowMeaning(ps: seq<real>, k: real, stdDev: real)
    requires |ps| >= 2 && Mean(ps) > 0.0
    requires stdDev >= 0.0 && stdDev * stdDev == Variance(ps)
    ensures VariabilityBelow(ps, k) <==> stdDev / Mean(ps) < k
  {
    var mean, variance := Mean(ps), Variance(ps);
    assert VariabilityBelow(ps, k) == (0.0 <= k && variance < k * k * mean * mean);
    CoefficientTest(variance, mean, stdDev, k);
  }

  /** The square-root-free test on plain numbers. */
  lemma CoefficientTest(variance: real, mean: real, stdDev: real, k: real)
    requires mean > 0.0 && stdDev >= 0.0 && stdDev * stdDev == variance
    ensures (0.0 <= k && variance < k * k * mean * mean) <==> stdDev / mean < k
  {
    var cv := stdDev / mean;
    assert stdDev == cv * mean;
    assert cv >= 0.0 by {
      QuotientNonNegative(stdDev, mean);
    }
    if 0.0 <= k {
      var bound := k * mean;
      assert bound >= 0.0 by {
        ProductNonNegative(k, mean);
      }
      assert k * k * mean * mean == bound * bound;
      SquareMonotone(stdDev, bound);
      assert bound - stdDev == (k - cv) * mean;
      assert stdDev < bound <==> cv < k by {
        SignOfProduct(k - cv, mean);
      }
    }
  }

  lemma QuotientNonNegative(a: real, b: real)
    requires a >= 0.0 && b > 0.0
    ensures a / b >= 0.0
  {
  }

  lemma ProductNonNegative(a: real, b: real)
    requires a >= 0.0 && b >= 0.0
    ensures a * b >= 0.0
  {
  }

  lemma SignOfProduct(a: real, b: real)
    requires b > 0.0
    ensures a * b > 0.0 <==> a > 0.0
  {
    if a > 0.0 {
      assert a * b > 0.0;
    } else {
      assert a * b <= 0.0 by { assert (-a) * b >= 0.0; }
    }
  }

  /** `detectWeather`: a guess from the peak, the mean and the variability of the
      buffered power curve; fewer than 10 samples give `mixed`. */
  function DetectWeather(xs: seq<Sample>): (w: I18n.Weather)
    ensures w == I18n.Sunny <==>
      |xs| >= 10 && MaxOf(Powers(xs)) > 2000.0 && Mean(Powers(xs)) > 800.0 && VariabilityBelow(Powers(xs), 0.3)
    ensures w == I18n.PartlyCloudy <==>
      |xs| >= 10 &&
      !(MaxOf(Powers(xs)) > 2000.0 && Mean(Powers(xs)) > 800.0 && VariabilityBelow(Powers(xs), 0.3)) &&
      MaxOf(Powers(xs)) > 1000.0 && VariabilityBelow(Powers(xs), 0.5)
    ensures w == I18n.Cloudy <==> |xs| >= 10 && MaxOf(Powers(xs)) < 500.0
    ensures w == I18n.Mixed <==>
      |xs| < 10 ||
      (!(MaxOf(Powers(xs)) > 2000.0 && Mean(Powers(xs)) > 800.0 && VariabilityBelow(Powers(xs), 0.3)) &&
       !(MaxOf(Powers(xs)) > 1000.0 && VariabilityBelow(Powers(xs), 0.5)) &&
       MaxOf(Powers(xs)) >= 500.0)
  {
    if |xs| < 10 then I18n.Mixed
    else
      var ps := Powers(xs);
      var maxPower := MaxOf(ps);
      var avgPower := Mean(ps);
      if maxPower > 2000.0 && avgPower > 800.0 && VariabilityBelow(ps, 0.3) then I18n.Sunny
      else if maxPower > 1000.0 && VariabilityBelow(ps, 0.5) then I18n.PartlyCloudy
      else if maxPower < 500.0 then I18n.Cloudy
      else I18n.Mixed
  }

  /** A flat curve of at least 10 samples above 2 kW is sunny. */
  lemma FlatCurveIsSunny(xs: seq<Sample>, p: real)
    requires |xs| >= 10 && p > 2000.0
    requires forall k | 0 <= k < |xs| :: xs[k].power == p
    ensures DetectWeather(xs) == I18n.Sunny
  {
    var ps := Powers(xs);
    SumConstant(ps, p);
    assert Sum(ps) == |ps| as real * p;
    assert Mean(ps) == (|ps| as real * p) / |ps| as real;
    assert Mean(ps) == p;
    SquaredDeviationsAtValue(ps, p);
    assert Variance(ps) == 0.0;
    assert 0.3 * 0.3 * p * p > 0.0;
  }

  lemma {:induction false} SquaredDeviationsAtValue(ps: seq<real>, p: real)
    requires forall k | 0 <= k < |ps| :: ps[k] == p
    ensures SquaredDeviations(ps, p) == 0.0
  {
    if |ps| > 0 {
      SquaredDeviationsAtValue(ps[..|ps| - 1], p);
    }
  }

  // ---------------------------------------------------------------------------
  // Weekly average

  /** The energies of the days `today - 1` down to `today - n` that have stats with
      positive energy, oldest last. */
  function PriorDayEnergies(m: map<int, DailyStats>, today: int, n: nat): (es: seq<real>)
    ensures |es| <= n
    ensures forall k | 0 <= k < |es| :: es[k] > 0.0
  {
    if n == 0 then []
    else
      var es := PriorDayEnergies(m, today, n - 1);
      var day := today - n;
      if day in m && m[day].energyWh > 0.0 then es + [m[day].energyWh] else es
  }

  /** The mean energy of the days among the previous seven that produced, 0 when none
      did. */
  function WeeklyAverage(m: map<int, DailyStats>, now: int): real
  {
    var es := PriorDayEnergies(m, DateKey(now), 7);
    if |es| > 0 then Sum(es) / |es| as real else 0.0
  }

  lemma {:induction false} PriorDayEnergiesEmpty(m: map<int, DailyStats>, today: int, n: nat)
    ensures |PriorDayEnergies(m, today, n)| == 0 <==>
      forall d | today - n <= d < today && d in m :: m[d].energyWh <= 0.0
  {
    if n > 0 {
      PriorDayEnergiesEmpty(m, today, n - 1);
    }
  }

  /** The weekly average is positive exactly when one of the previous seven days has
      stats with positive energy. */
  lemma WeeklyAveragePositive(m: map<int, DailyStats>, now: int)
    ensures WeeklyAverage(m, now) > 0.0 <==>
      exists d | DateKey(now) - 7 <= d < DateKey(now) && d in m :: m[d].energyWh > 0.0
  {
    var today := DateKey(now);
    var es := PriorDayEnergies(m, today, 7);
    PriorDayEnergiesEmpty(m, today, 7);
    if |es| > 0 {
      assert WeeklyAverage(m, now) > 0.0 by {
        SumPositive(es);
        QuotientPositive(Sum(es), |es| as real);
      }
    } else {
      assert WeeklyAverage(m, now) == 0.0;
    }
  }

  lemma QuotientPositive(a: real, b: real)
    requires a > 0.0 && b > 0.0
    ensures a / b > 0.0
  {
  }

  lemma {:induction false} PriorDayEnergiesAllEqual(m: map<int, DailyStats>, today: int, n: nat, e: real)
    requires e > 0.0
    requires forall d | today - n <= d < today :: d in m && m[d].energyWh == e
    ensures |PriorDayEnergies(m, today, n)| == n
    ensures forall k | 0 <= k < n :: PriorDayEnergies(m, today, n)[k] == e
  {
    if n > 0 {
      PriorDayEnergiesAllEqual(m, today, n - 1, e);
    }
  }

  /** Seven previous days with the same energy average to that energy. */
  lemma WeeklyAverageOfEqualDays(m: map<int, DailyStats>, now: int, e: real)
    requires e > 0.0
    requires forall d | DateKey(now) - 7 <= d < DateKey(now) :: d in m && m[d].energyWh == e
    ensures WeeklyAverage(m, now) == e
  {
    var es := PriorDayEnergies(m, DateKey(now), 7);
    PriorDayEnergiesAllEqual(m, DateKey(now), 7, e);
    SumConstant(es, e);
    assert Sum(es) == 7.0 * e;
  }

  // ---------------------------------------------------------------------------
  // The manager

  /** The report payload built from the day's stats, yesterday's stats and the
      weekly average (`generateReportData`). */
  function ReportData(stats: DailyStats, yesterday: Option<DailyStats>, weeklyAverage: real): I18n.DailyReportData
  {
    I18n.DailyReportData(
      stats.energyWh / 1000.0,
      CalculateEfficiency(stats.energyWh),
      stats.peakPowerW / 1000.0,
      stats.peakTime,
      stats.totalProductionMinutes / 60.0,
      CalculateComparison(stats.energyWh, yesterday, weeklyAverage),
      DetectWeather(stats.samples))
  }

  /** The configuration fields the engine reads; the delivery style and the unused
      options are not modelled. */
  datatype DailyReportConfig = DailyReportConfig(enabled: bool, language: string, reportTime: string)

  /** A report handed to the HomeKit delivery: its payload and the rendered text. */
  datatype Delivery = Delivery(data: I18n.DailyReportData, message: string)

  class DailyReportsManager {
    const config: DailyReportConfig
    const tzOffsetMs: int
    const i18n: I18n.SolarReportI18n
    var dailyStats: map<int, DailyStats>
    var reportSentToday: bool

    /** The renderer is usable and every day's stats sit under their own day key. */
    ghost predicate Valid()
      reads this, i18n
    {
      i18n.Valid() && forall key | key in dailyStats :: dailyStats[key].date == key
    }

    /** Loads the catalogs and selects `config.language`, `en` when it is empty or
        not loaded. */
    constructor (config: DailyReportConfig, tzOffsetMs: int,
                 en: I18n.Json, de: I18n.Json, fr: I18n.Json, it: I18n.Json, zh: I18n.Json, intl: I18n.Intl)
      ensures Valid() && fresh(i18n)
      ensures this.config == config && this.tzOffsetMs == tzOffsetMs
      ensures dailyStats == map[] && !reportSentToday
      ensures i18n.currentLocale == (if config.language in I18n.Supported then config.language else "en")
    {
      this.config := config;
      this.tzOffsetMs := tzOffsetMs;
      i18n := new I18n.SolarReportI18n(en, de, fr, it, zh, intl);
      dailyStats := map[];
      reportSentToday := false;
      new;
      i18n.SetLocale(if config.language == "" then "en" else config.language);
    }

    /** `getYesterdayStats`: the stats of the day before the instant's day. */
    function YesterdayStats(t: int): (r: Option<DailyStats>)
      reads this`dailyStats
      ensures r.Some? <==> DateKey(t) - 1 in dailyStats
      ensures r.Some? ==> r.value == dailyStats[DateKey(t) - 1]
    {
      DateKeyShift(t, 1);
      var key := DateKey(t - DAY_MS);
      if key in dailyStats then Some(dailyStats[key]) else None
    }

    /** `getTodayStats`: the stats of the day containing `now`. */
    function GetTodayStats(now: int): (r: Option<DailyStats>)
      reads this`dailyStats
      ensures r.Some? <==> DateKey(now) in dailyStats
      ensures r.Some? ==> r.value == dailyStats[DateKey(now)]
    {
      if DateKey(now) in dailyStats then Some(dailyStats[DateKey(now)]) else None
    }

    /** `shouldSendReport`: a report is due only at or after the configured report
        time, and only once today's stats have production whose last sample is at
        least 30 minutes old. */
    function ShouldSendReport(t: int): (due: bool)
      reads this`dailyStats
      ensures due <==>
        var reportTime := CalculateReportTime(t, config.reportTime, tzOffsetMs);
        reportTime.Some? && t >= reportTime.value &&
        DateKey(t) in dailyStats && dailyStats[DateKey(t)].lastProduction.Some? &&
        t - dailyStats[DateKey(t)].lastProduction.value >= 30 * MINUTE_MS
      ensures ReportClock(config.reportTime).None? ==> !due
    {
      match CalculateReportTime(t, config.reportTime, tzOffsetMs)
      case None => false
      case Some(reportTime) =>
        if t >= reportTime then
          var key := DateKey(t);
          if key in dailyStats && dailyStats[key].lastProduction.Some? then
            var elapsed := t - dailyStats[key].lastProduction.value;
            ThirtyMinutes(elapsed);
            elapsed as real / MINUTE_MS as real >= 30.0
          else false
        else false
    }

    /** The report for the given stats at instant `t`, with the weekly average taken
        at the wall-clock instant `clockNow`. */
    function ReportFor(stats: DailyStats, t: int, clockNow: int): Delivery
      reads this`dailyStats, i18n
    {
      var data := ReportData(stats, YesterdayStats(t), WeeklyAverage(dailyStats, clockNow));
      Delivery(data, i18n.GenerateDailyReport(data))
    }

    /** `calculateWeeklyAverage`: averages the days among the previous seven that
        have stats with positive energy. */
    method CalculateWeeklyAverage(now: int) returns (average: real)
      ensures average == WeeklyAverage(dailyStats, now)
    {
      var totalEnergy := 0.0;
      var validDays := 0;
      var i := 1;
      while i <= 7
        invariant 1 <= i <= 8
        invariant validDays == |PriorDayEnergies(dailyStats, DateKey(now), i - 1)|
        invariant totalEnergy == Sum(PriorDayEnergies(dailyStats, DateKey(now), i - 1))
      {
        DateKeyShift(now, i);
        var key := DateKey(now - i * DAY_MS);
        if key in dailyStats && dailyStats[key].energyWh > 0.0 {
          totalEnergy := totalEnergy + dailyStats[key].energyWh;
          validDays := validDays + 1;
        }
        i := i + 1;
      }
      average := if validDays > 0 then totalEnergy / validDays as real else 0.0;
    }

    /** `generateReportData`; the weekly average is computed only when yesterday
        cannot serve as the reference. */
    method GenerateReportData(stats: DailyStats, t: int, clockNow: int) returns (data: I18n.DailyReportData)
      ensures data == ReportData(stats, YesterdayStats(t), WeeklyAverage(dailyStats, clockNow))
    {
      var yesterday := YesterdayStats(t);
      var weeklyAverage := 0.0;
      if !(yesterday.Some? && yesterday.value.energyWh > 0.0) {
        weeklyAverage := CalculateWeeklyAverage(clockNow);
      }
      var comparison := CalculateComparison(stats.energyWh, yesterday, weeklyAverage);
      data := I18n.DailyReportData(
        stats.energyWh / 1000.0,
        CalculateEfficiency(stats.energyWh),
        stats.peakPowerW / 1000.0,
        stats.peakTime,
        stats.totalProductionMinutes / 60.0,
        comparison,
        DetectWeather(stats.samples));
    }

    /** `sendDailyReport`: nothing without stats for the instant's day, else the
        rendered report of that day. */
    method SendDailyReport(t: int, clockNow: int) returns (d: Option<Delivery>)
      ensures d.None? <==> DateKey(t) !in dailyStats
      ensures d.Some? ==> d.value == ReportFor(dailyStats[DateKey(t)], t, clockNow)
    {
      var key := DateKey(t);
      if key !in dailyStats {
        return None;
      }
      var data := GenerateReportData(dailyStats[key], t, clockNow);
      var message := i18n.GenerateDailyReport(data);
      d := Some(Delivery(data, message));
    }

    /** `checkForDailyReport`: when enabled and not yet sent, sends the report if it
        is due and closes the gate for the day. */
    method CheckForDailyReport(t: int, clockNow: int) returns (d: Option<Delivery>)
      requires Valid()
      modifies this
      ensures Valid() && dailyStats == old(dailyStats)
      ensures reportSentToday == (old(reportSentToday) || (config.enabled && ShouldSendReport(t)))
      ensures d.Some? <==> config.enabled && !old(reportSentToday) && ShouldSendReport(t)
      ensures d.Some? ==> d.value == ReportFor(dailyStats[DateKey(t)], t, clockNow)
    {
      d := None;
      if !config.enabled || reportSentToday {
        return;
      }
      var due := ShouldSendReport(t);
      if due {
        // The source sets the flag after sending; sending does not read it.
        reportSentToday := true;
        d := SendDailyReport(t, clockNow);
      }
    }

    /** `updatePowerData`: folds the sample into its day (creating the day and
        reopening the report gate when the day is new), then checks for the report. */
    method UpdatePowerData(powerW: real, t: int, clockNow: int) returns (d: Option<Delivery>)
      requires Valid()
      modifies this
      ensures Valid()
      ensures var key := DateKey(t);
        var before := if key in old(dailyStats) then old(dailyStats)[key] else NewDayStats(key, t);
        dailyStats == old(dailyStats)[key := UpdateDailyStats(before, powerW, t)]
      ensures var gateClosed := DateKey(t) in old(dailyStats) && old(reportSentToday);
        var due := config.enabled && !gateClosed && ShouldSendReport(t);
        reportSentToday == (gateClosed || due) && (d.Some? <==> due)
      ensures d.Some? ==> d.value == ReportFor(dailyStats[DateKey(t)], t, clockNow)
    {
      var key := DateKey(t);
      var stats: DailyStats;
      if key in dailyStats {
        stats := dailyStats[key];
      } else {
        stats := NewDayStats(key, t);
        reportSentToday := false;
      }
      dailyStats := dailyStats[key := UpdateDailyStats(stats, powerW, t)];
      d := CheckForDailyReport(t, clockNow);
    }

    /** `triggerManualReport`: reopens the gate and sends today's report if there
        are stats for today; the gate stays open afterwards. */
    method TriggerManualReport(now: int) returns (d: Option<Delivery>)
      requires Valid()
      modifies this
      ensures Valid() && dailyStats == old(dailyStats) && !reportSentToday
      ensures d.None? <==> DateKey(now) !in dailyStats
      ensures d.Some? ==> d.value == ReportFor(dailyStats[DateKey(now)], now, now)
    {
      reportSentToday := false;
      d := SendDailyReport(now, now);
    }
  }
}
