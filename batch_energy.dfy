/** The batch energy arithmetic shared by generate-daily-report.js and its Python twin
    daily-energy-report.py: trapezoidal energy over consecutive readings with no gap
    guard, and detection of production periods over the `is_producing` flag. The two
    twins run the same loops, so both are modelled by the methods of this module.
    Timestamps are milliseconds; parsing the stored ISO strings is not modelled. */
module BatchEnergy {
  import opened Sequences
  import DailyReports

  const HOUR_MS: int := 3600000

  datatype Reading = Reading(timestamp: int, power: real, temperature: real, isProducing: bool)

  datatype Period = Period(start: int, end: int)

  datatype ProductionTimes = ProductionTimes(
    totalHours: real,
    startTime: Option<int>,
    endTime: Option<int>,
    periods: nat)

  // ---------------------------------------------------------------------------
  // Energy

  /** The trapezoid between two readings in kWh: mean power (W) times hours / 1000. */
  function PairKwh(a: Reading, b: Reading): real
  {
    (a.power + b.power) / 2.0 * ((b.timestamp - a.timestamp) as real / HOUR_MS as real) / 1000.0
  }

  /** The sum of the trapezoids over all consecutive pairs, 0 below two readings. */
  function TrapezoidKwh(ps: seq<Reading>): real
  {
    if |ps| < 2 then 0.0 else TrapezoidKwh(ps[..|ps| - 1]) + PairKwh(ps[|ps| - 2], ps[|ps| - 1])
  }

  /** `calculateTotalEnergy` / `calculate_total_energy_from_data`. */
  method CalculateTotalEnergy(ps: seq<Reading>) returns (totalEnergy: real)
    ensures totalEnergy == TrapezoidKwh(ps)
  {
    if |ps| < 2 {
      return 0.0;
    }
    totalEnergy := 0.0;
    var i := 1;
    while i < |ps|
      invariant 1 <= i <= |ps|
      invariant totalEnergy == TrapezoidKwh(ps[..i])
    {
      var timeDiffHours := (ps[i].timestamp - ps[i - 1].timestamp) as real / (1000 * 60 * 60) as real;
      var avgPower := (ps[i - 1].power + ps[i].power) / 2.0;
      var energy := avgPower * timeDiffHours / 1000.0;
      assert ps[..i + 1][..i] == ps[..i];
      totalEnergy := totalEnergy + energy;
      i := i + 1;
    }
    assert ps[..|ps|] == ps;
  }

  predicate Chronological(ps: seq<Reading>)
  {
    forall i, j | 0 <= i <= j < |ps| :: ps[i].timestamp <= ps[j].timestamp
  }

  predicate PowersNonNegative(ps: seq<Reading>)
  {
    forall k | 0 <= k < |ps| :: ps[k].power >= 0.0
  }

  /** Chronological readings of non-negative power never give negative energy. */
  lemma {:induction false} TrapezoidNonNegative(ps: seq<Reading>)
    requires Chronological(ps) && PowersNonNegative(ps)
    ensures TrapezoidKwh(ps) >= 0.0
  {
    if |ps| >= 2 {
      var init := ps[..|ps| - 1];
      assert Chronological(init) && PowersNonNegative(init);
      TrapezoidNonNegative(init);
      var a, b := ps[|ps| - 2], ps[|ps| - 1];
      var mean := (a.power + b.power) / 2.0;
      var hours := (b.timestamp - a.timestamp) as real / HOUR_MS as real;
      assert mean >= 0.0 && hours >= 0.0;
      assert mean * hours >= 0.0;
    }
  }

  /** The readings as the live accumulator of src/daily-reports.ts buffers them. */
  function AsSamples(ps: seq<Reading>): (xs: seq<DailyReports.Sample>)
    ensures |xs| == |ps|
    ensures forall k | 0 <= k < |ps| :: xs[k] == DailyReports.Sample(ps[k].timestamp, ps[k].power)
  {
    seq(|ps|, k requires 0 <= k < |ps| => DailyReports.Sample(ps[k].timestamp, ps[k].power))
  }

  predicate GapsBelowHour(ps: seq<Reading>)
  {
    forall k | 0 < k < |ps| :: 0 < ps[k].timestamp - ps[k - 1].timestamp < HOUR_MS
  }

  /** When every gap lies strictly between 0 and an hour, the guarded live integration
      (in Wh) and the unguarded batch integration (in kWh) agree. */
  lemma {:induction false} LiveAndBatchAgree(ps: seq<Reading>)
    requires GapsBelowHour(ps)
    ensures DailyReports.GuardedTrapezoidWh(AsSamples(ps)) == 1000.0 * TrapezoidKwh(ps)
  {
    if |ps| >= 2 {
      var init := ps[..|ps| - 1];
      assert GapsBelowHour(init);
      LiveAndBatchAgree(init);
      LastGapAgrees(ps);
    }
  }

  /** The live sum over all readings adds the last gap's energy, in Wh, to the live
      sum over all but the last. */
  lemma LastGapAgrees(ps: seq<Reading>)
    requires |ps| >= 2 && 0 < ps[|ps| - 1].timestamp - ps[|ps| - 2].timestamp < HOUR_MS
    ensures DailyReports.GuardedTrapezoidWh(AsSamples(ps))
      == DailyReports.GuardedTrapezoidWh(AsSamples(ps[..|ps| - 1])) + 1000.0 * PairKwh(ps[|ps| - 2], ps[|ps| - 1])
  {
    var xs := AsSamples(ps);
    assert xs[..|xs| - 1] == AsSamples(ps[..|ps| - 1]);
    PairAgrees(ps[|ps| - 2], ps[|ps| - 1]);
  }

  /** One trapezoid with a gap strictly between 0 and an hour, both ways. */
  lemma PairAgrees(a: Reading, b: Reading)
    requires 0 < b.timestamp - a.timestamp < HOUR_MS
    ensures DailyReports.GapWh(DailyReports.Sample(a.timestamp, a.power), b.timestamp, b.power) == 1000.0 * PairKwh(a, b)
  {
    var delta := (b.timestamp - a.timestamp) as real;
    var minutes := delta / 60000.0;
    var mean := (b.power + a.power) / 2.0;
    var hours := delta / 3600000.0;
    assert minutes / 60.0 == hours;
    assert mean * minutes / 60.0 == mean * hours;
  }

  // ---------------------------------------------------------------------------
  // Production periods

  /** The loop state: the closed periods and the start of the open one, if any. */
  datatype RunScan = RunScan(closed: seq<Period>, open: Option<int>)

  /** One iteration: a producing reading opens a period when none is open, a
      non-producing one closes the open period at its own timestamp. */
  function ScanStep(s: RunScan, p: Reading): RunScan
  {
    if p.isProducing && s.open.None? then RunScan(s.closed, Some(p.timestamp))
    else if !p.isProducing && s.open.Some? then RunScan(s.closed + [Period(s.open.value, p.timestamp)], None)
    else s
  }

  function Scan(ps: seq<Reading>): RunScan
  {
    if |ps| == 0 then RunScan([], None) else ScanStep(Scan(ps[..|ps| - 1]), ps[|ps| - 1])
  }

  /** The periods after the scan, a period still open being closed at the last reading. */
  function Periods(ps: seq<Reading>): seq<Period>
  {
    var s := Scan(ps);
    if s.open.Some? && |ps| > 0 then s.closed + [Period(s.open.value, ps[|ps| - 1].timestamp)]
    else s.closed
  }

  function PeriodHours(periods: seq<Period>): real
  {
    if |periods| == 0 then 0.0
    else
      var last := periods[|periods| - 1];
      PeriodHours(periods[..|periods| - 1]) + (last.end - last.start) as real / HOUR_MS as real
  }

  /** The result of the production-times computation. */
  function ProductionTimesOf(ps: seq<Reading>): ProductionTimes
  {
    var periods := Periods(ps);
    ProductionTimes(
      PeriodHours(periods),
      if |periods| > 0 then Some(periods[0].start) else None,
      if |periods| > 0 then Some(periods[|periods| - 1].end) else None,
      |periods|)
  }

  /** `calculateProductionTimes` / `calculate_production_times_from_data`. */
  method CalculateProductionTimes(ps: seq<Reading>) returns (times: ProductionTimes)
    ensures times == ProductionTimesOf(ps)
  {
    var productionPeriods: seq<Period> := [];
    var currentStart: Option<int> := None;
    var i := 0;
    while i < |ps|
      invariant 0 <= i <= |ps|
      invariant Scan(ps[..i]) == RunScan(productionPeriods, currentStart)
    {
      var point := ps[i];
      ScanSnoc(ps, i);
      if point.isProducing && currentStart.None? {
        currentStart := Some(point.timestamp);
      } else if !point.isProducing && currentStart.Some? {
        productionPeriods := productionPeriods + [Period(currentStart.value, point.timestamp)];
        currentStart := None;
      }
      i := i + 1;
    }
    assert ps[..|ps|] == ps;
    if currentStart.Some? {
      productionPeriods := productionPeriods + [Period(currentStart.value, ps[|ps| - 1].timestamp)];
    }
    var totalHours := 0.0;
    var k := 0;
    while k < |productionPeriods|
      invariant 0 <= k <= |productionPeriods|
      invariant totalHours == PeriodHours(productionPeriods[..k])
    {
      var period := productionPeriods[k];
      HoursSnoc(productionPeriods, k);
      totalHours := totalHours + (period.end - period.start) as real / (1000 * 60 * 60) as real;
      k := k + 1;
    }
    assert productionPeriods[..|productionPeriods|] == productionPeriods;
    times := ProductionTimes(
      totalHours,
      if |productionPeriods| > 0 then Some(productionPeriods[0].start) else None,
      if |productionPeriods| > 0 then Some(productionPeriods[|productionPeriods| - 1].end) else None,
      |productionPeriods|);
  }

  /** The scan over one more reading is one more step. */
  lemma ScanSnoc(ps: seq<Reading>, i: nat)
    requires i < |ps|
    ensures Scan(ps[..i + 1]) == ScanStep(Scan(ps[..i]), ps[i])
  {
    assert ps[..i + 1][..i] == ps[..i];
  }

  /** The hours over one more period add that period's length. */
  lemma HoursSnoc(periods: seq<Period>, k: nat)
    requires k < |periods|
    ensures PeriodHours(periods[..k + 1]) == PeriodHours(periods[..k]) + (periods[k].end - periods[k].start) as real / HOUR_MS as real
  {
    assert periods[..k + 1][..k] == periods[..k];
  }

  // ---------------------------------------------------------------------------
  // Production periods, independently: one per maximal run of producing readings

  /** Reading i begins a run of producing readings. */
  predicate RunStart(ps: seq<Reading>, i: nat)
    requires i < |ps|
  {
    ps[i].isProducing && (i == 0 || !ps[i - 1].isProducing)
  }

  /** Where a run continuing at index j ends: the first non-producing reading from j
      on, or the last reading when the run reaches the end. */
  function RunEndFrom(ps: seq<Reading>, j: nat): (r: nat)
    requires |ps| > 0
    ensures r < |ps|
    ensures j < |ps| ==> j <= r
    ensures j >= |ps| ==> r == |ps| - 1
    ensures forall k | j <= k < r :: ps[k].isProducing
    ensures r == |ps| - 1 || !ps[r].isProducing
    decreases |ps| - j
  {
    if j >= |ps| then |ps| - 1
    else if !ps[j].isProducing then j
    else RunEndFrom(ps, j + 1)
  }

  /** One period per run starting before index n, from the run's first reading to
      its end. */
  function RunsBefore(ps: seq<Reading>, n: nat): seq<Period>
    requires n <= |ps|
  {
    if n == 0 then []
    else
      var run := if RunStart(ps, n - 1) then [Period(ps[n - 1].timestamp, ps[RunEndFrom(ps, n)].timestamp)] else [];
      RunsBefore(ps, n - 1) + run
  }

  /** The start of the run that reading n - 1 belongs to. */
  function CurrentRunStart(ps: seq<Reading>, n: nat): (c: nat)
    requires 0 < n <= |ps| && ps[n - 1].isProducing
    ensures c < n && RunStart(ps, c)
    ensures forall k | c <= k < n :: ps[k].isProducing
  {
    if n == 1 || !ps[n - 2].isProducing then n - 1 else CurrentRunStart(ps, n - 1)
  }

  /** A run's end does not move while the run goes on. */
  lemma RunEndSkip(ps: seq<Reading>, c: nat, n: nat)
    requires |ps| > 0 && c <= n
    requires forall k | c <= k < n :: k < |ps| && ps[k].isProducing
    ensures RunEndFrom(ps, c) == RunEndFrom(ps, n)
    decreases n - c
  {
    if c < n {
      RunEndSkip(ps, c + 1, n);
    }
  }

  /** What the scan has built after n readings, in terms of the runs. */
  lemma {:induction false} ScanInvariant(ps: seq<Reading>, n: nat)
    requires n <= |ps|
    ensures n == 0 || !ps[n - 1].isProducing ==>
      Scan(ps[..n]) == RunScan(RunsBefore(ps, n), None)
    ensures n > 0 && ps[n - 1].isProducing ==>
      var c := CurrentRunStart(ps, n);
      Scan(ps[..n]).open == Some(ps[c].timestamp) &&
      RunsBefore(ps, n) == Scan(ps[..n]).closed + [Period(ps[c].timestamp, ps[RunEndFrom(ps, n)].timestamp)]
  {
    if n > 0 {
      var m := n - 1;
      ScanInvariant(ps, m);
      assert ps[..n][..m] == ps[..m];
      var s := Scan(ps[..m]);
      assert Scan(ps[..n]) == ScanStep(s, ps[m]);
      if ps[m].isProducing {
        if m > 0 && ps[m - 1].isProducing {
          RunEndSkip(ps, m, n);
        }
      } else if m > 0 && ps[m - 1].isProducing {
        assert RunEndFrom(ps, m) == m;
      }
    }
  }

  /** The scan yields exactly one period per maximal run of producing readings, from
      the run's first timestamp to the first non-producing reading after it, or to
      the last reading when the run reaches the end. */
  lemma PeriodsAreRuns(ps: seq<Reading>)
    ensures Periods(ps) == RunsBefore(ps, |ps|)
  {
    ScanInvariant(ps, |ps|);
    assert ps[..|ps|] == ps;
  }

  /** In chronological readings every period runs forwards, so the production hours
      are never negative. */
  lemma {:induction false} RunsForward(ps: seq<Reading>, n: nat)
    requires n <= |ps| && Chronological(ps)
    ensures forall k | 0 <= k < |RunsBefore(ps, n)| :: RunsBefore(ps, n)[k].start <= RunsBefore(ps, n)[k].end
    ensures PeriodHours(RunsBefore(ps, n)) >= 0.0
  {
    if n > 0 {
      RunsForward(ps, n - 1);
      var prev := RunsBefore(ps, n - 1);
      if RunStart(ps, n - 1) {
        var e := RunEndFrom(ps, n);
        var p := Period(ps[n - 1].timestamp, ps[e].timestamp);
        assert p.start <= p.end by {
          assert n - 1 <= e < |ps|;
        }
        assert RunsBefore(ps, n) == prev + [p];
        HoursAppend(prev, p);
      } else {
        assert RunsBefore(ps, n) == prev;
      }
    }
  }

  /** Appending a forward period keeps the hours non-negative. */
  lemma HoursAppend(periods: seq<Period>, p: Period)
    requires PeriodHours(periods) >= 0.0 && p.start <= p.end
    ensures PeriodHours(periods + [p]) >= 0.0
  {
    assert (periods + [p])[..|periods|] == periods;
  }

  /** The reported production times: the number of periods, the first start and last
      end, and non-negative hours for chronological readings. */
  lemma ProductionTimesMeaning(ps: seq<Reading>)
    ensures var t := ProductionTimesOf(ps); var runs := RunsBefore(ps, |ps|);
      t.periods == |runs| &&
      (t.startTime.Some? <==> |runs| > 0) && (t.endTime.Some? <==> |runs| > 0) &&
      (|runs| > 0 ==> t.startTime.value == runs[0].start && t.endTime.value == runs[|runs| - 1].end)
    ensures Chronological(ps) ==> ProductionTimesOf(ps).totalHours >= 0.0
  {
    PeriodsAreRuns(ps);
    if Chronological(ps) {
      RunsForward(ps, |ps|);
    }
  }

  /** With no producing reading there is no period. */
  lemma {:induction false} NoProductionNoPeriods(ps: seq<Reading>, n: nat)
    requires n <= |ps|
    requires forall k | 0 <= k < |ps| :: !ps[k].isProducing
    ensures RunsBefore(ps, n) == []
  {
    if n > 0 {
      NoProductionNoPeriods(ps, n - 1);
    }
  }
}
