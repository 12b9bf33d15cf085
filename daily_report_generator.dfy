/** The report assembly of generate-daily-report.js. Loading the day's readings,
    the sqlite comparison queries and saving the summary are I/O: the readings and the
    `comparisons` object come in as parameters, and the date as its `YYYY-MM-DD` key. */
module DailyReportGenerator {
  import opened Sequences
  import opened BatchEnergy
  import JsMath

  datatype Status = Success | NoProduction | NoData

  datatype PreviousDay = PreviousDay(date: string, energyKwh: real, available: bool)

  datatype WeekAverage = WeekAverage(period: string, avgEnergyKwh: real, daysCount: nat)

  /** The `comparisons` object: a key is present only when its query completed. */
  datatype Comparisons = Comparisons(previousDay: Option<PreviousDay>, weekAverage: Option<WeekAverage>)

  /** `Object.keys(comparisons).length > 0`. */
  predicate HasKeys(c: Comparisons)
  {
    c.previousDay.Some? || c.weekAverage.Some?
  }

  datatype Report = Report(
    date: string,
    totalEnergyKwh: real,
    maxPowerWatts: real,
    avgTemperatureCelsius: real,
    productionHours: real,
    productionStart: Option<int>,
    productionEnd: Option<int>,
    dataPoints: nat,
    status: Status,
    comparisons: Comparisons)

  /** `createEmptyReport`: the report of a day without readings. */
  function CreateEmptyReport(date: string): (r: Report)
    ensures r.date == date && r.status == NoData && r.dataPoints == 0
    ensures r.productionStart.None? && r.productionEnd.None? && !HasKeys(r.comparisons)
  {
    Report(date, 0.0, 0.0, 0.0, 0.0, None, None, 0, NoData, Comparisons(None, None))
  }

  function Powers(ps: seq<Reading>): (xs: seq<real>)
    ensures |xs| == |ps| && forall k | 0 <= k < |ps| :: xs[k] == ps[k].power
  {
    seq(|ps|, k requires 0 <= k < |ps| => ps[k].power)
  }

  function Temperatures(ps: seq<Reading>): (xs: seq<real>)
    ensures |xs| == |ps| && forall k | 0 <= k < |ps| :: xs[k] == ps[k].temperature
  {
    seq(|ps|, k requires 0 <= k < |ps| => ps[k].temperature)
  }

  /** The report literal of `generateDailyReport`, from the computed energy and
      production times: every figure rounded half up with `Math.round`. */
  function Assemble(date: string, ps: seq<Reading>, comparisons: Comparisons,
                    totalEnergy: real, times: ProductionTimes): Report
    requires |ps| > 0
  {
    Report(
      date,
      JsMath.RoundHalfUp(totalEnergy, 3),
      JsMath.RoundHalfUp(MaxOf(Powers(ps)), 1),
      JsMath.RoundHalfUp(Sum(Temperatures(ps)) / |ps| as real, 1),
      JsMath.RoundHalfUp(times.totalHours, 2),
      times.startTime,
      times.endTime,
      |ps|,
      if totalEnergy > 0.0 then Success else NoProduction,
      comparisons)
  }

  /** The report `generateDailyReport` returns for a day's readings. */
  function ReportOf(date: string, ps: seq<Reading>, comparisons: Comparisons): Report
  {
    if |ps| == 0 then CreateEmptyReport(date)
    else Assemble(date, ps, comparisons, TrapezoidKwh(ps), ProductionTimesOf(ps))
  }

  /** `generateDailyReport` with loading and the database abstracted. */
  method GenerateDailyReport(date: string, ps: seq<Reading>, comparisons: Comparisons) returns (r: Report)
    ensures r == ReportOf(date, ps, comparisons)
  {
    if |ps| == 0 {
      return CreateEmptyReport(date);
    }
    var totalEnergy := CalculateTotalEnergy(ps);
    var productionTimes := CalculateProductionTimes(ps);
    r := Assemble(date, ps, comparisons, totalEnergy, productionTimes);
  }

  /** NO_DATA exactly for no readings (with no comparison keys), else SUCCESS exactly
      when the trapezoid energy is positive; the report counts the readings. */
  lemma ReportStatus(date: string, ps: seq<Reading>, comparisons: Comparisons)
    ensures var r := ReportOf(date, ps, comparisons);
      r.date == date && r.dataPoints == |ps| &&
      (r.status == NoData <==> |ps| == 0) &&
      (r.status == Success <==> |ps| > 0 && TrapezoidKwh(ps) > 0.0) &&
      (|ps| == 0 ==> !HasKeys(r.comparisons)) &&
      (|ps| > 0 ==> r.comparisons == comparisons)
  {
  }

  /** The energy, the maximum power and the mean temperature are the exact values
      rounded half-up to 3, 1 and 1 decimals: each has at most that many decimals and
      lies at most half a step above the exact value and less than half a step below
      it, which `JsMath.RoundHalfUpUnique` shows to be the rounding and nothing else.
      The maximum bounds every reading. */
  lemma ReportFigures(date: string, ps: seq<Reading>, comparisons: Comparisons)
    requires |ps| > 0
    ensures var r := ReportOf(date, ps, comparisons);
      JsMath.OnGrid(r.totalEnergyKwh, 3) && JsMath.OnGrid(r.maxPowerWatts, 1) &&
      JsMath.OnGrid(r.avgTemperatureCelsius, 1)
    ensures var r := ReportOf(date, ps, comparisons);
      TrapezoidKwh(ps) - 0.0005 < r.totalEnergyKwh <= TrapezoidKwh(ps) + 0.0005
    ensures var r := ReportOf(date, ps, comparisons); var peak := MaxOf(Powers(ps));
      peak - 0.05 < r.maxPowerWatts <= peak + 0.05 &&
      (forall k | 0 <= k < |ps| :: ps[k].power - 0.05 < r.maxPowerWatts) &&
      (exists k | 0 <= k < |ps| :: r.maxPowerWatts <= ps[k].power + 0.05)
    ensures var r := ReportOf(date, ps, comparisons); var mean := Sum(Temperatures(ps)) / |ps| as real;
      mean - 0.05 < r.avgTemperatureCelsius <= mean + 0.05
  {
    var powers := Powers(ps);
    var peak := MaxOf(powers);
    JsMath.RoundHalfUpSteps(TrapezoidKwh(ps));
    JsMath.RoundHalfUpSteps(peak);
    JsMath.RoundHalfUpSteps(Sum(Temperatures(ps)) / |ps| as real);
    var k :| 0 <= k < |powers| && powers[k] == peak;
  }

  /** The production start and end are the first run's start and the last run's end,
      and the production hours are the runs' total hours rounded half-up to two
      decimals. */
  lemma ReportProduction(date: string, ps: seq<Reading>, comparisons: Comparisons)
    requires |ps| > 0
    ensures var r := ReportOf(date, ps, comparisons); var runs := RunsBefore(ps, |ps|);
      (r.productionStart.Some? <==> |runs| > 0) && (r.productionEnd.Some? <==> |runs| > 0) &&
      (|runs| > 0 ==> r.productionStart.value == runs[0].start && r.productionEnd.value == runs[|runs| - 1].end)
    ensures Chronological(ps) ==> ReportOf(date, ps, comparisons).productionHours >= -0.005
    ensures JsMath.OnGrid(ReportOf(date, ps, comparisons).productionHours, 2)
    ensures var r := ReportOf(date, ps, comparisons); var h := PeriodHours(RunsBefore(ps, |ps|));
      h - 0.005 < r.productionHours <= h + 0.005
  {
    var times := ProductionTimesOf(ps);
    ProductionTimesMeaning(ps);
    PeriodsAreRuns(ps);
    assert ReportOf(date, ps, comparisons) == Assemble(date, ps, comparisons, TrapezoidKwh(ps), times);
    JsMath.RoundHalfUpSteps(times.totalHours);
  }

  /** A day whose readings are all idle reports NO_PRODUCTION when it has readings at
      all, with no production start or end. */
  lemma IdleDay(date: string, ps: seq<Reading>, comparisons: Comparisons)
    requires |ps| > 0
    requires forall k | 0 <= k < |ps| :: ps[k].power == 0.0 && !ps[k].isProducing
    ensures ReportOf(date, ps, comparisons).status == NoProduction
    ensures ReportOf(date, ps, comparisons).productionStart.None?
  {
    ZeroPowerZeroEnergy(ps);
    NoProductionNoPeriods(ps, |ps|);
    PeriodsAreRuns(ps);
  }

  lemma {:induction false} ZeroPowerZeroEnergy(ps: seq<Reading>)
    requires forall k | 0 <= k < |ps| :: ps[k].power == 0.0
    ensures TrapezoidKwh(ps) == 0.0
  {
    if |ps| >= 2 {
      ZeroPowerZeroEnergy(ps[..|ps| - 1]);
    }
  }
}
