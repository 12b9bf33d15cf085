/** The report assembly of daily-energy-report.py, the Python twin of
    generate-daily-report.js. Loading the pickled readings, the sqlite comparison
    queries and saving the summary are I/O: the readings and the comparisons dict
    come in as parameters, and the date as its ISO key. */
module DailyEnergyReport {
  import opened Sequences
  import opened BatchEnergy
  import JsMath
  import Js = DailyReportGenerator

  /** The comparisons dict: all five keys, always present once the report has data. */
  datatype PyComparisons = PyComparisons(
    previousDay: Js.PreviousDay,
    previousWeek: Js.PreviousDay,
    previousMonth: Js.PreviousDay,
    weekAverage: Js.WeekAverage,
    monthAverage: Js.WeekAverage)

  /** The report dict; `comparisons` is None where the dict has no such key. */
  datatype PyReport = PyReport(
    date: string,
    totalEnergyKwh: real,
    maxPowerWatts: real,
    avgTemperatureCelsius: real,
    productionHours: real,
    productionStart: Option<int>,
    productionEnd: Option<int>,
    dataPoints: nat,
    status: Js.Status,
    comparisons: Option<PyComparisons>)

  /** `create_empty_report`: unlike the JavaScript twin it has no comparisons key. */
  function CreateEmptyReport(date: string): (r: PyReport)
    ensures r.date == date && r.status == Js.NoData && r.dataPoints == 0
    ensures r.productionStart.None? && r.productionEnd.None? && r.comparisons.None?
  {
    PyReport(date, 0.0, 0.0, 0.0, 0.0, None, None, 0, Js.NoData, None)
  }

  /** The report dict of `generate_daily_report`: every figure rounded with
      Python's `round`, ties to even. */
  function Assemble(date: string, ps: seq<Reading>, comparisons: PyComparisons,
                    totalEnergy: real, times: ProductionTimes): PyReport
    requires |ps| > 0
  {
    PyReport(
      date,
      JsMath.RoundHalfEven(totalEnergy, 3),
      JsMath.RoundHalfEven(MaxOf(Js.Powers(ps)), 1),
      JsMath.RoundHalfEven(Sum(Js.Temperatures(ps)) / |ps| as real, 1),
      JsMath.RoundHalfEven(times.totalHours, 2),
      times.startTime,
      times.endTime,
      |ps|,
      if totalEnergy > 0.0 then Js.Success else Js.NoProduction,
      Some(comparisons))
  }

  function ReportOf(date: string, ps: seq<Reading>, comparisons: PyComparisons): PyReport
  {
    if |ps| == 0 then CreateEmptyReport(date)
    else Assemble(date, ps, comparisons, TrapezoidKwh(ps), ProductionTimesOf(ps))
  }

  /** `generate_daily_report` with loading and the database abstracted. */
  method GenerateDailyReport(date: string, ps: seq<Reading>, comparisons: PyComparisons) returns (r: PyReport)
    ensures r == ReportOf(date, ps, comparisons)
  {
    if |ps| == 0 {
      return CreateEmptyReport(date);
    }
    var totalEnergy := CalculateTotalEnergy(ps);
    var productionTimes := CalculateProductionTimes(ps);
    r := Assemble(date, ps, comparisons, totalEnergy, productionTimes);
  }

  /** NO_DATA exactly for no readings, with no comparisons key then and always one
      otherwise; SUCCESS exactly when the trapezoid energy is positive. */
  lemma ReportStatus(date: string, ps: seq<Reading>, comparisons: PyComparisons)
    ensures var r := ReportOf(date, ps, comparisons);
      r.date == date && r.dataPoints == |ps| &&
      (r.status == Js.NoData <==> |ps| == 0) &&
      (r.status == Js.Success <==> |ps| > 0 && TrapezoidKwh(ps) > 0.0) &&
      (r.comparisons.Some? <==> |ps| > 0)
  {
  }

  /** The energy, the maximum power, the mean temperature and the production hours
      (the runs' total) are the exact values rounded half-even to 3, 1, 1 and 2
      decimals: each has at most that many decimals,
      lies within half a step of the exact value and, when the exact value is a tie,
      is an even number of steps, which `JsMath.RoundHalfEvenUnique` shows to be the
      rounding and nothing else. The maximum bounds every reading. */
  lemma ReportFigures(date: string, ps: seq<Reading>, comparisons: PyComparisons)
    requires |ps| > 0
    ensures var r := ReportOf(date, ps, comparisons);
      JsMath.OnGrid(r.totalEnergyKwh, 3) && JsMath.OnGrid(r.maxPowerWatts, 1) &&
      JsMath.OnGrid(r.avgTemperatureCelsius, 1) && JsMath.OnGrid(r.productionHours, 2)
    ensures var r := ReportOf(date, ps, comparisons); var e := TrapezoidKwh(ps);
      e - 0.0005 <= r.totalEnergyKwh <= e + 0.0005 &&
      (JsMath.IsTie(e, 3) ==> JsMath.EvenOnScale(r.totalEnergyKwh, JsMath.Pow10(3)))
    ensures var r := ReportOf(date, ps, comparisons); var peak := MaxOf(Js.Powers(ps));
      peak - 0.05 <= r.maxPowerWatts <= peak + 0.05 &&
      (JsMath.IsTie(peak, 1) ==> JsMath.EvenOnScale(r.maxPowerWatts, JsMath.Pow10(1))) &&
      (forall k | 0 <= k < |ps| :: ps[k].power - 0.05 <= r.maxPowerWatts) &&
      (exists k | 0 <= k < |ps| :: r.maxPowerWatts <= ps[k].power + 0.05)
    ensures var r := ReportOf(date, ps, comparisons); var mean := Sum(Js.Temperatures(ps)) / |ps| as real;
      mean - 0.05 <= r.avgTemperatureCelsius <= mean + 0.05 &&
      (JsMath.IsTie(mean, 1) ==> JsMath.EvenOnScale(r.avgTemperatureCelsius, JsMath.Pow10(1)))
    ensures var r := ReportOf(date, ps, comparisons); var h := PeriodHours(RunsBefore(ps, |ps|));
      h - 0.005 <= r.productionHours <= h + 0.005 &&
      (JsMath.IsTie(h, 2) ==> JsMath.EvenOnScale(r.productionHours, JsMath.Pow10(2)))
  {
    JsMath.RoundHalfEvenSteps(TrapezoidKwh(ps));
    PeriodsAreRuns(ps);
    JsMath.RoundHalfEvenSteps(ProductionTimesOf(ps).totalHours);
    var powers := Js.Powers(ps);
    var peak := MaxOf(powers);
    JsMath.RoundHalfEvenSteps(peak);
    JsMath.RoundHalfEvenSteps(Sum(Js.Temperatures(ps)) / |ps| as real);
    var k :| 0 <= k < |powers| && powers[k] == peak;
  }

  /** The twins agree on everything but rounding: the same status, count and
      production start and end. */
  lemma TwinsAgree(date: string, ps: seq<Reading>, jc: Js.Comparisons, pc: PyComparisons)
    ensures var j := Js.ReportOf(date, ps, jc); var p := ReportOf(date, ps, pc);
      j.status == p.status && j.dataPoints == p.dataPoints &&
      j.productionStart == p.productionStart && j.productionEnd == p.productionEnd
  {
  }

  /** The energies of the twins are at most one rounding step apart, and equal when
      the exact energy is no tie at three decimals. */
  lemma TwinsEnergy(date: string, ps: seq<Reading>, jc: Js.Comparisons, pc: PyComparisons)
    requires |ps| > 0
    ensures var d := Js.ReportOf(date, ps, jc).totalEnergyKwh - ReportOf(date, ps, pc).totalEnergyKwh;
      -0.001 <= d <= 0.001
    ensures !JsMath.IsTie(TrapezoidKwh(ps), 3) ==> Js.ReportOf(date, ps, jc).totalEnergyKwh == ReportOf(date, ps, pc).totalEnergyKwh
  {
    var e := TrapezoidKwh(ps);
    assert Js.ReportOf(date, ps, jc).totalEnergyKwh == JsMath.RoundHalfUp(e, 3);
    assert ReportOf(date, ps, pc).totalEnergyKwh == JsMath.RoundHalfEven(e, 3);
    JsMath.RoundHalfUpSteps(e);
    JsMath.RoundHalfEvenSteps(e);
    if !JsMath.IsTie(e, 3) {
      JsMath.RoundingAgreeOffTies(e, 3);
    }
  }
}
