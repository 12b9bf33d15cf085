/** The HomeKit message and the status mapping of ios-push-service.ts. Creating and
    registering the virtual accessory and the two-second motion pulse are HomeKit
    plumbing: the accessory appears only as which of its two services exist. */
module IosPush {
  import opened Sequences
  import Js = DailyReportGenerator
  import Push = PushNotifications

  /** `formatHomeKitMessage`, appended line by line as the service writes it. */
  function FormatHomeKitMessage(r: Js.Report, fmt: Push.Render): string
  {
    SummaryText(r, fmt) + TimesText(r, fmt) + ComparisonsText(r, fmt)
  }

  function SummaryText(r: Js.Report, fmt: Push.Render): string
  {
    var emoji := if r.status == Js.Success then "🌞" else "🌙";
    var statusText := if r.status == Js.Success then "Produktion" else "Keine Produktion";
    var header := emoji + " Kostal Solar Report - " + r.date + "\n\n";
    var energy := "⚡ Energie: " + fmt.fixed(r.totalEnergyKwh, 3) + " kWh\n";
    var power := "🔥 Max. Leistung: " + fmt.fixed(r.maxPowerWatts, 1) + " W\n";
    var temperature := "🌡️ Temperatur: " + fmt.fixed(r.avgTemperatureCelsius, 1) + "°C\n";
    var hours := "⏱️ Produktionszeit: " + fmt.fixed(r.productionHours, 2) + "h\n";
    var status := "📊 Status: " + statusText + "\n";
    header + energy + power + temperature + hours + status
  }

  function TimesText(r: Js.Report, fmt: Push.Render): string
  {
    if r.productionStart.Some? && r.productionEnd.Some? then
      "🌅 Start: " + fmt.clock(r.productionStart.value) + "\n"
      + "🌇 Ende: " + fmt.clock(r.productionEnd.value) + "\n"
    else ""
  }

  function ComparisonsText(r: Js.Report, fmt: Push.Render): string
  {
    var c := r.comparisons;
    if !(c.previousDay.Some? || c.weekAverage.Some?) then ""
    else "\n📈 Vergleiche:\n" + YesterdayText(r, fmt) + WeekText(r, fmt)
  }

  function YesterdayText(r: Js.Report, fmt: Push.Render): string
  {
    var c := r.comparisons;
    if c.previousDay.Some? && c.previousDay.value.available then
      var diff := r.totalEnergyKwh - c.previousDay.value.energyKwh;
      var trend := if diff > 0.0 then "📈" else if diff < 0.0 then "📉" else "➡️";
      "📅 Gestern: " + fmt.fixed(c.previousDay.value.energyKwh, 3) + " kWh " + trend + " "
        + (if diff > 0.0 then "+" else "") + fmt.fixed(diff, 3) + " kWh\n"
    else ""
  }

  function WeekText(r: Js.Report, fmt: Push.Render): string
  {
    var c := r.comparisons;
    if c.weekAverage.Some? && c.weekAverage.value.daysCount > 0 then
      var diff := r.totalEnergyKwh - c.weekAverage.value.avgEnergyKwh;
      var trend := if diff > 0.0 then "📈" else if diff < 0.0 then "📉" else "➡️";
      "📊 Woche Ø: " + fmt.fixed(c.weekAverage.value.avgEnergyKwh, 3) + " kWh " + trend + " "
        + (if diff > 0.0 then "+" else "") + fmt.fixed(diff, 3) + " kWh\n"
    else ""
  }

  lemma ConcatSingle(x: string)
    ensures Push.Concat([x]) == x
  {
    assert [x][..0] == [];
  }

  lemma ConcatSnoc(xs: seq<string>, y: string)
    ensures Push.Concat(xs + [y]) == Push.Concat(xs) + y
  {
    assert (xs + [y])[..|xs|] == xs;
  }

  lemma ConcatOfTwo(a: string, b: string)
    ensures Push.Concat([a, b]) == a + b
  {
    ConcatSingle(a);
    ConcatSnoc([a], b);
    assert [a] + [b] == [a, b];
  }

  lemma ConcatOfSix(a: string, b: string, c: string, d: string, e: string, f: string)
    ensures Push.Concat([a, b, c, d, e, f]) == a + b + c + d + e + f
  {
    ConcatOfTwo(a, b);
    ConcatSnoc([a, b], c);
    assert [a, b] + [c] == [a, b, c];
    ConcatSnoc([a, b, c], d);
    assert [a, b, c] + [d] == [a, b, c, d];
    ConcatSnoc([a, b, c, d], e);
    assert [a, b, c, d] + [e] == [a, b, c, d, e];
    ConcatSnoc([a, b, c, d, e], f);
    assert [a, b, c, d, e] + [f] == [a, b, c, d, e, f];
  }

  lemma SameLine(emoji: string, name: string, value: string, suffix: string, line: string)
    requires line == emoji + " " + name + " "
    ensures Push.Labelled(emoji, name, false, value, suffix) == line + value + suffix
  {
  }

  lemma SameSummary(r: Js.Report, fmt: Push.Render)
    ensures Push.Concat(Push.SummaryPieces(r, fmt, false)) == SummaryText(r, fmt)
  {
    var ps := Push.SummaryPieces(r, fmt, false);
    assert ps == [ps[0], ps[1], ps[2], ps[3], ps[4], ps[5]];
    ConcatOfSix(ps[0], ps[1], ps[2], ps[3], ps[4], ps[5]);
    SummaryHeader(r, fmt);
    SummaryFigures(r, fmt);
  }

  lemma SummaryHeader(r: Js.Report, fmt: Push.Render)
    ensures Push.SummaryPieces(r, fmt, false)[0] ==
      (if r.status == Js.Success then "🌞" else "🌙") + " Kostal Solar Report - " + r.date + "\n\n"
  {
    HeaderText(Push.StatusEmoji(r), r.date);
  }

  lemma HeaderText(emoji: string, date: string)
    ensures emoji + " " + ("Kostal Solar Report - " + date) + "\n\n"
      == emoji + " Kostal Solar Report - " + date + "\n\n"
  {
  }

  lemma SummaryFigures(r: Js.Report, fmt: Push.Render)
    ensures var ps := Push.SummaryPieces(r, fmt, false);
      ps[1] == "⚡ Energie: " + fmt.fixed(r.totalEnergyKwh, 3) + " kWh\n" &&
      ps[2] == "🔥 Max. Leistung: " + fmt.fixed(r.maxPowerWatts, 1) + " W\n" &&
      ps[3] == "🌡️ Temperatur: " + fmt.fixed(r.avgTemperatureCelsius, 1) + "°C\n" &&
      ps[4] == "⏱️ Produktionszeit: " + fmt.fixed(r.productionHours, 2) + "h\n" &&
      ps[5] == "📊 Status: " + (if r.status == Js.Success then "Produktion" else "Keine Produktion") + "\n"
  {
    Labels();
    SameLine("⚡", "Energie:", fmt.fixed(r.totalEnergyKwh, 3), " kWh\n", "⚡ Energie: ");
    SameLine("🔥", "Max. Leistung:", fmt.fixed(r.maxPowerWatts, 1), " W\n", "🔥 Max. Leistung: ");
    SameLine("🌡️", "Temperatur:", fmt.fixed(r.avgTemperatureCelsius, 1), "°C\n", "🌡️ Temperatur: ");
    SameLine("⏱️", "Produktionszeit:", fmt.fixed(r.productionHours, 2), "h\n", "⏱️ Produktionszeit: ");
    SameLine("📊", "Status:", Push.StatusText(r), "\n", "📊 Status: ");
  }

  /** The labels of the figure lines, spelled as the two formatters spell them. */
  lemma Labels()
    ensures "⚡" + " " + "Energie:" + " " == "⚡ Energie: "
    ensures "🔥" + " " + "Max. Leistung:" + " " == "🔥 Max. Leistung: "
    ensures "🌡️" + " " + "Temperatur:" + " " == "🌡️ Temperatur: "
    ensures "⏱️" + " " + "Produktionszeit:" + " " == "⏱️ Produktionszeit: "
    ensures "📊" + " " + "Status:" + " " == "📊 Status: "
  {
  }

  lemma SameTimes(r: Js.Report, fmt: Push.Render)
    ensures Push.Concat(Push.TimePieces(r, fmt, false)) == TimesText(r, fmt)
  {
    var ps := Push.TimePieces(r, fmt, false);
    if Push.HasProductionTimes(r) {
      ConcatOfTwo(ps[0], ps[1]);
      assert ps == [ps[0], ps[1]];
      assert ps[0] == "🌅 Start: " + fmt.clock(r.productionStart.value) + "\n";
      assert ps[1] == "🌇 Ende: " + fmt.clock(r.productionEnd.value) + "\n";
    }
  }

  lemma SameComparisons(r: Js.Report, fmt: Push.Render)
    ensures Push.Concat(Push.ComparisonPieces(r, fmt, false)) == ComparisonsText(r, fmt)
  {
    if Js.HasKeys(r.comparisons) {
      var heading := "\n📈 " + Push.Mark("Vergleiche:", false) + "\n";
      var yesterday := YesterdayPieces(r, fmt);
      var week := WeekPieces(r, fmt);
      assert Push.ComparisonPieces(r, fmt, false) == [heading] + yesterday + week;
      Push.ConcatAppend([heading] + yesterday, week);
      Push.ConcatAppend([heading], yesterday);
      ConcatSingle(heading);
      assert heading == "\n📈 Vergleiche:\n";
      YesterdayLine(r, fmt);
      WeekLine(r, fmt);
    }
  }

  /** The yesterday line of the notification manager, when it is shown. */
  function YesterdayPieces(r: Js.Report, fmt: Push.Render): seq<string>
  {
    if Push.ShowsYesterday(r)
    then [Push.ComparisonLine("📅 Gestern: ", r.comparisons.previousDay.value.energyKwh, r.totalEnergyKwh, fmt)]
    else []
  }

  /** The week line of the notification manager, when it is shown. */
  function WeekPieces(r: Js.Report, fmt: Push.Render): seq<string>
  {
    if Push.ShowsWeek(r)
    then [Push.ComparisonLine("📊 Woche Ø: ", r.comparisons.weekAverage.value.avgEnergyKwh, r.totalEnergyKwh, fmt)]
    else []
  }

  lemma YesterdayLine(r: Js.Report, fmt: Push.Render)
    ensures Push.Concat(YesterdayPieces(r, fmt)) == YesterdayText(r, fmt)
  {
    if Push.ShowsYesterday(r) {
      ConcatSingle(YesterdayPieces(r, fmt)[0]);
      var diff := r.totalEnergyKwh - r.comparisons.previousDay.value.energyKwh;
      assert Push.Trend(diff) == if diff > 0.0 then "📈" else if diff < 0.0 then "📉" else "➡️";
    }
  }

  lemma WeekLine(r: Js.Report, fmt: Push.Render)
    ensures Push.Concat(WeekPieces(r, fmt)) == WeekText(r, fmt)
  {
    if Push.ShowsWeek(r) {
      ConcatSingle(WeekPieces(r, fmt)[0]);
      var diff := r.totalEnergyKwh - r.comparisons.weekAverage.value.avgEnergyKwh;
      assert Push.Trend(diff) == if diff > 0.0 then "📈" else if diff < 0.0 then "📉" else "➡️";
    }
  }

  /** The service's HomeKit message is the one of the notification manager, for every
      report and every rendering of numbers and clocks. */
  lemma SameAsNotificationManager(r: Js.Report, fmt: Push.Render)
    ensures FormatHomeKitMessage(r, fmt) == Push.FormatHomeKitMessage(r, fmt)
  {
    var summary := Push.SummaryPieces(r, fmt, false);
    var times := Push.TimePieces(r, fmt, false);
    var comparisons := Push.ComparisonPieces(r, fmt, false);
    SameSummary(r, fmt);
    SameTimes(r, fmt);
    SameComparisons(r, fmt);
    Push.ConcatAppend(summary + times, comparisons);
    Push.ConcatAppend(summary, times);
  }

  // ---------------------------------------------------------------------------
  // Status mapping

  datatype ContactState = ContactDetected | ContactNotDetected

  /** The two services the push accessory may carry. */
  datatype PushAccessory = PushAccessory(hasMotionService: bool, hasStatusService: bool)

  /** What `sendIOSNotification` does: whether it reports success, whether it pulses
      the motion sensor and what it writes to the contact sensor. */
  datatype Notification = Notification(sent: bool, motionPulse: bool, contact: Option<ContactState>)

  /** The contact state a report maps to. */
  function ContactFor(r: Js.Report): (c: ContactState)
    ensures c == ContactDetected <==> r.status == Js.Success
  {
    if r.status == Js.Success then ContactDetected else ContactNotDetected
  }

  /** `sendIOSNotification`, given the accessory left after the setup attempt. */
  function SendIOSNotification(accessory: Option<PushAccessory>, r: Js.Report): (n: Notification)
    ensures n.sent <==> accessory.Some?
    ensures n.motionPulse <==> accessory.Some? && accessory.value.hasMotionService
    ensures n.contact.Some? <==> accessory.Some? && accessory.value.hasStatusService
    ensures n.contact == Some(ContactDetected) <==>
      accessory.Some? && accessory.value.hasStatusService && r.status == Js.Success
  {
    match accessory
    case None => Notification(false, false, None)
    case Some(a) =>
      Notification(true, a.hasMotionService, if a.hasStatusService then Some(ContactFor(r)) else None)
  }
}
