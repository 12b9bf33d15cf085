/** The report renderers and the dispatch rules of push-notifications.js. Number and
    clock rendering (`toFixed`, `toLocaleTimeString`) are the parameters of a
    `Render`; the senders themselves (Pushover, Telegram, webhook, mail, HomeKit
    webhook) are I/O and appear only as the deliveries they would make. */
module PushNotifications {
  import opened Sequences
  import opened Text
  import Js = DailyReportGenerator

  /** `x.toFixed(k)` and the `de-DE` `HH:MM` clock of a timestamp. */
  datatype Render = Render(fixed: (real, nat) -> string, clock: int -> string)

  /** Renderings that never produce a Markdown star. */
  ghost predicate StarFree(fmt: Render)
  {
    (forall x: real, k: nat :: '*' !in fmt.fixed(x, k)) &&
    (forall t: int :: '*' !in fmt.clock(t))
  }

  /** The text of a list of appended pieces. */
  function Concat(pieces: seq<string>): string
  {
    if |pieces| == 0 then "" else Concat(pieces[..|pieces| - 1]) + pieces[|pieces| - 1]
  }

  /** Markdown bold. */
  function Bold(s: string): string
  {
    "*" + s + "*"
  }

  function StatusEmoji(r: Js.Report): string
  {
    if r.status == Js.Success then "🌞" else "🌙"
  }

  function StatusText(r: Js.Report): string
  {
    if r.status == Js.Success then "Produktion" else "Keine Produktion"
  }

  /** The trend arrow of a difference. */
  function Trend(diff: real): string
  {
    if diff > 0.0 then "📈" else if diff < 0.0 then "📉" else "➡️"
  }

  /** The explicit sign before a difference; `toFixed` writes the minus itself. */
  function PlusSign(diff: real): string
  {
    if diff > 0.0 then "+" else ""
  }

  lemma TrendRules(diff: real)
    ensures Trend(diff) == "📈" <==> diff > 0.0
    ensures Trend(diff) == "📉" <==> diff < 0.0
    ensures Trend(diff) == "➡️" <==> diff == 0.0
    ensures PlusSign(diff) == "+" <==> diff > 0.0
  {
    assert "📈" != "📉" && "📈" != "➡️" && "📉" != "➡️" by {
      assert "📈"[0] != "📉"[0] && "📈"[0] != "➡️"[0] && "📉"[0] != "➡️"[0];
    }
    assert "" != "+";
  }

  /** Both production times are there (the JavaScript truthiness of the two fields). */
  predicate HasProductionTimes(r: Js.Report)
  {
    r.productionStart.Some? && r.productionEnd.Some?
  }

  predicate ShowsYesterday(r: Js.Report)
  {
    r.comparisons.previousDay.Some? && r.comparisons.previousDay.value.available
  }

  predicate ShowsWeek(r: Js.Report)
  {
    r.comparisons.weekAverage.Some? && r.comparisons.weekAverage.value.daysCount > 0
  }

  /** A label in Markdown bold, or as it is. */
  function Mark(s: string, markdown: bool): string
  {
    if markdown then Bold(s) else s
  }

  /** A line of an emoji, a label, a rendered value and a unit. */
  function Labelled(emoji: string, name: string, markdown: bool, value: string, suffix: string): string
  {
    emoji + " " + Mark(name, markdown) + " " + value + suffix
  }

  /** The header and the five figure lines. */
  function SummaryPieces(r: Js.Report, fmt: Render, markdown: bool): seq<string>
  {
    [StatusEmoji(r) + " " + Mark("Kostal Solar Report - " + r.date, markdown) + "\n\n",
     Labelled("⚡", "Energie:", markdown, fmt.fixed(r.totalEnergyKwh, 3), " kWh\n"),
     Labelled("🔥", "Max. Leistung:", markdown, fmt.fixed(r.maxPowerWatts, 1), " W\n"),
     Labelled("🌡️", "Temperatur:", markdown, fmt.fixed(r.avgTemperatureCelsius, 1), "°C\n"),
     Labelled("⏱️", "Produktionszeit:", markdown, fmt.fixed(r.productionHours, 2), "h\n"),
     Labelled("📊", "Status:", markdown, StatusText(r), "\n")]
  }

  /** Start and end, when both production times are there. */
  function TimePieces(r: Js.Report, fmt: Render, markdown: bool): seq<string>
  {
    if HasProductionTimes(r) then
      [Labelled("🌅", "Start:", markdown, fmt.clock(r.productionStart.value), "\n"),
       Labelled("🌇", "Ende:", markdown, fmt.clock(r.productionEnd.value), "\n")]
    else []
  }

  /** One comparison line: the reference energy, the trend and the signed difference. */
  function ComparisonLine(title: string, reference: real, total: real, fmt: Render): string
  {
    var diff := total - reference;
    title + fmt.fixed(reference, 3) + " kWh " + Trend(diff) + " " + PlusSign(diff) + fmt.fixed(diff, 3) + " kWh\n"
  }

  /** The comparison block, when the comparisons have a key. */
  function ComparisonPieces(r: Js.Report, fmt: Render, markdown: bool): seq<string>
  {
    if !Js.HasKeys(r.comparisons) then []
    else
      ["\n📈 " + Mark("Vergleiche:", markdown) + "\n"] +
      (if ShowsYesterday(r)
       then [ComparisonLine("📅 Gestern: ", r.comparisons.previousDay.value.energyKwh, r.totalEnergyKwh, fmt)]
       else []) +
      (if ShowsWeek(r)
       then [ComparisonLine("📊 Woche Ø: ", r.comparisons.weekAverage.value.avgEnergyKwh, r.totalEnergyKwh, fmt)]
       else [])
  }

  /** The pieces the formatters append, in order; Markdown bolds the labels. */
  function MessagePieces(r: Js.Report, fmt: Render, markdown: bool): seq<string>
  {
    SummaryPieces(r, fmt, markdown) + TimePieces(r, fmt, markdown) + ComparisonPieces(r, fmt, markdown)
  }

  /** `formatReportMessage`: the Markdown message. */
  function FormatReportMessage(r: Js.Report, fmt: Render): string
  {
    Concat(MessagePieces(r, fmt, true))
  }

  /** `formatHomeKitMessage`: the same lines without Markdown. */
  function FormatHomeKitMessage(r: Js.Report, fmt: Render): string
  {
    Concat(MessagePieces(r, fmt, false))
  }

  /** Which lines a message has: the six summary lines, Start and Ende exactly when
      both production times are there, and the comparison heading exactly when the
      comparisons have a key, followed by the yesterday line exactly when yesterday
      is available and the week line exactly when the week has days. The header
      carries the sun exactly on SUCCESS. */
  lemma MessageLines(r: Js.Report, fmt: Render, markdown: bool)
    ensures var pieces := MessagePieces(r, fmt, markdown);
      |pieces| == 6 + (if HasProductionTimes(r) then 2 else 0)
        + (if Js.HasKeys(r.comparisons)
           then 1 + (if ShowsYesterday(r) then 1 else 0) + (if ShowsWeek(r) then 1 else 0)
           else 0)
    ensures MessagePieces(r, fmt, markdown)[0][0] == (if r.status == Js.Success then '🌞' else '🌙')
    ensures HasProductionTimes(r) ==>
      MessagePieces(r, fmt, markdown)[6] == Labelled("🌅", "Start:", markdown, fmt.clock(r.productionStart.value), "\n")
    ensures ShowsYesterday(r) ==>
      MessagePieces(r, fmt, markdown)[6 + |TimePieces(r, fmt, markdown)| + 1] ==
      ComparisonLine("📅 Gestern: ", r.comparisons.previousDay.value.energyKwh, r.totalEnergyKwh, fmt)
  {
    var a := SummaryPieces(r, fmt, markdown);
    var b := TimePieces(r, fmt, markdown);
    var c := ComparisonPieces(r, fmt, markdown);
    assert MessagePieces(r, fmt, markdown) == a + b + c;
    assert |a| == 6;
    assert a[0][0] == StatusEmoji(r)[0];
    if ShowsYesterday(r) {
      assert Js.HasKeys(r.comparisons);
      assert (a + b + c)[6 + |b| + 1] == c[1];
    }
  }

  /** The text of the pieces, one piece at a time. */
  lemma {:induction false} ConcatAppend(a: seq<string>, b: seq<string>)
    ensures Concat(a + b) == Concat(a) + Concat(b)
    decreases |b|
  {
    if |b| == 0 {
      assert a + b == a;
    } else {
      var init := b[..|b| - 1];
      var last := b[|b| - 1];
      ConcatAppend(a, init);
      assert (a + b)[..|a + b| - 1] == a + init;
      assert (a + b)[|a + b| - 1] == last;
      assert Concat(a + b) == Concat(a + init) + last;
      assert Concat(b) == Concat(init) + last;
    }
  }

  lemma StripAppend(a: string, b: string)
    ensures RemoveChar(a + b, '*') == RemoveChar(a, '*') + RemoveChar(b, '*')
  {
    ReplaceAppend(a, b, '*', "");
  }

  lemma StripFree(s: string)
    requires '*' !in s
    ensures RemoveChar(s, '*') == s
  {
    ReplaceAbsent(s, '*', "");
  }

  lemma StripBold(s: string)
    requires '*' !in s
    ensures RemoveChar(Bold(s), '*') == s
  {
    StripAppend("*" + s, "*");
    StripAppend("*", s);
    StripFree(s);
  }

  /** A labelled line loses exactly the two stars of its bold label. */
  lemma StripLabelled(emoji: string, name: string, value: string, suffix: string)
    requires '*' !in emoji && '*' !in name && '*' !in value && '*' !in suffix
    ensures RemoveChar(Labelled(emoji, name, true, value, suffix), '*') == Labelled(emoji, name, false, value, suffix)
  {
    var rest := " " + value + suffix;
    assert '*' !in rest;
    assert '*' !in emoji + " ";
    assert Labelled(emoji, name, true, value, suffix) == (emoji + " ") + Bold(name) + rest;
    assert Labelled(emoji, name, false, value, suffix) == (emoji + " ") + name + rest;
    StripAppend((emoji + " ") + Bold(name), rest);
    StripAppend(emoji + " ", Bold(name));
    StripFree(emoji + " ");
    StripBold(name);
    StripFree(rest);
  }

  lemma NoStarIn(a: string, b: string)
    requires '*' !in a && '*' !in b
    ensures '*' !in a + b
  {
  }

  /** Removing stars from every piece. */
  lemma {:induction false} StripPieces(pieces: seq<string>, plain: seq<string>)
    requires |pieces| == |plain|
    requires forall k | 0 <= k < |pieces| :: RemoveChar(pieces[k], '*') == plain[k]
    ensures RemoveChar(Concat(pieces), '*') == Concat(plain)
  {
    if |pieces| > 0 {
      StripPieces(pieces[..|pieces| - 1], plain[..|plain| - 1]);
      StripAppend(Concat(pieces[..|pieces| - 1]), pieces[|pieces| - 1]);
    }
  }

  /** Each Markdown piece loses its stars to become the plain piece. */
  ghost predicate Stripped(md: seq<string>, plain: seq<string>)
  {
    |md| == |plain| && forall k | 0 <= k < |md| :: RemoveChar(md[k], '*') == plain[k]
  }

  lemma StrippedAppend(md1: seq<string>, plain1: seq<string>, md2: seq<string>, plain2: seq<string>)
    requires Stripped(md1, plain1) && Stripped(md2, plain2)
    ensures Stripped(md1 + md2, plain1 + plain2)
  {
    forall k | 0 <= k < |md1 + md2|
      ensures RemoveChar((md1 + md2)[k], '*') == (plain1 + plain2)[k]
    {
      if k >= |md1| {
        assert (md1 + md2)[k] == md2[k - |md1|];
      }
    }
  }

  lemma StripSummary(r: Js.Report, fmt: Render)
    requires '*' !in r.date && StarFree(fmt)
    ensures Stripped(SummaryPieces(r, fmt, true), SummaryPieces(r, fmt, false))
  {
    var head := StatusEmoji(r) + " ";
    var title := "Kostal Solar Report - " + r.date;
    assert '*' !in head && '*' !in title;
    StripAppend(head + Bold(title), "\n\n");
    StripAppend(head, Bold(title));
    StripFree(head);
    StripBold(title);
    StripFree("\n\n");
    StripLabelled("⚡", "Energie:", fmt.fixed(r.totalEnergyKwh, 3), " kWh\n");
    StripLabelled("🔥", "Max. Leistung:", fmt.fixed(r.maxPowerWatts, 1), " W\n");
    StripLabelled("🌡️", "Temperatur:", fmt.fixed(r.avgTemperatureCelsius, 1), "°C\n");
    StripLabelled("⏱️", "Produktionszeit:", fmt.fixed(r.productionHours, 2), "h\n");
    StripLabelled("📊", "Status:", StatusText(r), "\n");
  }

  lemma ClockStarFree(fmt: Render, t: int)
    requires StarFree(fmt)
    ensures '*' !in fmt.clock(t)
  {
  }

  lemma StripTimes(r: Js.Report, fmt: Render)
    requires StarFree(fmt)
    ensures Stripped(TimePieces(r, fmt, true), TimePieces(r, fmt, false))
  {
    if HasProductionTimes(r) {
      ClockStarFree(fmt, r.productionStart.value);
      ClockStarFree(fmt, r.productionEnd.value);
      StripLabelled("🌅", "Start:", fmt.clock(r.productionStart.value), "\n");
      StripLabelled("🌇", "Ende:", fmt.clock(r.productionEnd.value), "\n");
    }
  }

  /** A comparison line has no Markdown, so stripping leaves it as it is. */
  lemma StripLine(title: string, reference: real, total: real, fmt: Render)
    requires '*' !in title && StarFree(fmt)
    ensures RemoveChar(ComparisonLine(title, reference, total, fmt), '*') == ComparisonLine(title, reference, total, fmt)
  {
    var diff := total - reference;
    assert '*' !in Trend(diff) && '*' !in PlusSign(diff);
    assert '*' !in fmt.fixed(reference, 3) && '*' !in fmt.fixed(diff, 3);
    StripFree(ComparisonLine(title, reference, total, fmt));
  }

  /** Stripping a bold word between star-free text. */
  lemma StripBetween(before: string, name: string, after: string)
    requires '*' !in before && '*' !in name && '*' !in after
    ensures RemoveChar(before + Bold(name) + after, '*') == before + name + after
  {
    StripAppend(before + Bold(name), after);
    StripAppend(before, Bold(name));
    StripFree(before);
    StripBold(name);
    StripFree(after);
  }

  lemma StripComparisons(r: Js.Report, fmt: Render)
    requires StarFree(fmt)
    ensures Stripped(ComparisonPieces(r, fmt, true), ComparisonPieces(r, fmt, false))
  {
    if Js.HasKeys(r.comparisons) {
      ComparisonLiterals();
      var total := r.totalEnergyKwh;
      var yesterday: seq<string> := if ShowsYesterday(r)
        then [ComparisonLine("📅 Gestern: ", r.comparisons.previousDay.value.energyKwh, total, fmt)] else [];
      var week: seq<string> := if ShowsWeek(r)
        then [ComparisonLine("📊 Woche Ø: ", r.comparisons.weekAverage.value.avgEnergyKwh, total, fmt)] else [];
      assert Stripped(yesterday, yesterday) by {
        if ShowsYesterday(r) {
          StripLine("📅 Gestern: ", r.comparisons.previousDay.value.energyKwh, total, fmt);
        }
      }
      assert Stripped(week, week) by {
        if ShowsWeek(r) {
          StripLine("📊 Woche Ø: ", r.comparisons.weekAverage.value.avgEnergyKwh, total, fmt);
        }
      }
      var heading := "\n📈 " + Mark("Vergleiche:", true) + "\n";
      var plainHeading := "\n📈 " + Mark("Vergleiche:", false) + "\n";
      assert Stripped([heading], [plainHeading]) by {
        StripBetween("\n📈 ", "Vergleiche:", "\n");
      }
      StrippedAppend([heading], [plainHeading], yesterday, yesterday);
      StrippedAppend([heading] + yesterday, [plainHeading] + yesterday, week, week);
      assert ComparisonPieces(r, fmt, true) == [heading] + yesterday + week;
      assert ComparisonPieces(r, fmt, false) == [plainHeading] + yesterday + week;
    }
  }

  lemma ComparisonLiterals()
    ensures '*' !in "\n📈 " && '*' !in "Vergleiche:" && '*' !in "\n"
    ensures '*' !in "📅 Gestern: " && '*' !in "📊 Woche Ø: "
  {
  }

  /** The HomeKit message is the Markdown message with every star removed, provided
      neither the date nor the rendered numbers and clocks contain a star. */
  lemma HomeKitIsStripped(r: Js.Report, fmt: Render)
    requires '*' !in r.date && StarFree(fmt)
    ensures RemoveChar(FormatReportMessage(r, fmt), '*') == FormatHomeKitMessage(r, fmt)
  {
    StripSummary(r, fmt);
    StripTimes(r, fmt);
    StripComparisons(r, fmt);
    StrippedAppend(SummaryPieces(r, fmt, true), SummaryPieces(r, fmt, false),
                   TimePieces(r, fmt, true), TimePieces(r, fmt, false));
    StrippedAppend(SummaryPieces(r, fmt, true) + TimePieces(r, fmt, true),
                   SummaryPieces(r, fmt, false) + TimePieces(r, fmt, false),
                   ComparisonPieces(r, fmt, true), ComparisonPieces(r, fmt, false));
    StripPieces(MessagePieces(r, fmt, true), MessagePieces(r, fmt, false));
  }

  // ---------------------------------------------------------------------------
  // Mail

  datatype MailOptions = MailOptions(from: string, to: string, subject: string, text: string, html: string)

  /** `mailOptions` of `sendEmail`. */
  function MailOptionsFor(from: string, to: string, r: Js.Report, message: string): (m: MailOptions)
    ensures m.from == from && m.to == to
    ensures m.subject == "Kostal Solar Report - " + r.date
    ensures m.text == RemoveChar(message, '*')
    ensures '*' !in m.text && '*' !in m.html
    ensures m.html == ReplaceChar(ReplaceChar(message, '\n', "<br>"), '*', "<b>")
  {
    var html := ReplaceChar(ReplaceChar(ReplaceChar(message, '\n', "<br>"), '*', "<b>"), '*', "</b>");
    ReplaceRemovesAll(message, '*', "");
    ReplaceRemovesAll(ReplaceChar(message, '\n', "<br>"), '*', "<b>");
    ReplaceAbsent(ReplaceChar(ReplaceChar(message, '\n', "<br>"), '*', "<b>"), '*', "</b>");
    MailOptions(from, to, "Kostal Solar Report - " + r.date, RemoveChar(message, '*'), html)
  }

  /** The plain mail text of a report is its HomeKit message. */
  lemma MailTextIsHomeKit(from: string, to: string, r: Js.Report, fmt: Render)
    requires '*' !in r.date && StarFree(fmt)
    ensures MailOptionsFor(from, to, r, FormatReportMessage(r, fmt)).text == FormatHomeKitMessage(r, fmt)
  {
    HomeKitIsStripped(r, fmt);
  }

  // ---------------------------------------------------------------------------
  // Dispatch

  datatype ServiceFlags = ServiceFlags(
    pushover: bool, telegram: bool, webhook: bool, email: bool, ios: bool, homekit: bool)

  datatype PushConfig = PushConfig(enabled: bool, time: string, services: ServiceFlags)

  /** What one sender is handed. */
  datatype Delivery =
    | Pushover(message: string)
    | Telegram(message: string)
    | Webhook(report: Js.Report)
    | Email(report: Js.Report, message: string)
    | HomeKit(report: Js.Report)

  /** The deliveries of `sendPushNotification`, in the order they are started. */
  function Deliveries(config: PushConfig, r: Js.Report, fmt: Render): (ds: seq<Delivery>)
    ensures !config.enabled ==> ds == []
    ensures Pushover(FormatReportMessage(r, fmt)) in ds <==> config.enabled && config.services.pushover
    ensures Telegram(FormatReportMessage(r, fmt)) in ds <==> config.enabled && config.services.telegram
    ensures Webhook(r) in ds <==> config.enabled && config.services.webhook
    ensures Email(r, FormatReportMessage(r, fmt)) in ds <==> config.enabled && config.services.email
    ensures HomeKit(r) in ds <==> config.enabled && config.services.homekit
    ensures |ds| == if !config.enabled then 0 else
      (if config.services.pushover then 1 else 0) + (if config.services.telegram then 1 else 0) +
      (if config.services.webhook then 1 else 0) + (if config.services.email then 1 else 0) +
      (if config.services.homekit then 1 else 0)
  {
    if !config.enabled then [] else Fanout(config.services, r, FormatReportMessage(r, fmt))
  }

  /** One delivery per enabled service, the message senders given `message`. */
  function Fanout(services: ServiceFlags, r: Js.Report, message: string): (ds: seq<Delivery>)
    ensures Pushover(message) in ds <==> services.pushover
    ensures Telegram(message) in ds <==> services.telegram
    ensures Webhook(r) in ds <==> services.webhook
    ensures Email(r, message) in ds <==> services.email
    ensures HomeKit(r) in ds <==> services.homekit
    ensures |ds| ==
      (if services.pushover then 1 else 0) + (if services.telegram then 1 else 0) +
      (if services.webhook then 1 else 0) + (if services.email then 1 else 0) +
      (if services.homekit then 1 else 0)
  {
    var promises := StartIf([], services.pushover, Pushover(message));
    var promises := StartIf(promises, services.telegram, Telegram(message));
    var promises := StartIf(promises, services.webhook, Webhook(r));
    var promises := StartIf(promises, services.email, Email(r, message));
    StartIf(promises, services.homekit, HomeKit(r))
  }

  /** The deliveries started so far, and the one an enabled service adds. */
  function StartIf(started: seq<Delivery>, enabled: bool, d: Delivery): (ds: seq<Delivery>)
    ensures |ds| == |started| + if enabled then 1 else 0
    ensures forall x :: x in ds <==> x in started || (enabled && x == d)
  {
    if enabled then started + [d] else started
  }

  // ---------------------------------------------------------------------------
  // Schedule

  /** `String(Number(part))` of one part of the configured time: the decimal value of
      an all-digit part (0 for an empty one), "undefined" for a missing part, and
      `other` for any other text. */
  function NumberText(part: Option<string>, other: string -> string): string
  {
    match part
    case None => "undefined"
    case Some(s) => if AllDigits(s) then NatToDecimal(DigitsValue(s)) else other(s)
  }

  /** The cron expression of `scheduleDailyReport`: minutes, hours, every day. */
  function CronExpression(time: string, other: string -> string): string
  {
    var parts := Split(time, ':');
    var hours := NumberText(Some(parts[0]), other);
    var minutes := NumberText(if |parts| > 1 then Some(parts[1]) else None, other);
    minutes + " " + hours + " * * *"
  }

  /** For a time `H:M` of digits the expression is `M H * * *` with the numeric
      values, so leading zeros are dropped. */
  lemma CronOfClock(h: string, m: string, other: string -> string)
    requires AllDigits(h) && AllDigits(m)
    ensures CronExpression(h + ":" + m, other) ==
      NatToDecimal(DigitsValue(m)) + " " + NatToDecimal(DigitsValue(h)) + " * * *"
  {
    assert ':' !in h && ':' !in m;
    assert Join([h, m], ':') == h + ":" + m by {
      assert [h, m][1..] == [m];
    }
    SplitJoin([h, m], ':');
  }

  lemma TwoDigitValue(tens: char, ones: char)
    requires IsDigit(tens) && IsDigit(ones)
    ensures DigitsValue([tens, ones]) == 10 * DigitValue(tens) + DigitValue(ones)
  {
    assert [tens, ones][..1] == [tens];
    assert DigitsValue([tens]) == DigitValue(tens) by {
      assert [tens][..0] == [];
    }
  }

  /** The default time 20:00 runs at minute 0 of hour 20. */
  lemma CronDefault(other: string -> string)
    ensures CronExpression("20:00", other) == "0 20 * * *"
  {
    var h, m := "20", "00";
    assert NatToDecimal(DigitsValue(m)) + " " + NatToDecimal(DigitsValue(h)) + " * * *" == "0 20 * * *" by {
      TwoDigitValue('2', '0');
      TwoDigitValue('0', '0');
      assert h == ['2', '0'] && m == ['0', '0'];
      assert NatToDecimal(20) == NatToDecimal(2) + ['0'];
    }
    assert CronExpression(h + ":" + m, other) == CronExpression("20:00", other) by {
      assert h + ":" + m == "20:00";
    }
    CronOfClock(h, m, other);
  }

  /** 08:05 runs at minute 5 of hour 8: the leading zeros are gone. */
  lemma CronLeadingZeros(other: string -> string)
    ensures CronExpression("08:05", other) == "5 8 * * *"
  {
    var h, m := "08", "05";
    assert NatToDecimal(DigitsValue(m)) + " " + NatToDecimal(DigitsValue(h)) + " * * *" == "5 8 * * *" by {
      TwoDigitValue('0', '8');
      TwoDigitValue('0', '5');
      assert h == ['0', '8'] && m == ['0', '5'];
    }
    assert CronExpression(h + ":" + m, other) == CronExpression("08:05", other) by {
      assert h + ":" + m == "08:05";
    }
    CronOfClock(h, m, other);
  }
}
