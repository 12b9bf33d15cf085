/** The report renderer of src/i18n/index.ts: locale selection with fallback to `en`,
    dotted-key lookup in a locale catalog, single-pass `{{word}}` interpolation, and
    the phrasing of the day's comparison. The locale catalogs are JSON files outside
    the model; they are opaque values here. Intl number and time formatting are
    external and supplied as functions. */
module I18n {
  import opened Text
  import Sequences

  /** A JSON value of a locale catalog: a string, an object, or any other leaf. */
  datatype Json = Str(s: string) | Obj(fields: map<string, Json>) | Other

  /** Locales whose catalogs are loaded (src/i18n/index.ts:127-134). */
  const Supported: set<string> := {"en", "de", "fr", "it", "zh"}

  /** Intl.NumberFormat(locale, fixed decimals) and Intl.DateTimeFormat(locale, hh:mm),
      both external to the model. */
  datatype Intl = Intl(number: (string, real, nat) -> string, time: (string, int) -> string)

  datatype ComparisonKind = Yesterday | Average
  datatype Comparison = Comparison(percent: real, kind: ComparisonKind)
  datatype Weather = Sunny | PartlyCloudy | Cloudy | Mixed

  /** The report payload; `peakTime` is an instant in milliseconds. */
  datatype DailyReportData = DailyReportData(
    energyKwh: real,
    efficiencyPercent: real,
    peakPowerKw: real,
    peakTime: int,
    productionHours: real,
    comparison: Comparison,
    weather: Weather)

  // ---------------------------------------------------------------------------
  // Dotted-key lookup

  /** `keys.reduce((cur, k) => cur?.[k], obj)` over catalog objects. A missing key
      gives `Other`, which stands for `undefined`. Stepping into a leaf also gives
      `Other` here, although JavaScript would index a string (a digit key gives a
      character, `length` its length); catalog paths never step past a string. */
  function Walk(obj: Json, keys: seq<string>): Json
    decreases |keys|
  {
    if |keys| == 0 then obj
    else match obj
      case Obj(f) => if keys[0] in f then Walk(f[keys[0]], keys[1..]) else Other
      case _ => Other
  }

  /** `getNestedValue(obj, path)`: walk the `.`-separated pieces of `path`. */
  function GetNestedValue(obj: Json, path: string): (v: Json)
    ensures '.' !in path ==> v == (if obj.Obj? && path in obj.fields then obj.fields[path] else Other)
  {
    if '.' !in path then
      var keys := [path];
      assert Split(path, '.') == keys;
      assert keys[0] == path && keys[1..] == [];
      assert obj.Obj? && path in obj.fields ==> Walk(obj.fields[path], []) == obj.fields[path];
      Walk(obj, keys)
    else Walk(obj, Split(path, '.'))
  }

  /** A path written as the join of dot-free keys walks exactly those keys. */
  lemma NestedValueFollowsKeys(obj: Json, keys: seq<string>)
    requires |keys| >= 1
    requires forall k | 0 <= k < |keys| :: '.' !in keys[k]
    ensures GetNestedValue(obj, Join(keys, '.')) == Walk(obj, keys)
  {
    SplitJoin(keys, '.');
  }

  /** The path `templates.dailyComplete` walks into the `templates` object and takes
      its `dailyComplete` entry. */
  lemma DailyCompleteLookup(tpl: string, rest: map<string, Json>, top: map<string, Json>)
    requires "dailyComplete" in rest && rest["dailyComplete"] == Str(tpl)
    requires "templates" in top && top["templates"] == Obj(rest)
    ensures GetNestedValue(Obj(top), "templates.dailyComplete") == Str(tpl)
  {
    var keys := ["templates", "dailyComplete"];
    var tail := ["dailyComplete"];
    assert keys[0] == "templates" && keys[1..] == tail;
    assert tail[0] == "dailyComplete" && tail[1..] == [];
    assert Walk(Obj(rest), tail) == Str(tpl) by {
      assert Walk(Obj(rest), tail) == Walk(Str(tpl), []);
    }
    assert Walk(Obj(top), keys) == Walk(Obj(rest), tail);
    DailyCompletePath();
    NestedValueFollowsKeys(Obj(top), keys);
  }

  lemma DailyCompletePath()
    ensures "templates.dailyComplete" == Join(["templates", "dailyComplete"], '.')
    ensures '.' !in "templates" && '.' !in "dailyComplete"
  {
    assert ["templates", "dailyComplete"][1..] == ["dailyComplete"];
  }

  /** `v || key` for a looked-up value: a non-empty string is kept, and an empty
      string or a missing value gives the key back. A truthy object found at the
      path would be returned by JavaScript as is; here it gives the key back too. */
  function StringOr(v: Json, key: string): (r: string)
    ensures v.Str? && v.s != "" ==> r == v.s
    ensures !(v.Str? && v.s != "") ==> r == key
  {
    if v.Str? && v.s != "" then v.s else key
  }

  // ---------------------------------------------------------------------------
  // Interpolation

  predicate IsWordChar(ch: char)
  {
    ('a' <= ch <= 'z') || ('A' <= ch <= 'Z') || ('0' <= ch <= '9') || ch == '_'
  }

  predicate IsWord(s: string)
  {
    |s| >= 1 && forall k | 0 <= k < |s| :: IsWordChar(s[k])
  }

  /** Length of the longest prefix of word characters. */
  function WordRun(s: string): (n: nat)
    ensures n <= |s|
    ensures forall k | 0 <= k < n :: IsWordChar(s[k])
    ensures n < |s| ==> !IsWordChar(s[n])
  {
    if |s| == 0 || !IsWordChar(s[0]) then 0 else 1 + WordRun(s[1..])
  }

  /** Length of the `{{word}}` token that starts `s` (the regex /\{\{(\w+)\}\}/ anchored
      at the first character), or 0 when no token starts there. */
  function TokenAt(s: string): (n: nat)
    ensures n == 0 || (5 <= n <= |s| && s[..2] == "{{" && s[n - 2..n] == "}}" && IsWord(s[2..n - 2]))
  {
    if |s| >= 2 && s[0] == '{' && s[1] == '{' then
      var w := WordRun(s[2..]);
      if w >= 1 && |s| >= w + 4 && s[w + 2] == '}' && s[w + 3] == '}' then
        assert s[2..w + 2] == s[2..][..w];
        w + 4
      else 0
    else 0
  }

  /** `template.replace(/\{\{(\w+)\}\}/g, (m, k) => values[k] || m)`: tokens are found
      left to right, each replaced by its non-empty value or kept verbatim, and the
      scan resumes after the token, so replacement text is never scanned again. */
  function Interpolate(s: string, values: map<string, string>): string
    decreases |s|
  {
    if |s| == 0 then ""
    else
      var n := TokenAt(s);
      if n > 0 then
        var name := s[2..n - 2];
        (if name in values && values[name] != "" then values[name] else s[..n])
          + Interpolate(s[n..], values)
      else [s[0]] + Interpolate(s[1..], values)
  }

  /** No `{{word}}` token starts anywhere in `s`. */
  predicate NoToken(s: string)
  {
    forall i | 0 <= i < |s| :: TokenAt(s[i..]) == 0
  }

  /** A template without tokens is returned unchanged. */
  lemma {:induction false} InterpolateNoToken(s: string, values: map<string, string>)
    requires NoToken(s)
    ensures Interpolate(s, values) == s
    decreases |s|
  {
    if |s| > 0 {
      assert TokenAt(s[0..]) == 0;
      assert s[0..] == s;
      assert NoToken(s[1..]) by {
        forall i | 0 <= i < |s[1..]| ensures TokenAt(s[1..][i..]) == 0 {
          assert s[1..][i..] == s[i + 1..];
        }
      }
      InterpolateNoToken(s[1..], values);
    }
  }

  /** With no values at all every token is left verbatim. */
  lemma {:induction false} InterpolateNoValues(s: string)
    ensures Interpolate(s, map[]) == s
    decreases |s|
  {
    if |s| > 0 {
      var n := TokenAt(s);
      if n > 0 {
        InterpolateNoValues(s[n..]);
        assert s == s[..n] + s[n..];
      } else {
        InterpolateNoValues(s[1..]);
      }
    }
  }

  /** Text before the first `{` passes through untouched. */
  lemma {:induction false} InterpolatePlainPrefix(a: string, b: string, values: map<string, string>)
    requires '{' !in a
    ensures Interpolate(a + b, values) == a + Interpolate(b, values)
    decreases |a|
  {
    if |a| > 0 {
      var t := a[1..];
      var rest := Interpolate(b, values);
      assert Interpolate(a + b, values) == [a[0]] + Interpolate(t + b, values) by {
        PlainStep(a, b, values);
      }
      assert Interpolate(t + b, values) == t + rest by {
        assert '{' !in t by { assert forall k | 0 <= k < |t| :: t[k] == a[k + 1]; }
        InterpolatePlainPrefix(t, b, values);
      }
      assert [a[0]] + (t + rest) == a + rest by {
        assert a == [a[0]] + t;
      }
    } else {
      assert a + b == b;
    }
  }

  lemma PlainStep(a: string, b: string, values: map<string, string>)
    requires |a| > 0 && a[0] != '{'
    ensures Interpolate(a + b, values) == [a[0]] + Interpolate(a[1..] + b, values)
  {
    assert TokenAt(a + b) == 0;
    InterpolatePlainChar(a + b, values);
    assert (a + b)[1..] == a[1..] + b;
  }

  /** A character that starts no token is copied: any character other than `{`, and
      a `{` that does not open a `{{word}}` token, such as the first one of `{a}` or
      `{{}}`. */
  lemma InterpolatePlainChar(s: string, values: map<string, string>)
    requires |s| > 0 && TokenAt(s) == 0
    ensures Interpolate(s, values) == [s[0]] + Interpolate(s[1..], values)
  {
  }

  /** A token is replaced by its non-empty value and scanning resumes after it, so the
      substituted text is never rescanned; a token without a value stays verbatim. */
  lemma InterpolateToken(name: string, rest: string, values: map<string, string>)
    requires IsWord(name)
    ensures var tok := "{{" + name + "}}";
      Interpolate(tok + rest, values)
        == (if name in values && values[name] != "" then values[name] else tok)
           + Interpolate(rest, values)
  {
    var tok := "{{" + name + "}}";
    var s := tok + rest;
    assert s[2..] == name + "}}" + rest;
    WordRunOfWord(name, "}}" + rest);
    assert s[2..] == name + ("}}" + rest);
    assert TokenAt(s) == |name| + 4;
    assert s[2..|name| + 2] == name;
    assert s[..|name| + 4] == tok;
    assert s[|name| + 4..] == rest;
  }

  lemma {:induction false} WordRunOfWord(w: string, t: string)
    requires forall k | 0 <= k < |w| :: IsWordChar(w[k])
    requires |t| > 0 && !IsWordChar(t[0])
    ensures WordRun(w + t) == |w|
    decreases |w|
  {
    if |w| == 0 {
      assert w + t == t;
    } else {
      assert (w + t)[1..] == w[1..] + t;
      WordRunOfWord(w[1..], t);
    }
  }

  // ---------------------------------------------------------------------------
  // Comparison phrasing

  /** `percent >= 0 ? '+' : ''`. */
  function ComparisonSign(percent: real): (r: string)
    ensures r == "+" <==> percent >= 0.0
    ensures r == "" <==> percent < 0.0
  {
    if percent >= 0.0 then "+" else ""
  }

  /** The catalog key of the comparison phrase. */
  function ComparisonKey(c: Comparison): (key: string)
    ensures c.kind == Yesterday ==> key == "vsYesterday"
    ensures c.kind == Average ==> (key == "aboveAverage" <==> c.percent > 0.0)
    ensures c.kind == Average ==> (key == "belowAverage" <==> c.percent <= 0.0)
  {
    if c.kind == Yesterday then "vsYesterday"
    else if c.percent > 0.0 then "aboveAverage"
    else "belowAverage"
  }

  /** The eight template values, each under its own key. */
  function ReportMap(energy: string, energyUnit: string, efficiency: string, percent: string,
                     peak: string, peakUnit: string, peakTime: string, comparison: string): (values: map<string, string>)
    ensures values.Keys ==
      {"energy", "energyUnit", "efficiency", "percent", "peak", "peakUnit", "peakTime", "comparison"}
    ensures values["energy"] == energy && values["energyUnit"] == energyUnit
    ensures values["efficiency"] == efficiency && values["percent"] == percent
    ensures values["peak"] == peak && values["peakUnit"] == peakUnit
    ensures values["peakTime"] == peakTime && values["comparison"] == comparison
  {
    map["energy" := energy,
        "energyUnit" := energyUnit,
        "efficiency" := efficiency,
        "percent" := percent,
        "peak" := peak,
        "peakUnit" := peakUnit,
        "peakTime" := peakTime,
        "comparison" := comparison]
  }

  class SolarReportI18n {
    var translations: map<string, Json>
    var currentLocale: string
    const intl: Intl

    ghost predicate Valid()
      reads this
    {
      translations.Keys == Supported && currentLocale in Supported
    }

    /** Loads the five catalogs; the current locale starts as `en`. */
    constructor (en: Json, de: Json, fr: Json, it: Json, zh: Json, intl: Intl)
      ensures Valid()
      ensures translations == map["en" := en, "de" := de, "fr" := fr, "it" := it, "zh" := zh]
      ensures currentLocale == "en" && this.intl == intl
    {
      translations := map["en" := en, "de" := de, "fr" := fr, "it" := it, "zh" := zh];
      currentLocale := "en";
      this.intl := intl;
    }

    /** Selects a loaded locale, falling back to `en`; never fails. */
    method SetLocale(locale: string)
      requires Valid()
      modifies this
      ensures Valid() && translations == old(translations)
      ensures currentLocale == (if locale in Supported then locale else "en")
    {
      if locale in translations {
        currentLocale := locale;
      } else {
        currentLocale := "en";
      }
    }

    /** `t(key)`: the non-empty string at the dotted path in the current catalog, else
        the key itself. Without a current catalog, the flat `en` entry or the key. */
    function T(key: string): (r: string)
      reads this
      ensures key != "" ==> r != ""
      ensures currentLocale in translations ==>
        var v := GetNestedValue(translations[currentLocale], key);
        (v.Str? && v.s != "" ==> r == v.s) && (!(v.Str? && v.s != "") ==> r == key)
      ensures currentLocale !in translations ==>
        (r == key ||
         ("en" in translations && translations["en"].Obj? && key in translations["en"].fields &&
          translations["en"].fields[key] == Str(r)))
    {
      if currentLocale !in translations then
        (if "en" in translations && translations["en"].Obj? && key in translations["en"].fields
         then StringOr(translations["en"].fields[key], key) else key)
      else StringOr(GetNestedValue(translations[currentLocale], key), key)
    }

    function FormatNumber(value: real, decimals: nat): string
      reads this
    {
      intl.number(currentLocale, value, decimals)
    }

    function FormatTime(instant: int): string
      reads this
    {
      intl.time(currentLocale, instant)
    }

    /** The values substituted into the comparison phrase. */
    function ComparisonValues(c: Comparison): (values: map<string, string>)
      reads this
      ensures values.Keys == {"sign", "percent", "percentUnit"}
      ensures values["sign"] == "+" <==> c.percent >= 0.0
      ensures values["sign"] == "" <==> c.percent < 0.0
      ensures values["percent"] == intl.number(currentLocale, Sequences.Abs(c.percent), 0)
      ensures values["percentUnit"] == T("percent")
    {
      map["sign" := ComparisonSign(c.percent),
          "percent" := FormatNumber(Sequences.Abs(c.percent), 0),
          "percentUnit" := T("percent")]
    }

    /** `formatComparison`: the phrase of the selected key with its values filled in. */
    function FormatComparison(c: Comparison): string
      reads this
    {
      Interpolate(T(ComparisonKey(c)), ComparisonValues(c))
    }

    /** The values substituted into the daily report template: exactly these eight
        keys, none of which depends on the weather or the production hours. */
    function ReportValues(data: DailyReportData): (values: map<string, string>)
      reads this
      ensures values.Keys ==
        {"energy", "energyUnit", "efficiency", "percent", "peak", "peakUnit", "peakTime", "comparison"}
      ensures values["energy"] == intl.number(currentLocale, data.energyKwh, 1)
      ensures values["efficiency"] == intl.number(currentLocale, data.efficiencyPercent, 0)
      ensures values["peak"] == intl.number(currentLocale, data.peakPowerKw, 1)
      ensures values["peakTime"] == intl.time(currentLocale, data.peakTime)
      ensures values["energyUnit"] == T("kwh") && values["percent"] == T("percent")
      ensures values["peakUnit"] == T("kw")
      ensures values["comparison"] == FormatComparison(data.comparison)
    {
      ReportMap(FormatNumber(data.energyKwh, 1), T("kwh"), FormatNumber(data.efficiencyPercent, 0), T("percent"),
                FormatNumber(data.peakPowerKw, 1), T("kw"), FormatTime(data.peakTime), FormatComparison(data.comparison))
    }

    /** `generateDailyReport`: the `templates.dailyComplete` template, interpolated. */
    function GenerateDailyReport(data: DailyReportData): string
      reads this
    {
      Interpolate(T("templates.dailyComplete"), ReportValues(data))
    }

    /** The weather and the production hours never reach the rendered report. */
    lemma ReportIgnoresWeatherAndHours(data: DailyReportData, w: Weather, h: real)
      ensures GenerateDailyReport(data.(weather := w, productionHours := h))
           == GenerateDailyReport(data)
    {
      assert ReportValues(data.(weather := w, productionHours := h)) == ReportValues(data);
    }

    /** With a current catalog that holds `templates.dailyComplete` as a non-empty
        string, that string is the template the report is rendered from. */
    lemma DailyTemplateFromCatalog(tpl: string, rest: map<string, Json>, top: map<string, Json>)
      requires Valid()
      requires tpl != ""
      requires "dailyComplete" in rest && rest["dailyComplete"] == Str(tpl)
      requires "templates" in top && top["templates"] == Obj(rest)
      requires translations[currentLocale] == Obj(top)
      ensures T("templates.dailyComplete") == tpl
    {
      DailyCompleteLookup(tpl, rest, top);
    }
  }
}
