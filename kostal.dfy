/** The decoding side of kostal-inverter-platform.ts: the inverter state codes, the
    fold over the process-data modules of the inverter's REST answer, the request
    headers and the throttle of the detailed log. Fetching, the HomeKit services and
    the log lines themselves are left out. Every `parseFloat(data.value)` is applied
    where the answer is read: an entry carries the number it parses to. */
module KostalInverter {
  import opened Sequences
  import opened JsMath

  // ---------------------------------------------------------------------------
  // State codes

  /** The names of the state codes 0 to 9. */
  const STATE_NAMES: seq<string> := ["off", "starting", "running", "stopping", "error", "maintenance",
    "standby", "grid_monitoring", "grid_connected", "grid_disconnected"]

  /** The number is one of the codes 0 to 9. */
  predicate IsStateCode(v: JsNumber)
  {
    v.Finite? && v.value == v.value.Floor as real && 0 <= v.value.Floor <= 9
  }

  /** `mapInverterState`; `show` is JavaScript's number-to-text conversion. */
  function MapInverterState(v: JsNumber, show: JsNumber -> string): (name: string)
    ensures IsStateCode(v) ==> name == STATE_NAMES[v.value.Floor]
    ensures !IsStateCode(v) ==> name == "unknown_" + show(v)
  {
    if v == Finite(0.0) then "off"
    else if v == Finite(1.0) then "starting"
    else if v == Finite(2.0) then "running"
    else if v == Finite(3.0) then "stopping"
    else if v == Finite(4.0) then "error"
    else if v == Finite(5.0) then "maintenance"
    else if v == Finite(6.0) then "standby"
    else if v == Finite(7.0) then "grid_monitoring"
    else if v == Finite(8.0) then "grid_connected"
    else if v == Finite(9.0) then "grid_disconnected"
    else "unknown_" + show(v)
  }

  /** Different codes have different names, and no name of a code starts like the
      name of an unknown value; so the inverter reports `running` exactly for code 2. */
  lemma StateNamesDistinct(v: JsNumber, w: JsNumber, show: JsNumber -> string)
    requires IsStateCode(v) && IsStateCode(w) && v != w
    ensures MapInverterState(v, show) != MapInverterState(w, show)
  {
    var i, j := v.value.Floor, w.value.Floor;
    assert i != j;
    assert forall a, b | 0 <= a < b < 10 :: STATE_NAMES[a] != STATE_NAMES[b] by {
      forall a, b | 0 <= a < b < 10 ensures STATE_NAMES[a] != STATE_NAMES[b] {
        assert |STATE_NAMES[a]| != |STATE_NAMES[b]| || STATE_NAMES[a][0] != STATE_NAMES[b][0] ||
          STATE_NAMES[a][2] != STATE_NAMES[b][2];
      }
    }
  }

  lemma RunningIsCodeTwo(v: JsNumber, show: JsNumber -> string)
    ensures MapInverterState(v, show) == "running" <==> v == Finite(2.0)
  {
    if !IsStateCode(v) {
      assert ("unknown_" + show(v))[0] == 'u';
    } else if v != Finite(2.0) {
      StateNamesDistinct(v, Finite(2.0), show);
    }
  }

  // ---------------------------------------------------------------------------
  // The process-data fold

  datatype Entry = Entry(id: string, value: JsNumber)

  datatype Module = Module(moduleid: string, processdata: seq<Entry>)

  datatype InverterState = InverterState(
    power: real, energy: real, temperature: real, status: string,
    batteryPower: real, homeConsumption: real, gridPower: real)

  /** The values before any module is read. */
  const INITIAL: InverterState := InverterState(0.0001, 0.0, 20.0, "unknown", 0.0, 0.0, 0.0)

  /** The seven passes over a module's entries, in the order the source runs them. */
  datatype Pass = LocalValues | PvStrings | AcGrid | Powermeter | LocalFlows | Battery | EnergyFlow

  /** `s.startsWith(prefix)`. */
  predicate StartsWith(s: string, prefix: string)
  {
    |s| >= |prefix| && s[..|prefix|] == prefix
  }

  /** `s.includes(t)`. */
  predicate Includes(s: string, t: string)
    decreases |s|
  {
    StartsWith(s, t) || (|s| > 0 && Includes(s[1..], t))
  }

  /** The string test of the PV-string pass: a non-empty id that includes `Power`
      or `P`. */
  predicate PvCandidate(id: string)
  {
    id != "" && (Includes(id, "Power") || Includes(id, "P"))
  }

  lemma {:induction false} IncludesChar(s: string, c: char)
    ensures Includes(s, [c]) <==> c in s
  {
    if |s| > 0 {
      IncludesChar(s[1..], c);
      assert s == [s[0]] + s[1..];
    }
  }

  lemma {:induction false} IncludesPower(s: string)
    requires Includes(s, "Power")
    ensures 'P' in s
  {
    if StartsWith(s, "Power") {
      assert s[0] == 'P';
    } else {
      IncludesPower(s[1..]);
    }
  }

  /** Since `Power` includes `P`, the test is just whether the id contains a `P`. */
  lemma PvCandidateMeaning(id: string)
    ensures PvCandidate(id) <==> 'P' in id
  {
    IncludesChar(id, 'P');
    if Includes(id, "Power") {
      IncludesPower(id);
    }
  }

  /** `Math.max(0.0001, v)`. */
  function Floored(v: real): real
  {
    if v > 0.0001 then v else 0.0001
  }

  /** The effect of one entry in one pass. */
  function Step(pass: Pass, s: InverterState, e: Entry, show: JsNumber -> string): InverterState
  {
    match pass
    case LocalValues =>
      if e.id == "Inverter:State" then s.(status := MapInverterState(e.value, show))
      else if e.id == "Home_P" then s.(homeConsumption := OrZero(e.value))
      else if e.id == "PV_P" || e.id == "PV_TotalPower" then
        (if e.value.Finite? && e.value.value > s.power then s.(power := Floored(e.value.value)) else s)
      else if e.id == "Home_TotalEnergy" || e.id == "PV_TotalEnergy" then
        (if e.value.Finite? then s.(energy := e.value.value / 1000.0) else s)
      else if e.id == "Inverter:Temperature" then
        (if e.value.Finite? then s.(temperature := e.value.value) else s)
      else if e.id == "Home_TotalPower" then
        (if e.value.Finite? then s.(homeConsumption := e.value.value) else s)
      else s
    case PvStrings =>
      if PvCandidate(e.id) && e.value.Finite? && e.value.value > 0.0
      then s.(power := Max(s.power, e.value.value)) else s
    case AcGrid =>
      if e.id == "P" then s.(gridPower := OrZero(e.value)) else s
    case Powermeter =>
      if e.id == "P" && OrZero(e.value) > 0.0 then s.(homeConsumption := OrZero(e.value)) else s
    case LocalFlows =>
      if e.id == "Home_P" && OrZero(e.value) > 0.0 then s.(homeConsumption := OrZero(e.value))
      else if e.id == "PV_P" && OrZero(e.value) > 0.0 then s.(power := OrZero(e.value))
      else s
    case Battery =>
      if e.id == "P" then s.(batteryPower := OrZero(e.value)) else s
    case EnergyFlow =>
      if e.id == "Home_P" && OrZero(e.value) > 0.0 then s.(homeConsumption := OrZero(e.value))
      else if e.id == "Grid_P" && OrZero(e.value) != 0.0 then s.(gridPower := OrZero(e.value))
      else if e.id == "PV_P" && OrZero(e.value) > s.power then s.(power := Floored(OrZero(e.value)))
      else s
  }

  /** One pass over a module's entries. */
  function RunPass(pass: Pass, s: InverterState, entries: seq<Entry>, show: JsNumber -> string): InverterState
  {
    if |entries| == 0 then s
    else Step(pass, RunPass(pass, s, entries[..|entries| - 1], show), entries[|entries| - 1], show)
  }

  /** Whether a module gets a pass: by its exact id, or by prefix for the PV strings. */
  predicate Applies(pass: Pass, moduleid: string)
  {
    match pass
    case LocalValues => moduleid == "devices:local"
    case PvStrings => StartsWith(moduleid, "devices:local:pv")
    case AcGrid => moduleid == "devices:local:ac"
    case Powermeter => moduleid == "devices:local:powermeter"
    case LocalFlows => moduleid == "devices:local"
    case Battery => moduleid == "devices:local:battery"
    case EnergyFlow => moduleid == "scb:statistic:EnergyFlow"
  }

  /** The pass when it applies to the module. */
  function Stage(pass: Pass, s: InverterState, m: Module, show: JsNumber -> string): InverterState
  {
    if Applies(pass, m.moduleid) then RunPass(pass, s, m.processdata, show) else s
  }

  /** All seven stages for one module. */
  function ReadModule(s: InverterState, m: Module, show: JsNumber -> string): InverterState
  {
    var s := Stage(LocalValues, s, m, show);
    var s := Stage(PvStrings, s, m, show);
    var s := Stage(AcGrid, s, m, show);
    var s := Stage(Powermeter, s, m, show);
    var s := Stage(LocalFlows, s, m, show);
    var s := Stage(Battery, s, m, show);
    Stage(EnergyFlow, s, m, show)
  }

  /** The result of `extractInverterState`. */
  function Extracted(modules: seq<Module>, show: JsNumber -> string): InverterState
  {
    if |modules| == 0 then INITIAL
    else ReadModule(Extracted(modules[..|modules| - 1], show), modules[|modules| - 1], show)
  }

  /** `extractInverterState` over `allData.processData`. */
  method ExtractInverterState(processData: seq<Module>, show: JsNumber -> string) returns (state: InverterState)
    ensures state == Extracted(processData, show)
  {
    state := INITIAL;
    var i := 0;
    while i < |processData|
      invariant 0 <= i <= |processData|
      invariant state == Extracted(processData[..i], show)
    {
      assert processData[..i + 1][..i] == processData[..i];
      var m := processData[i];
      if Applies(LocalValues, m.moduleid) { state := ScanEntries(LocalValues, state, m.processdata, show); }
      if Applies(PvStrings, m.moduleid) { state := ScanEntries(PvStrings, state, m.processdata, show); }
      if Applies(AcGrid, m.moduleid) { state := ScanEntries(AcGrid, state, m.processdata, show); }
      if Applies(Powermeter, m.moduleid) { state := ScanEntries(Powermeter, state, m.processdata, show); }
      if Applies(LocalFlows, m.moduleid) { state := ScanEntries(LocalFlows, state, m.processdata, show); }
      if Applies(Battery, m.moduleid) { state := ScanEntries(Battery, state, m.processdata, show); }
      if Applies(EnergyFlow, m.moduleid) { state := ScanEntries(EnergyFlow, state, m.processdata, show); }
      i := i + 1;
    }
    assert processData[..i] == processData;
  }

  /** One `for (const data of module.processdata)` loop. */
  method ScanEntries(pass: Pass, s: InverterState, entries: seq<Entry>, show: JsNumber -> string) returns (t: InverterState)
    ensures t == RunPass(pass, s, entries, show)
  {
    t := s;
    var j := 0;
    while j < |entries|
      invariant 0 <= j <= |entries|
      invariant t == RunPass(pass, s, entries[..j], show)
    {
      assert entries[..j + 1][..j] == entries[..j];
      t := Step(pass, t, entries[j], show);
      j := j + 1;
    }
    assert entries[..j] == entries;
  }

  // ---------------------------------------------------------------------------
  // Power

  lemma {:induction false} RunPassPositive(pass: Pass, s: InverterState, entries: seq<Entry>, show: JsNumber -> string)
    requires s.power > 0.0
    ensures RunPass(pass, s, entries, show).power > 0.0
  {
    if |entries| > 0 {
      RunPassPositive(pass, s, entries[..|entries| - 1], show);
    }
  }

  lemma ReadModulePositive(s: InverterState, m: Module, show: JsNumber -> string)
    requires s.power > 0.0
    ensures ReadModule(s, m, show).power > 0.0
  {
    forall pass: Pass, t: InverterState | t.power > 0.0
      ensures Stage(pass, t, m, show).power > 0.0
    {
      RunPassPositive(pass, t, m.processdata, show);
    }
  }

  /** The power the inverter reports is always positive: every assignment keeps it
      above zero. */
  lemma {:induction false} PowerPositive(modules: seq<Module>, show: JsNumber -> string)
    ensures Extracted(modules, show).power > 0.0
  {
    if |modules| > 0 {
      PowerPositive(modules[..|modules| - 1], show);
      ReadModulePositive(Extracted(modules[..|modules| - 1], show), modules[|modules| - 1], show);
    }
  }

  /** A `PV_P` reading of the local device that the second local pass would store
      although it lies strictly between 0 and 0.0001. */
  predicate TinyPvReading(m: Module, e: Entry)
  {
    m.moduleid == "devices:local" && e.id == "PV_P" && 0.0 < OrZero(e.value) < 0.0001
  }

  lemma {:induction false} RunPassFloor(pass: Pass, s: InverterState, m: Module, k: nat, show: JsNumber -> string)
    requires k <= |m.processdata| && Applies(pass, m.moduleid)
    requires s.power >= 0.0001
    requires forall j | 0 <= j < k :: !TinyPvReading(m, m.processdata[j])
    ensures RunPass(pass, s, m.processdata[..k], show).power >= 0.0001
  {
    if k > 0 {
      assert m.processdata[..k][..k - 1] == m.processdata[..k - 1];
      RunPassFloor(pass, s, m, k - 1, show);
    }
  }

  lemma ReadModuleFloor(s: InverterState, m: Module, show: JsNumber -> string)
    requires s.power >= 0.0001
    requires forall j | 0 <= j < |m.processdata| :: !TinyPvReading(m, m.processdata[j])
    ensures ReadModule(s, m, show).power >= 0.0001
  {
    assert m.processdata[..|m.processdata|] == m.processdata;
    forall pass: Pass, t: InverterState | t.power >= 0.0001
      ensures Stage(pass, t, m, show).power >= 0.0001
    {
      if Applies(pass, m.moduleid) {
        RunPassFloor(pass, t, m, |m.processdata|, show);
      }
    }
  }

  /** The floor of 0.0001 holds exactly as long as no local `PV_P` reading lies
      strictly between 0 and 0.0001. */
  lemma {:induction false} PowerFloor(modules: seq<Module>, show: JsNumber -> string)
    requires forall i, j | 0 <= i < |modules| && 0 <= j < |modules[i].processdata| ::
      !TinyPvReading(modules[i], modules[i].processdata[j])
    ensures Extracted(modules, show).power >= 0.0001
  {
    if |modules| > 0 {
      PowerFloor(modules[..|modules| - 1], show);
      ReadModuleFloor(Extracted(modules[..|modules| - 1], show), modules[|modules| - 1], show);
    }
  }

  /** A single local `PV_P` reading of 0.00005 leaves the power at 0.00005, below the
      floor the first local pass keeps. */
  lemma PowerBelowFloor(show: JsNumber -> string)
    ensures Extracted([Module("devices:local", [Entry("PV_P", Finite(0.00005))])], show).power == 0.00005
  {
    var e := Entry("PV_P", Finite(0.00005));
    var m := Module("devices:local", [e]);
    assert [m][..0] == [] && [e][..0] == [];
    assert RunPass(LocalValues, INITIAL, [e], show) == INITIAL;
    assert RunPass(LocalFlows, INITIAL, [e], show).power == 0.00005;
  }

  // ---------------------------------------------------------------------------
  // Status, energy, temperature and battery power

  const STATE_IDS: set<string> := {"Inverter:State"}
  const ENERGY_IDS: set<string> := {"Home_TotalEnergy", "PV_TotalEnergy"}
  const TEMPERATURE_IDS: set<string> := {"Inverter:Temperature"}

  /** The value of the last entry whose id is one of `ids`. */
  function LastValue(entries: seq<Entry>, ids: set<string>): (r: Option<JsNumber>)
    ensures r.Some? <==> exists k | 0 <= k < |entries| :: entries[k].id in ids
  {
    if |entries| == 0 then None
    else
      var e := entries[|entries| - 1];
      if e.id in ids then Some(e.value)
      else
        var r := LastValue(entries[..|entries| - 1], ids);
        assert forall k | 0 <= k < |entries| - 1 :: entries[..|entries| - 1][k] == entries[k];
        r
  }

  /** The last number that parsed among the entries whose id is one of `ids`. */
  function LastFinite(entries: seq<Entry>, ids: set<string>): (r: Option<real>)
    ensures r.Some? <==> exists k | 0 <= k < |entries| :: entries[k].id in ids && entries[k].value.Finite?
  {
    if |entries| == 0 then None
    else
      var e := entries[|entries| - 1];
      if e.id in ids && e.value.Finite? then Some(e.value.value)
      else
        var r := LastFinite(entries[..|entries| - 1], ids);
        assert forall k | 0 <= k < |entries| - 1 :: entries[..|entries| - 1][k] == entries[k];
        r
  }

  lemma {:induction false} LastValueAppend(a: seq<Entry>, b: seq<Entry>, ids: set<string>)
    ensures LastValue(a + b, ids) == if LastValue(b, ids).Some? then LastValue(b, ids) else LastValue(a, ids)
  {
    if |b| > 0 {
      assert (a + b)[..|a + b| - 1] == a + b[..|b| - 1];
      LastValueAppend(a, b[..|b| - 1], ids);
    } else {
      assert a + b == a;
    }
  }

  lemma {:induction false} LastFiniteAppend(a: seq<Entry>, b: seq<Entry>, ids: set<string>)
    ensures LastFinite(a + b, ids) == if LastFinite(b, ids).Some? then LastFinite(b, ids) else LastFinite(a, ids)
  {
    if |b| > 0 {
      assert (a + b)[..|a + b| - 1] == a + b[..|b| - 1];
      LastFiniteAppend(a, b[..|b| - 1], ids);
    } else {
      assert a + b == a;
    }
  }

  /** The entries of all modules with the given id, in order. */
  function EntriesOf(modules: seq<Module>, moduleid: string): seq<Entry>
  {
    if |modules| == 0 then []
    else
      var m := modules[|modules| - 1];
      EntriesOf(modules[..|modules| - 1], moduleid) + (if m.moduleid == moduleid then m.processdata else [])
  }

  /** The three readings of the first local pass, given what they were before it. */
  lemma {:induction false} LocalValuesReadings(s: InverterState, entries: seq<Entry>, show: JsNumber -> string)
    ensures var t := RunPass(LocalValues, s, entries, show);
      t.status == (match LastValue(entries, STATE_IDS)
        case None => s.status case Some(v) => MapInverterState(v, show)) &&
      t.energy == (match LastFinite(entries, ENERGY_IDS)
        case None => s.energy case Some(x) => x / 1000.0) &&
      t.temperature == (match LastFinite(entries, TEMPERATURE_IDS)
        case None => s.temperature case Some(x) => x)
  {
    if |entries| > 0 {
      var init := entries[..|entries| - 1];
      var e := entries[|entries| - 1];
      LocalValuesReadings(s, init, show);
      LocalStep(RunPass(LocalValues, s, init, show), e, show);
      assert init + [e] == entries;
      LastValueAppend(init, [e], STATE_IDS);
      LastFiniteAppend(init, [e], ENERGY_IDS);
      LastFiniteAppend(init, [e], TEMPERATURE_IDS);
    }
  }

  /** One entry of the first local pass, as seen by status, energy and temperature. */
  lemma LocalStep(s: InverterState, e: Entry, show: JsNumber -> string)
    ensures var t := Step(LocalValues, s, e, show);
      t.status == (if e.id in STATE_IDS then MapInverterState(e.value, show) else s.status) &&
      t.energy == (if e.id in ENERGY_IDS && e.value.Finite? then e.value.value / 1000.0 else s.energy) &&
      t.temperature == (if e.id in TEMPERATURE_IDS && e.value.Finite? then e.value.value else s.temperature)
  {
    LocalIds();
  }

  lemma LocalIds()
    ensures "Inverter:State" != "Home_P" && "Inverter:State" != "PV_P" && "Inverter:State" != "PV_TotalPower"
    ensures "Home_TotalEnergy" != "Home_P" && "Home_TotalEnergy" != "PV_P" && "Home_TotalEnergy" != "PV_TotalPower"
    ensures "PV_TotalEnergy" != "Home_P" && "PV_TotalEnergy" != "PV_P" && "PV_TotalEnergy" != "PV_TotalPower"
    ensures "Inverter:Temperature" != "Home_P" && "Inverter:Temperature" != "PV_P" && "Inverter:Temperature" != "PV_TotalPower"
    ensures "Inverter:Temperature" != "Home_TotalEnergy" && "Inverter:Temperature" != "PV_TotalEnergy"
    ensures "Inverter:State" != "Home_TotalEnergy" && "Inverter:State" != "PV_TotalEnergy"
    ensures "Inverter:State" != "Inverter:Temperature"
  {
  }

  /** Every pass but the first local one leaves status, energy and temperature alone;
      every pass but the battery pass leaves the battery power alone. */
  lemma {:induction false} OtherPassesKeep(pass: Pass, s: InverterState, entries: seq<Entry>, show: JsNumber -> string)
    ensures var t := RunPass(pass, s, entries, show);
      (pass != LocalValues ==> t.status == s.status && t.energy == s.energy && t.temperature == s.temperature) &&
      (pass != Battery ==> t.batteryPower == s.batteryPower)
  {
    if |entries| > 0 {
      OtherPassesKeep(pass, s, entries[..|entries| - 1], show);
    }
  }

  lemma {:induction false} BatteryReading(s: InverterState, entries: seq<Entry>, show: JsNumber -> string)
    ensures RunPass(Battery, s, entries, show).batteryPower ==
      match LastValue(entries, {"P"}) case None => s.batteryPower case Some(v) => OrZero(v)
  {
    if |entries| > 0 {
      BatteryReading(s, entries[..|entries| - 1], show);
    }
  }

  lemma ReadModuleReadings(s: InverterState, m: Module, show: JsNumber -> string)
    ensures var t := ReadModule(s, m, show);
      var local := if m.moduleid == "devices:local" then m.processdata else [];
      var battery := if m.moduleid == "devices:local:battery" then m.processdata else [];
      t.status == (match LastValue(local, STATE_IDS)
        case None => s.status case Some(v) => MapInverterState(v, show)) &&
      t.energy == (match LastFinite(local, ENERGY_IDS)
        case None => s.energy case Some(x) => x / 1000.0) &&
      t.temperature == (match LastFinite(local, TEMPERATURE_IDS)
        case None => s.temperature case Some(x) => x) &&
      t.batteryPower == (match LastValue(battery, {"P"})
        case None => s.batteryPower case Some(v) => OrZero(v))
  {
    forall pass: Pass, t: InverterState
      ensures var u := Stage(pass, t, m, show);
        (pass != LocalValues ==> u.status == t.status && u.energy == t.energy && u.temperature == t.temperature) &&
        (pass != Battery ==> u.batteryPower == t.batteryPower)
    {
      OtherPassesKeep(pass, t, m.processdata, show);
    }
    if m.moduleid == "devices:local" {
      LocalValuesReadings(s, m.processdata, show);
    }
    if m.moduleid == "devices:local:battery" {
      BatteryReading(Stage(Powermeter, Stage(AcGrid, Stage(PvStrings, s, m, show), m, show), m, show),
        m.processdata, show);
    }
  }

  /** Status, energy, temperature and battery power are decided by the last matching
      entries: the status by the last `Inverter:State` of a `devices:local` module
      (`unknown` without one), the energy by the last parsable total energy over 1000
      (else 0), the temperature by the last parsable `Inverter:Temperature` (else 20),
      the battery power by the last `P` of a battery module (else 0). */
  lemma {:induction false} LastReadingsWin(modules: seq<Module>, show: JsNumber -> string)
    ensures var t := Extracted(modules, show);
      var local := EntriesOf(modules, "devices:local");
      var battery := EntriesOf(modules, "devices:local:battery");
      t.status == (match LastValue(local, STATE_IDS)
        case None => "unknown" case Some(v) => MapInverterState(v, show)) &&
      t.energy == (match LastFinite(local, ENERGY_IDS)
        case None => 0.0 case Some(x) => x / 1000.0) &&
      t.temperature == (match LastFinite(local, TEMPERATURE_IDS)
        case None => 20.0 case Some(x) => x) &&
      t.batteryPower == (match LastValue(battery, {"P"})
        case None => 0.0 case Some(v) => OrZero(v))
  {
    if |modules| > 0 {
      var prefix := modules[..|modules| - 1];
      var m := modules[|modules| - 1];
      var s := Extracted(prefix, show);
      assert Extracted(modules, show) == ReadModule(s, m, show);
      LastReadingsWin(prefix, show);
      ReadModuleReadings(s, m, show);
      var local := if m.moduleid == "devices:local" then m.processdata else [];
      var battery := if m.moduleid == "devices:local:battery" then m.processdata else [];
      assert EntriesOf(modules, "devices:local") == EntriesOf(prefix, "devices:local") + local;
      assert EntriesOf(modules, "devices:local:battery") == EntriesOf(prefix, "devices:local:battery") + battery;
      LastValueAppend(EntriesOf(prefix, "devices:local"), local, STATE_IDS);
      LastFiniteAppend(EntriesOf(prefix, "devices:local"), local, ENERGY_IDS);
      LastFiniteAppend(EntriesOf(prefix, "devices:local"), local, TEMPERATURE_IDS);
      LastValueAppend(EntriesOf(prefix, "devices:local:battery"), battery, {"P"});
    }
  }

  /** The status changes only through an `Inverter:State` entry of a `devices:local`
      module: without one it stays `unknown`, whatever else the answer holds. */
  lemma StatusNeedsLocalState(modules: seq<Module>, show: JsNumber -> string)
    requires forall i, j | 0 <= i < |modules| && 0 <= j < |modules[i].processdata| ::
      modules[i].moduleid == "devices:local" ==> modules[i].processdata[j].id != "Inverter:State"
    ensures Extracted(modules, show).status == "unknown"
  {
    LastReadingsWin(modules, show);
    NoLocalState(modules);
  }

  lemma {:induction false} NoLocalState(modules: seq<Module>)
    requires forall i, j | 0 <= i < |modules| && 0 <= j < |modules[i].processdata| ::
      modules[i].moduleid == "devices:local" ==> modules[i].processdata[j].id != "Inverter:State"
    ensures LastValue(EntriesOf(modules, "devices:local"), STATE_IDS).None?
  {
    if |modules| > 0 {
      var prefix := modules[..|modules| - 1];
      var m := modules[|modules| - 1];
      assert forall i | 0 <= i < |prefix| :: prefix[i] == modules[i];
      NoLocalState(prefix);
      var local := if m.moduleid == "devices:local" then m.processdata else [];
      LastValueAppend(EntriesOf(prefix, "devices:local"), local, STATE_IDS);
      assert forall k | 0 <= k < |local| :: local[k].id !in STATE_IDS by {
        forall k | 0 <= k < |local| ensures local[k].id !in STATE_IDS {
          assert local[k] == modules[|modules| - 1].processdata[k];
        }
      }
    }
  }

  /** An answer without modules gives the initial values. */
  lemma NoModules(show: JsNumber -> string)
    ensures var t := Extracted([], show);
      t.power == 0.0001 && t.energy == 0.0 && t.temperature == 20.0 && t.status == "unknown" &&
      t.batteryPower == 0.0 && t.homeConsumption == 0.0 && t.gridPower == 0.0
  {
  }

  // ---------------------------------------------------------------------------
  // Request headers

  /** A configured credential that JavaScript treats as set: present and non-empty. */
  predicate IsSet(credential: Option<string>)
  {
    credential.Some? && credential.value != ""
  }

  /** `getAuthHeaders`; `encode` is base64 as in section 4 of RFC 4648. */
  function GetAuthHeaders(username: Option<string>, password: Option<string>, encode: string -> string)
    : (headers: map<string, string>)
    ensures "Content-Type" in headers && headers["Content-Type"] == "application/json"
    ensures "Accept" in headers && headers["Accept"] == "application/json"
    ensures "Authorization" in headers <==> IsSet(username) && IsSet(password)
    ensures "Authorization" in headers ==>
      headers["Authorization"] == "Basic " + encode(username.value + ":" + password.value)
    ensures headers.Keys <= {"Content-Type", "Accept", "Authorization"}
  {
    var headers := map["Content-Type" := "application/json", "Accept" := "application/json"];
    if IsSet(username) && IsSet(password) then
      headers["Authorization" := "Basic " + encode(username.value + ":" + password.value)]
    else headers
  }

  // ---------------------------------------------------------------------------
  // Log throttle

  /** Fifteen minutes in milliseconds. */
  const LOG_INTERVAL: int := 15 * 60 * 1000

  /** The throttle state of the platform and the times of the detailed logs it wrote. */
  class LogThrottle {
    var lastLogTime: int
    var isFirstLog: bool
    /** The times of the detailed logs written so far. */
    var detailedLogs: seq<int>

    /** No detailed log before the first call; afterwards `lastLogTime` is the time of
        the latest one, and each detailed log came at least 15 minutes after the one
        before it. */
    predicate Valid()
      reads this
    {
      (isFirstLog <==> detailedLogs == []) &&
      (detailedLogs != [] ==> lastLogTime == detailedLogs[|detailedLogs| - 1]) &&
      forall k | 0 < k < |detailedLogs| :: detailedLogs[k] - detailedLogs[k - 1] >= LOG_INTERVAL
    }

    constructor ()
      ensures Valid() && detailedLogs == [] && lastLogTime == 0
    {
      lastLogTime := 0;
      isFirstLog := true;
      detailedLogs := [];
    }

    /** The throttle of `logCurrentData` at the clock reading `now`: whether the
        detailed log is written this time. */
    method LogCurrentData(now: int) returns (detailed: bool)
      requires Valid()
      modifies this
      ensures Valid()
      ensures detailed <==> old(isFirstLog) || now - old(lastLogTime) >= LOG_INTERVAL
      ensures detailed ==> detailedLogs == old(detailedLogs) + [now] && lastLogTime == now && !isFirstLog
      ensures !detailed ==> detailedLogs == old(detailedLogs) && lastLogTime == old(lastLogTime) && isFirstLog == old(isFirstLog)
    {
      detailed := isFirstLog || now - lastLogTime >= LOG_INTERVAL;
      if detailed {
        lastLogTime := now;
        isFirstLog := false;
        detailedLogs := detailedLogs + [now];
      }
    }
  }
}
