/** The MQTT side of ahoy-dtu-platform.ts: topic and value parsing, the per-device
    records, the offline check and the one-accessory-per-device table. The broker
    connection, the timers and the HomeKit services are left out: a message arrives
    as a call, the interval bodies are methods given the current time, and the calls
    into the accessories' `updateData` are recorded as a log. */
module AhoyDtu {
  import opened Sequences
  import opened Text
  import JsMath

  /** The topic prefix of the AHOY-DTU firmware. */
  const PREFIX: string := "AHOY-DTU_"

  /** `topic.match(/^AHOY-DTU_([^\/]+)/)`: the text after the prefix up to the next
      slash, when it is not empty. */
  function ExtractDeviceId(topic: string): (id: Option<string>)
    ensures id.Some? <==> |topic| > |PREFIX| && topic[..|PREFIX|] == PREFIX && topic[|PREFIX|] != '/'
    ensures id.Some? ==> |id.value| > 0 && '/' !in id.value
  {
    if |topic| > |PREFIX| && topic[..|PREFIX|] == PREFIX then
      var rest := topic[|PREFIX|..];
      var n := IndexOf(rest, '/');
      if n == 0 then None else Some(rest[..n])
    else None
  }

  /** The device id is the whole slash-free run after the prefix: a topic made of the
      prefix, a non-empty slash-free id and a tail that is empty or starts with a slash
      yields exactly that id, and every topic with an id has that shape. */
  lemma DeviceIdOfTopic(id: string, tail: string)
    requires |id| > 0 && '/' !in id
    requires tail == "" || tail[0] == '/'
    ensures ExtractDeviceId(PREFIX + id + tail) == Some(id)
  {
    var topic := PREFIX + id + tail;
    assert topic[..|PREFIX|] == PREFIX;
    assert topic[|PREFIX|..] == id + tail;
    if tail == "" {
      assert id + tail == id;
    } else {
      IndexAfterFree(id, tail, '/');
    }
    assert (id + tail)[..|id|] == id;
  }

  lemma DeviceIdShape(topic: string)
    requires ExtractDeviceId(topic).Some?
    ensures var id := ExtractDeviceId(topic).value;
      exists tail :: topic == PREFIX + id + tail && (tail == "" || tail[0] == '/')
  {
    var rest := topic[|PREFIX|..];
    var n := IndexOf(rest, '/');
    var tail := rest[n..];
    assert topic == PREFIX + rest[..n] + tail;
  }

  /** `topic.split('/')[1]` when there is a second piece. */
  function ExtractParameter(topic: string): (p: Option<string>)
  {
    var parts := Split(topic, '/');
    if |parts| > 1 then Some(parts[1]) else None
  }

  /** There is a parameter exactly when the topic has a slash; it is the slash-free
      text after the first slash, up to the second one. */
  lemma ParameterExists(topic: string)
    ensures ExtractParameter(topic).Some? <==> '/' in topic
    ensures ExtractParameter(topic).Some? ==> '/' !in ExtractParameter(topic).value
  {
    SplitPieces(topic, '/');
    if '/' !in topic {
      CountAbsent(topic, '/');
    } else {
      var i := IndexOf(topic, '/');
      assert topic == topic[..i] + [topic[i]] + topic[i + 1..];
      CountAppend(topic[..i] + [topic[i]], topic[i + 1..], '/');
      CountAppend(topic[..i], [topic[i]], '/');
      assert Count([topic[i]], '/') == 1 by { assert [topic[i]][1..] == []; }
    }
  }

  lemma ParameterOfTopic(head: string, p: string, tail: string)
    requires '/' !in head && '/' !in p
    requires tail == "" || tail[0] == '/'
    ensures ExtractParameter(head + "/" + p + tail) == Some(p)
  {
    var rest := p + tail;
    assert head + "/" + p + tail == head + ("/" + rest);
    IndexAfterFree(head, "/" + rest, '/');
    assert (head + ("/" + rest))[|head| + 1..] == rest;
    assert (head + ("/" + rest))[..|head|] == head;
    assert Split(head + ("/" + rest), '/') == [head] + Split(rest, '/');
    if tail == "" {
      assert rest == p;
      assert IndexOf(p, '/') == |p|;
      assert Split(rest, '/') == [p];
    } else {
      IndexAfterFree(p, tail, '/');
      assert rest[..|p|] == p;
    }
  }

  /** A device topic such as `AHOY-DTU_TOTAL/power` names device TOTAL and parameter
      power. */
  lemma TotalPowerTopic()
    ensures ExtractDeviceId("AHOY-DTU_TOTAL/power") == Some("TOTAL")
    ensures ExtractParameter("AHOY-DTU_TOTAL/power") == Some("power")
  {
    TotalPowerText();
    assert ExtractDeviceId("AHOY-DTU_TOTAL/power") == Some("TOTAL") by {
      DeviceIdOfTopic("TOTAL", "/power");
    }
    assert ExtractParameter("AHOY-DTU_TOTAL/power") == Some("power") by {
      ParameterOfTopic("AHOY-DTU_TOTAL", "power", "");
    }
  }

  lemma TotalPowerText()
    ensures PREFIX + "TOTAL" + "/power" == "AHOY-DTU_TOTAL/power"
    ensures "AHOY-DTU_TOTAL" + "/" + "power" + "" == "AHOY-DTU_TOTAL/power"
    ensures '/' !in "AHOY-DTU_TOTAL" && '/' !in "power" && '/' !in "TOTAL"
  {
  }

  // ---------------------------------------------------------------------------
  // Values

  /** A value kept in a device record: a parsed number, a flag, a text, or the
      `Date` of the last update. */
  datatype Value = Num(x: real) | Flag(b: bool) | Str(s: string) | Time(t: int)

  /** The text after an optional leading minus. */
  function Unsigned(s: string): string
  {
    if |s| > 0 && s[0] == '-' then s[1..] else s
  }

  /** `/^-?\d+\.?\d*$/`: an optional minus, at least one digit, then optionally a
      point followed by any number of digits. */
  predicate IsNumeric(s: string)
  {
    var body := Unsigned(s);
    var n := DigitRun(body);
    n >= 1 && (n == |body| || (body[n] == '.' && AllDigits(body[n + 1..])))
  }

  /** `parseFloat` of a numeric text. */
  function NumericValue(s: string): real
    requires IsNumeric(s)
  {
    var body := Unsigned(s);
    var n := DigitRun(body);
    var fraction := if n == |body| then "" else body[n + 1..];
    var magnitude := DigitsValue(body[..n]) as real + DigitsValue(fraction) as real / JsMath.Pow10(|fraction|);
    if |s| > 0 && s[0] == '-' then -magnitude else magnitude
  }

  /** `parseValue`. */
  function ParseValue(value: string): Value
  {
    if IsNumeric(value) then Num(NumericValue(value))
    else if value == "1" || value == "true" then Flag(true)
    else if value == "0" || value == "false" then Flag(false)
    else Str(value)
  }

  /** Numbers win over flags: "1" and "0" are numbers, only "true" and "false" are
      flags, and whatever is neither numeric nor a flag word stays text. */
  lemma ParseValueKinds(value: string)
    ensures ParseValue(value).Num? <==> IsNumeric(value)
    ensures ParseValue(value) == Flag(true) <==> value == "true"
    ensures ParseValue(value) == Flag(false) <==> value == "false"
    ensures ParseValue(value) == Str(value) <==> !IsNumeric(value) && value != "true" && value != "false"
    ensures !ParseValue(value).Time?
  {
    if value == "1" || value == "0" {
      assert DigitRun(value) == 1;
    }
    if value == "true" || value == "false" {
      assert DigitRun(Unsigned(value)) == 0;
    }
  }

  lemma OneAndZeroAreNumbers()
    ensures ParseValue("1") == Num(1.0) && ParseValue("0") == Num(0.0)
  {
    assert DigitRun("1") == 1 && DigitRun("0") == 1;
    assert "1"[..1] == "1" && "0"[..1] == "0";
    assert DigitsValue("1") == 1 by { assert "1"[..0] == ""; }
    assert DigitsValue("0") == 0 by { assert "0"[..0] == ""; }
  }

  lemma DigitRunAll(s: string)
    requires AllDigits(s)
    ensures DigitRun(s) == |s|
  {
  }

  /** The decimal text of a whole number, with or without a minus, parses back to it. */
  lemma ParseDecimal(n: nat)
    ensures ParseValue(NatToDecimal(n)) == Num(n as real)
    ensures ParseValue("-" + NatToDecimal(n)) == Num(-(n as real))
  {
    var d := NatToDecimal(n);
    NatToDecimalValue(n);
    DigitRunAll(d);
    assert d[..|d|] == d;
    assert Unsigned(d) == d;
    assert Unsigned("-" + d) == d;
    assert IsNumeric(d) && IsNumeric("-" + d);
  }

  // ---------------------------------------------------------------------------
  // Device records

  /** A device record: the last value of every parameter, plus `lastUpdate` and
      `online`, all as properties of one object. */
  type Record = map<string, Value>

  /** The record after a message: the parameter's value, then the update time, then
      the online flag, each written over what was there. */
  function Recorded(rec: Record, parameter: string, value: Value, now: int): Record
  {
    rec[parameter := value]["lastUpdate" := Time(now)]["online" := Flag(true)]
  }

  /** After a message the device is online and updated now, holds the new value of
      the parameter (unless the parameter is one of those two names), and keeps every
      other property. */
  lemma RecordedFields(rec: Record, parameter: string, value: Value, now: int)
    ensures var r := Recorded(rec, parameter, value, now);
      r.Keys == rec.Keys + {parameter, "lastUpdate", "online"} &&
      r["online"] == Flag(true) && r["lastUpdate"] == Time(now) &&
      (parameter != "lastUpdate" && parameter != "online" ==> r[parameter] == value) &&
      (forall k | k in rec && k != parameter && k != "lastUpdate" && k != "online" :: r[k] == rec[k])
  {
  }

  /** The offline check's test: the last update lies before the cut-off. */
  predicate IsStale(rec: Record, cutoff: int)
  {
    "lastUpdate" in rec && rec["lastUpdate"].Time? && rec["lastUpdate"].t < cutoff
  }

  /** The record after the offline check. */
  function MarkOffline(rec: Record, cutoff: int): Record
  {
    if IsStale(rec, cutoff) then rec["online" := Flag(false)] else rec
  }

  /** `offlineThresholdMinutes || 5`: an absent or zero setting means five minutes. */
  function ThresholdMinutes(configured: Option<int>): (m: int)
    ensures m == 5 <==> configured.None? || configured.value == 0 || configured.value == 5
    ensures configured.Some? && configured.value != 0 ==> m == configured.value
  {
    if configured.None? || configured.value == 0 then 5 else configured.value
  }

  /** The cut-off of the offline check at time `now`. */
  function OfflineCutoff(configured: Option<int>, now: int): int
  {
    now - ThresholdMinutes(configured) * 60000
  }

  // ---------------------------------------------------------------------------
  // Accessories

  /** A platform accessory: its name, the device id in its context, and whether its
      context holds an accessory handler (only accessories restored from the cache do). */
  datatype Accessory = Accessory(displayName: string, deviceId: string, hasHandler: bool)

  /** A call of `updateData` on the handler of accessory `index`. */
  datatype Update = Update(index: nat, data: Record)

  /** The display name given to a created accessory. */
  function AccessoryName(deviceId: string): string
  {
    if deviceId == "TOTAL" then "AHOY-DTU Gesamt" else "AHOY-DTU " + deviceId
  }

  lemma PrefixCancel(p: string, a: string, b: string)
    ensures p + a == p + b ==> a == b
  {
    if p + a == p + b {
      assert (p + a)[|p|..] == a && (p + b)[|p|..] == b;
    }
  }

  /** Names tell devices apart, except that TOTAL and a device called Gesamt share one. */
  lemma AccessoryNames(a: string, b: string)
    ensures AccessoryName("TOTAL") == AccessoryName("Gesamt")
    ensures a != b && AccessoryName(a) == AccessoryName(b) ==>
      (a == "TOTAL" && b == "Gesamt") || (a == "Gesamt" && b == "TOTAL")
  {
    assert "AHOY-DTU Gesamt" == "AHOY-DTU " + "Gesamt";
    PrefixCancel("AHOY-DTU ", a, b);
    PrefixCancel("AHOY-DTU ", "Gesamt", a);
    PrefixCancel("AHOY-DTU ", "Gesamt", b);
  }

  /** `accessories.find(acc => acc.context.deviceId === deviceId)`, as an index. */
  function FindAccessory(accessories: seq<Accessory>, deviceId: string): (k: Option<nat>)
    ensures k.None? <==> forall j | 0 <= j < |accessories| :: accessories[j].deviceId != deviceId
    ensures k.Some? ==> (k.value < |accessories| && accessories[k.value].deviceId == deviceId &&
      forall j | 0 <= j < k.value :: accessories[j].deviceId != deviceId)
  {
    if |accessories| == 0 then None
    else if accessories[0].deviceId == deviceId then Some(0)
    else
      var k := FindAccessory(accessories[1..], deviceId);
      if k.None? then None else Some(k.value + 1)
  }

  /** The `updateData` calls of `updateAccessory`: one, to the first accessory of the
      device, when that accessory has a handler. */
  function UpdateAccessory(accessories: seq<Accessory>, deviceId: string, data: Record): (us: seq<Update>)
    ensures |us| <= 1
    ensures |us| == 1 <==> exists k | 0 <= k < |accessories| ::
      accessories[k].deviceId == deviceId && accessories[k].hasHandler &&
      forall j | 0 <= j < k :: accessories[j].deviceId != deviceId
    ensures |us| == 1 ==> (us[0].index < |accessories| && accessories[us[0].index].hasHandler &&
      accessories[us[0].index].deviceId == deviceId && us[0].data == data)
  {
    var k := FindAccessory(accessories, deviceId);
    if k.Some? && accessories[k.value].hasHandler then [Update(k.value, data)] else []
  }

  /** The device ids of the discovered topics, each once, in discovery order. */
  function DiscoveredIds(topics: seq<string>): (ids: seq<string>)
  {
    if |topics| == 0 then []
    else
      var ids := DiscoveredIds(topics[..|topics| - 1]);
      var id := ExtractDeviceId(topics[|topics| - 1]);
      if id.Some? && id.value !in ids then ids + [id.value] else ids
  }

  lemma DiscoveredIdsSnoc(topics: seq<string>, t: nat)
    requires t < |topics|
    ensures var ids := DiscoveredIds(topics[..t]); var id := ExtractDeviceId(topics[t]);
      DiscoveredIds(topics[..t + 1]) == if id.Some? && id.value !in ids then ids + [id.value] else ids
  {
    assert topics[..t + 1][..t] == topics[..t];
  }

  /** Every id is listed once, and exactly the ids some topic names are listed. */
  lemma DiscoveredIdsMeaning(topics: seq<string>)
    ensures Distinct(DiscoveredIds(topics))
    ensures forall id :: id in DiscoveredIds(topics) <==>
      exists k | 0 <= k < |topics| :: ExtractDeviceId(topics[k]) == Some(id)
  {
    DiscoveredIdsDistinct(topics);
    DiscoveredIdsMembers(topics);
  }

  lemma {:induction false} DiscoveredIdsDistinct(topics: seq<string>)
    ensures Distinct(DiscoveredIds(topics))
  {
    if |topics| > 0 {
      var t := |topics| - 1;
      DiscoveredIdsDistinct(topics[..t]);
      DiscoveredIdsSnoc(topics, t);
      assert topics[..t + 1] == topics;
      var ids := DiscoveredIds(topics[..t]);
      var id := ExtractDeviceId(topics[t]);
      if id.Some? && id.value !in ids {
        DistinctSnoc(ids, id.value);
      }
    }
  }

  /** Some topic names the id. */
  predicate Named(topics: seq<string>, id: string)
  {
    exists k | 0 <= k < |topics| :: ExtractDeviceId(topics[k]) == Some(id)
  }

  lemma NamedSnoc(topics: seq<string>, id: string)
    requires |topics| > 0
    ensures Named(topics, id) <==>
      Named(topics[..|topics| - 1], id) || ExtractDeviceId(topics[|topics| - 1]) == Some(id)
  {
    var prefix := topics[..|topics| - 1];
    if Named(prefix, id) {
      var k :| 0 <= k < |prefix| && ExtractDeviceId(prefix[k]) == Some(id);
      assert topics[k] == prefix[k];
    }
    if Named(topics, id) {
      var k :| 0 <= k < |topics| && ExtractDeviceId(topics[k]) == Some(id);
      if k < |prefix| {
        assert prefix[k] == topics[k];
      }
    }
  }

  lemma {:induction false} DiscoveredIdsMembers(topics: seq<string>)
    ensures forall id :: id in DiscoveredIds(topics) <==> Named(topics, id)
  {
    if |topics| > 0 {
      var prefix := topics[..|topics| - 1];
      DiscoveredIdsMembers(prefix);
      forall id ensures id in DiscoveredIds(topics) <==> Named(topics, id) {
        NamedSnoc(topics, id);
      }
    }
  }

  predicate Distinct<T(==)>(xs: seq<T>)
  {
    forall i, j | 0 <= i < j < |xs| :: xs[i] != xs[j]
  }

  lemma DistinctSnoc<T>(xs: seq<T>, x: T)
    requires Distinct(xs) && x !in xs
    ensures Distinct(xs + [x])
  {
  }

  /** The accessory `createAccessory` makes for a device: no handler in its context. */
  function NewAccessory(deviceId: string): Accessory
  {
    Accessory(AccessoryName(deviceId), deviceId, false)
  }

  /** The accessories after creating one for every listed id that has none yet. */
  function Created(accessories: seq<Accessory>, ids: seq<string>): seq<Accessory>
  {
    if |ids| == 0 then accessories
    else
      var before := Created(accessories, ids[..|ids| - 1]);
      var id := ids[|ids| - 1];
      if FindAccessory(before, id).None? then before + [NewAccessory(id)] else before
  }

  lemma CreatedSnoc(accessories: seq<Accessory>, ids: seq<string>, i: nat)
    requires i < |ids|
    ensures var before := Created(accessories, ids[..i]);
      Created(accessories, ids[..i + 1]) ==
        if FindAccessory(before, ids[i]).None? then before + [NewAccessory(ids[i])] else before
  {
    assert ids[..i + 1][..i] == ids[..i];
  }

  /** Creation only appends accessories without a handler, and afterwards every listed
      id has an accessory. */
  lemma {:induction false} CreatedCovers(accessories: seq<Accessory>, ids: seq<string>)
    ensures var after := Created(accessories, ids);
      |after| >= |accessories| && after[..|accessories|] == accessories &&
      (forall j | |accessories| <= j < |after| :: !after[j].hasHandler && after[j].displayName == AccessoryName(after[j].deviceId)) &&
      (forall id | id in ids :: FindAccessory(after, id).Some?)
  {
    if |ids| > 0 {
      var prefix := ids[..|ids| - 1];
      CreatedCovers(accessories, prefix);
      var before := Created(accessories, prefix);
      var after := Created(accessories, ids);
      forall id | id in ids ensures FindAccessory(after, id).Some? {
        if id in prefix {
          var k := FindAccessory(before, id).value;
          assert after[k] == before[k];
        } else {
          assert id == ids[|ids| - 1];
          if FindAccessory(before, id).Some? {
          } else {
            assert after[|before|].deviceId == id;
          }
        }
      }
    }
  }

  /** Creating again for ids that all have an accessory creates nothing. */
  lemma {:induction false} CreatedNothingNew(accessories: seq<Accessory>, ids: seq<string>)
    requires forall id | id in ids :: FindAccessory(accessories, id).Some?
    ensures Created(accessories, ids) == accessories
  {
    if |ids| > 0 {
      CreatedNothingNew(accessories, ids[..|ids| - 1]);
    }
  }

  /** A second run of the discovery creates no accessory. */
  lemma CreatedTwice(accessories: seq<Accessory>, ids: seq<string>)
    ensures Created(Created(accessories, ids), ids) == Created(accessories, ids)
  {
    CreatedCovers(accessories, ids);
    CreatedNothingNew(Created(accessories, ids), ids);
  }

  /** The record of each listed device after the offline check, in list order. */
  function OfflineData(data: map<string, Record>, ids: seq<string>, cutoff: int): map<string, Record>
  {
    if |ids| == 0 then data
    else
      var before := OfflineData(data, ids[..|ids| - 1], cutoff);
      var id := ids[|ids| - 1];
      if id in before then before[id := MarkOffline(before[id], cutoff)] else before
  }

  /** The `updateData` calls of the offline check, in list order. */
  function OfflineUpdates(accessories: seq<Accessory>, data: map<string, Record>, ids: seq<string>, cutoff: int): seq<Update>
  {
    if |ids| == 0 then []
    else
      var before := OfflineUpdates(accessories, data, ids[..|ids| - 1], cutoff);
      var id := ids[|ids| - 1];
      if id in data && IsStale(data[id], cutoff)
      then before + UpdateAccessory(accessories, id, MarkOffline(data[id], cutoff))
      else before
  }

  /** With every device listed once, the check marks exactly the stale devices
      offline and leaves every other record as it was. */
  lemma {:induction false} OfflineDataMeaning(data: map<string, Record>, ids: seq<string>, cutoff: int)
    requires Distinct(ids)
    ensures OfflineData(data, ids, cutoff).Keys == data.Keys
    ensures forall id | id in data ::
      OfflineData(data, ids, cutoff)[id] == (if id in ids then MarkOffline(data[id], cutoff) else data[id])
  {
    if |ids| > 0 {
      var prefix := ids[..|ids| - 1];
      assert Distinct(prefix);
      OfflineDataMeaning(data, prefix, cutoff);
      assert ids[|ids| - 1] !in prefix;
      assert forall id | id in ids :: id in prefix || id == ids[|ids| - 1];
    }
  }

  /** A device not yet listed still has its original record. */
  lemma {:induction false} OfflineUntouched(data: map<string, Record>, ids: seq<string>, cutoff: int, id: string)
    requires id !in ids
    ensures id in OfflineData(data, ids, cutoff) <==> id in data
    ensures id in data ==> OfflineData(data, ids, cutoff)[id] == data[id]
  {
    if |ids| > 0 {
      OfflineUntouched(data, ids[..|ids| - 1], cutoff, id);
    }
  }

  /** One step of the offline check over a list of distinct devices. */
  lemma OfflineStep(accessories: seq<Accessory>, data: map<string, Record>, ids: seq<string>, i: nat, cutoff: int)
    requires i < |ids| && Distinct(ids) && ids[i] in data
    ensures var before := OfflineData(data, ids[..i], cutoff); var id := ids[i];
      id in before && before[id] == data[id] &&
      OfflineData(data, ids[..i + 1], cutoff) ==
        (if IsStale(data[id], cutoff) then before[id := data[id]["online" := Flag(false)]] else before) &&
      OfflineUpdates(accessories, data, ids[..i + 1], cutoff) ==
        OfflineUpdates(accessories, data, ids[..i], cutoff) +
        (if IsStale(data[id], cutoff) then UpdateAccessory(accessories, id, data[id]["online" := Flag(false)]) else [])
  {
    assert ids[..i + 1][..i] == ids[..i];
    assert ids[i] !in ids[..i];
    OfflineUntouched(data, ids[..i], cutoff, ids[i]);
    var before := OfflineData(data, ids[..i], cutoff);
    if !IsStale(data[ids[i]], cutoff) {
      assert before[ids[i] := before[ids[i]]] == before;
    }
  }

  lemma MarkOfflineMeaning(rec: Record, cutoff: int)
    ensures var r := MarkOffline(rec, cutoff);
      r.Keys == rec.Keys + (if IsStale(rec, cutoff) then {"online"} else {}) &&
      (IsStale(rec, cutoff) ==> r["online"] == Flag(false)) &&
      (forall k | k in rec && k != "online" :: r[k] == rec[k]) &&
      (!IsStale(rec, cutoff) ==> r == rec)
  {
  }

  // ---------------------------------------------------------------------------
  // The platform

  class AhoyDtuPlatform {
    /** `config.offlineThresholdMinutes`. */
    const offlineThreshold: Option<int>
    var accessories: seq<Accessory>
    /** `deviceData`, with its keys in insertion order in `devices`. */
    var deviceData: map<string, Record>
    var devices: seq<string>
    /** `discoveredTopics`, in insertion order. */
    var discoveredTopics: seq<string>
    /** The `updateData` calls made so far. */
    var updates: seq<Update>

    ghost predicate Valid()
      reads this
    {
      Distinct(devices) && (forall d :: d in deviceData <==> d in devices) && Distinct(discoveredTopics)
    }

    constructor(offlineThreshold: Option<int>)
      ensures Valid()
      ensures this.offlineThreshold == offlineThreshold
      ensures accessories == [] && deviceData == map[] && devices == [] && discoveredTopics == [] && updates == []
    {
      this.offlineThreshold := offlineThreshold;
      accessories := [];
      deviceData := map[];
      devices := [];
      discoveredTopics := [];
      updates := [];
    }

    /** The message updates a device when the topic names a device and a non-empty
        parameter. */
    static predicate Handles(topic: string)
    {
      ExtractDeviceId(topic).Some? && ExtractParameter(topic).Some? && ExtractParameter(topic).value != ""
    }

    /** `handleMqttMessage` at time `now`. */
    method HandleMqttMessage(topic: string, message: string, now: int)
      requires Valid()
      modifies this
      ensures Valid()
      ensures discoveredTopics == if topic in old(discoveredTopics) then old(discoveredTopics) else old(discoveredTopics) + [topic]
      ensures accessories == old(accessories)
      ensures !Handles(topic) ==>
        deviceData == old(deviceData) && devices == old(devices) && updates == old(updates)
      ensures Handles(topic) ==>
        var id := ExtractDeviceId(topic).value;
        var rec := Recorded(if id in old(deviceData) then old(deviceData)[id] else map[],
                            ExtractParameter(topic).value, ParseValue(message), now);
        deviceData == old(deviceData)[id := rec] &&
        devices == (if id in old(devices) then old(devices) else old(devices) + [id]) &&
        updates == old(updates) + UpdateAccessory(accessories, id, rec)
    {
      if topic !in discoveredTopics {
        DistinctSnoc(discoveredTopics, topic);
        discoveredTopics := discoveredTopics + [topic];
      }
      var deviceId := ExtractDeviceId(topic);
      var parameter := ExtractParameter(topic);
      if deviceId.Some? && parameter.Some? && parameter.value != "" {
        var id := deviceId.value;
        var current: Record := map[];
        if id in deviceData {
          current := deviceData[id];
        } else {
          DistinctSnoc(devices, id);
          devices := devices + [id];
        }
        var rec := Recorded(current, parameter.value, ParseValue(message), now);
        deviceData := deviceData[id := rec];
        updates := updates + UpdateAccessory(accessories, id, rec);
      }
    }

    /** The body of the offline check's interval at time `now`. */
    method CheckOffline(now: int)
      requires Valid()
      modifies this
      ensures Valid()
      ensures var cutoff := OfflineCutoff(offlineThreshold, now);
        deviceData == OfflineData(old(deviceData), devices, cutoff) &&
        updates == old(updates) + OfflineUpdates(accessories, old(deviceData), devices, cutoff)
      ensures devices == old(devices) && accessories == old(accessories) && discoveredTopics == old(discoveredTopics)
    {
      var cutoff := OfflineCutoff(offlineThreshold, now);
      ghost var data := deviceData;
      ghost var log := updates;
      assert forall d :: d in data <==> d in devices;
      var i := 0;
      while i < |devices|
        invariant 0 <= i <= |devices|
        invariant deviceData == OfflineData(data, devices[..i], cutoff)
        invariant updates == log + OfflineUpdates(accessories, data, devices[..i], cutoff)
        invariant forall d :: d in deviceData <==> d in devices
        invariant devices == old(devices) && accessories == old(accessories)
        invariant discoveredTopics == old(discoveredTopics)
      {
        var id := devices[i];
        assert id in data;
        OfflineStep(accessories, data, devices, i, cutoff);
        if IsStale(deviceData[id], cutoff) {
          var rec := deviceData[id]["online" := Flag(false)];
          deviceData := deviceData[id := rec];
          ghost var done := OfflineUpdates(accessories, data, devices[..i], cutoff);
          var call := UpdateAccessory(accessories, id, rec);
          assert log + (done + call) == (log + done) + call;
          updates := updates + call;
        }
        i := i + 1;
      }
      assert devices[..i] == devices;
    }

    /** `createAccessoriesFromDiscoveredTopics`. */
    method CreateAccessoriesFromDiscoveredTopics()
      requires Valid()
      modifies this
      ensures Valid()
      ensures accessories == Created(old(accessories), DiscoveredIds(discoveredTopics))
      ensures deviceData == old(deviceData) && devices == old(devices) &&
        discoveredTopics == old(discoveredTopics) && updates == old(updates)
    {
      var ids: seq<string> := [];
      var t := 0;
      while t < |discoveredTopics|
        invariant 0 <= t <= |discoveredTopics|
        invariant ids == DiscoveredIds(discoveredTopics[..t])
        invariant unchanged(this)
      {
        DiscoveredIdsSnoc(discoveredTopics, t);
        var id := ExtractDeviceId(discoveredTopics[t]);
        if id.Some? && id.value !in ids {
          ids := ids + [id.value];
        }
        t := t + 1;
      }
      assert discoveredTopics[..t] == discoveredTopics;
      ghost var start := accessories;
      var i := 0;
      while i < |ids|
        invariant 0 <= i <= |ids|
        invariant accessories == Created(start, ids[..i])
        invariant deviceData == old(deviceData) && devices == old(devices)
        invariant discoveredTopics == old(discoveredTopics) && updates == old(updates)
      {
        CreatedSnoc(start, ids, i);
        if FindAccessory(accessories, ids[i]).None? {
          accessories := accessories + [NewAccessory(ids[i])];
        }
        i := i + 1;
      }
      assert ids[..i] == ids;
    }

    /** `configureAccessory`: an accessory restored from the cache, given a handler. */
    method ConfigureAccessory(displayName: string, deviceId: string)
      modifies this
      ensures accessories == old(accessories) + [Accessory(displayName, deviceId, true)]
      ensures deviceData == old(deviceData) && devices == old(devices) &&
        discoveredTopics == old(discoveredTopics) && updates == old(updates)
    {
      accessories := accessories + [Accessory(displayName, deviceId, true)];
    }
  }
}
