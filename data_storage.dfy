/** The rolling time-series store of src/data-storage-manager.ts: per-sensor series
    with a sampling throttle, retention pruning, relative-change compression and
    window statistics. The wall clock is the explicit parameter `now` (milliseconds);
    configured durations are reals, so that fractional hours and minutes compare as
    in JavaScript. */
module DataStorage {
  import opened Sequences
  import JsMath

  datatype DataPoint = DataPoint(timestamp: int, value: real, sensorType: string)

  datatype StorageConfig = StorageConfig(
    enabled: bool,
    retentionHours: real,
    samplingInterval: real,   // minutes
    compressionEnabled: bool)

  datatype Statistics = Statistics(count: nat, min: real, max: real, avg: real, latest: real)

  // ---------------------------------------------------------------------------
  // Window filter

  /** `points.filter(p => p.timestamp > cutoff)`. */
  function After(points: seq<DataPoint>, cutoff: real): seq<DataPoint>
  {
    if |points| == 0 then []
    else if points[|points| - 1].timestamp as real > cutoff then
      After(points[..|points| - 1], cutoff) + [points[|points| - 1]]
    else After(points[..|points| - 1], cutoff)
  }

  /** The window holds exactly the points later than the cutoff, in stored order. */
  lemma {:induction false} AfterExactly(points: seq<DataPoint>, cutoff: real)
    ensures IsSubsequence(After(points, cutoff), points)
    ensures forall p | p in After(points, cutoff) :: p.timestamp as real > cutoff
    ensures forall p | p in points && p.timestamp as real > cutoff :: p in After(points, cutoff)
  {
    if |points| > 0 {
      var init := points[..|points| - 1];
      var x := points[|points| - 1];
      AfterExactly(init, cutoff);
      assert points == init + [x];
      if x.timestamp as real > cutoff {
        SubsequenceSnoc(After(init, cutoff), init, x);
      } else {
        SubsequenceExtend(After(init, cutoff), init, x);
      }
    }
  }

  // ---------------------------------------------------------------------------
  // Compression

  /** `|cur - prev| / |prev| > 0.01` with JavaScript's division: for prev = 0 the
      quotient is Infinity when cur differs and NaN (never greater) when it does not. */
  predicate Significant(prev: real, cur: real)
  {
    var diff := if cur - prev >= 0.0 then cur - prev else prev - cur;
    var base := if prev >= 0.0 then prev else -prev;
    if base == 0.0 then diff != 0.0 else diff / base > 0.01
  }

  /** One rule covers both cases: a change is significant exactly when it exceeds 1%
      of the previous value's magnitude, so after a zero any non-zero value counts. */
  lemma SignificantMeaning(prev: real, cur: real)
    ensures Significant(prev, cur) <==> Abs(cur - prev) > 0.01 * Abs(prev)
  {
    var diff := Abs(cur - prev);
    var base := Abs(prev);
    if base != 0.0 {
      var q := diff / base;
      assert diff == q * base;
      var d := q - 0.01;
      assert diff - 0.01 * base == d * base;
      if d > 0.0 {
        assert d * base > 0.0;
      } else {
        assert d * base <= 0.0;
      }
    }
  }

  /** The compressed list after the loop has visited the first n points. */
  function CompressPrefix(points: seq<DataPoint>, n: nat): seq<DataPoint>
    requires n <= |points|
  {
    if n == 0 then []
    else
      var c := CompressPrefix(points, n - 1);
      var current := points[n - 1];
      if |c| == 0 then [current]
      else if Significant(c[|c| - 1].value, current.value) || n - 1 == |points| - 1 then c + [current]
      else c
  }

  /** `compressData` on a series: unchanged below 10 points, else the points that
      change significantly against the last kept one, plus the first and the last. */
  function Compressed(points: seq<DataPoint>): seq<DataPoint>
  {
    if |points| < 10 then points else CompressPrefix(points, |points|)
  }

  /** The compression loop. */
  method Compress(points: seq<DataPoint>) returns (compressed: seq<DataPoint>)
    ensures compressed == CompressPrefix(points, |points|)
  {
    compressed := [];
    var i := 0;
    while i < |points|
      invariant 0 <= i <= |points|
      invariant compressed == CompressPrefix(points, i)
    {
      var current := points[i];
      if |compressed| == 0 {
        compressed := compressed + [current];
      } else {
        var previous := compressed[|compressed| - 1];
        if Significant(previous.value, current.value) || i == |points| - 1 {
          compressed := compressed + [current];
        }
      }
      i := i + 1;
    }
  }

  /** The compressed prefix keeps points in order, starts with the first point, and
      consecutive kept points differ significantly until the last point is visited. */
  lemma CompressPrefixShape(points: seq<DataPoint>, n: nat)
    requires n <= |points|
    ensures var c := CompressPrefix(points, n);
      IsSubsequence(c, points[..n]) &&
      (n > 0 ==> |c| > 0 && c[0] == points[0]) &&
      (n < |points| ==> forall j | 0 < j < |c| :: Significant(c[j - 1].value, c[j].value)) &&
      (forall j | 0 < j < |c| - 1 :: Significant(c[j - 1].value, c[j].value))
  {
    CompressPrefixOrdered(points, n);
    CompressPrefixHead(points, n);
    CompressPrefixSignificant(points, n);
    var c := CompressPrefix(points, n);
    assert forall j | 0 < j < |c| - 1 :: Significant(c[j - 1].value, c[j].value) by {
      if |c| > 0 {
        assert ChainUpTo(c, |c| - 1);
      }
    }
  }

  lemma {:induction false} CompressPrefixOrdered(points: seq<DataPoint>, n: nat)
    requires n <= |points|
    ensures IsSubsequence(CompressPrefix(points, n), points[..n])
  {
    if n > 0 {
      var c := CompressPrefix(points, n - 1);
      CompressPrefixOrdered(points, n - 1);
      assert points[..n] == points[..n - 1] + [points[n - 1]];
      if CompressPrefix(points, n) == c + [points[n - 1]] {
        SubsequenceSnoc(c, points[..n - 1], points[n - 1]);
      } else {
        SubsequenceExtend(c, points[..n - 1], points[n - 1]);
      }
    }
  }

  lemma {:induction false} CompressPrefixHead(points: seq<DataPoint>, n: nat)
    requires n <= |points|
    ensures n > 0 ==> |CompressPrefix(points, n)| > 0 && CompressPrefix(points, n)[0] == points[0]
  {
    if n > 1 {
      CompressPrefixHead(points, n - 1);
      var c := CompressPrefix(points, n - 1);
      var r := CompressPrefix(points, n);
      assert r == c || r == c + [points[n - 1]];
      assert r[0] == c[0];
    }
  }

  /** Each of the first m points of c changes significantly against the one before. */
  predicate ChainUpTo(c: seq<DataPoint>, m: nat)
    requires m <= |c|
  {
    forall j | 0 < j < m :: Significant(c[j - 1].value, c[j].value)
  }

  /** Appending a point keeps the pairs already there, and adds one more when it
      changes significantly against the last one. */
  lemma ChainSnoc(c: seq<DataPoint>, p: DataPoint)
    requires |c| > 0 && ChainUpTo(c, |c|)
    ensures ChainUpTo(c + [p], |c|)
    ensures Significant(c[|c| - 1].value, p.value) ==> ChainUpTo(c + [p], |c| + 1)
  {
    var r := c + [p];
    assert forall j | 0 <= j < |c| :: r[j] == c[j];
    assert r[|c|] == p;
  }

  lemma {:induction false} CompressPrefixSignificant(points: seq<DataPoint>, n: nat)
    requires n <= |points|
    ensures n < |points| ==> ChainUpTo(CompressPrefix(points, n), |CompressPrefix(points, n)|)
    ensures |CompressPrefix(points, n)| > 0 ==> ChainUpTo(CompressPrefix(points, n), |CompressPrefix(points, n)| - 1)
  {
    if n > 0 {
      var c := CompressPrefix(points, n - 1);
      CompressPrefixSignificant(points, n - 1);
      var p := points[n - 1];
      if |c| > 0 {
        var keep := Significant(c[|c| - 1].value, p.value) || n - 1 == |points| - 1;
        if keep {
          assert CompressPrefix(points, n) == c + [p];
          ChainSnoc(c, p);
        } else {
          assert CompressPrefix(points, n) == c;
        }
      } else {
        assert CompressPrefix(points, n) == [p];
      }
    }
  }

  /** The positions in `points` of the points `CompressPrefix(points, n)` keeps, in
      order; position 0 is always among them. */
  ghost function KeptIndices(points: seq<DataPoint>, n: nat): (ks: seq<nat>)
    requires n <= |points|
    ensures forall k | 0 <= k < |ks| :: ks[k] < n
    ensures n > 0 ==> |ks| > 0 && ks[0] == 0
  {
    if n == 0 then []
    else
      var ks := KeptIndices(points, n - 1);
      if |ks| == 0 then [n - 1]
      else if Significant(points[ks[|ks| - 1]].value, points[n - 1].value) || n - 1 == |points| - 1
      then ks + [n - 1]
      else ks
  }

  /** The compressed prefix is exactly the points at the kept positions. */
  lemma {:induction false} KeptIndicesPick(points: seq<DataPoint>, n: nat)
    requires n <= |points|
    ensures var c, ks := CompressPrefix(points, n), KeptIndices(points, n);
      |c| == |ks| && forall k | 0 <= k < |ks| :: c[k] == points[ks[k]]
  {
    if n > 0 {
      KeptIndicesPick(points, n - 1);
      var c, ks := CompressPrefix(points, n - 1), KeptIndices(points, n - 1);
      var p := points[n - 1];
      if |ks| > 0 {
        assert c[|c| - 1] == points[ks[|ks| - 1]];
        if Significant(c[|c| - 1].value, p.value) || n - 1 == |points| - 1 {
          assert CompressPrefix(points, n) == c + [p] && KeptIndices(points, n) == ks + [n - 1];
          PickSnoc(points, c, ks, n - 1);
        } else {
          assert CompressPrefix(points, n) == c && KeptIndices(points, n) == ks;
        }
      }
    }
  }

  lemma PickSnoc(points: seq<DataPoint>, c: seq<DataPoint>, ks: seq<nat>, i: nat)
    requires i < |points| && |c| == |ks|
    requires forall k | 0 <= k < |ks| :: ks[k] < |points| && c[k] == points[ks[k]]
    ensures forall k | 0 <= k < |ks| + 1 :: (ks + [i])[k] < |points| && (c + [points[i]])[k] == points[(ks + [i])[k]]
  {
  }

  /** Later steps only append later positions, so whether position i survives is
      settled when the loop visits it. */
  lemma {:induction false} KeptIndicesSettled(points: seq<DataPoint>, i: nat, n: nat)
    requires i < n <= |points|
    ensures i in KeptIndices(points, n) <==> i in KeptIndices(points, i + 1)
  {
    if n > i + 1 {
      KeptIndicesSettled(points, i, n - 1);
      var ks := KeptIndices(points, n - 1);
      assert KeptIndices(points, n) == ks || KeptIndices(points, n) == ks + [n - 1];
    }
  }

  /** A point after the first survives compression exactly when it changes
      significantly against the last point kept before it, or is the last point. */
  lemma KeptIndexSurvives(points: seq<DataPoint>, i: nat, n: nat)
    requires 0 < i < n <= |points|
    ensures var before := KeptIndices(points, i);
      |before| > 0 &&
      (i in KeptIndices(points, n) <==>
        Significant(points[before[|before| - 1]].value, points[i].value) || i == |points| - 1)
  {
    KeptIndicesSettled(points, i, n);
    var before := KeptIndices(points, i);
    assert i !in before;
  }

  /** Compression keeps points in order, and from 10 points on it keeps the first
      and the last point and leaves consecutive kept points, except the last pair,
      differing significantly. */
  lemma CompressedShape(points: seq<DataPoint>)
    ensures IsSubsequence(Compressed(points), points)
    ensures |points| < 10 ==> Compressed(points) == points
    ensures |points| >= 10 ==> var c := Compressed(points);
      |c| >= 1 && c[0] == points[0] && c[|c| - 1] == points[|points| - 1] &&
      forall j | 0 < j < |c| - 1 :: Significant(c[j - 1].value, c[j].value)
    ensures |points| >= 10 ==> var c, ks := Compressed(points), KeptIndices(points, |points|);
      |c| == |ks| && forall k | 0 <= k < |ks| :: c[k] == points[ks[k]]
  {
    if |points| < 10 {
      SubsequenceOfSelf(points);
    } else {
      CompressPrefixShape(points, |points|);
      KeptIndicesPick(points, |points|);
      assert points[..|points|] == points;
    }
  }

  /** From 10 points on, an inner point is dropped exactly when it stays within 1% of
      the last point kept before it. */
  lemma CompressedSurvivors(points: seq<DataPoint>, i: nat)
    requires |points| >= 10 && 0 < i < |points| - 1
    ensures var before := KeptIndices(points, i);
      |before| > 0 &&
      (i in KeptIndices(points, |points|) <==> Significant(points[before[|before| - 1]].value, points[i].value))
  {
    KeptIndexSurvives(points, i, |points|);
  }

  // ---------------------------------------------------------------------------
  // Window statistics

  function Values(points: seq<DataPoint>): (vs: seq<real>)
    ensures |vs| == |points| && forall k | 0 <= k < |points| :: vs[k] == points[k].value
  {
    seq(|points|, k requires 0 <= k < |points| => points[k].value)
  }

  /** `getStatistics` over a window: None when empty, else its size, extremes,
      mean rounded to two decimals and last value. */
  function WindowStatistics(window: seq<DataPoint>): (r: Option<Statistics>)
    ensures r.None? <==> |window| == 0
    ensures r.Some? ==> r.value.count == |window| && r.value.latest == window[|window| - 1].value
    ensures r.Some? ==> forall k | 0 <= k < |window| :: r.value.min <= window[k].value <= r.value.max
    ensures r.Some? ==> exists k | 0 <= k < |window| :: window[k].value == r.value.min
    ensures r.Some? ==> exists k | 0 <= k < |window| :: window[k].value == r.value.max
    ensures r.Some? ==> var mean := Sum(Values(window)) / |window| as real;
      r.value.min <= mean <= r.value.max && mean - 0.005 < r.value.avg <= mean + 0.005
    ensures r.Some? ==> JsMath.OnGrid(r.value.avg, 2)
  {
    if |window| == 0 then None
    else
      var values := Values(window);
      var avg := Sum(values) / |values| as real;
      var lo, hi := MinOf(values), MaxOf(values);
      MeanWithin(values, lo, hi);
      assert JsMath.Pow10(2) == 100.0;
      Some(Statistics(|window|, lo, hi, JsMath.RoundHalfUp(avg, 2), values[|values| - 1]))
  }

  // ---------------------------------------------------------------------------
  // The store

  /** Sum of the series lengths of the given sensors. */
  function PointCount(data: map<string, seq<DataPoint>>, sensors: seq<string>): nat
    requires forall s | s in sensors :: s in data
  {
    if |sensors| == 0 then 0
    else PointCount(data, sensors[..|sensors| - 1]) + |data[sensors[|sensors| - 1]]|
  }

  /** The count is zero exactly when every listed series is empty. */
  lemma {:induction false} PointCountZero(data: map<string, seq<DataPoint>>, sensors: seq<string>)
    requires forall s | s in sensors :: s in data
    ensures PointCount(data, sensors) == 0 <==> forall k | 0 <= k < |sensors| :: |data[sensors[k]]| == 0
  {
    if |sensors| > 0 {
      var init := sensors[..|sensors| - 1];
      PointCountZero(data, init);
      assert forall k | 0 <= k < |init| :: init[k] == sensors[k];
    }
  }

  /** Counting a concatenation counts each part. */
  lemma {:induction false} PointCountConcat(data: map<string, seq<DataPoint>>, a: seq<string>, b: seq<string>)
    requires forall s | s in a + b :: s in data
    ensures PointCount(data, a + b) == PointCount(data, a) + PointCount(data, b)
  {
    if |b| > 0 {
      var init := b[..|b| - 1];
      assert (a + b)[..|a + b| - 1] == a + init;
      PointCountConcat(data, a, init);
    } else {
      assert a + b == a;
    }
  }

  /** Replacing the series of a sensor that is not listed leaves the count alone. */
  lemma {:induction false} PointCountUnlisted(data: map<string, seq<DataPoint>>, sensors: seq<string>,
                                              key: string, series: seq<DataPoint>)
    requires forall s | s in sensors :: s in data
    requires key !in sensors
    ensures PointCount(data[key := series], sensors) == PointCount(data, sensors)
  {
    if |sensors| > 0 {
      PointCountUnlisted(data, sensors[..|sensors| - 1], key, series);
    }
  }

  /** Counting around one listed position. */
  lemma PointCountAt(data: map<string, seq<DataPoint>>, xs: seq<string>, p: nat)
    requires forall s | s in xs :: s in data
    requires p < |xs|
    ensures forall s | s in xs[..p] + xs[p + 1..] :: s in data
    ensures PointCount(data, xs) == PointCount(data, xs[..p]) + |data[xs[p]]| + PointCount(data, xs[p + 1..])
  {
    var a, b := xs[..p], xs[p + 1..];
    SplitAt(xs, p);
    PointCountConcat(data, a + [xs[p]], b);
    PointCountConcat(data, a, [xs[p]]);
    assert [xs[p]][..0] == [];
  }

  lemma SplitAt(xs: seq<string>, p: nat)
    requires p < |xs|
    ensures xs == xs[..p] + [xs[p]] + xs[p + 1..]
    ensures forall s | s in xs[..p] + xs[p + 1..] :: s in xs
  {
    assert xs[..p] + [xs[p]] + xs[p + 1..] == xs[..p] + xs[p..];
  }

  /** Replacing the series of a sensor listed once changes the count by the change
      in that series' length. */
  lemma PointCountUpdate(data: map<string, seq<DataPoint>>, sensors: seq<string>,
                         key: string, series: seq<DataPoint>)
    requires forall s | s in sensors :: s in data
    requires forall i, j | 0 <= i < j < |sensors| :: sensors[i] != sensors[j]
    requires key in sensors
    ensures PointCount(data[key := series], sensors) + |data[key]| == PointCount(data, sensors) + |series|
  {
    var p :| 0 <= p < |sensors| && sensors[p] == key;
    DropAt(sensors, p);
    var a, b := sensors[..p], sensors[p + 1..];
    PointCountAt(data, sensors, p);
    PointCountAt(data[key := series], sensors, p);
    assert forall s | s in a :: s in a + b;
    assert forall s | s in b :: s in a + b;
    PointCountUnlisted(data, a, key, series);
    PointCountUnlisted(data, b, key, series);
  }

  /** The count depends only on which sensors are listed, not on their order: any two
      duplicate-free listings of the same sensors give the same total. */
  lemma {:induction false} PointCountOrder(data: map<string, seq<DataPoint>>, a: seq<string>, b: seq<string>)
    requires forall s | s in a :: s in data
    requires forall i, j | 0 <= i < j < |a| :: a[i] != a[j]
    requires forall i, j | 0 <= i < j < |b| :: b[i] != b[j]
    requires forall s :: s in a <==> s in b
    ensures PointCount(data, a) == PointCount(data, b)
    decreases |a|
  {
    if |a| > 0 {
      var x := a[|a| - 1];
      assert x in b;
      var p :| 0 <= p < |b| && b[p] == x;
      var init, rest := a[..|a| - 1], b[..p] + b[p + 1..];
      DropAt(a, |a| - 1);
      assert a[..|a| - 1] + a[|a| - 1 + 1..] == init;
      DropAt(b, p);
      PointCountOrder(data, init, rest);
      PointCountAt(data, b, p);
      PointCountConcat(data, b[..p], b[p + 1..]);
      assert PointCount(data, a) == PointCount(data, init) + |data[x]|;
    }
  }

  /** Dropping one entry of a duplicate-free listing leaves a duplicate-free listing
      of the other entries. */
  lemma DropAt(xs: seq<string>, p: nat)
    requires p < |xs|
    requires forall i, j | 0 <= i < j < |xs| :: xs[i] != xs[j]
    ensures var r := xs[..p] + xs[p + 1..];
      (forall i, j | 0 <= i < j < |r| :: r[i] != r[j]) &&
      (forall s :: s in r <==> s in xs && s != xs[p])
  {
    var r := xs[..p] + xs[p + 1..];
    assert forall i | 0 <= i < |r| :: r[i] == (if i < p then xs[i] else xs[i + 1]);
    forall s | s in xs && s != xs[p] ensures s in r {
      var i :| 0 <= i < |xs| && xs[i] == s;
      assert r[if i < p then i else i - 1] == s;
    }
  }

  /** `sensors` lists each key of `data` once; every stored point carries its
      sensor's name; a sensor has a series exactly when it has a last sample time. */
  ghost predicate Consistent(sensors: seq<string>, data: map<string, seq<DataPoint>>, times: map<string, int>)
  {
    (forall i, j | 0 <= i < j < |sensors| :: sensors[i] != sensors[j]) &&
    (forall s :: s in data <==> s in sensors) &&
    data.Keys == times.Keys &&
    (forall s, k | s in data && 0 <= k < |data[s]| :: data[s][k].sensorType == s)
  }

  /** Appending a point of the sensor to its series, listing the sensor when it is
      new and recording its store time keeps the bookkeeping consistent. */
  lemma AppendConsistent(sensors: seq<string>, data: map<string, seq<DataPoint>>, times: map<string, int>,
                         point: DataPoint, now: int)
    requires Consistent(sensors, data, times)
    ensures var key := point.sensorType;
      var series := if key in data then data[key] else [];
      Consistent(sensors + (if key in data then [] else [key]), data[key := series + [point]], times[key := now])
  {
    var key := point.sensorType;
    var series := if key in data then data[key] else [];
    var appended := series + [point];
    assert forall k | 0 <= k < |appended| :: appended[k].sensorType == key;
    if key !in data {
      assert key !in sensors;
    }
  }

  datatype StorageStats = StorageStats(totalSensors: nat, totalDataPoints: nat, estimatedBytes: nat)

  class DataStorageManager {
    const config: StorageConfig
    var data: map<string, seq<DataPoint>>
    var lastSampleTime: map<string, int>
    /** The keys of `data` in insertion order, as a JavaScript Map iterates them. */
    var sensors: seq<string>

    /** The manager's bookkeeping is `Consistent`. */
    ghost predicate Valid()
      reads this
    {
      Consistent(sensors, data, lastSampleTime)
    }

    constructor (config: StorageConfig)
      ensures Valid() && this.config == config
      ensures data == map[] && lastSampleTime == map[] && sensors == []
    {
      this.config := config;
      data := map[];
      lastSampleTime := map[];
      sensors := [];
    }

    /** The last accepted store time of a sensor, 0 when there was none. */
    function LastSample(sensorType: string): int
      reads this
    {
      if sensorType in lastSampleTime then lastSampleTime[sensorType] else 0
    }

    /** Whether `storeData` at `now` stores: enabled, and the sampling interval has
        passed since the sensor's last accepted store. */
    function Accepts(sensorType: string, now: int): (r: bool)
      reads this
      ensures r <==> config.enabled && (now - LastSample(sensorType)) as real >= config.samplingInterval * 60000.0
    {
      config.enabled && !((now - LastSample(sensorType)) as real < config.samplingInterval * 60000.0)
    }

    /** The cutoff of the rolling window at `now`. */
    function RetentionCutoff(now: int): real
    {
      now as real - config.retentionHours * 3600000.0
    }

    /** `cleanupOldData`: keeps the sensor's points later than now - retention. */
    method CleanupOldData(sensorType: string, now: int)
      requires Valid()
      modifies this
      ensures Valid()
      ensures sensors == old(sensors) && lastSampleTime == old(lastSampleTime)
      ensures sensorType in old(data) ==> data == old(data)[sensorType := After(old(data)[sensorType], RetentionCutoff(now))]
      ensures sensorType !in old(data) ==> data == old(data)
    {
      if sensorType !in data {
        return;
      }
      AfterExactly(data[sensorType], RetentionCutoff(now));
      SubsequenceMembers(After(data[sensorType], RetentionCutoff(now)), data[sensorType]);
      data := data[sensorType := After(data[sensorType], RetentionCutoff(now))];
    }

    /** `compressData`: replaces the sensor's series by its compression. */
    method CompressData(sensorType: string)
      requires Valid()
      modifies this
      ensures Valid()
      ensures sensors == old(sensors) && lastSampleTime == old(lastSampleTime)
      ensures sensorType in old(data) ==> data == old(data)[sensorType := Compressed(old(data)[sensorType])]
      ensures sensorType !in old(data) ==> data == old(data)
    {
      if sensorType !in data || |data[sensorType]| < 10 {
        return;
      }
      var compressed := Compress(data[sensorType]);
      CompressedShape(data[sensorType]);
      SubsequenceMembers(compressed, data[sensorType]);
      forall k | 0 <= k < |compressed|
        ensures compressed[k].sensorType == sensorType
      {
        assert compressed[k] in data[sensorType];
      }
      data := data[sensorType := compressed];
    }

    /** `storeData`: when accepted, appends the point, prunes the sensor's series to
        the retention window, records the store time and compresses if configured;
        otherwise nothing changes. Other sensors are never touched. */
    method StoreData(sensorType: string, value: real, now: int)
      requires Valid()
      modifies this
      ensures Valid()
      ensures !old(Accepts(sensorType, now)) ==>
        data == old(data) && lastSampleTime == old(lastSampleTime) && sensors == old(sensors)
      ensures old(Accepts(sensorType, now)) ==>
        var series := if sensorType in old(data) then old(data)[sensorType] else [];
        var pruned := After(series + [DataPoint(now, value, sensorType)], RetentionCutoff(now));
        data == old(data)[sensorType := if config.compressionEnabled then Compressed(pruned) else pruned] &&
        lastSampleTime == old(lastSampleTime)[sensorType := now] &&
        sensors == old(sensors) + (if sensorType in old(data) then [] else [sensorType])
    {
      if !config.enabled {
        return;
      }
      var lastSample := if sensorType in lastSampleTime then lastSampleTime[sensorType] else 0;
      var samplingIntervalMs := config.samplingInterval * 60.0 * 1000.0;
      if (now - lastSample) as real < samplingIntervalMs {
        return;
      }
      ghost var before := data;
      var dataPoint := DataPoint(now, value, sensorType);
      var series := if sensorType in data then data[sensorType] else [];
      var appended := series + [dataPoint];
      AppendConsistent(sensors, data, lastSampleTime, dataPoint, now);
      if sensorType !in data {
        sensors := sensors + [sensorType];
      }
      data := data[sensorType := appended];
      // Recorded before the pruning rather than after it: pruning does not read it.
      lastSampleTime := lastSampleTime[sensorType := now];
      CleanupOldData(sensorType, now);
      ghost var pruned := After(appended, RetentionCutoff(now));
      assert data == before[sensorType := pruned] by {
        OverwriteEntry(before, sensorType, appended, pruned);
      }
      if config.compressionEnabled {
        CompressData(sensorType);
        assert data == before[sensorType := Compressed(pruned)] by {
          OverwriteEntry(before, sensorType, pruned, Compressed(pruned));
        }
      }
    }

    /** `getHistoricalData`: the sensor's points later than now - hours, in order. */
    function GetHistoricalData(sensorType: string, hours: real, now: int): (r: seq<DataPoint>)
      reads this
      ensures sensorType !in data ==> r == []
      ensures sensorType in data ==> IsSubsequence(r, data[sensorType])
      ensures forall p | p in r :: p.timestamp as real > now as real - hours * 3600000.0
      ensures sensorType in data ==>
        forall p | p in data[sensorType] && p.timestamp as real > now as real - hours * 3600000.0 :: p in r
    {
      var series := if sensorType in data then data[sensorType] else [];
      AfterExactly(series, now as real - hours * 3600000.0);
      After(series, now as real - hours * 3600000.0)
    }

    /** `getStatistics` over the window of `getHistoricalData`. */
    function GetStatistics(sensorType: string, hours: real, now: int): (r: Option<Statistics>)
      reads this
      ensures r == WindowStatistics(GetHistoricalData(sensorType, hours, now))
      ensures r.None? <==> |GetHistoricalData(sensorType, hours, now)| == 0
    {
      WindowStatistics(GetHistoricalData(sensorType, hours, now))
    }

    /** `getAvailableSensors`: each sensor with a series, once, in insertion order. */
    function GetAvailableSensors(): (r: seq<string>)
      reads this
      requires Valid()
      ensures forall s :: s in r <==> s in data
      ensures forall i, j | 0 <= i < j < |r| :: r[i] != r[j]
    {
      sensors
    }

    /** `getStorageStats` without the human-readable size: the number of sensors,
        the total number of points and 32 bytes per point. */
    function GetStorageStats(): (r: StorageStats)
      reads this
      requires Valid()
      ensures r.totalSensors == |data.Keys|
      ensures r.totalDataPoints == PointCount(data, sensors)
      ensures r.totalDataPoints == 0 <==> forall s | s in data :: |data[s]| == 0
      ensures r.estimatedBytes == 32 * r.totalDataPoints
    {
      PointCountZero(data, sensors);
      DistinctCount(sensors, data.Keys);
      var total := PointCount(data, sensors);
      StorageStats(|data.Keys|, total, total * 32)
    }

    /** `clearAllData`: forgets every series and every last sample time. */
    method ClearAllData()
      modifies this
      ensures Valid()
      ensures data == map[] && lastSampleTime == map[] && sensors == []
    {
      data := map[];
      lastSampleTime := map[];
      sensors := [];
    }
  }

  /** Writing a key twice leaves the second value. */
  lemma OverwriteEntry<K, V>(m: map<K, V>, key: K, first: V, second: V)
    ensures m[key := first][key := second] == m[key := second]
  {
  }

  /** A duplicate-free sequence listing exactly a set has the set's size. */
  lemma {:induction false} DistinctCount(xs: seq<string>, s: set<string>)
    requires forall i, j | 0 <= i < j < |xs| :: xs[i] != xs[j]
    requires forall x :: x in xs <==> x in s
    ensures |xs| == |s|
  {
    if |xs| > 0 {
      var init := xs[..|xs| - 1];
      var x := xs[|xs| - 1];
      assert x !in init;
      forall y ensures y in init <==> y in s - {x} {
        if y in init {
          var i :| 0 <= i < |init| && init[i] == y;
          assert xs[i] == y;
        }
        if y in s - {x} {
          assert y in xs;
          var i :| 0 <= i < |xs| && xs[i] == y;
          assert i != |xs| - 1;
          assert init[i] == y;
        }
      }
      DistinctCount(init, s - {x});
    } else {
      assert forall x :: x !in s;
      assert s == {};
    }
  }
}
