/** The sensors service: the sensor registry, the bounded reading log, the synthetic
    reading generator and the per-sensor snapshot the realtime gateway broadcasts.

    Timestamps are integers (milliseconds). Temperatures are integers in tenths of a
    degree Celsius. The clock, the random source, the uuid generator and the host
    calendar are parameters of the operations that use them. */
module Sensors {
  import opened Wrappers
  import opened Seqs

  datatype Kind = Temperature | Humidity | Combo

  datatype Sensor = Sensor(id: string, name: string, kind: Kind, lastSeen: int)

  /** The calendar fields the host derives from a timestamp: date, time of day, weekday name. */
  datatype Calendar = Calendar(date: string, time: string, weekday: string)

  datatype Reading = Reading(
    sensorId: string,
    timestamp: int,
    date: string,
    time: string,
    weekday: string,
    temperature: int,  // tenths of a degree Celsius
    humidity: int,     // percent
    note: Option<string>)

  /** One draw of the random source, already rounded: the temperature deviation in
      tenths of a degree and the humidity deviation in whole percent. */
  datatype Draw = Draw(temperature: int, humidity: int)

  /** What one generated reading consumes: a clock reading and a random draw. */
  datatype Sample = Sample(now: int, draw: Draw)

  /** One entry of the `sensor-data` broadcast. */
  datatype SensorData = SensorData(region: string, name: string, temp: int, hum: int)

  const MaxReadings := 1000
  const Regions: seq<string> := ["Region 1", "Region 2", "Region 3"]
  const Unknown := "Unknown"
  const SensorNotFound := "Sensor not found"
  const AutoNote := "Simulated reading (auto-update every 10s)"
  const HistoryNote := "historic simulated"
  const MinuteMillis := 60 * 1000
  // The seeded history: one reading every 5 minutes from 60 minutes ago up to now.
  const HistoryMinutes := 60
  const HistoryStep := 5
  const HistoryLength := 13

  // ---------------------------------------------------------------- generation

  /** Centre of the temperature draw, in whole degrees. */
  function TemperatureBase(kind: Kind): (t: int)
    ensures kind == Temperature ==> t == 25
    ensures kind != Temperature ==> t == 22
  {
    if kind == Temperature then 25 else 22
  }

  /** Centre of the humidity draw, in percent. */
  function HumidityBase(kind: Kind): (h: int)
    ensures kind == Humidity ==> h == 60
    ensures kind != Humidity ==> h == 55
  {
    if kind == Humidity then 60 else 55
  }

  /** `randomHumidity`: the drawn value, already rounded, clamped to [0, 100]. */
  function RandomHumidity(base: int, deviation: int): (h: int)
    ensures 0 <= h <= 100
    ensures 0 <= base + deviation <= 100 ==> h == base + deviation
    ensures base + deviation < 0 ==> h == 0
    ensures base + deviation > 100 ==> h == 100
  {
    var v := base + deviation;
    if v > 100 then 100 else if v < 0 then 0 else v
  }

  /** The reading `generateReadingFor` builds for `sensor` at time `now` from one draw. */
  function SampleReading(sensor: Sensor, now: int, calendar: Calendar, draw: Draw): (r: Reading)
    ensures r.sensorId == sensor.id && r.timestamp == now
    ensures r.temperature == TemperatureBase(sensor.kind) * 10 + draw.temperature
    ensures r.humidity == RandomHumidity(HumidityBase(sensor.kind), draw.humidity)
    ensures 0 <= r.humidity <= 100
  {
    Reading(sensor.id, now, calendar.date, calendar.time, calendar.weekday,
            TemperatureBase(sensor.kind) * 10 + draw.temperature,
            RandomHumidity(HumidityBase(sensor.kind), draw.humidity),
            Some(AutoNote))
  }

  /** A draw the random source can produce: `Math.random()` lies in [0, 1), so a temperature
      deviation within 6 degrees and a humidity deviation within 25 percent. */
  predicate DrawInRange(draw: Draw) {
    -60 <= draw.temperature <= 60 && -25 <= draw.humidity <= 25
  }

  /** For draws the random source can produce, temperature stays within 6 degrees of its
      base and the humidity clamp never changes the value (both bases are 25 from a bound). */
  lemma SampleWithinVariance(sensor: Sensor, now: int, calendar: Calendar, draw: Draw)
    requires DrawInRange(draw)
    ensures var r := SampleReading(sensor, now, calendar, draw);
      && TemperatureBase(sensor.kind) * 10 - 60 <= r.temperature <= TemperatureBase(sensor.kind) * 10 + 60
      && r.humidity == HumidityBase(sensor.kind) + draw.humidity
  {
  }

  /** The readings generated for every sensor of the registry, one sample each, in registry order. */
  function Generated(sensors: seq<Sensor>, calendar: int -> Calendar, samples: seq<Sample>): (g: seq<Reading>)
    requires |samples| == |sensors|
    ensures |g| == |sensors|
    ensures forall i :: 0 <= i < |g| ==> g[i].sensorId == sensors[i].id && g[i].timestamp == samples[i].now
  {
    var g := seq(|sensors|, i requires 0 <= i < |sensors| =>
      SampleReading(sensors[i], samples[i].now, calendar(samples[i].now), samples[i].draw));
    assert forall i :: 0 <= i < |g| ==>
      g[i] == SampleReading(sensors[i], samples[i].now, calendar(samples[i].now), samples[i].draw);
    g
  }

  /** Entry `i` of a periodic round is the reading sampled for sensor `i`. */
  lemma GeneratedEntry(sensors: seq<Sensor>, calendar: int -> Calendar, samples: seq<Sample>, i: int)
    requires |samples| == |sensors| && 0 <= i < |sensors|
    ensures Generated(sensors, calendar, samples)[i]
      == SampleReading(sensors[i], samples[i].now, calendar(samples[i].now), samples[i].draw)
  {
  }

  /** The calibration step: the temperature moved by a rounded draw from [-1, +1] degree. */
  function Perturb(r: Reading, nudge: int): (p: Reading)
    ensures p.temperature == r.temperature + nudge
    ensures p.(temperature := r.temperature) == r
  {
    r.(temperature := r.temperature + nudge)
  }

  /** The readings a calibration run of `iterations` steps returns for `sensor`. */
  function Calibration(sensor: Sensor, iterations: int, calendar: int -> Calendar,
                       samples: seq<Sample>, nudges: seq<int>): (c: seq<Reading>)
    requires iterations <= |samples| && iterations <= |nudges|
    ensures |c| == if iterations < 0 then 0 else iterations
    ensures forall i :: 0 <= i < |c| ==> c[i].sensorId == sensor.id && c[i].timestamp == samples[i].now
    ensures forall i :: 0 <= i < |c| ==>
      c[i].temperature == SampleReading(sensor, samples[i].now, calendar(samples[i].now), samples[i].draw).temperature + nudges[i]
  {
    var c := seq(if iterations < 0 then 0 else iterations, i requires 0 <= i < |samples| && i < |nudges| =>
      Perturb(SampleReading(sensor, samples[i].now, calendar(samples[i].now), samples[i].draw), nudges[i]));
    assert forall i :: 0 <= i < |c| ==>
      c[i] == Perturb(SampleReading(sensor, samples[i].now, calendar(samples[i].now), samples[i].draw), nudges[i]);
    c
  }

  /** Step `i` of a calibration run is the perturbed sample `i`. */
  lemma CalibrationEntry(sensor: Sensor, iterations: int, calendar: int -> Calendar,
                         samples: seq<Sample>, nudges: seq<int>, i: int)
    requires iterations <= |samples| && iterations <= |nudges| && 0 <= i < iterations
    ensures Calibration(sensor, iterations, calendar, samples, nudges)[..i + 1]
      == Calibration(sensor, iterations, calendar, samples, nudges)[..i]
         + [Perturb(SampleReading(sensor, samples[i].now, calendar(samples[i].now), samples[i].draw), nudges[i])]
  {
    var c := Calibration(sensor, iterations, calendar, samples, nudges);
    assert c[..i + 1] == c[..i] + [c[i]];
  }

  /** A seeded history reading: bases 22 degrees and 55 percent whatever the sensor's kind,
      which are the bases `generateReadingFor` uses for a combo sensor. */
  function HistoricReading(sensor: Sensor, ts: int, calendar: int -> Calendar, draw: Draw): (r: Reading)
    ensures r.sensorId == sensor.id && r.timestamp == ts && r.note == Some(HistoryNote)
    ensures r == SampleReading(sensor.(kind := Combo), ts, calendar(ts), draw).(note := Some(HistoryNote))
    ensures 0 <= r.humidity <= 100
  {
    var c := calendar(ts);
    Reading(sensor.id, ts, c.date, c.time, c.weekday,
            22 * 10 + draw.temperature, RandomHumidity(55, draw.humidity), Some(HistoryNote))
  }

  /** The history seeded at start-up: for each sensor in order, thirteen readings stamped
      60, 55, ..., 0 minutes before `now`. */
  function History(sensors: seq<Sensor>, now: int, calendar: int -> Calendar, draws: seq<Draw>): (h: seq<Reading>)
    requires |draws| == |sensors| * HistoryLength
    ensures |h| == |sensors| * HistoryLength
    ensures forall k :: 0 <= k < |h| ==>
      && h[k].sensorId == sensors[k / HistoryLength].id
      && now - HistoryMinutes * MinuteMillis <= h[k].timestamp <= now
      && 0 <= h[k].humidity <= 100
  {
    seq(|draws|, k requires 0 <= k < |draws| =>
      HistoricReading(sensors[k / HistoryLength],
                      now - (HistoryMinutes - HistoryStep * (k % HistoryLength)) * MinuteMillis,
                      calendar, draws[k]))
  }

  /** Entry `m` of sensor `s`'s block in the history is stamped `60 - 5 m` minutes before `now`. */
  lemma HistoryEntry(sensors: seq<Sensor>, now: int, calendar: int -> Calendar, draws: seq<Draw>, s: int, m: int)
    requires |draws| == |sensors| * HistoryLength
    requires 0 <= s < |sensors| && 0 <= m < HistoryLength
    ensures s * HistoryLength + m < |draws|
    ensures History(sensors, now, calendar, draws)[s * HistoryLength + m]
      == HistoricReading(sensors[s], now - (HistoryMinutes - HistoryStep * m) * MinuteMillis, calendar, draws[s * HistoryLength + m])
    ensures History(sensors, now, calendar, draws)[..s * HistoryLength + m + 1]
      == History(sensors, now, calendar, draws)[..s * HistoryLength + m]
         + [History(sensors, now, calendar, draws)[s * HistoryLength + m]]
  {
    var k := s * HistoryLength + m;
    assert k / HistoryLength == s && k % HistoryLength == m;
    var h := History(sensors, now, calendar, draws);
    assert h[..k + 1] == h[..k] + [h[k]];
  }

  /** The six demonstration sensors: per region, a temperature sensor and a combo sensor, each
      stamped with its own creation time. */
  function SeedSensors(ids: seq<string>, created: seq<int>): (s: seq<Sensor>)
    requires |ids| == 2 * |Regions| && |created| == |ids|
    ensures |s| == 2 * |Regions|
    ensures forall i :: 0 <= i < |s| ==> s[i].id == ids[i] && s[i].lastSeen == created[i]
    ensures forall i :: 0 <= i < |s| ==> s[i].kind == if i % 2 == 0 then Temperature else Combo
    ensures forall i :: 0 <= i < |s| ==> Includes(s[i].name, Regions[i / 2])
  {
    var s := seq(|ids|, i requires 0 <= i < |ids| =>
      if i % 2 == 0 then Sensor(ids[i], "Sensor-Estufa-" + Regions[i / 2], Temperature, created[i])
      else Sensor(ids[i], "Sensor-Ambiente-" + Regions[i / 2], Combo, created[i]));
    forall i | 0 <= i < |s| ensures Includes(s[i].name, Regions[i / 2]) {
      if i % 2 == 0 {
        IncludesSuffix("Sensor-Estufa-", Regions[i / 2]);
      } else {
        IncludesSuffix("Sensor-Ambiente-", Regions[i / 2]);
      }
    }
    s
  }

  /** The seed for region `i` is its temperature sensor followed by its combo sensor. */
  lemma SeedSensorsNext(ids: seq<string>, created: seq<int>, i: int)
    requires |ids| == 2 * |Regions| && |created| == |ids| && 0 <= i < |Regions|
    ensures SeedSensors(ids, created)[..2 * i + 2] == SeedSensors(ids, created)[..2 * i]
      + [Sensor(ids[2 * i], "Sensor-Estufa-" + Regions[i], Temperature, created[2 * i]),
         Sensor(ids[2 * i + 1], "Sensor-Ambiente-" + Regions[i], Combo, created[2 * i + 1])]
  {
    var s := SeedSensors(ids, created);
    assert (2 * i) / 2 == i && (2 * i + 1) / 2 == i && (2 * i + 1) % 2 == 1;
    assert s[..2 * i + 2] == s[..2 * i] + [s[2 * i], s[2 * i + 1]];
  }

  /** Neither seeded name prefix contains the letter every region label starts with. */
  lemma SeedPrefixHasNoR(prefix: string)
    requires prefix == "Sensor-Estufa-" || prefix == "Sensor-Ambiente-"
    ensures forall q :: 0 <= q < |prefix| ==> prefix[q] != 'R'
  {
  }

  /** The region labels have eight characters, start with `R`, and differ in the last one. */
  lemma RegionLabels()
    ensures forall j :: 0 <= j < |Regions| ==> |Regions[j]| == 8 && Regions[j][0] == 'R'
    ensures forall j, k :: 0 <= j < |Regions| && 0 <= k < |Regions| && j != k ==> Regions[j][7] != Regions[k][7]
  {
  }

  /** A seeded name carries no region label other than its own: a label could only start
      where the region begins, and there the labels differ in their last character. */
  lemma SeedNameExcludes(prefix: string, k: int, j: int)
    requires prefix == "Sensor-Estufa-" || prefix == "Sensor-Ambiente-"
    requires 0 <= k < |Regions| && 0 <= j < |Regions| && j != k
    ensures !Includes(prefix + Regions[k], Regions[j])
  {
    var name := prefix + Regions[k];
    IncludesIffOccurs(name, Regions[j]);
    if Includes(name, Regions[j]) {
      var p :| OccursAt(name, Regions[j], p);
      RegionLabels();
      assert name[p] == name[p..p + 8][0] == 'R';
      SeedPrefixHasNoR(prefix);
    }
  }

  /** Every seeded sensor is tagged with its own region: "Sensor-Estufa-Region 2" gets
      "Region 2", never `Unknown` and never another region. */
  lemma SeededRegionIsOwn(ids: seq<string>, created: seq<int>, i: int)
    requires |ids| == 2 * |Regions| && |created| == |ids| && 0 <= i < |ids|
    ensures RegionOf(SeedSensors(ids, created)[i].name, Regions) == Regions[i / 2]
  {
    var name := SeedSensors(ids, created)[i].name;
    var k := i / 2;
    var prefix := if i % 2 == 0 then "Sensor-Estufa-" else "Sensor-Ambiente-";
    assert name == prefix + Regions[k];
    forall j | 0 <= j < k ensures !IncludedIn(name)(Regions[j]) {
      SeedNameExcludes(prefix, k, j);
    }
    assert IsFirstMatch(Regions, IncludedIn(name), k);
  }

  // ---------------------------------------------------------------- registry

  function HasId(id: string): Sensor -> bool {
    (s: Sensor) => s.id == id
  }

  function OtherThan(id: string): Sensor -> bool {
    (s: Sensor) => s.id != id
  }

  ghost predicate UniqueIds(sensors: seq<Sensor>) {
    forall i, j :: 0 <= i < j < |sensors| ==> sensors[i].id != sensors[j].id
  }

  /** `findSensor`: the first sensor with the id, or nothing. */
  function FindSensor(sensors: seq<Sensor>, id: string): (r: Option<Sensor>)
    ensures r.None? <==> forall i :: 0 <= i < |sensors| ==> sensors[i].id != id
    ensures r.Some? ==> r.value.id == id && exists k :: IsFirstMatch(sensors, HasId(id), k) && r.value == sensors[k]
  {
    match FindFirst(sensors, HasId(id))
    case None => None
    case Some(k) => Some(sensors[k])
  }

  /** `saveReading`'s effect on the registry: the first sensor with the id gets `lastSeen := ts`. */
  function Touch(sensors: seq<Sensor>, id: string, ts: int): (r: seq<Sensor>)
    ensures |r| == |sensors|
  {
    match FindFirst(sensors, HasId(id))
    case None => sensors
    case Some(k) => sensors[k := sensors[k].(lastSeen := ts)]
  }

  /** Touching changes only the first sensor with the id, and only its `lastSeen`; an unknown
      id changes nothing. */
  lemma TouchOnlyFirst(sensors: seq<Sensor>, id: string, ts: int)
    ensures (forall i :: 0 <= i < |sensors| ==> sensors[i].id != id) ==> Touch(sensors, id, ts) == sensors
    ensures forall k :: IsFirstMatch(sensors, HasId(id), k) ==>
      && Touch(sensors, id, ts)[k].lastSeen == ts
      && Touch(sensors, id, ts)[k].(lastSeen := sensors[k].lastSeen) == sensors[k]
      && forall j :: 0 <= j < |sensors| && j != k ==> Touch(sensors, id, ts)[j] == sensors[j]
  {
    match FindFirst(sensors, HasId(id))
    case None =>
    case Some(k) =>
      forall k' | IsFirstMatch(sensors, HasId(id), k') ensures k' == k {
        FirstMatchUnique(sensors, HasId(id), k, k');
      }
  }

  /** With unique ids, touching a sensor's id touches exactly that sensor. */
  lemma TouchAt(sensors: seq<Sensor>, k: int, ts: int)
    requires UniqueIds(sensors) && 0 <= k < |sensors|
    ensures Touch(sensors, sensors[k].id, ts) == sensors[k := sensors[k].(lastSeen := ts)]
    ensures UniqueIds(Touch(sensors, sensors[k].id, ts))
  {
    assert IsFirstMatch(sensors, HasId(sensors[k].id), k);
  }

  /** Touching the same id twice leaves only the second timestamp. */
  lemma TouchTwice(sensors: seq<Sensor>, id: string, ts: int, ts': int)
    ensures Touch(Touch(sensors, id, ts), id, ts') == Touch(sensors, id, ts')
  {
    match FindFirst(sensors, HasId(id))
    case None =>
    case Some(k) =>
      assert IsFirstMatch(Touch(sensors, id, ts), HasId(id), k);
  }

  /** Removing sensors by filter keeps the remaining ids unique. */
  lemma {:induction false} FilterKeepsIdsUnique(sensors: seq<Sensor>, p: Sensor -> bool)
    requires UniqueIds(sensors)
    ensures UniqueIds(Filter(sensors, p))
  {
    if sensors != [] {
      FilterKeepsIdsUnique(sensors[1..], p);
      var rest := Filter(sensors[1..], p);
      forall i | 0 <= i < |rest| ensures rest[i].id != sensors[0].id {
        var j :| 0 <= j < |sensors[1..]| && sensors[1..][j] == rest[i];
        assert sensors[j + 1] == rest[i];
      }
    }
  }

  /** The registry after a periodic round has reached index `i`: the sensors before `i`
      carry their sample times. */
  function StampedUpTo(registry: seq<Sensor>, samples: seq<Sample>, i: int): (r: seq<Sensor>)
    requires |samples| == |registry| && 0 <= i <= |registry|
  {
    seq(|registry|, j requires 0 <= j < |registry| =>
      if j < i then registry[j].(lastSeen := samples[j].now) else registry[j])
  }

  /** Stamping the next sensor of the round. */
  lemma StampNext(registry: seq<Sensor>, samples: seq<Sample>, i: int)
    requires |samples| == |registry| && 0 <= i < |registry|
    ensures StampedUpTo(registry, samples, i)[i] == registry[i]
    ensures StampedUpTo(registry, samples, i)[i := registry[i].(lastSeen := samples[i].now)]
      == StampedUpTo(registry, samples, i + 1)
  {
  }

  /** At the end of the round every sensor carries its sample time. */
  lemma StampedAll(registry: seq<Sensor>, samples: seq<Sample>)
    requires |samples| == |registry|
    ensures |StampedUpTo(registry, samples, |registry|)| == |registry|
    ensures forall j :: 0 <= j < |registry| ==>
      StampedUpTo(registry, samples, |registry|)[j] == registry[j].(lastSeen := samples[j].now)
  {
  }

  // ---------------------------------------------------------------- reading log

  function ForSensor(sensorId: string): Reading -> bool {
    (r: Reading) => r.sensorId == sensorId
  }

  function NotForSensor(sensorId: string): Reading -> bool {
    (r: Reading) => r.sensorId != sensorId
  }

  predicate NewestFirst(s: seq<Reading>) {
    forall i, j :: 0 <= i < j < |s| ==> s[j].timestamp <= s[i].timestamp
  }

  /** Inserts `x` before the first reading that is not newer than it; an earlier-inserted
      reading therefore stays ahead of later ones with the same timestamp. */
  function InsertByTime(x: Reading, s: seq<Reading>): (r: seq<Reading>)
    requires NewestFirst(s)
    ensures NewestFirst(r)
    ensures multiset(r) == multiset(s) + multiset{x}
  {
    if s == [] || s[0].timestamp <= x.timestamp then [x] + s
    else
      var rest := InsertByTime(x, s[1..]);
      HeadIsNewest(x, s, rest);
      assert s == [s[0]] + s[1..];
      [s[0]] + rest
  }

  /** A reading no older than every reading of a newest-first sequence can go in front of it. */
  lemma HeadIsNewest(x: Reading, s: seq<Reading>, rest: seq<Reading>)
    requires NewestFirst(s) && s != [] && x.timestamp < s[0].timestamp
    requires NewestFirst(rest) && multiset(rest) == multiset(s[1..]) + multiset{x}
    ensures NewestFirst([s[0]] + rest)
  {
    forall i | 0 <= i < |rest| ensures rest[i].timestamp <= s[0].timestamp {
      assert rest[i] in multiset(rest);
      if rest[i] != x {
        assert rest[i] in multiset(s[1..]);
        var j :| 0 <= j < |s[1..]| && s[1..][j] == rest[i];
        assert s[j + 1] == rest[i];
      }
    }
  }

  /** `sort((a, b) => b.timestamp - a.timestamp)`: a stable sort, newest first. */
  function SortByTimeDesc(s: seq<Reading>): (r: seq<Reading>)
    ensures NewestFirst(r)
    ensures multiset(r) == multiset(s)
  {
    if s == [] then []
    else
      assert s == [s[0]] + s[1..];
      InsertByTime(s[0], SortByTimeDesc(s[1..]))
  }

  /** `listReadingsForSensor`: the sensor's readings, newest first, cut at `limit`. */
  function ListReadingsForSensor(log: seq<Reading>, sensorId: string, limit: int): (r: seq<Reading>)
    ensures limit >= 0 ==> |r| <= limit
    ensures limit >= 0 ==> |r| == if limit <= |Filter(log, ForSensor(sensorId))| then limit else |Filter(log, ForSensor(sensorId))|
    ensures forall i :: 0 <= i < |r| ==> r[i] in log && r[i].sensorId == sensorId
    ensures NewestFirst(r)
    ensures multiset(r) <= multiset(Filter(log, ForSensor(sensorId)))
    ensures (forall i :: 0 <= i < |log| ==> log[i].sensorId != sensorId) ==> r == []
  {
    var sorted := SortByTimeDesc(Filter(log, ForSensor(sensorId)));
    SortedMine(log, sensorId);
    SliceKeepsOrder(sorted, limit);
    SliceTo(sorted, limit)
  }

  /** The answer's length follows `slice(0, limit)` on the sensor's `n` readings: `limit` of
      them when there are enough, and for a negative `limit` all but the last `-limit`, so
      nothing once `-limit` reaches `n`. */
  lemma ListedCount(log: seq<Reading>, sensorId: string, limit: int)
    ensures var n := |Filter(log, ForSensor(sensorId))|;
      |ListReadingsForSensor(log, sensorId, limit)|
        == if limit < 0 then (if n + limit >= 0 then n + limit else 0)
           else if limit <= n then limit else n
  {
    var mine := Filter(log, ForSensor(sensorId));
    var sorted := SortByTimeDesc(mine);
    assert |sorted| == |multiset(sorted)| == |multiset(mine)| == |mine|;
    assert ListReadingsForSensor(log, sensorId, limit) == SliceTo(sorted, limit);
  }

  /** A prefix of a newest-first sequence is newest-first and takes its elements from it,
      each no more often than it occurs there. */
  lemma SliceKeepsOrder(s: seq<Reading>, limit: int)
    ensures NewestFirst(s) ==> NewestFirst(SliceTo(s, limit))
    ensures forall i :: 0 <= i < |SliceTo(s, limit)| ==> SliceTo(s, limit)[i] == s[i]
    ensures multiset(SliceTo(s, limit)) <= multiset(s)
  {
    var r := SliceTo(s, limit);
    assert s == r + s[|r|..];
  }

  /** The sensor's readings, sorted, are as many as before and all drawn from the log. */
  lemma SortedMine(log: seq<Reading>, sensorId: string)
    ensures var sorted := SortByTimeDesc(Filter(log, ForSensor(sensorId)));
      && |sorted| == |Filter(log, ForSensor(sensorId))|
      && NewestFirst(sorted)
      && ((forall i :: 0 <= i < |log| ==> log[i].sensorId != sensorId) ==> sorted == [])
      && forall i :: 0 <= i < |sorted| ==> sorted[i] in log && sorted[i].sensorId == sensorId
  {
    var mine := Filter(log, ForSensor(sensorId));
    var sorted := SortByTimeDesc(mine);
    assert |sorted| == |multiset(sorted)| == |multiset(mine)| == |mine|;
    forall i | 0 <= i < |sorted| ensures sorted[i] in log && sorted[i].sensorId == sensorId {
      assert sorted[i] in multiset(mine);
      var j :| 0 <= j < |mine| && mine[j] == sorted[i];
    }
  }

  /** The answer holds the newest readings: a reading of the sensor that is left out is
      no newer than any reading in the answer. */
  lemma ListedAreNewest(log: seq<Reading>, sensorId: string, limit: int, y: Reading, i: int)
    requires y in log && y.sensorId == sensorId
    requires 0 <= i < |ListReadingsForSensor(log, sensorId, limit)|
    ensures var r := ListReadingsForSensor(log, sensorId, limit);
      y in r || y.timestamp <= r[i].timestamp
  {
    var mine := Filter(log, ForSensor(sensorId));
    var sorted := SortByTimeDesc(mine);
    var r := ListReadingsForSensor(log, sensorId, limit);
    var k :| 0 <= k < |log| && log[k] == y;
    assert y in mine;
    assert y in multiset(sorted);
    var m :| 0 <= m < |sorted| && sorted[m] == y;
    assert r <= sorted;
    if m < |r| {
      assert r[m] == y;
    }
  }

  /** `listReadingsForSensor(id, 1)[0]`, the reading the snapshot uses, is a newest one. */
  lemma LatestIsNewest(log: seq<Reading>, sensorId: string)
    requires exists i :: 0 <= i < |log| && log[i].sensorId == sensorId
    ensures var latest := ListReadingsForSensor(log, sensorId, 1);
      && |latest| == 1 && latest[0] in log && latest[0].sensorId == sensorId
      && forall j :: 0 <= j < |log| && log[j].sensorId == sensorId ==> log[j].timestamp <= latest[0].timestamp
  {
    var i :| 0 <= i < |log| && log[i].sensorId == sensorId;
    assert log[i] in Filter(log, ForSensor(sensorId));
    var latest := ListReadingsForSensor(log, sensorId, 1);
    forall j | 0 <= j < |log| && log[j].sensorId == sensorId
      ensures log[j].timestamp <= latest[0].timestamp
    {
      ListedAreNewest(log, sensorId, 1, log[j], 0);
    }
  }

  // ---------------------------------------------------------------- removal

  /** Removing a sensor cascades: neither the sensor nor any of its readings can be found. */
  lemma RemovalCascades(sensors: seq<Sensor>, log: seq<Reading>, id: string, limit: int)
    ensures FindSensor(Filter(sensors, OtherThan(id)), id).None?
    ensures ListReadingsForSensor(Filter(log, NotForSensor(id)), id, limit) == []
  {
  }

  /** Removing a sensor leaves every other sensor's readings, and what a query for them returns, as it was. */
  lemma RemovalKeepsOthers(log: seq<Reading>, id: string, other: string, limit: int)
    requires other != id
    ensures Filter(Filter(log, NotForSensor(id)), ForSensor(other)) == Filter(log, ForSensor(other))
    ensures ListReadingsForSensor(Filter(log, NotForSensor(id)), other, limit) == ListReadingsForSensor(log, other, limit)
  {
    FilterNarrow(log, NotForSensor(id), ForSensor(other));
  }

  // ---------------------------------------------------------------- snapshot

  function IncludedIn(name: string): string -> bool {
    (candidate: string) => Includes(name, candidate)
  }

  /** The region tag: the first of `regions` that occurs in the name, else `Unknown`
      (also when the label found is empty, which JavaScript's `||` treats as absent). */
  function RegionOf(name: string, regions: seq<string>): (region: string)
    ensures (forall k :: 0 <= k < |regions| ==> !Includes(name, regions[k])) ==> region == Unknown
    ensures forall k :: IsFirstMatch(regions, IncludedIn(name), k) ==>
      region == if regions[k] == [] then Unknown else regions[k]
  {
    match FindFirst(regions, IncludedIn(name))
    case None => Unknown
    case Some(k) => if regions[k] == [] then Unknown else regions[k]
  }

  /** The snapshot entry of one sensor: its region tag, its name, and the temperature and
      humidity of a newest reading, or 0 and 0 when the sensor has no reading. */
  function Snapshot(sensor: Sensor, log: seq<Reading>): (d: SensorData)
    ensures d.name == sensor.name && d.region == RegionOf(sensor.name, Regions)
    ensures (forall i :: 0 <= i < |log| ==> log[i].sensorId != sensor.id) ==> d.temp == 0 && d.hum == 0
    ensures (exists i :: 0 <= i < |log| && log[i].sensorId == sensor.id) ==>
      exists i :: 0 <= i < |log| && log[i].sensorId == sensor.id
        && d.temp == log[i].temperature && d.hum == log[i].humidity
        && forall j :: 0 <= j < |log| && log[j].sensorId == sensor.id ==> log[j].timestamp <= log[i].timestamp
  {
    var latest := ListReadingsForSensor(log, sensor.id, 1);
    var region := RegionOf(sensor.name, Regions);
    if latest == [] then
      SensorData(region, sensor.name, 0, 0)
    else
      LatestIsNewestIfAny(log, sensor.id);
      SensorData(region, sensor.name, latest[0].temperature, latest[0].humidity)
  }

  lemma LatestIsNewestIfAny(log: seq<Reading>, sensorId: string)
    ensures var latest := ListReadingsForSensor(log, sensorId, 1);
      latest != [] ==>
        exists i :: 0 <= i < |log| && log[i] == latest[0] && log[i].sensorId == sensorId
          && forall j :: 0 <= j < |log| && log[j].sensorId == sensorId ==> log[j].timestamp <= log[i].timestamp
  {
    var latest := ListReadingsForSensor(log, sensorId, 1);
    if latest != [] {
      var i :| 0 <= i < |log| && log[i] == latest[0];
      LatestIsNewest(log, sensorId);
    }
  }

  /** `generateSensorData`: one snapshot entry per sensor, in registry order. */
  function GenerateSensorData(sensors: seq<Sensor>, log: seq<Reading>): (data: seq<SensorData>)
    ensures |data| == |sensors|
    ensures forall i :: 0 <= i < |sensors| ==> data[i] == Snapshot(sensors[i], log)
  {
    seq(|sensors|, i requires 0 <= i < |sensors| => Snapshot(sensors[i], log))
  }

  // ---------------------------------------------------------------- the service

  class SensorsService {
    var sensors: seq<Sensor>
    var readings: seq<Reading>

    /** The log never exceeds its bound and uuids never repeat. */
    ghost predicate Valid()
      reads this
    {
      |readings| <= MaxReadings && UniqueIds(sensors)
    }

    /** Seeds two sensors per region with fresh `ids` created at `created`, then the history. */
    constructor (ids: seq<string>, created: seq<int>, now: int, calendar: int -> Calendar, draws: seq<Draw>)
      requires |ids| == 2 * |Regions| && |created| == |ids|
      requires forall i, j :: 0 <= i < j < |ids| ==> ids[i] != ids[j]
      requires |draws| == |ids| * HistoryLength
      ensures Valid()
      ensures sensors == SeedSensors(ids, created)
      ensures readings == History(sensors, now, calendar, draws)
    {
      sensors := [];
      readings := [];
      new;
      var i := 0;
      while i < |Regions|
        invariant 0 <= i <= |Regions|
        invariant sensors == SeedSensors(ids, created)[..2 * i]
        invariant readings == [] && Valid()
      {
        SeedSensorsNext(ids, created, i);
        var estufa := CreateSensor("Sensor-Estufa-" + Regions[i], Some(Temperature), ids[2 * i], created[2 * i]);
        var ambiente := CreateSensor("Sensor-Ambiente-" + Regions[i], Some(Combo), ids[2 * i + 1], created[2 * i + 1]);
        i := i + 1;
      }
      GenerateInitialHistory(now, calendar, draws);
    }

    /** `createSensor`: appends one sensor; the kind defaults to combo. */
    method CreateSensor(name: string, kind: Option<Kind>, id: string, now: int) returns (s: Sensor)
      requires Valid()
      requires forall i :: 0 <= i < |sensors| ==> sensors[i].id != id
      modifies this
      ensures Valid()
      ensures s == Sensor(id, name, kind.GetOr(Combo), now)
      ensures sensors == old(sensors) + [s] && readings == old(readings)
    {
      s := Sensor(id, name, kind.GetOr(Combo), now);
      sensors := sensors + [s];
    }

    /** `removeSensor`: drops the sensor and all its readings; always answers true. */
    method RemoveSensor(id: string) returns (removed: bool)
      requires Valid()
      modifies this
      ensures Valid()
      ensures removed
      ensures sensors == Filter(old(sensors), OtherThan(id))
      ensures readings == Filter(old(readings), NotForSensor(id))
    {
      FilterKeepsIdsUnique(sensors, OtherThan(id));
      sensors := Filter(sensors, OtherThan(id));
      readings := Filter(readings, NotForSensor(id));
      removed := true;
    }

    /** `saveReading`: appends, touches the sensor, keeps the newest `MaxReadings`. */
    method SaveReading(reading: Reading)
      requires Valid()
      modifies this
      ensures Valid()
      ensures readings == Newest(old(readings) + [reading], MaxReadings)
      ensures readings[|readings| - 1] == reading
      ensures sensors == Touch(old(sensors), reading.sensorId, reading.timestamp)
    {
      readings := readings + [reading];
      var found := FindFirst(sensors, HasId(reading.sensorId));
      if found.Some? {
        var k := found.value;
        sensors := sensors[k := sensors[k].(lastSeen := reading.timestamp)];
      }
      readings := Newest(readings, MaxReadings);
    }

    /** `generateReadingFor`: samples a reading for `sensor` and saves it. */
    method GenerateReadingFor(sensor: Sensor, now: int, calendar: int -> Calendar, draw: Draw)
      returns (reading: Reading)
      requires Valid()
      modifies this
      ensures Valid()
      ensures reading == SampleReading(sensor, now, calendar(now), draw)
      ensures readings == Newest(old(readings) + [reading], MaxReadings)
      ensures sensors == Touch(old(sensors), sensor.id, now)
    {
      reading := SampleReading(sensor, now, calendar(now), draw);
      SaveReading(reading);
    }

    /** `generateInitialHistory`: pushes the seeded history, untrimmed and without touching sensors. */
    method GenerateInitialHistory(now: int, calendar: int -> Calendar, draws: seq<Draw>)
      requires |draws| == |sensors| * HistoryLength
      modifies this
      ensures sensors == old(sensors)
      ensures readings == old(readings) + History(sensors, now, calendar, draws)
    {
      ghost var h := History(sensors, now, calendar, draws);
      var s := 0;
      while s < |sensors|
        invariant 0 <= s <= |sensors| && sensors == old(sensors)
        invariant readings == old(readings) + h[..s * HistoryLength]
      {
        var i := HistoryMinutes;
        var m := 0;  // readings made so far for this sensor: the next draw is `draws[s * 13 + m]`
        while i >= 0
          invariant 0 <= s < |sensors| && sensors == old(sensors)
          invariant 0 <= m <= HistoryLength && i == HistoryMinutes - HistoryStep * m
          invariant readings == old(readings) + h[..s * HistoryLength + m]
        {
          HistoryEntry(sensors, now, calendar, draws, s, m);
          var ts := now - i * MinuteMillis;
          readings := readings + [HistoricReading(sensors[s], ts, calendar, draws[s * HistoryLength + m])];
          i := i - HistoryStep;
          m := m + 1;
        }
        s := s + 1;
      }
    }

    /** `generatePeriodicReadings`: one generated reading per sensor, in registry order. */
    method GeneratePeriodicReadings(calendar: int -> Calendar, samples: seq<Sample>)
      requires Valid() && |samples| == |sensors|
      modifies this
      ensures Valid()
      ensures |sensors| == |old(sensors)|
      ensures forall i :: 0 <= i < |sensors| ==> sensors[i] == old(sensors)[i].(lastSeen := samples[i].now)
      ensures readings == Newest(old(readings) + Generated(old(sensors), calendar, samples), MaxReadings)
    {
      var registry := sensors;
      ghost var g := Generated(registry, calendar, samples);
      var i := 0;
      while i < |registry|
        invariant 0 <= i <= |registry| && Valid()
        invariant sensors == StampedUpTo(registry, samples, i)
        invariant readings == Newest(old(readings) + g[..i], MaxReadings)
      {
        StampNext(registry, samples, i);
        GeneratedEntry(registry, calendar, samples, i);
        var reading := PeriodicStep(i, samples[i], calendar);
        NewestPushNext(old(readings), g, i, MaxReadings);
        i := i + 1;
      }
      assert g[..i] == g;
      StampedAll(registry, samples);
    }

    /** One pass of the periodic round: the reading generated for the sensor at index `k`. */
    method PeriodicStep(k: int, sample: Sample, calendar: int -> Calendar) returns (reading: Reading)
      requires Valid() && 0 <= k < |sensors|
      modifies this
      ensures Valid()
      ensures reading == SampleReading(old(sensors)[k], sample.now, calendar(sample.now), sample.draw)
      ensures readings == Newest(old(readings) + [reading], MaxReadings)
      ensures sensors == old(sensors)[k := old(sensors)[k].(lastSeen := sample.now)]
    {
      TouchAt(sensors, k, sample.now);
      reading := GenerateReadingFor(sensors[k], sample.now, calendar, sample.draw);
    }

    /** One pass of the calibration loop: generate and store a reading, then perturb the
        temperature of that same stored reading. */
    method CalibrationStep(sensor: Sensor, now: int, calendar: int -> Calendar, draw: Draw, nudge: int)
      returns (reading: Reading)
      requires Valid()
      modifies this
      ensures Valid()
      ensures reading == Perturb(SampleReading(sensor, now, calendar(now), draw), nudge)
      ensures readings == Newest(old(readings) + [reading], MaxReadings)
      ensures sensors == Touch(old(sensors), sensor.id, now)
    {
      var r := GenerateReadingFor(sensor, now, calendar, draw);
      NewestReplaceLast(old(readings), r, Perturb(r, nudge), MaxReadings);
      r := r.(temperature := r.temperature + nudge);
      readings := readings[..|readings| - 1] + [r];
      reading := r;
    }

    /** The calibration loop for a sensor already found in the registry: `iterations`
        steps, each stamping the sensor and storing one perturbed reading. */
    method CalibrationRun(sensor: Sensor, sensorId: string, iterations: int, calendar: int -> Calendar,
                          samples: seq<Sample>, nudges: seq<int>)
      returns (sequence: seq<Reading>)
      requires Valid() && sensor.id == sensorId
      requires iterations <= |samples| && iterations <= |nudges|
      modifies this
      ensures Valid()
      ensures sequence == Calibration(sensor, iterations, calendar, samples, nudges)
      ensures readings == Newest(old(readings) + sequence, MaxReadings)
      ensures iterations <= 0 ==> sensors == old(sensors)
      ensures iterations > 0 ==> sensors == Touch(old(sensors), sensorId, samples[iterations - 1].now)
    {
      ghost var c := Calibration(sensor, iterations, calendar, samples, nudges);
      sequence := [];
      var i := 0;
      while i < iterations
        invariant 0 <= i <= |c| && Valid()
        invariant sequence == c[..i]
        invariant readings == Newest(old(readings) + sequence, MaxReadings)
        invariant i == 0 ==> sensors == old(sensors)
        invariant i > 0 ==> sensors == Touch(old(sensors), sensorId, samples[i - 1].now)
      {
        ghost var before := old(readings) + sequence;
        CalibrationEntry(sensor, iterations, calendar, samples, nudges, i);
        var r := CalibrationStep(sensor, samples[i].now, calendar, samples[i].draw, nudges[i]);
        if i > 0 {
          TouchTwice(old(sensors), sensorId, samples[i - 1].now, samples[i].now);
        }
        NewestAppend(before, [r], MaxReadings);
        sequence := sequence + [r];
        assert before + [r] == old(readings) + sequence;
        i := i + 1;
      }
      assert sequence == c;
    }

    /** `simulateCalibration` with no delay: fails before doing anything for an unknown
        sensor; otherwise generates `iterations` readings, perturbs the temperature of each
        right after it is stored (the stored and the returned reading are one object), and
        returns them in order. */
    method SimulateCalibration(sensorId: string, iterations: int, calendar: int -> Calendar,
                               samples: seq<Sample>, nudges: seq<int>)
      returns (result: Result<seq<Reading>, string>)
      requires Valid()
      requires iterations <= |samples| && iterations <= |nudges|
      modifies this
      ensures Valid()
      ensures FindSensor(old(sensors), sensorId).None? ==>
        result == Failure(SensorNotFound) && sensors == old(sensors) && readings == old(readings)
      ensures FindSensor(old(sensors), sensorId).Some? ==>
        && result == Success(Calibration(FindSensor(old(sensors), sensorId).value, iterations, calendar, samples, nudges))
        && readings == Newest(old(readings) + result.value, MaxReadings)
      ensures FindSensor(old(sensors), sensorId).Some? && iterations <= 0 ==> sensors == old(sensors)
      ensures FindSensor(old(sensors), sensorId).Some? && iterations > 0 ==>
        sensors == Touch(old(sensors), sensorId, samples[iterations - 1].now)
    {
      var found := FindSensor(sensors, sensorId);
      if found.None? {
        return Failure(SensorNotFound);
      }
      var sequence := CalibrationRun(found.value, sensorId, iterations, calendar, samples, nudges);
      return Success(sequence);
    }
  }
}
