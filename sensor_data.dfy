/**
 * Selecting one motor's readings from a snapshot of the realtime database's
 * `sensorData` list: keep that motor's entries, tag each with its key, order
 * them newest first, and (for the latest-reading query) take the first.
 */
module SensorData {
  import opened Wrappers
  import opened Sequences

  /** A stored reading: the motor it belongs to, its server timestamp, and its measured values. */
  datatype Reading = Reading(motorId: string, timestamp: int, values: map<string, int>)

  /** A reading with its database key attached as `id`. */
  datatype Tagged = Tagged(id: string, reading: Reading)

  /** The snapshot's (key, reading) entries in enumeration order; `None` when its value is null. */
  type Snapshot = Option<seq<(string, Reading)>>

  /** Every entry tagged with its key, in enumeration order. */
  function TagAll(entries: seq<(string, Reading)>): (r: seq<Tagged>)
    ensures |r| == |entries|
    ensures forall i | 0 <= i < |entries| :: r[i] == Tagged(entries[i].0, entries[i].1)
  {
    seq(|entries|, i requires 0 <= i < |entries| => Tagged(entries[i].0, entries[i].1))
  }

  /**
   * `entries.filter(motorId matches).map(tag with key)`: the matching entries,
   * each as often as it occurs, in enumeration order.
   */
  function Matching(entries: seq<(string, Reading)>, motorId: string): (r: seq<Tagged>)
    ensures |r| <= |entries|
    ensures forall t | t in r :: t.reading.motorId == motorId
    ensures forall t :: t in r <==> (t.id, t.reading) in entries && t.reading.motorId == motorId
    ensures forall t :: multiset(r)[t] ==
              (if t.reading.motorId == motorId then multiset(entries)[(t.id, t.reading)] else 0)
    ensures SubsequenceOf(r, TagAll(entries))
  {
    if entries == [] then []
    else
      var rest := Matching(entries[1..], motorId);
      var tagged := TagAll(entries);
      assert entries == [entries[0]] + entries[1..];
      assert multiset(entries) == multiset{entries[0]} + multiset(entries[1..]);
      assert tagged[1..] == TagAll(entries[1..]);
      if entries[0].1.motorId == motorId then
        var r := [Tagged(entries[0].0, entries[0].1)] + rest;
        assert multiset(r) == multiset{r[0]} + multiset(rest);
        assert r[1..] == rest;
        r
      else rest
  }

  /** Timestamps never increase along the list. */
  predicate NewestFirst(ts: seq<Tagged>) {
    forall i, j | 0 <= i < j < |ts| :: ts[i].reading.timestamp >= ts[j].reading.timestamp
  }

  /** A reading no older than any of a newest-first list can go in front of it. */
  lemma NewestFirstCons(x: Tagged, rest: seq<Tagged>)
    requires NewestFirst(rest)
    requires forall y | y in rest :: y.reading.timestamp <= x.reading.timestamp
    ensures NewestFirst([x] + rest)
  {
    var r := [x] + rest;
    forall i, j | 0 <= i < j < |r| ensures r[i].reading.timestamp >= r[j].reading.timestamp {
      assert r[j] == rest[j - 1];
      if i > 0 {
        assert r[i] == rest[i - 1];
      }
    }
  }

  /** The head of a newest-first list is no older than anything behind it. */
  lemma HeadIsNewest(sorted: seq<Tagged>)
    requires sorted != [] && NewestFirst(sorted)
    ensures NewestFirst(sorted[1..])
    ensures forall x | x in sorted[1..] :: x.reading.timestamp <= sorted[0].reading.timestamp
  {
    forall x | x in sorted[1..] ensures x.reading.timestamp <= sorted[0].reading.timestamp {
      var k :| 0 <= k < |sorted[1..]| && sorted[1..][k] == x;
      assert sorted[k + 1] == x;
    }
  }

  /** Put `t` in front of the first entry that is not newer than it. */
  function InsertNewestFirst(t: Tagged, sorted: seq<Tagged>): (r: seq<Tagged>)
    requires NewestFirst(sorted)
    ensures NewestFirst(r)
    ensures multiset(r) == multiset(sorted) + multiset{t}
    ensures forall x | x in r :: x == t || x in sorted
  {
    if sorted == [] || sorted[0].reading.timestamp <= t.reading.timestamp then
      NewestFirstCons(t, sorted);
      [t] + sorted
    else
      HeadIsNewest(sorted);
      var rest := InsertNewestFirst(t, sorted[1..]);
      KeepHeadInFront(t, sorted, rest);
      [sorted[0]] + rest
  }

  /** When `t` went behind the head, the head stays in front of the rest. */
  lemma KeepHeadInFront(t: Tagged, sorted: seq<Tagged>, rest: seq<Tagged>)
    requires sorted != [] && NewestFirst(sorted)
    requires t.reading.timestamp < sorted[0].reading.timestamp
    requires NewestFirst(rest)
    requires multiset(rest) == multiset(sorted[1..]) + multiset{t}
    requires forall x | x in rest :: x == t || x in sorted[1..]
    ensures NewestFirst([sorted[0]] + rest)
    ensures multiset([sorted[0]] + rest) == multiset(sorted) + multiset{t}
    ensures forall x | x in [sorted[0]] + rest :: x == t || x in sorted
  {
    HeadIsNewest(sorted);
    NewestFirstCons(sorted[0], rest);
    assert sorted == [sorted[0]] + sorted[1..];
  }

  /** `sort((a, b) => b.timestamp - a.timestamp)`, stable as JavaScript's sort is. */
  function SortNewestFirst(ts: seq<Tagged>): (r: seq<Tagged>)
    ensures NewestFirst(r)
    ensures multiset(r) == multiset(ts)
    ensures |r| == |ts|
  {
    if ts == [] then []
    else
      assert ts == [ts[0]] + ts[1..];
      InsertNewestFirst(ts[0], SortNewestFirst(ts[1..]))
  }

  /** One motor's readings, tagged with their keys, newest first. */
  function MotorReadings(entries: seq<(string, Reading)>, motorId: string): (r: seq<Tagged>)
    ensures NewestFirst(r)
    ensures forall t :: t in r <==> (t.id, t.reading) in entries && t.reading.motorId == motorId
    ensures forall t :: multiset(r)[t] ==
              (if t.reading.motorId == motorId then multiset(entries)[(t.id, t.reading)] else 0)
  {
    var matching := Matching(entries, motorId);
    var r := SortNewestFirst(matching);
    assert forall t :: t in r <==> t in multiset(matching);
    r
  }

  /** The value `subscribeToSensorData` hands its callback: null for a null snapshot. */
  function SensorFeed(snapshot: Snapshot, motorId: string): (r: Option<seq<Tagged>>)
    ensures r.None? <==> snapshot.None?
    ensures r.Some? ==> NewestFirst(r.value)
    ensures r.Some? ==> forall t :: t in r.value <==>
              (t.id, t.reading) in snapshot.value && t.reading.motorId == motorId
    ensures r.Some? ==> forall t :: multiset(r.value)[t] ==
                          (if t.reading.motorId == motorId then multiset(snapshot.value)[(t.id, t.reading)] else 0)
  {
    match snapshot
    case None => None
    case Some(entries) => Some(MotorReadings(entries, motorId))
  }

  /** The head of a motor's newest-first readings is no older than any of its entries. */
  lemma HeadIsLatest(entries: seq<(string, Reading)>, motorId: string)
    ensures MotorReadings(entries, motorId) == [] <==>
              forall e | e in entries :: e.1.motorId != motorId
    ensures MotorReadings(entries, motorId) != [] ==>
              forall e | e in entries && e.1.motorId == motorId ::
                e.1.timestamp <= MotorReadings(entries, motorId)[0].reading.timestamp
  {
    var readings := MotorReadings(entries, motorId);
    forall e | e in entries && e.1.motorId == motorId
      ensures readings != [] && e.1.timestamp <= readings[0].reading.timestamp
    {
      assert Tagged(e.0, e.1) in readings;
      var i :| 0 <= i < |readings| && readings[i] == Tagged(e.0, e.1);
      if i > 0 {
        assert readings[0].reading.timestamp >= readings[i].reading.timestamp;
      }
    }
    if readings != [] {
      assert readings[0] in readings;
    }
  }

  /**
   * The value `getLatestSensorData` resolves to: the first of the motor's
   * readings newest first, or null when the snapshot is null or has none for it.
   */
  function LatestReading(snapshot: Snapshot, motorId: string): (r: Option<Tagged>)
    ensures r.None? <==> snapshot.None? || forall e | e in snapshot.value :: e.1.motorId != motorId
    ensures r.Some? ==> (r.value.id, r.value.reading) in snapshot.value
    ensures r.Some? ==> r.value.reading.motorId == motorId
    ensures r.Some? ==> forall e | e in snapshot.value && e.1.motorId == motorId ::
              e.1.timestamp <= r.value.reading.timestamp
  {
    match snapshot
    case None => None
    case Some(entries) =>
      var readings := MotorReadings(entries, motorId);
      HeadIsLatest(entries, motorId);
      if readings == [] then None
      else
        assert readings[0] in readings;
        Some(readings[0])
  }

  /** The latest reading is the head of what the subscription callback receives. */
  lemma LatestIsFeedHead(snapshot: Snapshot, motorId: string)
    ensures LatestReading(snapshot, motorId).Some? <==>
              SensorFeed(snapshot, motorId).Some? && SensorFeed(snapshot, motorId).value != []
    ensures LatestReading(snapshot, motorId).Some? ==>
              LatestReading(snapshot, motorId).value == SensorFeed(snapshot, motorId).value[0]
  {
  }
}
