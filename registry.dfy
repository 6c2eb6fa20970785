/**
 * The motor registry held by the motors provider: the list of motor records
 * and the pure updaters the provider hands to its state setter when a motor
 * is added, removed, or receives a telemetry sample.
 */
module Registry {
  import opened Wrappers
  import opened Sequences

  /** One monitored motor. Measurements are abstract numbers; `None` is null. */
  datatype Motor = Motor(
    id: string,
    name: string,
    location: string,
    temperature: Option<int>,
    vibration: Option<int>,
    status: string,
    confidence: int,
    lastUpdated: Option<int>)   // milliseconds since the epoch

  /** A decoded telemetry sample for one motor. */
  datatype Sample = Sample(
    motorId: string,
    temperature: int,
    vibration: int,
    status: string,
    confidence: int,
    timestamp: int)             // milliseconds since the epoch

  const DisconnectedStatus: string := "Disconnected"

  /** The record a freshly added motor starts with. */
  function NewMotor(id: string, name: string, location: string): Motor {
    Motor(id, name, location, None, None, DisconnectedStatus, 0, None)
  }

  /** Ids and names are pairwise distinct. */
  ghost predicate UniqueKeys(ms: seq<Motor>) {
    forall i, j | 0 <= i < j < |ms| :: ms[i].id != ms[j].id && ms[i].name != ms[j].name
  }

  /** Some motor already carries this id or this name. */
  predicate Clashes(ms: seq<Motor>, id: string, name: string) {
    exists i | 0 <= i < |ms| :: ms[i].name == name || ms[i].id == id
  }

  /** The ids of the registry, in order. */
  function IdsOf(ms: seq<Motor>): (ids: seq<string>)
    ensures |ids| == |ms|
    ensures forall i | 0 <= i < |ms| :: ids[i] == ms[i].id
  {
    seq(|ms|, i requires 0 <= i < |ms| => ms[i].id)
  }

  // ---------------------------------------------------------------- add

  /** The add updater: a clash on id or name leaves the registry as it is. */
  function InsertMotor(ms: seq<Motor>, id: string, name: string, location: string): (r: seq<Motor>)
    ensures ms <= r && |r| <= |ms| + 1
    ensures |r| == |ms| + 1 <==> !Clashes(ms, id, name)
    ensures |r| == |ms| + 1 ==> r[|ms|] == NewMotor(id, name, location)
    ensures Clashes(r, id, name)
  {
    if Clashes(ms, id, name) then ms
    else
      assert (ms + [NewMotor(id, name, location)])[|ms|].id == id;
      ms + [NewMotor(id, name, location)]
  }

  /** Adding keeps ids and names pairwise distinct. */
  lemma InsertKeepsUnique(ms: seq<Motor>, id: string, name: string, location: string)
    requires UniqueKeys(ms)
    ensures UniqueKeys(InsertMotor(ms, id, name, location))
  {
    var r := InsertMotor(ms, id, name, location);
    if |r| == |ms| + 1 {
      forall i, j | 0 <= i < j < |r|
        ensures r[i].id != r[j].id && r[i].name != r[j].name
      {
        if j == |ms| {
          assert r[i] == ms[i];
          assert !Clashes(ms, id, name);
        }
      }
    }
  }

  /** A series of adds, applied left to right, as the provider's callers issue them. */
  function InsertAll(ms: seq<Motor>, adds: seq<(string, string, string)>): (r: seq<Motor>)
    ensures ms <= r && |r| <= |ms| + |adds|
    decreases |adds|
  {
    if adds == [] then ms
    else InsertAll(InsertMotor(ms, adds[0].0, adds[0].1, adds[0].2), adds[1..])
  }

  /** Any sequence of adds starting from a registry with distinct keys keeps them distinct. */
  lemma {:induction false} InsertAllKeepsUnique(ms: seq<Motor>, adds: seq<(string, string, string)>)
    requires UniqueKeys(ms)
    ensures UniqueKeys(InsertAll(ms, adds))
    decreases |adds|
  {
    if adds != [] {
      InsertKeepsUnique(ms, adds[0].0, adds[0].1, adds[0].2);
      InsertAllKeepsUnique(InsertMotor(ms, adds[0].0, adds[0].1, adds[0].2), adds[1..]);
    }
  }

  /** Adding one more at the end of a series is one more add after the series. */
  lemma {:induction false} InsertAllSnoc(ms: seq<Motor>, adds: seq<(string, string, string)>,
                                         x: (string, string, string))
    ensures InsertAll(ms, adds + [x]) == InsertMotor(InsertAll(ms, adds), x.0, x.1, x.2)
    decreases |adds|
  {
    if adds == [] {
      assert adds + [x] == [x];
      assert [x][1..] == [];
    } else {
      assert (adds + [x])[0] == adds[0];
      assert (adds + [x])[1..] == adds[1..] + [x];
      InsertAllSnoc(InsertMotor(ms, adds[0].0, adds[0].1, adds[0].2), adds[1..], x);
    }
  }

  /** After a series of adds, every requested id or name is taken, and nothing was lost. */
  lemma {:induction false} InsertAllCovers(ms: seq<Motor>, adds: seq<(string, string, string)>)
    ensures forall k | 0 <= k < |adds| :: Clashes(InsertAll(ms, adds), adds[k].0, adds[k].1)
    decreases |adds|
  {
    if adds != [] {
      var first := InsertMotor(ms, adds[0].0, adds[0].1, adds[0].2);
      InsertAllCovers(first, adds[1..]);
      var r := InsertAll(first, adds[1..]);
      forall k | 0 <= k < |adds| ensures Clashes(r, adds[k].0, adds[k].1) {
        if k == 0 {
          var i :| 0 <= i < |first| && (first[i].name == adds[0].1 || first[i].id == adds[0].0);
          assert r[i] == first[i];
        } else {
          assert adds[k] == adds[1..][k - 1];
        }
      }
    }
  }

  /** An add whose id or name is already taken changes nothing. */
  lemma InsertClashingIsNoop(ms: seq<Motor>, id: string, name: string, location: string)
    requires Clashes(ms, id, name)
    ensures InsertMotor(ms, id, name, location) == ms
  {
  }

  // ---------------------------------------------------------------- remove

  /**
   * The remove updater: keep every motor whose id differs. Each kept motor
   * appears as often as in the registry, in the registry's order.
   */
  function DeleteMotor(ms: seq<Motor>, id: string): (r: seq<Motor>)
    ensures forall m :: m in r <==> m in ms && m.id != id
    ensures forall m :: multiset(r)[m] == if m.id != id then multiset(ms)[m] else 0
    ensures SubsequenceOf(r, ms)
    ensures (forall i | 0 <= i < |ms| :: ms[i].id != id) ==> r == ms
  {
    if ms == [] then []
    else
      var rest := DeleteMotor(ms[1..], id);
      assert ms == [ms[0]] + ms[1..];
      assert multiset(ms) == multiset{ms[0]} + multiset(ms[1..]);
      if ms[0].id == id then rest
      else
        var r := [ms[0]] + rest;
        assert multiset(r) == multiset{ms[0]} + multiset(rest);
        assert r[1..] == rest;
        r
  }

  /** Dropping the first motor keeps the keys distinct. */
  lemma UniqueTail(ms: seq<Motor>)
    requires ms != [] && UniqueKeys(ms)
    ensures UniqueKeys(ms[1..])
    ensures forall m | m in ms[1..] :: m.id != ms[0].id && m.name != ms[0].name
  {
    var rest := ms[1..];
    forall i, j | 0 <= i < j < |rest| ensures rest[i].id != rest[j].id && rest[i].name != rest[j].name {
      assert rest[i] == ms[i + 1] && rest[j] == ms[j + 1];
    }
    forall m | m in rest ensures m.id != ms[0].id && m.name != ms[0].name {
      var k :| 0 <= k < |rest| && rest[k] == m;
      assert ms[k + 1] == m;
    }
  }

  /** A motor whose id and name differ from every motor of a distinct-keyed list can go in front. */
  lemma UniqueCons(m: Motor, ms: seq<Motor>)
    requires UniqueKeys(ms)
    requires forall x | x in ms :: x.id != m.id && x.name != m.name
    ensures UniqueKeys([m] + ms)
  {
    var r := [m] + ms;
    forall i, j | 0 <= i < j < |r| ensures r[i].id != r[j].id && r[i].name != r[j].name {
      assert r[j] == ms[j - 1];
      if i > 0 {
        assert r[i] == ms[i - 1];
      }
    }
  }

  /** Removing keeps ids and names pairwise distinct. */
  lemma {:induction false} DeleteKeepsUnique(ms: seq<Motor>, id: string)
    requires UniqueKeys(ms)
    ensures UniqueKeys(DeleteMotor(ms, id))
  {
    if ms != [] {
      UniqueTail(ms);
      DeleteKeepsUnique(ms[1..], id);
      if ms[0].id != id {
        UniqueCons(ms[0], DeleteMotor(ms[1..], id));
      }
    }
  }

  // ---------------------------------------------------------------- telemetry

  /** The stored update time as the change check reads it: null counts as 0. */
  function LastMillis(m: Motor): int {
    m.lastUpdated.GetOr(0)
  }

  /** Whether any of the five compared fields differs from the sample. */
  predicate Differs(m: Motor, s: Sample) {
    || m.temperature != Some(s.temperature)
    || m.vibration != Some(s.vibration)
    || m.status != s.status
    || m.confidence != s.confidence
    || LastMillis(m) != s.timestamp
  }

  /** The record shows exactly the sample's readings. */
  predicate Shows(m: Motor, s: Sample) {
    !Differs(m, s)
  }

  /**
   * One record under the telemetry updater: the sample's motor ends up showing
   * the sample, keeping its id, name and location; any other record, and a
   * record that already shows it, is returned as it was.
   */
  function UpdateMotor(m: Motor, s: Sample): (r: Motor)
    ensures r.id == m.id && r.name == m.name && r.location == m.location
    ensures m.id == s.motorId ==> Shows(r, s)
    ensures m.id != s.motorId ==> r == m
    ensures Shows(m, s) ==> r == m
  {
    if m.id == s.motorId && Differs(m, s) then
      m.(temperature := Some(s.temperature), vibration := Some(s.vibration),
         status := s.status, confidence := s.confidence, lastUpdated := Some(s.timestamp))
    else m
  }

  /** The telemetry updater: only records with the sample's id change, and only if something differs. */
  function ApplySample(ms: seq<Motor>, s: Sample): (r: seq<Motor>)
    ensures |r| == |ms|
    ensures forall i | 0 <= i < |ms| ::
      && r[i].id == ms[i].id && r[i].name == ms[i].name && r[i].location == ms[i].location
    ensures forall i | 0 <= i < |ms| && ms[i].id != s.motorId :: r[i] == ms[i]
  {
    seq(|ms|, i requires 0 <= i < |ms| => UpdateMotor(ms[i], s))
  }

  /**
   * Change detection: every record of the sample's motor shows the sample
   * afterwards, and a record that already showed it is left as it was.
   */
  lemma ApplySampleShows(ms: seq<Motor>, s: Sample)
    ensures forall i | 0 <= i < |ms| && ms[i].id == s.motorId :: Shows(ApplySample(ms, s)[i], s)
    ensures forall i | 0 <= i < |ms| && Shows(ms[i], s) :: ApplySample(ms, s)[i] == ms[i]
  {
  }

  /** A reading for an id the registry does not hold leaves the registry as it was. */
  lemma ApplySampleUnknownId(ms: seq<Motor>, s: Sample)
    requires forall i | 0 <= i < |ms| :: ms[i].id != s.motorId
    ensures ApplySample(ms, s) == ms
  {
  }

  /** Applying the same sample twice is the same as applying it once. */
  lemma ApplySampleIdempotent(ms: seq<Motor>, s: Sample)
    ensures ApplySample(ApplySample(ms, s), s) == ApplySample(ms, s)
  {
    var once := ApplySample(ms, s);
    var twice := ApplySample(once, s);
    ApplySampleShows(ms, s);
    ApplySampleShows(once, s);
    forall i | 0 <= i < |ms| ensures twice[i] == once[i] {
      if ms[i].id == s.motorId {
        assert Shows(once[i], s);
      }
    }
  }

  /** Telemetry never changes ids or names, so distinct keys stay distinct. */
  lemma ApplySampleKeepsUnique(ms: seq<Motor>, s: Sample)
    requires UniqueKeys(ms)
    ensures UniqueKeys(ApplySample(ms, s))
  {
  }
}
