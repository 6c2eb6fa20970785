/**
 * What the provider reads from and writes to local storage: the motor list
 * (key `motors`) and the audit log (key `historyData`), as JSON values.
 * Storage access itself is outside the model; a missing key is `None`.
 */
module Persistence {
  import opened Wrappers
  import opened Registry
  import opened EventLog

  /** The JSON values a stored measurement field may hold. */
  datatype Json = JNull | JBool(b: bool) | JNumber(n: int) | JString(s: string)

  /**
   * A motor as stored. `lastUpdated` is an ISO-8601 string or null; the model
   * keeps the instant the string denotes.
   */
  datatype StoredMotor = StoredMotor(
    id: string,
    name: string,
    location: string,
    temperature: Json,
    vibration: Json,
    status: string,
    confidence: Json,
    lastUpdated: Option<int>)

  /** `typeof v === 'number' ? v : null` */
  function NumberOrNull(j: Json): (r: Option<int>)
    ensures r.Some? <==> j.JNumber?
    ensures r.Some? ==> r.value == j.n
  {
    if j.JNumber? then Some(j.n) else None
  }

  /** `typeof v === 'number' ? v : 0` */
  function NumberOrZero(j: Json): (r: int)
    ensures j.JNumber? ==> r == j.n
    ensures !j.JNumber? ==> r == 0
  {
    if j.JNumber? then j.n else 0
  }

  /**
   * A stored motor as the loader coerces it: the text fields and the update
   * time carried over, a non-number measurement read as null and a
   * non-number confidence as 0.
   */
  function LoadMotor(sm: StoredMotor): (r: Motor)
    ensures r.id == sm.id && r.name == sm.name && r.location == sm.location
    ensures r.status == sm.status && r.lastUpdated == sm.lastUpdated
    ensures r.temperature.Some? <==> sm.temperature.JNumber?
    ensures r.temperature.Some? ==> r.temperature.value == sm.temperature.n
    ensures r.vibration.Some? <==> sm.vibration.JNumber?
    ensures r.vibration.Some? ==> r.vibration.value == sm.vibration.n
    ensures r.confidence == if sm.confidence.JNumber? then sm.confidence.n else 0
  {
    Motor(sm.id, sm.name, sm.location, NumberOrNull(sm.temperature), NumberOrNull(sm.vibration),
          sm.status, NumberOrZero(sm.confidence), sm.lastUpdated)
  }

  /** A motor as the saver writes it: numbers stay numbers, null stays null, so loading gives it back. */
  function SaveMotor(m: Motor): (r: StoredMotor)
    ensures r.confidence.JNumber?
    ensures LoadMotor(r) == m
  {
    StoredMotor(m.id, m.name, m.location,
                if m.temperature.Some? then JNumber(m.temperature.value) else JNull,
                if m.vibration.Some? then JNumber(m.vibration.value) else JNull,
                m.status, JNumber(m.confidence), m.lastUpdated)
  }

  /** The registry loaded at start-up; missing storage gives an empty registry. */
  function LoadMotors(stored: Option<seq<StoredMotor>>): (r: seq<Motor>)
    ensures stored.None? ==> r == []
    ensures stored.Some? ==> |r| == |stored.value|
    ensures stored.Some? ==> forall i | 0 <= i < |r| ::
      && r[i].id == stored.value[i].id && r[i].name == stored.value[i].name
      && r[i].location == stored.value[i].location && r[i].status == stored.value[i].status
      && (r[i].temperature.Some? <==> stored.value[i].temperature.JNumber?)
      && (r[i].temperature.Some? ==> r[i].temperature.value == stored.value[i].temperature.n)
      && (r[i].vibration.Some? <==> stored.value[i].vibration.JNumber?)
      && (r[i].vibration.Some? ==> r[i].vibration.value == stored.value[i].vibration.n)
      && (stored.value[i].confidence.JNumber? ==> r[i].confidence == stored.value[i].confidence.n)
      && (!stored.value[i].confidence.JNumber? ==> r[i].confidence == 0)
      && r[i].lastUpdated == stored.value[i].lastUpdated
  {
    match stored
    case None => []
    case Some(sms) => seq(|sms|, i requires 0 <= i < |sms| => LoadMotor(sms[i]))
  }

  /** The motor list as written back to storage. */
  function SaveMotors(ms: seq<Motor>): (r: seq<StoredMotor>)
    ensures |r| == |ms|
    ensures forall i | 0 <= i < |ms| :: r[i].confidence.JNumber? && r[i].id == ms[i].id
    ensures forall i | 0 <= i < |ms| :: ms[i].lastUpdated.None? <==> r[i].lastUpdated.None?
  {
    seq(|ms|, i requires 0 <= i < |ms| => SaveMotor(ms[i]))
  }

  /** The log loaded at start-up; missing storage gives an empty log. */
  function LoadLog(stored: Option<seq<LogEntry>>): (r: seq<LogEntry>)
    ensures stored.None? ==> r == []
    ensures stored.Some? ==> r == stored.value
  {
    stored.GetOr([])
  }

  /** Whatever the provider saves, it loads back unchanged. */
  lemma LoadSaveRoundTrip(ms: seq<Motor>)
    ensures LoadMotors(Some(SaveMotors(ms))) == ms
  {
    var back := LoadMotors(Some(SaveMotors(ms)));
    forall i | 0 <= i < |ms| ensures back[i] == ms[i] {
      assert back[i] == LoadMotor(SaveMotor(ms[i]));
    }
  }

  /** Loading is idempotent with respect to a save: a second save/load cycle changes nothing. */
  lemma SaveLoadStable(stored: Option<seq<StoredMotor>>)
    ensures LoadMotors(Some(SaveMotors(LoadMotors(stored)))) == LoadMotors(stored)
  {
    LoadSaveRoundTrip(LoadMotors(stored));
  }
}
