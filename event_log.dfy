/**
 * The audit log: one entry per decoded telemetry message, never edited or
 * removed once appended.
 */
module EventLog {
  import opened Registry

  /**
   * One log entry. The entry's id is the text `log-<receivedAt>-<motorId>`,
   * kept here as its two parts; `timestamp` is the sample time in milliseconds.
   */
  datatype LogEntry = LogEntry(
    receivedAt: int,
    motorId: string,
    timestamp: int,
    motor: string,
    status: string,
    confidence: int,
    temperature: int,
    vibration: int)

  /**
   * The name the log shows for `id`: the name of the first motor with that id,
   * or the id itself when there is none or its name is empty.
   */
  function DisplayName(ms: seq<Motor>, id: string): (r: string)
    ensures (forall i | 0 <= i < |ms| :: ms[i].id != id) ==> r == id
    ensures forall i | 0 <= i < |ms| && ms[i].id == id && (forall j | 0 <= j < i :: ms[j].id != id) ::
              r == (if ms[i].name != "" then ms[i].name else id)
    ensures r == id || exists i | 0 <= i < |ms| :: ms[i].id == id && ms[i].name == r
  {
    if ms == [] then id
    else if ms[0].id == id then (if ms[0].name != "" then ms[0].name else id)
    else
      var r := DisplayName(ms[1..], id);
      assert r != id ==> exists i | 0 <= i < |ms[1..]| :: ms[1..][i].id == id && ms[1..][i].name == r;
      assert forall i | 0 <= i < |ms[1..]| :: ms[1..][i] == ms[i + 1];
      r
  }

  /** In a registry with distinct ids, a registered motor with a name is logged under that name. */
  lemma DisplayNameOfRegistered(ms: seq<Motor>, i: nat, id: string)
    requires UniqueKeys(ms)
    requires i < |ms| && ms[i].id == id && ms[i].name != ""
    ensures DisplayName(ms, id) == ms[i].name
  {
  }

  /** The entry appended for sample `s`, received at `receivedAt`, with names taken from `ms`. */
  function EntryFor(ms: seq<Motor>, s: Sample, receivedAt: int): (e: LogEntry)
    ensures e.motorId == s.motorId && e.receivedAt == receivedAt && e.timestamp == s.timestamp
    ensures e.status == s.status && e.confidence == s.confidence
    ensures e.temperature == s.temperature && e.vibration == s.vibration
    ensures e.motor == DisplayName(ms, s.motorId)
  {
    LogEntry(receivedAt, s.motorId, s.timestamp, DisplayName(ms, s.motorId), s.status,
             s.confidence, s.temperature, s.vibration)
  }
}
