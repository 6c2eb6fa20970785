/**
 * Decoding one MQTT message into a telemetry sample, with the default
 * substitutions the message handler applies.
 */
module Telemetry {
  import opened Wrappers
  import opened Registry

  /**
   * The fields the handler reads from a parsed JSON payload. An absent field is
   * `None`; temperature and vibration are the numbers `parseFloat` yields.
   */
  datatype Payload = Payload(
    motorId: Option<string>,
    temperature: int,
    vibration: int,
    status: Option<string>,
    confidence: Option<int>,
    timestamp: Option<int>)    // Unix seconds

  /** A delivered message: either text that is not JSON, or a parsed payload. */
  datatype Message = Unparseable | Parsed(payload: Payload)

  const UnknownStatus: string := "Unknown"

  /** JavaScript truthiness of an optional string: absent and "" are falsy. */
  predicate PresentText(o: Option<string>) {
    o.Some? && o.value != ""
  }

  /** JavaScript truthiness of an optional number: absent and 0 are falsy. */
  predicate PresentNumber(o: Option<int>) {
    o.Some? && o.value != 0
  }

  /**
   * Decode a message received at `receivedAt` (milliseconds). `None` means the
   * handler returns without touching any state.
   */
  function Decode(msg: Message, receivedAt: int): (r: Option<Sample>)
    ensures r.None? <==> msg.Unparseable? || !PresentText(msg.payload.motorId)
    ensures r.Some? ==> r.value.motorId == msg.payload.motorId.value
    ensures r.Some? ==> (r.value.temperature == msg.payload.temperature &&
                         r.value.vibration == msg.payload.vibration)
    ensures r.Some? ==> r.value.status != ""
    ensures r.Some? && PresentText(msg.payload.status) ==> r.value.status == msg.payload.status.value
    ensures r.Some? && !PresentText(msg.payload.status) ==> r.value.status == UnknownStatus
    ensures r.Some? ==> r.value.confidence == msg.payload.confidence.GetOr(0)
    ensures r.Some? && PresentNumber(msg.payload.timestamp) ==>
              r.value.timestamp == msg.payload.timestamp.value * 1000
    ensures r.Some? && !PresentNumber(msg.payload.timestamp) ==> r.value.timestamp == receivedAt
  {
    match msg
    case Unparseable => None
    case Parsed(p) =>
      if !PresentText(p.motorId) then None
      else
        var timestamp := if PresentNumber(p.timestamp) then p.timestamp.value * 1000 else receivedAt;
        var status := if PresentText(p.status) then p.status.value else UnknownStatus;
        var confidence := if PresentNumber(p.confidence) then p.confidence.value else 0;
        Some(Sample(p.motorId.value, p.temperature, p.vibration, status, confidence, timestamp))
  }

  /** The message a well-behaved sensor would publish for a sample. */
  function Encode(s: Sample): Message {
    Parsed(Payload(Some(s.motorId), s.temperature, s.vibration, Some(s.status),
                   Some(s.confidence), Some(s.timestamp / 1000)))
  }

  /**
   * Decoding an encoded sample gives it back, whatever the receipt time, as
   * long as it has an id and a status and a whole, non-zero number of seconds.
   */
  lemma DecodeEncode(s: Sample, receivedAt: int)
    requires s.motorId != "" && s.status != ""
    requires s.timestamp % 1000 == 0 && s.timestamp != 0
    ensures Decode(Encode(s), receivedAt) == Some(s)
  {
    assert s.timestamp / 1000 * 1000 == s.timestamp;
  }
}
