/**
 * The motors provider: the registry, the per-motor chart history, the audit
 * log, the set of MQTT topics the client believes it is subscribed to, and the
 * connected flag, with the operations that change them.
 *
 * The MQTT client is an oracle: whether a subscribe or unsubscribe succeeds is
 * a parameter, and messages are handed in one at a time.
 */
module MotorsContext {
  import opened Wrappers
  import opened Registry
  import opened Telemetry
  import opened ChartHistory
  import opened EventLog
  import opened Persistence
  import opened Subscriptions

  class MotorsProvider {
    var motors: seq<Motor>
    var liveMotorDataHistory: map<string, Series>
    var historyData: seq<LogEntry>
    var subscribedTopics: set<string>
    var mqttConnected: bool
    var hasClient: bool

    /** Every chart series has three equal-length parts of at most 60 samples. */
    ghost predicate Valid()
      reads this
    {
      AllWellFormed(liveMotorDataHistory)
    }

    /** Start-up: load the registry and log from storage; no client, nothing subscribed. */
    constructor(storedMotors: Option<seq<StoredMotor>>, storedHistory: Option<seq<LogEntry>>)
      ensures Valid()
      ensures motors == LoadMotors(storedMotors) && historyData == LoadLog(storedHistory)
      ensures liveMotorDataHistory == map[] && subscribedTopics == {}
      ensures !mqttConnected && !hasClient
    {
      motors := LoadMotors(storedMotors);
      historyData := LoadLog(storedHistory);
      liveMotorDataHistory := map[];
      subscribedTopics := {};
      mqttConnected := false;
      hasClient := false;
    }

    /** The mount effect creates the client. */
    method CreateClient()
      modifies this`hasClient
      ensures hasClient
    {
      hasClient := true;
    }

    /** The client's `connect`, `error` and `close` events set the connected flag. */
    method SetConnected(connected: bool)
      modifies this`mqttConnected
      ensures mqttConnected == connected
    {
      mqttConnected := connected;
    }

    /** The mount effect's cleanup forgets every tracked topic. */
    method Cleanup()
      modifies this`subscribedTopics
      ensures subscribedTopics == {}
    {
      subscribedTopics := {};
    }

    /**
     * The message handler. A message that decodes updates the registry through
     * change detection, and always appends one chart sample and one log entry,
     * even when the registry did not change or does not know the id.
     */
    method HandleMessage(msg: Message, receivedAt: int)
      requires Valid()
      modifies this`motors, this`liveMotorDataHistory, this`historyData
      ensures Valid()
      ensures Decode(msg, receivedAt).None? ==>
        && motors == old(motors)
        && liveMotorDataHistory == old(liveMotorDataHistory)
        && historyData == old(historyData)
      ensures Decode(msg, receivedAt).Some? ==>
        && motors == ApplySample(old(motors), Decode(msg, receivedAt).value)
        && liveMotorDataHistory == RecordSample(old(liveMotorDataHistory),
             Decode(msg, receivedAt).value.motorId, Decode(msg, receivedAt).value.temperature,
             Decode(msg, receivedAt).value.vibration, Decode(msg, receivedAt).value.timestamp)
        && historyData == old(historyData) + [EntryFor(old(motors), Decode(msg, receivedAt).value, receivedAt)]
      ensures UniqueKeys(old(motors)) ==> UniqueKeys(motors)
    {
      var decoded := Decode(msg, receivedAt);
      if decoded.Some? {
        Record(decoded.value, receivedAt);
      }
    }

    /** The body of the message handler once a sample has been decoded. */
    method Record(s: Sample, receivedAt: int)
      requires Valid()
      modifies this`motors, this`liveMotorDataHistory, this`historyData
      ensures Valid()
      ensures motors == ApplySample(old(motors), s)
      ensures liveMotorDataHistory ==
        RecordSample(old(liveMotorDataHistory), s.motorId, s.temperature, s.vibration, s.timestamp)
      ensures historyData == old(historyData) + [EntryFor(old(motors), s, receivedAt)]
      ensures UniqueKeys(old(motors)) ==> UniqueKeys(motors)
    {
      RecordChart(s);
      RecordRegistryAndLog(s, receivedAt);
    }

    /** The chart half: one more sample in the motor's series. */
    method RecordChart(s: Sample)
      requires Valid()
      modifies this`liveMotorDataHistory
      ensures Valid()
      ensures liveMotorDataHistory ==
        RecordSample(old(liveMotorDataHistory), s.motorId, s.temperature, s.vibration, s.timestamp)
    {
      liveMotorDataHistory :=
        RecordSample(liveMotorDataHistory, s.motorId, s.temperature, s.vibration, s.timestamp);
    }

    /** The registry and log half: change detection, then one more log entry. */
    method RecordRegistryAndLog(s: Sample, receivedAt: int)
      modifies this`motors, this`historyData
      ensures motors == ApplySample(old(motors), s)
      ensures historyData == old(historyData) + [EntryFor(old(motors), s, receivedAt)]
      ensures UniqueKeys(old(motors)) ==> UniqueKeys(motors)
    {
      var entry := EntryFor(motors, s, receivedAt);
      if UniqueKeys(motors) {
        ApplySampleKeepsUnique(motors, s);
      }
      motors, historyData := ApplySample(motors, s), historyData + [entry];
    }

    /**
     * The subscription effect. With a connected client it drops every tracked
     * topic no motor wants (whatever the unsubscribe outcome), then requests a
     * subscribe for each motor whose topic is not tracked; the success callbacks,
     * which run after the pass, add the topics `subscribeOk` accepts.
     */
    method ReconcileSubscriptions(subscribeOk: string -> bool)
      returns (unsubscribeRequests: seq<string>, subscribeRequests: seq<string>)
      modifies this`subscribedTopics
      ensures !(hasClient && mqttConnected) ==>
        && subscribedTopics == old(subscribedTopics)
        && unsubscribeRequests == [] && subscribeRequests == []
      ensures hasClient && mqttConnected ==>
        && (forall t :: t in unsubscribeRequests <==>
              t in old(subscribedTopics) && t !in DesiredTopics(motors))
        && (forall t :: t in subscribeRequests <==>
              t in DesiredTopics(motors) && t !in old(subscribedTopics))
        && subscribedTopics == Reconciled(old(subscribedTopics), DesiredTopics(motors), subscribeOk)
      ensures hasClient && mqttConnected ==> subscribedTopics <= DesiredTopics(motors)
    {
      unsubscribeRequests, subscribeRequests := [], [];
      if !hasClient || !mqttConnected {
        return;
      }
      var currentTopics := DesiredTopics(motors);
      unsubscribeRequests := DropUnwanted(currentTopics);
      subscribeRequests := RequestMissing();
      ApplySubscribeOutcomes(subscribeRequests, subscribeOk);
      assert subscribedTopics == Reconciled(old(subscribedTopics), currentTopics, subscribeOk) by {
        forall t ensures t in subscribedTopics <==> t in Reconciled(old(subscribedTopics), currentTopics, subscribeOk) {
        }
      }
    }

    /** The first pass: unsubscribe and forget every tracked topic outside `currentTopics`. */
    method DropUnwanted(currentTopics: set<string>) returns (unsubscribeRequests: seq<string>)
      modifies this`subscribedTopics
      ensures forall t :: t in unsubscribeRequests <==>
                t in old(subscribedTopics) && t !in currentTopics
      ensures subscribedTopics == old(subscribedTopics) * currentTopics
    {
      unsubscribeRequests := [];
      // Visit every tracked topic; each one no motor wants gets an unsubscribe.
      var pending := subscribedTopics;
      while pending != {}
        invariant pending <= subscribedTopics
        invariant forall t :: t in unsubscribeRequests <==>
                    t in subscribedTopics && t !in pending && t !in currentTopics
        decreases pending
      {
        var topic :| topic in pending;
        if topic !in currentTopics {
          unsubscribeRequests := unsubscribeRequests + [topic];
        }
        pending := pending - {topic};
      }

      // Forget them all, whether or not the unsubscribe succeeds.
      for i := 0 to |unsubscribeRequests|
        invariant forall t :: t in subscribedTopics <==>
                    t in old(subscribedTopics) && t !in unsubscribeRequests[..i]
      {
        subscribedTopics := subscribedTopics - {unsubscribeRequests[i]};
      }
      assert unsubscribeRequests[..|unsubscribeRequests|] == unsubscribeRequests;
    }

    /** The second pass: a subscribe request for every motor whose topic is not tracked. */
    method RequestMissing() returns (subscribeRequests: seq<string>)
      ensures forall t :: t in subscribeRequests <==>
                t in DesiredTopics(motors) && t !in subscribedTopics
    {
      subscribeRequests := [];
      for k := 0 to |motors|
        invariant forall t :: t in subscribeRequests <==>
                    t !in subscribedTopics && exists j | 0 <= j < k :: t == Topic(motors[j].id)
      {
        var topic := Topic(motors[k].id);
        if topic !in subscribedTopics {
          subscribeRequests := subscribeRequests + [topic];
        }
      }
    }

    /** The success callbacks: each accepted subscribe adds its topic. */
    method ApplySubscribeOutcomes(subscribeRequests: seq<string>, subscribeOk: string -> bool)
      modifies this`subscribedTopics
      ensures forall t :: t in subscribedTopics <==>
                t in old(subscribedTopics) || (t in subscribeRequests && subscribeOk(t))
    {
      for k := 0 to |subscribeRequests|
        invariant forall t :: t in subscribedTopics <==>
                    t in old(subscribedTopics) || (t in subscribeRequests[..k] && subscribeOk(t))
      {
        if subscribeOk(subscribeRequests[k]) {
          subscribedTopics := subscribedTopics + {subscribeRequests[k]};
        }
      }
      assert subscribeRequests[..|subscribeRequests|] == subscribeRequests;
    }

    /** `addMotor`: append a new motor unless its id or name is taken. */
    method AddMotor(id: string, name: string, location: string)
      requires Valid()
      modifies this`motors
      ensures Valid()
      ensures motors == InsertMotor(old(motors), id, name, location)
      ensures UniqueKeys(old(motors)) ==> UniqueKeys(motors)
    {
      if UniqueKeys(motors) {
        InsertKeepsUnique(motors, id, name, location);
      }
      motors := InsertMotor(motors, id, name, location);
    }

    /**
     * `removeMotor`: drop the motor and its chart series, and with a connected
     * client ask to unsubscribe its tracked topic, forgetting it on success.
     */
    method RemoveMotor(id: string, unsubscribeOk: bool) returns (unsubscribeIssued: bool)
      requires Valid()
      modifies this`motors, this`liveMotorDataHistory, this`subscribedTopics
      ensures Valid()
      ensures motors == DeleteMotor(old(motors), id)
      ensures liveMotorDataHistory == old(liveMotorDataHistory) - {id}
      ensures unsubscribeIssued <==> hasClient && mqttConnected && Topic(id) in old(subscribedTopics)
      ensures subscribedTopics ==
        if unsubscribeIssued && unsubscribeOk then old(subscribedTopics) - {Topic(id)}
        else old(subscribedTopics)
      ensures UniqueKeys(old(motors)) ==> UniqueKeys(motors)
    {
      if UniqueKeys(motors) {
        DeleteKeepsUnique(motors, id);
      }
      motors := DeleteMotor(motors, id);
      liveMotorDataHistory := liveMotorDataHistory - {id};
      var topic := Topic(id);
      unsubscribeIssued := hasClient && mqttConnected && topic in subscribedTopics;
      if unsubscribeIssued && unsubscribeOk {
        subscribedTopics := subscribedTopics - {topic};
      }
    }
  }

  /**
   * A client of the provider: the same reading is delivered twice. The second
   * delivery leaves the registry as the first left it, but the log still grows.
   */
  method DuplicateDeliveryClient(p: MotorsProvider, s: Sample)
    requires p.Valid()
    requires s.motorId != "" && s.status != ""
    requires s.timestamp != 0 && s.timestamp % 1000 == 0
    modifies p
  {
    var msg := Encode(s);
    DecodeEncode(s, 5);
    DecodeEncode(s, 6);
    var before := p.motors;
    var logged := |p.historyData|;
    p.HandleMessage(msg, 5);
    var afterFirst := p.motors;
    assert afterFirst == ApplySample(before, s);

    p.HandleMessage(msg, 6);
    ApplySampleIdempotent(before, s);
    assert p.motors == afterFirst;
    assert |p.historyData| == logged + 2;
  }

  /** A client of the provider: a second add with the same id is refused, and removal empties the registry. */
  method DuplicateAddClient()
  {
    var p := new MotorsProvider(None, None);
    p.AddMotor("MOTOR-001", "Pump", "Hall A");
    var registered := p.motors;
    assert |registered| == 1 && registered[0].id == "MOTOR-001";

    p.AddMotor("MOTOR-001", "Spare", "Hall B");
    assert p.motors == registered;

    var issued := p.RemoveMotor("MOTOR-001", true);
    assert forall m | m in registered :: m.id == "MOTOR-001";
    assert !issued && p.motors == [];
  }
}
