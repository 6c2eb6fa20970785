/**
 * MQTT topic naming and the subscription set the reconciliation pass is meant
 * to reach. The pass itself, which updates the tracked set in place, is
 * `MotorsContext.MotorsProvider.ReconcileSubscriptions`.
 */
module Subscriptions {
  import opened Registry

  const TopicPrefix: string := "motors/"
  const TopicSuffix: string := "/data"

  /** The topic a motor publishes its telemetry on. */
  function Topic(id: string): (t: string)
    ensures |t| == |TopicPrefix| + |id| + |TopicSuffix|
    ensures t[..|TopicPrefix|] == TopicPrefix && t[|t| - |TopicSuffix|..] == TopicSuffix
    ensures t[|TopicPrefix|..|t| - |TopicSuffix|] == id
  {
    TopicPrefix + id + TopicSuffix
  }

  /** Distinct motors publish on distinct topics. */
  lemma TopicInjective(a: string, b: string)
    ensures Topic(a) == Topic(b) ==> a == b
  {
    var t := Topic(a);
    assert a == t[|TopicPrefix|..|t| - |TopicSuffix|];
  }

  /** The topics of every motor in the registry. */
  function DesiredTopics(ms: seq<Motor>): (r: set<string>)
    ensures forall i | 0 <= i < |ms| :: Topic(ms[i].id) in r
    ensures forall t | t in r :: exists i | 0 <= i < |ms| :: t == Topic(ms[i].id)
  {
    set i | 0 <= i < |ms| :: Topic(ms[i].id)
  }

  /**
   * The tracked set after one reconciliation pass over `tracked` against
   * `desired`, when the broker accepts exactly the topics `subscribeOk` holds for:
   * stale topics go whatever the unsubscribe outcome, and a missing topic is
   * added only when its subscribe succeeds.
   */
  function Reconciled(tracked: set<string>, desired: set<string>,
                      subscribeOk: string -> bool): (r: set<string>)
    ensures r <= desired
    ensures tracked * desired <= r
    ensures forall t | t in desired && t !in tracked :: t in r <==> subscribeOk(t)
  {
    (tracked * desired) + set t | t in desired - tracked && subscribeOk(t)
  }

  /** When every subscribe succeeds, the tracked set is exactly the desired set. */
  lemma ReconciledComplete(tracked: set<string>, desired: set<string>, subscribeOk: string -> bool)
    requires forall t | t in desired && t !in tracked :: subscribeOk(t)
    ensures Reconciled(tracked, desired, subscribeOk) == desired
  {
  }

  /**
   * A subscribe that failed is not lost: the next pass asks for it again, so two
   * passes, the second fully accepted, always end at the desired set.
   */
  lemma FailedSubscribeRetried(tracked: set<string>, desired: set<string>,
                               first: string -> bool, second: string -> bool)
    requires forall t | t in desired :: second(t)
    ensures Reconciled(Reconciled(tracked, desired, first), desired, second) == desired
  {
  }

  /** After a motor is removed, its topic is no longer desired. */
  lemma RemovedTopicNotDesired(ms: seq<Motor>, id: string)
    ensures Topic(id) !in DesiredTopics(DeleteMotor(ms, id))
  {
    var rest := DeleteMotor(ms, id);
    forall i | 0 <= i < |rest| ensures Topic(rest[i].id) != Topic(id) {
      assert rest[i] in rest;
      TopicInjective(id, rest[i].id);
    }
  }
}
