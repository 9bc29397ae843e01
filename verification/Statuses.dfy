/** What the status of a broker says, field by field, and when a pass may say it. */
module Statuses {
  import opened Text
  import opened Credentials
  import opened Cluster
  import opened PassModel
  import opened Writes

  // ------------------------------------------------------------ field by field

  /** Phase, Ready condition and generation of a pass that did not get through. */
  ghost predicate SaysFailed(s: BrokerStatus, b: Broker, why: Why) {
    s.phase == Failing && s.observed == b.generation && s.ready == Some(ReadyCondition(false, why, b.generation))
  }

  /** The number of users, and the condition that says whether there are any. */
  ghost predicate SaysUsers(s: BrokerStatus, b: Broker, users: int) {
    s.users == users && s.accepts == Some(UsersCondition(users != 0, users, b.generation))
  }

  /** The pass got through, but the StatefulSet was not seen yet. */
  ghost predicate SaysWaiting(s: BrokerStatus, b: Broker, users: int) {
    && SaysUsers(s, b, users)
    && s.phase == Pending && s.readyReplicas == 0 && s.observed == b.generation
    && s.ready == Some(ReadyCondition(false, StatefulSetNotFound, b.generation))
  }

  /** The pass got through, and this many pods of the StatefulSet are ready: Ready exactly
      when all that are wanted are, and some are wanted. */
  ghost predicate SaysDone(s: BrokerStatus, b: Broker, ready: int, users: int) {
    && SaysUsers(s, b, users)
    && s.readyReplicas == ready && s.observed == b.generation
    && s.ready.Some? && s.ready.value.observed == b.generation
    && (s.ready.value.truth <==> s.phase == Ready)
    && (s.phase == Ready <==> 0 < b.replicas <= ready)
    && (s.phase == Progressing <==> 0 < ready && !(0 < b.replicas <= ready))
    && (s.phase == Pending <==> ready <= 0)
    && s.ready.value.why == match s.phase
                            case Ready => AllReplicasReady(ready, b.replicas)
                            case Progressing => ReplicasNotReady(ready, b.replicas)
                            case _ => NoReplicasReady(b.replicas)
  }

  lemma FailedSays(s: BrokerStatus, b: Broker, why: Why)
    ensures SaysFailed(SetPhase(s, b, Failing, false, why), b, why)
  {
  }

  lemma WaitingSays(s: BrokerStatus, b: Broker, users: int)
    ensures SaysWaiting(SetPhase(SetUsers(s, b, users).(readyReplicas := 0), b, Pending, false, StatefulSetNotFound), b, users)
  {
  }

  /** The status that a finished pass works out is the one that says this, and no other. */
  lemma DoneSays(s: BrokerStatus, b: Broker, users: int, ready: int)
    ensures s == DoneStatus(s, b, users, ready) <==> SaysDone(s, b, ready, users)
    ensures SaysDone(DoneStatus(s, b, users, ready), b, ready, users)
  {
  }

  // ------------------------------------------------------------- what a pass says

  /** What a pass may say: that it failed, or was refused, or, if all it wants stands, what
      the pods report. */
  ghost predicate Tells(s: BrokerStatus, b: Broker, ready: int, users: int, stands: bool) {
    || (exists why :: SaysFailed(s, b, why))
    || (stands && (SaysDone(s, b, ready, users) || SaysWaiting(s, b, users)))
  }

  /** A status that says Ready, in its phase or its condition, says so in both, for the
      present generation, of a broker whose objects and users' statuses all stand and whose
      pods are all ready. */
  lemma ReadyIsTrue(s: BrokerStatus, b: Broker, ready: int, users: int, stands: bool)
    requires Tells(s, b, ready, users, stands)
    requires s.phase == Ready || (s.ready.Some? && s.ready.value.truth)
    ensures stands && 0 < b.replicas <= ready
    ensures s.phase == Ready && s.ready.Some? && s.ready.value.truth && s.observed == s.ready.value.observed == b.generation
  {
  }

  /** Whatever was written of the broker's status between two states of the log, and the
      status the broker has come to, may be said. */
  ghost predicate TellsOnly(before: seq<Write>, was: BrokerStatus, after: seq<Write>, now: BrokerStatus,
                            b: Broker, ready: int, users: int, stands: bool)
  {
    && (forall i :: |before| <= i < |after| && after[i].WroteStatus? ==> Tells(after[i].own, b, ready, users, stands))
    && (now != was ==> Tells(now, b, ready, users, stands))
  }

  lemma TellsNothing(before: seq<Write>, after: seq<Write>, s: BrokerStatus, b: Broker, ready: int, users: int, stands: bool)
    requires Adds(before, after, 0, 5)
    ensures TellsOnly(before, s, after, s, b, ready, users, stands)
  {
    forall i | |before| <= i < |after| ensures !after[i].WroteStatus? { assert Rank(after[i]) <= 5; }
  }

  /** One status, persisted or not. */
  lemma TellsOne(before: seq<Write>, was: BrokerStatus, after: seq<Write>, now: BrokerStatus, s: BrokerStatus,
                 b: Broker, ready: int, users: int, stands: bool)
    requires after == before || exists took :: after == before + [WroteStatus(s, took)]
    requires now == was || now == s
    requires Tells(s, b, ready, users, stands)
    ensures TellsOnly(before, was, after, now, b, ready, users, stands)
  {
  }

  /** The status comes after everything else. */
  lemma TellsLast(before: seq<Write>, mid: seq<Write>, was: BrokerStatus, after: seq<Write>, now: BrokerStatus,
                  b: Broker, ready: int, users: int, stands: bool, users': int, stands': bool)
    requires Adds(before, mid, 0, 5) && mid <= after && TellsOnly(mid, was, after, now, b, ready, users, stands)
    requires stands ==> stands' && users' == users
    ensures TellsOnly(before, was, after, now, b, ready, users', stands')
  {
    forall i | |before| <= i < |after| && after[i].WroteStatus? ensures Tells(after[i].own, b, ready, users', stands') {
      assert i >= |mid|;
      assert Tells(after[i].own, b, ready, users, stands);
    }
  }

  /** A failure, persisted or not, after writes of other kinds. */
  lemma FailureTold(before: seq<Write>, mid: seq<Write>, was: BrokerStatus, after: seq<Write>, now: BrokerStatus,
                    s: BrokerStatus, b: Broker, ready: int)
    requires Adds(before, mid, 0, 5)
    requires after == mid || exists took :: after == mid + [WroteStatus(s, took)]
    requires now == was || now == s
    requires exists why :: SaysFailed(s, b, why)
    ensures TellsOnly(before, was, after, now, b, ready, 0, false)
  {
    TellsOne(mid, was, after, now, s, b, ready, 0, false);
    TellsLast(before, mid, was, after, now, b, ready, 0, false, 0, false);
  }
}
