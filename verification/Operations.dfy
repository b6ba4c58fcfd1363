/** What one dispatched operation does to its cluster, call by call. The cluster's
    answers are parameters: a reply is None when the client reports an error, and
    polling stops when the answers run out, which stands for the deadline passing. */
module Operations {
  import opened Model

  /** Reservation calls are requests: the handler goes on if they are refused. */
  datatype Call =
    | Created(created: ReplicaID)
    | Observed(observed: ReplicaID, answer: Option<ReplicaStatus>)
    | Labelled(labelled: ReplicaID)
    | Deleted(deleted: ReplicaID)
    | RequestedFulfilment(fulfilled: ReservationID)
    | RequestedExpiry(expired: ReservationID)

  type Polls = seq<Option<ReplicaStatus>>

  /** An answer that makes the handler poll again. */
  predicate Undecided(answer: Option<ReplicaStatus>) {
    answer.Some? && answer.value != Running && answer.value != Terminated
  }

  /** The replica was seen running before any error or termination. */
  ghost predicate BecomesRunning(polls: Polls) {
    exists k :: && 0 <= k < |polls| && polls[k] == Some(Running)
                && forall j | 0 <= j < k :: Undecided(polls[j])
  }

  /** The replica was seen to be gone: an error and Terminated both count. */
  ghost predicate BecomesGone(polls: Polls) {
    exists k :: 0 <= k < |polls| && (polls[k].None? || polls[k] == Some(Terminated))
  }

  ghost predicate OnlyObserves(log: seq<Call>, id: ReplicaID) {
    forall c | c in log :: c.Observed? && c.observed == id
  }

  /** Whether the replica comes up, and the calls made to find out. */
  function RunningOutcome(id: ReplicaID, polls: Polls): (bool, seq<Call>) {
    if polls == [] then (false, [])
    else if !Undecided(polls[0]) then (polls[0] == Some(Running), [Observed(id, polls[0])])
    else
      var (ok, log) := RunningOutcome(id, polls[1..]);
      (ok, [Observed(id, polls[0])] + log)
  }

  function DeletionOutcome(id: ReplicaID, polls: Polls): (bool, seq<Call>) {
    if polls == [] then (false, [])
    else if polls[0].None? || polls[0] == Some(Terminated) then (true, [Observed(id, polls[0])])
    else
      var (ok, log) := DeletionOutcome(id, polls[1..]);
      (ok, [Observed(id, polls[0])] + log)
  }

  /** An outcome after the calls already made. */
  function After(log: seq<Call>, outcome: (bool, seq<Call>)): (bool, seq<Call>) {
    (outcome.0, log + outcome.1)
  }

  lemma AfterOneMore(log: seq<Call>, c: Call, outcome: (bool, seq<Call>))
    ensures After(log, (outcome.0, [c] + outcome.1)) == After(log + [c], outcome)
    ensures After([], outcome) == outcome
  {
    assert log + ([c] + outcome.1) == log + [c] + outcome.1;
    assert [] + outcome.1 == outcome.1;
  }

  lemma {:induction false} RunningOutcomeMeans(id: ReplicaID, polls: Polls)
    ensures var (ok, log) := RunningOutcome(id, polls);
            && (ok <==> BecomesRunning(polls))
            && OnlyObserves(log, id)
            && (ok ==> Observed(id, Some(Running)) in log)
  {
    if polls != [] {
      RunningOutcomeMeans(id, polls[1..]);
      if Undecided(polls[0]) {
        BecomesRunningLater(polls);
      } else if polls[0] == Some(Running) {
        assert polls[0] == Some(Running);
      }
    }
  }

  lemma BecomesRunningLater(polls: Polls)
    requires polls != [] && Undecided(polls[0])
    ensures BecomesRunning(polls) <==> BecomesRunning(polls[1..])
  {
    if BecomesRunning(polls) {
      var k :| && 0 <= k < |polls| && polls[k] == Some(Running)
               && forall j | 0 <= j < k :: Undecided(polls[j]);
      assert polls[1..][k - 1] == Some(Running);
    }
    if BecomesRunning(polls[1..]) {
      var k :| && 0 <= k < |polls[1..]| && polls[1..][k] == Some(Running)
               && forall j | 0 <= j < k :: Undecided(polls[1..][j]);
      assert polls[k + 1] == Some(Running);
      forall j | 0 <= j < k + 1 ensures Undecided(polls[j]) {
        assert j > 0 ==> polls[j] == polls[1..][j - 1];
      }
    }
  }

  lemma {:induction false} DeletionOutcomeMeans(id: ReplicaID, polls: Polls)
    ensures var (ok, log) := DeletionOutcome(id, polls); (ok <==> BecomesGone(polls)) && OnlyObserves(log, id)
  {
    if polls != [] {
      DeletionOutcomeMeans(id, polls[1..]);
      if BecomesGone(polls[1..]) {
        var k :| 0 <= k < |polls[1..]| && (polls[1..][k].None? || polls[1..][k] == Some(Terminated));
        assert polls[k + 1] == polls[1..][k];
      }
      if BecomesGone(polls) && !(polls[0].None? || polls[0] == Some(Terminated)) {
        var k :| 0 <= k < |polls| && (polls[k].None? || polls[k] == Some(Terminated));
        assert polls[1..][k - 1] == polls[k];
      }
    }
  }

  method WaitForRunning(id: ReplicaID, polls: Polls) returns (ok: bool, log: seq<Call>)
    ensures (ok, log) == RunningOutcome(id, polls)
    ensures ok <==> BecomesRunning(polls)
  {
    RunningOutcomeMeans(id, polls);
    log := [];
    assert polls[0..] == polls && [] + RunningOutcome(id, polls).1 == RunningOutcome(id, polls).1;
    for i := 0 to |polls|
      invariant RunningOutcome(id, polls) == After(log, RunningOutcome(id, polls[i..]))
    {
      assert polls[i..][1..] == polls[i + 1..];
      AfterOneMore(log, Observed(id, polls[i]), RunningOutcome(id, polls[i + 1..]));
      log := log + [Observed(id, polls[i])];
      if polls[i].None? {
        return false, log;
      }
      if polls[i] == Some(Running) {
        return true, log;
      }
      if polls[i] == Some(Terminated) {
        return false, log;
      }
    }
    assert polls[|polls|..] == [] && log + [] == log;
    return false, log;
  }

  method WaitForDeletion(id: ReplicaID, polls: Polls) returns (ok: bool, log: seq<Call>)
    ensures (ok, log) == DeletionOutcome(id, polls)
    ensures ok <==> BecomesGone(polls)
  {
    DeletionOutcomeMeans(id, polls);
    log := [];
    assert polls[0..] == polls && [] + DeletionOutcome(id, polls).1 == DeletionOutcome(id, polls).1;
    for i := 0 to |polls|
      invariant DeletionOutcome(id, polls) == After(log, DeletionOutcome(id, polls[i..]))
    {
      assert polls[i..][1..] == polls[i + 1..];
      AfterOneMore(log, Observed(id, polls[i]), DeletionOutcome(id, polls[i + 1..]));
      log := log + [Observed(id, polls[i])];
      if polls[i].None? || polls[i] == Some(Terminated) {
        return true, log;
      }
    }
    assert polls[|polls|..] == [] && log + [] == log;
    return false, log;
  }

  /** What a handler that succeeded has done for its operation. */
  ghost predicate Achieves(p: Payload, log: seq<Call>) {
    match p
    case ScaleUp(_) =>
      exists id :: Created(id) in log && Observed(id, Some(Running)) in log && Deleted(id) !in log
    case Preempt(d) => Labelled(d.victimReplicaID) in log && Deleted(d.victimReplicaID) in log
    case ScaleDown(d) => Deleted(d.replicaID) in log
  }

  /** The only replicas a handler may delete: its target, or one it created before. */
  ghost predicate DeletesOnlyItsOwn(p: Payload, log: seq<Call>) {
    forall i | 0 <= i < |log| && log[i].Deleted? :: OwnDeletion(p, log[..i], log[i].deleted)
  }

  ghost predicate OwnDeletion(p: Payload, before: seq<Call>, r: ReplicaID) {
    match p
    case ScaleUp(_) => Created(r) in before
    case Preempt(d) => r == d.victimReplicaID
    case ScaleDown(d) => r == d.replicaID
  }

  lemma PrefixDeletesOnlyItsOwn(p: Payload, log: seq<Call>, log': seq<Call>)
    requires DeletesOnlyItsOwn(p, log) && log' <= log
    ensures DeletesOnlyItsOwn(p, log')
  {
    forall i | 0 <= i < |log'| && log'[i].Deleted? ensures OwnDeletion(p, log'[..i], log'[i].deleted) {
      assert log'[..i] == log[..i] && log'[i] == log[i];
    }
  }

  // ---------- What a handler can do ----------

  /** Everything the cluster may answer to one operation. */
  datatype Answers = Answers(create: Option<ReplicaID>, labelOk: bool, deleteOk: bool, polls: Polls)

  /** Success or failure, and the calls made, in order. */
  function Outcome(p: Payload, w: Answers): (bool, seq<Call>) {
    match p
    case ScaleUp(d) =>
      if w.create.None? then (false, [])
      else
        var id := w.create.value;
        var (ok, waited) := RunningOutcome(id, w.polls);
        (ok, [Created(id)] + waited
             + if ok then [RequestedFulfilment(d.reservationID)]
               else [RequestedExpiry(d.reservationID), Deleted(id)])
    case Preempt(d) =>
      var mark := [Labelled(d.victimReplicaID)];
      if !w.labelOk then (false, mark)
      else if !w.deleteOk then (false, mark + [Deleted(d.victimReplicaID)])
      else
        var (ok, waited) := DeletionOutcome(d.victimReplicaID, w.polls);
        (ok, mark + [Deleted(d.victimReplicaID)] + waited)
    case ScaleDown(d) =>
      if !w.deleteOk then (false, [Deleted(d.replicaID)])
      else
        var (ok, waited) := DeletionOutcome(d.replicaID, w.polls);
        (ok, [Deleted(d.replicaID)] + waited)
  }

  /** A handler, depending on the cluster's answers, can end this way with these
      calls. */
  ghost predicate CanEnd(p: Payload, ok: bool, log: seq<Call>) {
    exists w :: Outcome(p, w) == (ok, log)
  }

  /** How a dispatched operation can end: as its handler does, or, when its cluster has
      no client or its replica is unknown, in failure before any call. */
  ghost predicate CanFinish(p: Payload, ok: bool, log: seq<Call>) {
    CanEnd(p, ok, log) || (!ok && log == [])
  }

  lemma ScaleUpOutcomeMeans(d: ScaleUpDecision, w: Answers)
    ensures var (ok, log) := Outcome(ScaleUp(d), w);
            && (ok <==> w.create.Some? && BecomesRunning(w.polls))
            && (ok ==> Achieves(ScaleUp(d), log) && RequestedFulfilment(d.reservationID) in log)
            && (!ok && w.create.Some? ==> Deleted(w.create.value) in log && RequestedExpiry(d.reservationID) in log)
            && DeletesOnlyItsOwn(ScaleUp(d), log)
  {
    if w.create.Some? {
      var id, log := w.create.value, Outcome(ScaleUp(d), w).1;
      RunningOutcomeMeans(id, w.polls);
      var (ok, waited) := RunningOutcome(id, w.polls);
      var end := if ok then [RequestedFulfilment(d.reservationID)]
                 else [RequestedExpiry(d.reservationID), Deleted(id)];
      assert log == [Created(id)] + waited + end;
      assert forall c :: c in log <==> c == Created(id) || c in waited || c in end;
      assert ok ==> RequestedFulfilment(d.reservationID) in end && Created(id) in log;
      assert !ok ==> end[0] in end && end[1] in end;
      forall i | 0 <= i < |log| && log[i].Deleted? ensures OwnDeletion(ScaleUp(d), log[..i], log[i].deleted) {
        assert i > 0 && log[..i][0] == Created(id);
        assert log[i] in log;
      }
    }
  }

  lemma PreemptOutcomeMeans(d: PreemptionDecision, w: Answers)
    ensures var (ok, log) := Outcome(Preempt(d), w);
            && (ok <==> w.labelOk && w.deleteOk && BecomesGone(w.polls))
            && (ok ==> Achieves(Preempt(d), log))
            && DeletesOnlyItsOwn(Preempt(d), log)
  {
    var log := Outcome(Preempt(d), w).1;
    DeletionOutcomeMeans(d.victimReplicaID, w.polls);
    var waited := DeletionOutcome(d.victimReplicaID, w.polls).1;
    assert log[0] == Labelled(d.victimReplicaID);
    if w.labelOk {
      assert log[1] == Deleted(d.victimReplicaID);
    }
    forall i | 0 <= i < |log| && log[i].Deleted? ensures log[i].deleted == d.victimReplicaID {
      assert forall j | 0 <= j < |waited| :: waited[j] in waited;
    }
  }

  lemma ScaleDownOutcomeMeans(d: ScaleDownDecision, w: Answers)
    ensures var (ok, log) := Outcome(ScaleDown(d), w);
            && (ok <==> w.deleteOk && BecomesGone(w.polls))
            && Achieves(ScaleDown(d), log)
            && DeletesOnlyItsOwn(ScaleDown(d), log)
  {
    var log := Outcome(ScaleDown(d), w).1;
    DeletionOutcomeMeans(d.replicaID, w.polls);
    var waited := DeletionOutcome(d.replicaID, w.polls).1;
    assert log[0] == Deleted(d.replicaID);
    forall i | 0 <= i < |log| && log[i].Deleted? ensures log[i].deleted == d.replicaID {
      assert forall j | 0 <= j < |waited| :: waited[j] in waited;
    }
  }

  /** However a handler ends, it deletes only its own; a success achieved its effect. */
  lemma HandlerEnds(p: Payload, ok: bool, log: seq<Call>)
    requires CanEnd(p, ok, log)
    ensures DeletesOnlyItsOwn(p, log) && (ok ==> Achieves(p, log))
  {
    var w :| Outcome(p, w) == (ok, log);
    match p
    case ScaleUp(d) => ScaleUpOutcomeMeans(d, w);
    case Preempt(d) => PreemptOutcomeMeans(d, w);
    case ScaleDown(d) => ScaleDownOutcomeMeans(d, w);
  }

  lemma DispatchEnds(p: Payload, ok: bool, log: seq<Call>)
    requires CanFinish(p, ok, log)
    ensures DeletesOnlyItsOwn(p, log) && (ok ==> Achieves(p, log))
  {
    if CanEnd(p, ok, log) {
      HandlerEnds(p, ok, log);
    }
  }

  // ---------- The handlers ----------

  /** Creates a replica and waits for it. If it does not come up, the reservation
      is to be expired and the orphan deleted; if it does, it is to be fulfilled. */
  method PerformScaleUp(d: ScaleUpDecision, create: Option<ReplicaID>, polls: Polls)
    returns (ok: bool, log: seq<Call>)
    ensures CanEnd(ScaleUp(d), ok, log)
    ensures ok <==> create.Some? && BecomesRunning(polls)
    ensures ok ==> Achieves(ScaleUp(d), log) && RequestedFulfilment(d.reservationID) in log
    ensures !ok && create.Some? ==> Deleted(create.value) in log && RequestedExpiry(d.reservationID) in log
    ensures DeletesOnlyItsOwn(ScaleUp(d), log)
  {
    ghost var w := Answers(create, true, true, polls);
    ScaleUpOutcomeMeans(d, w);
    if create.None? {
      assert Outcome(ScaleUp(d), w) == (false, []);
      return false, [];
    }
    var id := create.value;
    var waited;
    ok, waited := WaitForRunning(id, polls);
    log := [Created(id)] + waited;
    if !ok {
      log := log + [RequestedExpiry(d.reservationID), Deleted(id)];
      assert Outcome(ScaleUp(d), w) == (ok, log);
      return;
    }
    log := log + [RequestedFulfilment(d.reservationID)];
    assert Outcome(ScaleUp(d), w) == (ok, log);
  }

  /** Labels the victim as draining, deletes it, and waits for it to go. */
  method PerformPreempt(d: PreemptionDecision, labelOk: bool, deleteOk: bool, polls: Polls)
    returns (ok: bool, log: seq<Call>)
    ensures CanEnd(Preempt(d), ok, log)
    ensures ok <==> labelOk && deleteOk && BecomesGone(polls)
    ensures ok ==> Achieves(Preempt(d), log)
    ensures DeletesOnlyItsOwn(Preempt(d), log)
  {
    ghost var w := Answers(None, labelOk, deleteOk, polls);
    PreemptOutcomeMeans(d, w);
    log := [Labelled(d.victimReplicaID)];
    if !labelOk {
      assert Outcome(Preempt(d), w) == (false, log);
      return false, log;
    }
    log := log + [Deleted(d.victimReplicaID)];
    if !deleteOk {
      assert Outcome(Preempt(d), w) == (false, log);
      return false, log;
    }
    var waited;
    ok, waited := WaitForDeletion(d.victimReplicaID, polls);
    log := log + waited;
    assert Outcome(Preempt(d), w) == (ok, log);
  }

  method PerformScaleDown(d: ScaleDownDecision, deleteOk: bool, polls: Polls)
    returns (ok: bool, log: seq<Call>)
    ensures CanEnd(ScaleDown(d), ok, log)
    ensures ok <==> deleteOk && BecomesGone(polls)
    ensures ok ==> Achieves(ScaleDown(d), log)
    ensures DeletesOnlyItsOwn(ScaleDown(d), log)
  {
    ghost var w := Answers(None, true, deleteOk, polls);
    ScaleDownOutcomeMeans(d, w);
    log := [Deleted(d.replicaID)];
    if !deleteOk {
      assert Outcome(ScaleDown(d), w) == (false, log);
      return false, log;
    }
    var waited;
    ok, waited := WaitForDeletion(d.replicaID, polls);
    log := log + waited;
    assert Outcome(ScaleDown(d), w) == (ok, log);
  }
}
