/** Whole runs of a plan, in which the handlers of all operations in flight
    interleave freely, and what never happens in them. */
module InterleavedRuns {
  import opened Model
  import opened DependencyGraph
  import opened ExecutionTrace
  import opened Executor
  import opened Operations
  import opened PlanGenerator

  /** Either the executor's own loop does something, or the handler of an
      operation makes a call. */
  datatype Step = Loop(event: Event) | Handler(id: OperationID, call: Call)

  type Run = seq<Step>

  ghost function LoopTrace(run: Run): Trace {
    if run == [] then []
    else
      var last := run[|run| - 1];
      LoopTrace(run[..|run| - 1]) + if last.Loop? then [last.event] else []
  }

  ghost function CallsOf(run: Run, id: OperationID): seq<Call> {
    if run == [] then []
    else
      var last := run[|run| - 1];
      CallsOf(run[..|run| - 1], id) + if last.Handler? && last.id == id then [last.call] else []
  }

  /** The loop follows a legal trace; a handler acts only once its operation was
      dispatched, deletes only its own replica, and reports success only after
      achieving its effect. */
  ghost predicate LegalRun(ops: seq<Operation>, err: Outcomes, run: Run) {
    && LegalTrace(GraphOf(ops), err, LoopTrace(run))
    && (forall i: nat {:trigger DispatchedBefore(run, i)} | i < |run| :: DispatchedBefore(run, i))
    && (forall i: nat {:trigger AchievedAt(ops, run, i)} | i < |run| :: AchievedAt(ops, run, i))
    && (forall op {:trigger KeepsToItsOwn(run, op)} | op in ops :: KeepsToItsOwn(run, op))
  }

  /** If step i is a handler's, its operation was dispatched before. */
  ghost predicate DispatchedBefore(run: Run, i: nat)
    requires i < |run|
  {
    run[i].Handler? ==> Loop(Dispatched(run[i].id)) in run[..i]
  }

  /** If step i takes a success, the operation's effect was achieved before. */
  ghost predicate AchievedAt(ops: seq<Operation>, run: Run, i: nat)
    requires i < |run|
  {
    forall op | op in ops && run[i] == Loop(Succeeded(op.id)) :: Achieves(op.payload, CallsOf(run[..i], op.id))
  }

  ghost predicate KeepsToItsOwn(run: Run, op: Operation) {
    DeletesOnlyItsOwn(op.payload, CallsOf(run, op.id))
  }

  lemma {:induction false} LoopTraceKeepsEvents(run: Run, e: Event)
    ensures e in LoopTrace(run) <==> Loop(e) in run
  {
    if run != [] {
      var front, last := run[..|run| - 1], run[|run| - 1];
      assert run == front + [last];
      LoopTraceKeepsEvents(front, e);
    }
  }

  lemma {:induction false} CallsOfKeepsCalls(run: Run, id: OperationID, c: Call)
    ensures c in CallsOf(run, id) <==> Handler(id, c) in run
  {
    if run != [] {
      var front, last := run[..|run| - 1], run[|run| - 1];
      assert run == front + [last];
      CallsOfKeepsCalls(front, id, c);
    }
  }

  /** An event of the run is justified by the events before it in the run. */
  lemma {:induction false} RunEventJustified(g: Graph, err: Outcomes, run: Run, i: nat)
    requires LegalTrace(g, err, LoopTrace(run))
    requires i < |run| && run[i].Loop?
    ensures Justified(g, err, LoopTrace(run[..i]), run[i].event)
  {
    var front := run[..|run| - 1];
    var t := LoopTrace(run);
    if i == |run| - 1 {
      assert t[..|t| - 1] == LoopTrace(front);
    } else {
      assert LoopTrace(front) == t[..|LoopTrace(front)|];
      LegalTracePrefix(g, err, t, |LoopTrace(front)|);
      RunEventJustified(g, err, front, i);
      assert front[..i] == run[..i];
    }
  }

  lemma {:induction false} CallsOfPrefix(run: Run, n: nat, id: OperationID)
    requires n <= |run|
    ensures CallsOf(run[..n], id) <= CallsOf(run, id)
  {
    if n < |run| {
      var front := run[..|run| - 1];
      assert front[..n] == run[..n];
      CallsOfPrefix(front, n, id);
    } else {
      assert run[..n] == run;
    }
  }

  // ---------- Where legal runs come from ----------

  /** The calls each operation's handler makes. */
  type Logs = OperationID -> seq<Call>

  /** Every operation can finish as err says, making the calls logs gives it. */
  ghost predicate HandlersProduce(ops: seq<Operation>, err: Outcomes, logs: Logs) {
    forall op | op in ops :: CanFinish(op.payload, err(op.id).None?, logs(op.id))
  }

  ghost predicate IsResult(s: Step) {
    s.Loop? && (s.event.Succeeded? || s.event.Errored?)
  }

  /** run interleaves the loop's trace with the handlers' calls: each handler starts
      after its dispatch, makes its calls in order, and has made all of them when its
      result is taken. */
  ghost predicate Interleaves(trace: Trace, logs: Logs, run: Run) {
    && LoopTrace(run) == trace
    && (forall i | 0 <= i < |run| && run[i].Handler? :: Loop(Dispatched(run[i].id)) in run[..i])
    && (forall id :: CallsOf(run, id) <= logs(id))
    && (forall i | 0 <= i < |run| && IsResult(run[i]) :: CallsOf(run[..i], run[i].event.id) == logs(run[i].event.id))
  }

  /** A run, possibly unfinished, in which the loop follows a legal trace and the
      handlers do what they can do. */
  ghost predicate IsExecution(ops: seq<Operation>, err: Outcomes, logs: Logs, run: Run) {
    && LegalTrace(GraphOf(ops), err, LoopTrace(run)) && HandlersProduce(ops, err, logs)
    && Interleaves(LoopTrace(run), logs, run)
  }

  /** One that goes on until every operation has its result or was dropped. */
  ghost predicate IsWholeExecution(ops: seq<Operation>, err: Outcomes, logs: Logs, run: Run) {
    IsExecution(ops, err, logs, run) && Finished(GraphOf(ops), LoopTrace(run))
  }

  /** Every interleaving of an executor's trace with what its handlers can do is a
      legal run. */
  lemma InterleavingIsLegal(ops: seq<Operation>, err: Outcomes, trace: Trace, logs: Logs, run: Run)
    requires LegalTrace(GraphOf(ops), err, trace) && HandlersProduce(ops, err, logs) && Interleaves(trace, logs, run)
    ensures LegalRun(ops, err, run)
  {
    forall i: nat, op | i < |run| && op in ops && run[i] == Loop(Succeeded(op.id))
      ensures Achieves(op.payload, CallsOf(run[..i], op.id))
    {
      RunEventJustified(GraphOf(ops), err, run, i);
      assert IsResult(run[i]) && err(op.id).None?;
      DispatchEnds(op.payload, true, logs(op.id));
    }
    assert forall i: nat | i < |run| :: DispatchedBefore(run, i);
    assert forall i: nat | i < |run| :: AchievedAt(ops, run, i);
    forall op | op in ops ensures KeepsToItsOwn(run, op) {
      DispatchEnds(op.payload, err(op.id).None?, logs(op.id));
      PrefixDeletesOnlyItsOwn(op.payload, logs(op.id), CallsOf(run, op.id));
    }
  }

  // ---------- Dependencies ----------

  /** No handler of an operation acts before each of its dependencies has
      achieved its effect. */
  lemma DependencyAchievedFirst(ops: seq<Operation>, err: Outcomes, run: Run, i: nat, op: Operation, dep: Operation)
    requires DistinctIds(ops) && LegalRun(ops, err, run)
    requires op in ops && dep in ops && dep.id in op.dependsOn
    requires i < |run| && run[i].Handler? && run[i].id == op.id
    ensures exists j :: 0 <= j < i && Loop(Succeeded(dep.id)) == run[j]
                        && Achieves(dep.payload, CallsOf(run[..j], dep.id))
  {
    var g := GraphOf(ops);
    assert DispatchedBefore(run, i);
    var k :| 0 <= k < i && run[..i][k] == Loop(Dispatched(op.id));
    assert run[k] == Loop(Dispatched(op.id));
    RunEventJustified(g, err, run, k);
    assert dep.id in g[op.id];
    assert Succeeded(dep.id) in LoopTrace(run[..k]);
    LoopTraceKeepsEvents(run[..k], Succeeded(dep.id));
    var j :| 0 <= j < k && run[..k][j] == Loop(Succeeded(dep.id));
    assert run[j] == Loop(Succeeded(dep.id)) && AchievedAt(ops, run, j);
  }

  /** Before step i of the run, operation id created replica r and saw it running. */
  ghost predicate RanBefore(run: Run, i: nat, id: OperationID, r: ReplicaID)
    requires i <= |run|
  {
    Handler(id, Created(r)) in run[..i] && Handler(id, Observed(r, Some(Running))) in run[..i]
  }

  lemma AchievedScaleUpRan(run: Run, n: nat, i: nat, op: Operation)
    requires n <= i <= |run| && op.payload.ScaleUp?
    requires Achieves(op.payload, CallsOf(run[..n], op.id))
    ensures exists r :: RanBefore(run, i, op.id, r)
  {
    var log := CallsOf(run[..n], op.id);
    var r :| Created(r) in log && Observed(r, Some(Running)) in log;
    CallsOfKeepsCalls(run[..n], op.id, Created(r));
    CallsOfKeepsCalls(run[..n], op.id, Observed(r, Some(Running)));
    assert forall s | s in run[..n] :: s in run[..i] by {
      assert run[..i][..n] == run[..n];
    }
    assert RanBefore(run, i, op.id, r);
  }

  /** Blue-green migration: in every run, whatever else is in flight, a migration's own
      deletion acts only after its replacement was created and seen running. */
  lemma MigrationIsBlueGreen(d: PlacementDecisions, ms: seq<MigrateDecision>, uuids: Uuids, ops: seq<Operation>,
                             err: Outcomes, run: Run, k: nat, i: nat)
    requires IsPlanFor(d, ms, uuids, ops) && NeverRepeats(uuids) && LegalRun(ops, err, run)
    requires k < |ms| && i < |run|
    requires run[i].Handler? && run[i].id == DeleteSourceOp(d, ms, uuids, k).id
    ensures exists replacement :: RanBefore(run, i, ReplacementOp(d, ms, uuids, k).id, replacement)
  {
    var su, sd := ReplacementOp(d, ms, uuids, k), DeleteSourceOp(d, ms, uuids, k);
    PlanIsExecutable(d, ms, uuids, ops);
    assert su == ops[MigrationStart(d) + 2 * k] && sd == ops[MigrationStart(d) + 2 * k + 1];
    DependencyAchievedFirst(ops, err, run, i, sd, su);
    var n :| 0 <= n < i && run[n] == Loop(Succeeded(su.id)) && Achieves(su.payload, CallsOf(run[..n], su.id));
    AchievedScaleUpRan(run, n, i, su);
  }

  function MigrationStart(d: PlacementDecisions): nat {
    |d.preemptions| + |d.scaleDowns| + |d.scaleUps|
  }

  /** The scale-up of migration k in its target cluster. */
  function ReplacementOp(d: PlacementDecisions, ms: seq<MigrateDecision>, uuids: Uuids, k: nat): (op: Operation)
    requires k < |ms|
    ensures op.payload == ScaleUp(MigrationScaleUp(ms[k]))
  {
    PlannedAt(d, ms, uuids, MigrationStart(d) + 2 * k)
  }

  /** The deletion of migration k's source replica. */
  function DeleteSourceOp(d: PlacementDecisions, ms: seq<MigrateDecision>, uuids: Uuids, k: nat): (op: Operation)
    requires k < |ms|
    ensures op.payload == ScaleDown(ScaleDownDecision(ms[k].appID, ms[k].sourceReplicaID))
  {
    PlannedAt(d, ms, uuids, MigrationStart(d) + 2 * k + 1)
  }

  /** A replacement that failed or was dropped means its migration's own deletion never
      acts, now or later in the run. */
  lemma FailedReplacementKeepsSource(d: PlacementDecisions, ms: seq<MigrateDecision>, uuids: Uuids, ops: seq<Operation>,
                                     err: Outcomes, run: Run, k: nat, i: nat)
    requires IsPlanFor(d, ms, uuids, ops) && NeverRepeats(uuids) && LegalRun(ops, err, run)
    requires k < |ms| && i < |run|
    requires var su := ReplacementOp(d, ms, uuids, k).id;
             Loop(Errored(su)) in run || Loop(Dropped(su)) in run
    ensures !(run[i].Handler? && run[i].id == DeleteSourceOp(d, ms, uuids, k).id)
  {
    var su, sd := ReplacementOp(d, ms, uuids, k), DeleteSourceOp(d, ms, uuids, k);
    PlanIsExecutable(d, ms, uuids, ops);
    assert su == ops[MigrationStart(d) + 2 * k] && sd == ops[MigrationStart(d) + 2 * k + 1];
    if run[i].Handler? && run[i].id == sd.id {
      DependencyAchievedFirst(ops, err, run, i, sd, su);
      var n :| 0 <= n < i && run[n] == Loop(Succeeded(su.id));
      LoopTraceKeepsEvents(run, Succeeded(su.id));
      LoopTraceKeepsEvents(run, Errored(su.id));
      LoopTraceKeepsEvents(run, Dropped(su.id));
      SuccessIsFinal(GraphOf(ops), err, LoopTrace(run), su.id);
      assert false;
    }
  }

  /** The same for a replacement the executor reports as failed or aborted. */
  lemma ReportedFailureKeepsSource(d: PlacementDecisions, ms: seq<MigrateDecision>, uuids: Uuids, ops: seq<Operation>,
                                   err: Outcomes, res: ExecutionResult, run: Run, k: nat, i: nat)
    requires IsPlanFor(d, ms, uuids, ops) && NeverRepeats(uuids) && LegalRun(ops, err, run)
    requires MatchesTrace(res, LoopTrace(run)) && k < |ms| && i < |run|
    requires var su := ReplacementOp(d, ms, uuids, k).id;
             su in FailedIds(res.failed) || su in res.aborted
    ensures !(run[i].Handler? && run[i].id == DeleteSourceOp(d, ms, uuids, k).id)
  {
    var su := ReplacementOp(d, ms, uuids, k).id;
    LoopTraceKeepsEvents(run, Errored(su));
    LoopTraceKeepsEvents(run, Dropped(su));
    FailedReplacementKeepsSource(d, ms, uuids, ops, err, run, k, i);
  }

  /** Preempt first: a scale-up of the plan makes no call before every preemption
      in its cluster has labelled and deleted its victim. */
  lemma PreemptionsComeFirst(d: PlacementDecisions, ms: seq<MigrateDecision>, uuids: Uuids, ops: seq<Operation>,
                             err: Outcomes, run: Run, u: nat, p: nat, i: nat)
    requires IsPlanFor(d, ms, uuids, ops) && NeverRepeats(uuids) && LegalRun(ops, err, run)
    requires u < |ops| && ops[u].payload.ScaleUp? && i < |run|
    requires p < |d.preemptions| && d.preemptions[p].clusterID == ops[u].payload.scaleUp.clusterID
    requires run[i].Handler? && run[i].id == ops[u].id
    ensures exists j :: 0 <= j < i && run[j] == Handler(uuids(p), Deleted(d.preemptions[p].victimReplicaID))
  {
    PlanIsExecutable(d, ms, uuids, ops);
    PreemptionIdsAre(d.preemptions, uuids, ops[u].payload.scaleUp.clusterID);
    assert ops[p].id in ops[u].dependsOn;
    DependencyAchievedFirst(ops, err, run, i, ops[u], ops[p]);
    var n :| 0 <= n < i && run[n] == Loop(Succeeded(ops[p].id))
             && Achieves(ops[p].payload, CallsOf(run[..n], ops[p].id));
    var gone := Deleted(d.preemptions[p].victimReplicaID);
    CallsOfKeepsCalls(run[..n], ops[p].id, gone);
    var j :| 0 <= j < n && run[..n][j] == Handler(ops[p].id, gone);
    assert run[j] == Handler(ops[p].id, gone);
  }

  // ---------- Who deletes a replica ----------

  /** The operation is there to remove this replica. */
  predicate Names(p: Payload, r: ReplicaID) {
    match p
    case ScaleUp(_) => false
    case Preempt(d) => d.victimReplicaID == r
    case ScaleDown(d) => d.replicaID == r
  }

  /** The deleting operation names the replica, or is a scale-up removing the orphan it
      created itself. */
  ghost predicate Accountable(run: Run, i: nat, op: Operation, r: ReplicaID)
    requires i <= |run|
  {
    Names(op.payload, r) || Handler(op.id, Created(r)) in run[..i]
  }

  lemma DeletedByNamer(ops: seq<Operation>, err: Outcomes, run: Run, i: nat, r: ReplicaID) returns (op: Operation)
    requires LegalRun(ops, err, run) && i < |run| && run[i].Handler? && run[i].call == Deleted(r)
    ensures op in ops && op.id == run[i].id && Accountable(run, i, op, r)
  {
    op := HandlerOperation(ops, err, run, i);
    assert KeepsToItsOwn(run, op);
    DeletionIsOwn(run, i, op, r);
  }

  /** The operation a handler acts for is one of the plan's. */
  lemma HandlerOperation(ops: seq<Operation>, err: Outcomes, run: Run, i: nat) returns (op: Operation)
    requires LegalRun(ops, err, run) && i < |run| && run[i].Handler?
    ensures op in ops && op.id == run[i].id
  {
    var id := run[i].id;
    assert DispatchedBefore(run, i);
    var k :| 0 <= k < i && run[..i][k] == Loop(Dispatched(id));
    assert run[k] == Loop(Dispatched(id));
    RunEventJustified(GraphOf(ops), err, run, k);
    op :| op in ops && op.id == id;
  }

  lemma DeletionIsOwn(run: Run, i: nat, op: Operation, r: ReplicaID)
    requires KeepsToItsOwn(run, op) && i < |run| && run[i] == Handler(op.id, Deleted(r))
    ensures Accountable(run, i, op, r)
  {
    var before, log := CallsOf(run[..i], op.id), CallsOf(run, op.id);
    assert run[..i + 1][..i] == run[..i];
    assert CallsOf(run[..i + 1], op.id) == before + [Deleted(r)];
    CallsOfPrefix(run, i + 1, op.id);
    assert log[|before|] == Deleted(r) && log[..|before|] == before;
    assert OwnDeletion(op.payload, before, r);
    CallsOfKeepsCalls(run[..i], op.id, Created(r));
  }

  ghost predicate CreatedIn(run: Run, r: ReplicaID) {
    exists id :: Handler(id, Created(r)) in run
  }

  /** In a whole execution the source of migration k is deleted at step i although its
      replacement has not been seen running; the source is no replica created in it. */
  ghost predicate DeletedTooEarly(d: PlacementDecisions, ms: seq<MigrateDecision>, uuids: Uuids, ops: seq<Operation>,
                                  err: Outcomes, logs: Logs, run: Run, k: nat, i: nat)
    requires k < |ms|
  {
    && IsWholeExecution(ops, err, logs, run) && !CreatedIn(run, ms[k].sourceReplicaID)
    && i < |run| && run[i].Handler? && run[i].call == Deleted(ms[k].sourceReplicaID)
    && !exists replacement :: RanBefore(run, i, ReplacementOp(d, ms, uuids, k).id, replacement)
  }

  /** Some other decision of the cycle removes the source of migration k as well. */
  ghost predicate NamedElsewhere(d: PlacementDecisions, ms: seq<MigrateDecision>, k: nat)
    requires k < |ms|
  {
    || (exists p :: 0 <= p < |d.preemptions| && d.preemptions[p].victimReplicaID == ms[k].sourceReplicaID)
    || (exists q :: 0 <= q < |d.scaleDowns| && d.scaleDowns[q].replicaID == ms[k].sourceReplicaID)
    || (exists j :: 0 <= j < |ms| && j != k && ms[j].sourceReplicaID == ms[k].sourceReplicaID)
  }

  /** Positions in the plan that name the source, other than the migration's own
      deletion. */
  ghost predicate AlsoNamedAt(d: PlacementDecisions, ms: seq<MigrateDecision>, ops: seq<Operation>, k: nat, q: nat)
    requires k < |ms|
  {
    && q < |ops| && Names(ops[q].payload, ms[k].sourceReplicaID)
    && q != MigrationStart(d) + 2 * k && q != MigrationStart(d) + 2 * k + 1
  }

  lemma NamedElsewhereIff(d: PlacementDecisions, ms: seq<MigrateDecision>, uuids: Uuids, ops: seq<Operation>, k: nat)
    requires IsPlanFor(d, ms, uuids, ops) && k < |ms|
    ensures NamedElsewhere(d, ms, k) <==> exists q: nat :: AlsoNamedAt(d, ms, ops, k, q)
  {
    var r := ms[k].sourceReplicaID;
    if q: nat :| AlsoNamedAt(d, ms, ops, k, q) {
      assert ops[q] == PlannedAt(d, ms, uuids, q);
      if q >= MigrationStart(d) {
        var j := (q - MigrationStart(d)) / 2;
        assert ms[j].sourceReplicaID == r && j != k;
      }
    }
    if p :| 0 <= p < |d.preemptions| && d.preemptions[p].victimReplicaID == r {
      assert ops[p] == PlannedAt(d, ms, uuids, p) && AlsoNamedAt(d, ms, ops, k, p);
    }
    if q :| 0 <= q < |d.scaleDowns| && d.scaleDowns[q].replicaID == r {
      var at := |d.preemptions| + q;
      assert ops[at] == PlannedAt(d, ms, uuids, at) && AlsoNamedAt(d, ms, ops, k, at);
    }
    if j :| 0 <= j < |ms| && j != k && ms[j].sourceReplicaID == r {
      var at := MigrationStart(d) + 2 * j + 1;
      assert ops[at] == PlannedAt(d, ms, uuids, at) && AlsoNamedAt(d, ms, ops, k, at);
    }
  }

  /** Without another name for the source, only the migration's own deletion deletes it. */
  lemma DeleterIsOwn(d: PlacementDecisions, ms: seq<MigrateDecision>, uuids: Uuids, ops: seq<Operation>, err: Outcomes,
                     run: Run, k: nat, i: nat)
    requires IsPlanFor(d, ms, uuids, ops) && k < |ms| && !NamedElsewhere(d, ms, k)
    requires LegalRun(ops, err, run) && !CreatedIn(run, ms[k].sourceReplicaID)
    requires i < |run| && run[i].Handler? && run[i].call == Deleted(ms[k].sourceReplicaID)
    ensures run[i].id == DeleteSourceOp(d, ms, uuids, k).id
  {
    var r := ms[k].sourceReplicaID;
    var op := DeletedByNamer(ops, err, run, i, r);
    assert Names(op.payload, r) by {
      assert Handler(op.id, Created(r)) in run[..i] ==> Handler(op.id, Created(r)) in run;
    }
    var q: nat :| q < |ops| && ops[q] == op;
    NamedElsewhereIff(d, ms, uuids, ops, k);
    assert !AlsoNamedAt(d, ms, ops, k, q);
    assert ops[q] == PlannedAt(d, ms, uuids, q);
  }

  lemma OnlyNamerIsOwn(d: PlacementDecisions, ms: seq<MigrateDecision>, uuids: Uuids, ops: seq<Operation>,
                       err: Outcomes, run: Run, k: nat, i: nat)
    requires IsPlanFor(d, ms, uuids, ops) && NeverRepeats(uuids) && k < |ms| && !NamedElsewhere(d, ms, k)
    requires LegalRun(ops, err, run) && !CreatedIn(run, ms[k].sourceReplicaID)
    requires i < |run| && run[i].Handler? && run[i].call == Deleted(ms[k].sourceReplicaID)
    ensures exists replacement :: RanBefore(run, i, ReplacementOp(d, ms, uuids, k).id, replacement)
  {
    DeleterIsOwn(d, ms, uuids, ops, err, run, k, i);
    MigrationIsBlueGreen(d, ms, uuids, ops, err, run, k, i);
  }

  // ---------- Executions in which the results come one by one ----------

  /** The calls of a handler that succeeds at once. */
  ghost function SuccessCalls(p: Payload, created: ReplicaID): seq<Call> {
    Outcome(p, Answers(Some(created), true, true, if p.ScaleUp? then [Some(Running)] else [None])).1
  }

  lemma SuccessCallsSucceed(p: Payload, created: ReplicaID)
    ensures CanEnd(p, true, SuccessCalls(p, created))
    ensures forall r | Created(r) in SuccessCalls(p, created) :: r == created
    ensures forall r | Names(p, r) :: Deleted(r) in SuccessCalls(p, created)
  {
    var w := Answers(Some(created), true, true, if p.ScaleUp? then [Some(Running)] else [None]);
    assert Outcome(p, w) == (true, SuccessCalls(p, created));
    HandlerEnds(p, true, SuccessCalls(p, created));
  }

  ghost predicate OfSome(list: seq<Operation>, id: OperationID) {
    exists op :: op in list && op.id == id
  }

  /** Every operation succeeds at once; every replica created gets the same id. */
  ghost function SuccessLogs(ops: seq<Operation>, created: ReplicaID): Logs {
    (id: OperationID) =>
      if OfSome(ops, id) then
        var op :| op in ops && op.id == id;
        SuccessCalls(op.payload, created)
      else []
  }

  ghost predicate Succeeding(err: Outcomes) {
    forall id :: err(id).None?
  }

  lemma SuccessLogAt(ops: seq<Operation>, created: ReplicaID, op: Operation)
    requires DistinctIds(ops) && op in ops
    ensures SuccessLogs(ops, created)(op.id) == SuccessCalls(op.payload, created)
  {
    assert OfSome(ops, op.id);
    assert forall o | o in ops && o.id == op.id :: o == op;
  }

  lemma SuccessIsProduced(ops: seq<Operation>, err: Outcomes, created: ReplicaID)
    requires DistinctIds(ops) && Succeeding(err)
    ensures HandlersProduce(ops, err, SuccessLogs(ops, created))
    ensures forall id, r | Created(r) in SuccessLogs(ops, created)(id) :: r == created
  {
    forall op | op in ops ensures CanFinish(op.payload, err(op.id).None?, SuccessLogs(ops, created)(op.id)) {
      SuccessLogAt(ops, created, op);
      SuccessCallsSucceed(op.payload, created);
    }
    forall id, r | Created(r) in SuccessLogs(ops, created)(id) ensures r == created {
      var op :| op in ops && op.id == id;
      SuccessLogAt(ops, created, op);
      SuccessCallsSucceed(op.payload, created);
    }
  }

  /** What an execution may be extended by. */
  ghost predicate StepFits(ops: seq<Operation>, err: Outcomes, logs: Logs, run: Run, s: Step) {
    match s
    case Loop(e) => && Justified(GraphOf(ops), err, LoopTrace(run), e)
                    && (IsResult(s) ==> CallsOf(run, e.id) == logs(e.id))
    case Handler(id, c) => Loop(Dispatched(id)) in run && CallsOf(run, id) + [c] <= logs(id)
  }

  lemma ExecutionExtends(ops: seq<Operation>, err: Outcomes, logs: Logs, run: Run, s: Step)
    requires IsExecution(ops, err, logs, run) && StepFits(ops, err, logs, run, s)
    ensures IsExecution(ops, err, logs, run + [s])
    ensures LoopTrace(run + [s]) == if s.Loop? then LoopTrace(run) + [s.event] else LoopTrace(run)
    ensures forall id {:trigger CallsStep(run, s, id)} :: CallsStep(run, s, id)
  {
    LoopTraceStep(run, s);
    if s.Loop? {
      LegalTraceExtends(GraphOf(ops), err, LoopTrace(run), s.event);
    }
    forall id ensures CallsStep(run, s, id) {
      CallsOfStep(run, s, id);
    }
    InterleavesExtends(logs, run, s);
  }

  ghost predicate CallsStep(run: Run, s: Step, id: OperationID) {
    CallsOf(run + [s], id) == if s.Handler? && s.id == id then CallsOf(run, id) + [s.call] else CallsOf(run, id)
  }

  lemma CallsOfStep(run: Run, s: Step, id: OperationID)
    ensures CallsStep(run, s, id)
  {
    assert (run + [s])[..|run|] == run;
    assert CallsOf(run, id) + [] == CallsOf(run, id);
  }

  lemma LoopTraceStep(run: Run, s: Step)
    ensures LoopTrace(run + [s]) == if s.Loop? then LoopTrace(run) + [s.event] else LoopTrace(run)
  {
    assert (run + [s])[..|run|] == run;
    assert LoopTrace(run) + [] == LoopTrace(run);
  }

  lemma InterleavesExtends(logs: Logs, run: Run, s: Step)
    requires Interleaves(LoopTrace(run), logs, run)
    requires s.Handler? ==> Loop(Dispatched(s.id)) in run && CallsOf(run, s.id) + [s.call] <= logs(s.id)
    requires IsResult(s) ==> CallsOf(run, s.event.id) == logs(s.event.id)
    ensures Interleaves(LoopTrace(run + [s]), logs, run + [s])
  {
    var run' := run + [s];
    assert run'[..|run|] == run;
    forall id ensures CallsOf(run', id) <= logs(id) {
      CallsOfStep(run, s, id);
    }
    forall i | 0 <= i < |run'| && run'[i].Handler? ensures Loop(Dispatched(run'[i].id)) in run'[..i] {
      if i < |run| {
        assert run'[..i] == run[..i];
      }
    }
    forall i | 0 <= i < |run'| && IsResult(run'[i])
      ensures CallsOf(run'[..i], run'[i].event.id) == logs(run'[i].event.id)
    {
      if i < |run| {
        assert run'[..i] == run[..i] && IsResult(run[i]);
      }
    }
  }

  /** An execution in which exactly the operations done have succeeded, and nobody else
      has made a call yet, nor failed, nor been dropped. */
  ghost predicate Serial(ops: seq<Operation>, err: Outcomes, logs: Logs, run: Run, done: set<OperationID>) {
    IsExecution(ops, err, logs, run) && SucceededOnly(LoopTrace(run), done) && CalledOnly(logs, run, done)
  }

  ghost predicate SucceededOnly(t: Trace, done: set<OperationID>) {
    && (forall id :: Succeeded(id) in t <==> id in done)
    && (forall id :: Errored(id) !in t && Dropped(id) !in t)
  }

  ghost predicate CalledOnly(logs: Logs, run: Run, done: set<OperationID>) {
    forall id {:trigger CalledAt(logs, run, done, id)} :: CalledAt(logs, run, done, id)
  }

  ghost predicate CalledAt(logs: Logs, run: Run, done: set<OperationID>, id: OperationID) {
    CallsOf(run, id) == if id in done then logs(id) else []
  }

  lemma SerialStarts(ops: seq<Operation>, err: Outcomes, logs: Logs)
    requires HandlersProduce(ops, err, logs)
    ensures Serial(ops, err, logs, [], {})
  {
    assert forall id :: CalledAt(logs, [], {}, id);
  }

  /** Dispatches one operation that can start. */
  lemma SerialDispatches(ops: seq<Operation>, err: Outcomes, logs: Logs, run: Run, done: set<OperationID>,
                         id: OperationID)
    requires Serial(ops, err, logs, run, done) && CanStart(GraphOf(ops), LoopTrace(run), id)
    ensures Serial(ops, err, logs, run + [Loop(Dispatched(id))], done)
    ensures LoopTrace(run + [Loop(Dispatched(id))]) == LoopTrace(run) + [Dispatched(id)]
  {
    var s := Loop(Dispatched(id));
    ExecutionExtends(ops, err, logs, run, s);
    forall x ensures CalledAt(logs, run + [s], done, x) {
      assert CallsStep(run, s, x) && CalledAt(logs, run, done, x);
    }
  }

  lemma StartedOnly(g: Graph, t: Trace, id: OperationID, x: OperationID)
    requires CanStart(g, t + [Dispatched(id)], x)
    ensures CanStart(g, t, x) && x != id
  {
    forall d | d in g[x] ensures Succeeded(d) in t {
      assert Succeeded(d) in t + [Dispatched(id)];
    }
    assert StatusAfter(t, x) == OpPending by {
      assert forall e | e in t :: e in t + [Dispatched(id)];
    }
    assert Dispatched(id) in t + [Dispatched(id)];
  }

  /** Nothing can start, except possibly among todo. */
  ghost predicate WaitsOnly(g: Graph, t: Trace, todo: set<OperationID>) {
    forall id | id !in todo :: !CanStart(g, t, id)
  }

  lemma WaitsStep(g: Graph, t: Trace, todo: set<OperationID>, id: OperationID)
    requires WaitsOnly(g, t, todo)
    ensures if CanStart(g, t, id) then WaitsOnly(g, t + [Dispatched(id)], todo - {id}) else WaitsOnly(g, t, todo - {id})
  {
    if CanStart(g, t, id) {
      forall x | x !in todo - {id} ensures !CanStart(g, t + [Dispatched(id)], x) {
        if CanStart(g, t + [Dispatched(id)], x) {
          StartedOnly(g, t, id, x);
        }
      }
    }
  }

  lemma SerialTries(ops: seq<Operation>, err: Outcomes, logs: Logs, run: Run, done: set<OperationID>,
                    todo: set<OperationID>, id: OperationID) returns (run': Run)
    requires Serial(ops, err, logs, run, done) && WaitsOnly(GraphOf(ops), LoopTrace(run), todo)
    ensures Serial(ops, err, logs, run', done) && WaitsOnly(GraphOf(ops), LoopTrace(run'), todo - {id})
    ensures run <= run'
  {
    WaitsStep(GraphOf(ops), LoopTrace(run), todo, id);
    run' := run;
    if CanStart(GraphOf(ops), LoopTrace(run), id) {
      SerialDispatches(ops, err, logs, run, done, id);
      run' := run + [Loop(Dispatched(id))];
    }
  }

  lemma PrefixTransitive(a: Run, b: Run, c: Run)
    requires a <= b <= c
    ensures a <= c
  {
  }

  /** The loop's pass over everything pending. */
  lemma {:induction false} SerialDispatchesAll(ops: seq<Operation>, err: Outcomes, logs: Logs, run: Run,
                                               done: set<OperationID>, todo: set<OperationID>) returns (run': Run)
    requires Serial(ops, err, logs, run, done) && WaitsOnly(GraphOf(ops), LoopTrace(run), todo)
    ensures Serial(ops, err, logs, run', done) && run <= run' && NoneWaiting(GraphOf(ops), LoopTrace(run'))
    decreases todo
  {
    if todo == {} {
      run' := run;
    } else {
      var id :| id in todo;
      var run1 := SerialTries(ops, err, logs, run, done, todo, id);
      run' := SerialDispatchesAll(ops, err, logs, run1, done, todo - {id});
      PrefixTransitive(run, run1, run');
    }
  }

  lemma AnythingMayWait(g: Graph, t: Trace)
    ensures WaitsOnly(g, t, g.Keys)
  {
  }

  /** What handler calls alone change. */
  ghost predicate CallsAdded(run: Run, run': Run, id: OperationID, calls: seq<Call>) {
    && run <= run' && LoopTrace(run') == LoopTrace(run)
    && forall x {:trigger CallsAddedAt(run, run', id, calls, x)} :: CallsAddedAt(run, run', id, calls, x)
  }

  ghost predicate CallsAddedAt(run: Run, run': Run, id: OperationID, calls: seq<Call>, x: OperationID) {
    CallsOf(run', x) == if x == id then calls else CallsOf(run, x)
  }

  lemma MakeCall(ops: seq<Operation>, err: Outcomes, logs: Logs, run: Run, run1: Run, id: OperationID, n: nat)
    requires IsExecution(ops, err, logs, run1) && Loop(Dispatched(id)) in run1 && n < |logs(id)|
    requires CallsAdded(run, run1, id, logs(id)[..n])
    ensures IsExecution(ops, err, logs, run1 + [Handler(id, logs(id)[n])])
    ensures CallsAdded(run, run1 + [Handler(id, logs(id)[n])], id, logs(id)[..n + 1])
  {
    var s := Handler(id, logs(id)[n]);
    assert logs(id)[..n] + [logs(id)[n]] == logs(id)[..n + 1];
    assert CallsAddedAt(run, run1, id, logs(id)[..n], id);
    ExecutionExtends(ops, err, logs, run1, s);
    var run2, calls := run1 + [s], logs(id)[..n + 1];
    forall x ensures CallsAddedAt(run, run2, id, calls, x) {
      assert CallsStep(run1, s, x) && CallsAddedAt(run, run1, id, logs(id)[..n], x);
    }
  }

  /** The handler of a dispatched operation makes its calls one by one. */
  lemma {:induction false} MakeCalls(ops: seq<Operation>, err: Outcomes, logs: Logs, run: Run, id: OperationID, n: nat)
    returns (run': Run)
    requires IsExecution(ops, err, logs, run) && Loop(Dispatched(id)) in run && CallsOf(run, id) == []
    requires n <= |logs(id)|
    ensures IsExecution(ops, err, logs, run') && CallsAdded(run, run', id, logs(id)[..n])
  {
    if n == 0 {
      run' := run;
      assert forall x :: CallsAddedAt(run, run, id, logs(id)[..0], x);
    } else {
      var run1 := MakeCalls(ops, err, logs, run, id, n - 1);
      MakeCall(ops, err, logs, run, run1, id, n - 1);
      run' := run1 + [Handler(id, logs(id)[n - 1])];
    }
  }

  lemma InFlightNow(ops: seq<Operation>, err: Outcomes, logs: Logs, run: Run, done: set<OperationID>, id: OperationID)
    requires Serial(ops, err, logs, run, done) && NoneWaiting(GraphOf(ops), LoopTrace(run))
    requires id in GraphOf(ops) && id !in done && GraphOf(ops)[id] <= done
    ensures StatusAfter(LoopTrace(run), id) == InFlight && Loop(Dispatched(id)) in run
  {
    assert !CanStart(GraphOf(ops), LoopTrace(run), id);
    LoopTraceKeepsEvents(run, Dispatched(id));
  }

  lemma SucceededOneMore(t: Trace, done: set<OperationID>, id: OperationID)
    requires SucceededOnly(t, done)
    ensures SucceededOnly(t + [Succeeded(id)], done + {id})
  {
    forall x ensures Succeeded(x) in t + [Succeeded(id)] <==> x in done + {id} {
      assert Succeeded(x) in t + [Succeeded(id)] <==> Succeeded(x) in t || Succeeded(x) == Succeeded(id);
    }
  }

  lemma CalledOneMore(logs: Logs, run: Run, run1: Run, run2: Run, done: set<OperationID>, id: OperationID)
    requires CalledOnly(logs, run, done) && CallsAdded(run, run1, id, logs(id)) && run2 == run1 + [Loop(Succeeded(id))]
    ensures CalledOnly(logs, run2, done + {id})
  {
    forall x ensures CalledAt(logs, run2, done + {id}, x) {
      CallsOfStep(run1, Loop(Succeeded(id)), x);
      assert CalledAt(logs, run, done, x) && CallsAddedAt(run, run1, id, logs(id), x);
    }
  }

  lemma SuccessFits(ops: seq<Operation>, err: Outcomes, logs: Logs, run: Run, run1: Run, done: set<OperationID>,
                    id: OperationID)
    requires Serial(ops, err, logs, run, done) && NoneWaiting(GraphOf(ops), LoopTrace(run)) && err(id).None?
    requires id in GraphOf(ops) && StatusAfter(LoopTrace(run), id) == InFlight
    requires CallsAdded(run, run1, id, logs(id))
    ensures StepFits(ops, err, logs, run1, Loop(Succeeded(id)))
  {
    assert CallsAddedAt(run, run1, id, logs(id), id);
  }

  /** Sees one operation through whose dependencies are done. */
  lemma SerialSucceeds(ops: seq<Operation>, err: Outcomes, logs: Logs, run: Run, done: set<OperationID>,
                       id: OperationID) returns (run': Run)
    requires Serial(ops, err, logs, run, done) && NoneWaiting(GraphOf(ops), LoopTrace(run)) && err(id).None?
    requires id in GraphOf(ops) && id !in done && GraphOf(ops)[id] <= done
    ensures Serial(ops, err, logs, run', done + {id}) && run <= run'
  {
    InFlightNow(ops, err, logs, run, done, id);
    assert CalledAt(logs, run, done, id);
    var run1 := MakeCalls(ops, err, logs, run, id, |logs(id)|);
    assert logs(id)[..|logs(id)|] == logs(id);
    SuccessFits(ops, err, logs, run, run1, done, id);
    ExecutionExtends(ops, err, logs, run1, Loop(Succeeded(id)));
    run' := run1 + [Loop(Succeeded(id))];
    SucceededOneMore(LoopTrace(run), done, id);
    CalledOneMore(logs, run, run1, run', done, id);
  }

  /** And then dispatches what can start. */
  lemma SerialCompletes(ops: seq<Operation>, err: Outcomes, logs: Logs, run: Run, done: set<OperationID>,
                        id: OperationID) returns (run': Run)
    requires Serial(ops, err, logs, run, done) && NoneWaiting(GraphOf(ops), LoopTrace(run)) && err(id).None?
    requires id in GraphOf(ops) && id !in done && GraphOf(ops)[id] <= done
    ensures Serial(ops, err, logs, run', done + {id}) && NoneWaiting(GraphOf(ops), LoopTrace(run')) && run <= run'
  {
    var run1 := SerialSucceeds(ops, err, logs, run, done, id);
    AnythingMayWait(GraphOf(ops), LoopTrace(run1));
    run' := SerialDispatchesAll(ops, err, logs, run1, done + {id}, GraphOf(ops).Keys);
    PrefixTransitive(run, run1, run');
  }

  /** Each listed operation depends only on what is done or listed before it. */
  ghost predicate Fed(g: Graph, done: set<OperationID>, list: seq<OperationID>) {
    forall i | 0 <= i < |list| :: list[i] in g && forall d | d in g[list[i]] :: d in done || d in list[..i]
  }

  ghost function AllOf(list: seq<OperationID>): set<OperationID> {
    set id | id in list
  }

  lemma AllOfSplits(done: set<OperationID>, list: seq<OperationID>)
    requires list != []
    ensures done + AllOf(list) == done + AllOf(list[..|list| - 1]) + {list[|list| - 1]}
  {
    assert list == list[..|list| - 1] + [list[|list| - 1]];
  }

  lemma {:induction false} SerialRuns(ops: seq<Operation>, err: Outcomes, logs: Logs, run: Run, done: set<OperationID>,
                                      list: seq<OperationID>) returns (run': Run)
    requires Serial(ops, err, logs, run, done) && NoneWaiting(GraphOf(ops), LoopTrace(run)) && Succeeding(err)
    requires Fed(GraphOf(ops), done, list) && (forall id | id in list :: id !in done)
    requires forall i, j | 0 <= i < j < |list| :: list[i] != list[j]
    ensures Serial(ops, err, logs, run', done + AllOf(list)) && NoneWaiting(GraphOf(ops), LoopTrace(run'))
    ensures run <= run'
  {
    if list == [] {
      run' := run;
      assert done + AllOf(list) == done;
    } else {
      var front, last := list[..|list| - 1], list[|list| - 1];
      FedFront(GraphOf(ops), done, list);
      var run1 := SerialRuns(ops, err, logs, run, done, front);
      run' := SerialCompletes(ops, err, logs, run1, done + AllOf(front), last);
      PrefixTransitive(run, run1, run');
      AllOfSplits(done, list);
    }
  }

  lemma FedFront(g: Graph, done: set<OperationID>, list: seq<OperationID>)
    requires list != [] && Fed(g, done, list)
    requires forall i, j | 0 <= i < j < |list| :: list[i] != list[j]
    ensures var front, last := list[..|list| - 1], list[|list| - 1];
            Fed(g, done, front) && last in g && g[last] <= done + AllOf(front) && last !in front
  {
    var front := list[..|list| - 1];
    forall i | 0 <= i < |front| ensures front[..i] == list[..i] {
    }
  }

  // ---------- The replica-level claim, exactly ----------

  /** The plan without migration k. */
  ghost function WithoutMigration(d: PlacementDecisions, ops: seq<Operation>, k: nat): seq<Operation>
    requires MigrationStart(d) + 2 * k + 1 < |ops|
  {
    ops[..MigrationStart(d) + 2 * k] + ops[MigrationStart(d) + 2 * k + 2..]
  }

  /** Where the i-th operation of the shortened plan stands in the plan. */
  function Place(d: PlacementDecisions, k: nat, i: nat): nat {
    if i < MigrationStart(d) + 2 * k then i else i + 2
  }

  lemma WithoutMigrationAt(d: PlacementDecisions, ops: seq<Operation>, k: nat)
    requires MigrationStart(d) + 2 * k + 1 < |ops| && DistinctIds(ops)
    ensures var list := WithoutMigration(d, ops, k);
            && |list| == |ops| - 2
            && (forall i | 0 <= i < |list| :: list[i] == ops[Place(d, k, i)])
            && DistinctIds(list)
            && (forall op | op in list :: op in ops)
            && !OfSome(list, ops[MigrationStart(d) + 2 * k].id)
            && !OfSome(list, ops[MigrationStart(d) + 2 * k + 1].id)
  {
    var list, a := WithoutMigration(d, ops, k), MigrationStart(d) + 2 * k;
    assert forall i | 0 <= i < |list| :: list[i] == ops[Place(d, k, i)];
    forall i, j | 0 <= i < j < |list| ensures list[i].id != list[j].id {
      assert Place(d, k, i) < Place(d, k, j);
    }
    forall op | op in list ensures op.id != ops[a].id && op.id != ops[a + 1].id {
      var i :| 0 <= i < |list| && list[i] == op;
      assert Place(d, k, i) < a || a + 1 < Place(d, k, i);
    }
  }

  lemma WithoutMigrationKeeps(d: PlacementDecisions, ops: seq<Operation>, k: nat, q: nat)
    requires MigrationStart(d) + 2 * k + 1 < |ops| && q < |ops|
    requires q != MigrationStart(d) + 2 * k && q != MigrationStart(d) + 2 * k + 1
    ensures ops[q] in WithoutMigration(d, ops, k)
  {
    var list, a := WithoutMigration(d, ops, k), MigrationStart(d) + 2 * k;
    assert list[if q < a then q else q - 2] == ops[q];
  }

  function IdsOf(list: seq<Operation>): seq<OperationID> {
    seq(|list|, i requires 0 <= i < |list| => list[i].id)
  }

  lemma GraphAt(ops: seq<Operation>, op: Operation)
    requires DistinctIds(ops) && op in ops
    ensures op.id in GraphOf(ops) && GraphOf(ops)[op.id] == set x | x in op.dependsOn
  {
    assert forall o | o in ops && o.id == op.id :: o == op;
  }

  lemma OthersAreFed(d: PlacementDecisions, ms: seq<MigrateDecision>, uuids: Uuids, ops: seq<Operation>, k: nat)
    requires IsPlanFor(d, ms, uuids, ops) && DistinctIds(ops) && k < |ms|
    ensures Fed(GraphOf(ops), {}, IdsOf(WithoutMigration(d, ops, k)))
  {
    var list := WithoutMigration(d, ops, k);
    var ids := IdsOf(list);
    WithoutMigrationAt(d, ops, k);
    forall i | 0 <= i < |ids|
      ensures ids[i] in GraphOf(ops) && forall x | x in GraphOf(ops)[ids[i]] :: x in ids[..i]
    {
      GraphAt(ops, list[i]);
      forall x | x in GraphOf(ops)[ids[i]] ensures x in ids[..i] {
        var j := DependencyWithout(d, ms, uuids, ops, k, i, x);
        assert ids[..i][j] == x;
      }
    }
  }

  /** Once everything else is done, the migration can run. */
  lemma MigrationIsFed(d: PlacementDecisions, ms: seq<MigrateDecision>, uuids: Uuids, ops: seq<Operation>, k: nat)
    requires IsPlanFor(d, ms, uuids, ops) && DistinctIds(ops) && k < |ms|
    ensures Fed(GraphOf(ops), AllOf(IdsOf(WithoutMigration(d, ops, k))),
                [ReplacementOp(d, ms, uuids, k).id, DeleteSourceOp(d, ms, uuids, k).id])
  {
    var su, sd := ReplacementOp(d, ms, uuids, k), DeleteSourceOp(d, ms, uuids, k);
    var ids := IdsOf(WithoutMigration(d, ops, k));
    var list := [su.id, sd.id];
    assert su == ops[MigrationStart(d) + 2 * k] && sd == ops[MigrationStart(d) + 2 * k + 1];
    GraphAt(ops, su);
    GraphAt(ops, sd);
    PreemptionIdsAre(d.preemptions, uuids, su.payload.scaleUp.clusterID);
    forall x | x in su.dependsOn ensures x in ids {
      var p: nat :| p < |d.preemptions| && uuids(p) == x;
      assert ops[p] == PlannedAt(d, ms, uuids, p);
      WithoutMigrationKeeps(d, ops, k, p);
      IdIsListed(WithoutMigration(d, ops, k), ops[p]);
    }
    assert list[..1] == [su.id];
  }

  lemma IdIsListed(list: seq<Operation>, op: Operation)
    requires op in list
    ensures op.id in IdsOf(list)
  {
    var i :| 0 <= i < |list| && list[i] == op;
    assert IdsOf(list)[i] == op.id;
  }

  lemma DependencyWithout(d: PlacementDecisions, ms: seq<MigrateDecision>, uuids: Uuids, ops: seq<Operation>, k: nat,
                          i: nat, x: OperationID) returns (j: nat)
    requires IsPlanFor(d, ms, uuids, ops) && DistinctIds(ops) && k < |ms|
    requires i < |WithoutMigration(d, ops, k)| && x in WithoutMigration(d, ops, k)[i].dependsOn
    ensures j < i && WithoutMigration(d, ops, k)[j].id == x
  {
    WithoutMigrationAt(d, ops, k);
    var p := DependencyAt(d, ms, uuids, ops, k, Place(d, k, i), x);
    j := if p < MigrationStart(d) + 2 * k then p else p - 2;
    assert Place(d, k, j) == p && WithoutMigration(d, ops, k)[j] == ops[p];
  }

  /** A dependency of any other operation stands earlier and is not of migration k. */
  lemma DependencyAt(d: PlacementDecisions, ms: seq<MigrateDecision>, uuids: Uuids, ops: seq<Operation>, k: nat, q: nat,
                     x: OperationID) returns (p: nat)
    requires IsPlanFor(d, ms, uuids, ops) && k < |ms| && q < |ops| && x in ops[q].dependsOn
    requires q != MigrationStart(d) + 2 * k && q != MigrationStart(d) + 2 * k + 1
    ensures p < q && ops[p].id == x && p != MigrationStart(d) + 2 * k && p != MigrationStart(d) + 2 * k + 1
  {
    assert ops[q] == PlannedAt(d, ms, uuids, q);
    if ops[q].payload.ScaleUp? {
      PreemptionIdsAre(d.preemptions, uuids, ops[q].payload.scaleUp.clusterID);
      p :| p < |d.preemptions| && uuids(p) == x;
    } else {
      p := q - 1;
    }
    assert ops[p] == PlannedAt(d, ms, uuids, p);
  }

  /** Everything but migration k is done, whose replacement was dispatched as soon as it
      could be but whose handler has not made a call. */
  lemma ExecuteOthers(d: PlacementDecisions, ms: seq<MigrateDecision>, uuids: Uuids, ops: seq<Operation>, err: Outcomes,
                      k: nat, logs: Logs) returns (run: Run)
    requires IsPlanFor(d, ms, uuids, ops) && DistinctIds(ops) && k < |ms| && Succeeding(err)
    requires HandlersProduce(ops, err, logs)
    ensures Serial(ops, err, logs, run, AllOf(IdsOf(WithoutMigration(d, ops, k))))
    ensures NoneWaiting(GraphOf(ops), LoopTrace(run))
  {
    var ids := IdsOf(WithoutMigration(d, ops, k));
    WithoutMigrationAt(d, ops, k);
    OthersAreFed(d, ms, uuids, ops, k);
    SerialStarts(ops, err, logs);
    AnythingMayWait(GraphOf(ops), LoopTrace([]));
    var run0 := SerialDispatchesAll(ops, err, logs, [], {}, GraphOf(ops).Keys);
    run := SerialRuns(ops, err, logs, run0, {}, ids);
    assert {} + AllOf(ids) == AllOf(ids);
  }

  /** And then the migration runs too. */
  lemma ExecuteMigration(d: PlacementDecisions, ms: seq<MigrateDecision>, uuids: Uuids, ops: seq<Operation>,
                         err: Outcomes, k: nat, logs: Logs, run1: Run) returns (run: Run)
    requires IsPlanFor(d, ms, uuids, ops) && DistinctIds(ops) && k < |ms| && Succeeding(err)
    requires Serial(ops, err, logs, run1, AllOf(IdsOf(WithoutMigration(d, ops, k))))
    requires NoneWaiting(GraphOf(ops), LoopTrace(run1))
    ensures IsWholeExecution(ops, err, logs, run) && run1 <= run
  {
    var su, sd := ReplacementOp(d, ms, uuids, k).id, DeleteSourceOp(d, ms, uuids, k).id;
    var others := WithoutMigration(d, ops, k);
    MigrationOps(d, ms, uuids, ops, k);
    MigrationIsFed(d, ms, uuids, ops, k);
    run := SerialRuns(ops, err, logs, run1, AllOf(IdsOf(others)), [su, sd]);
    AllAreListed(d, ops, k);
    assert forall id | id in GraphOf(ops) :: id in AllOf(IdsOf(others)) + AllOf([su, sd]);
  }

  lemma MigrationOps(d: PlacementDecisions, ms: seq<MigrateDecision>, uuids: Uuids, ops: seq<Operation>, k: nat)
    requires IsPlanFor(d, ms, uuids, ops) && DistinctIds(ops) && k < |ms|
    ensures var a := MigrationStart(d) + 2 * k;
            && a + 1 < |ops|
            && ReplacementOp(d, ms, uuids, k) == ops[a] && DeleteSourceOp(d, ms, uuids, k) == ops[a + 1]
            && ops[a].id != ops[a + 1].id
            && ops[a].id !in IdsOf(WithoutMigration(d, ops, k)) && ops[a + 1].id !in IdsOf(WithoutMigration(d, ops, k))
  {
    var a := MigrationStart(d) + 2 * k;
    WithoutMigrationAt(d, ops, k);
    NotListed(WithoutMigration(d, ops, k), ops[a].id);
    NotListed(WithoutMigration(d, ops, k), ops[a + 1].id);
  }

  lemma NotListed(list: seq<Operation>, id: OperationID)
    requires !OfSome(list, id)
    ensures id !in IdsOf(list)
  {
    forall i | 0 <= i < |list| ensures list[i].id != id {
      assert list[i] in list;
    }
  }

  lemma AllAreListed(d: PlacementDecisions, ops: seq<Operation>, k: nat)
    requires MigrationStart(d) + 2 * k + 1 < |ops|
    ensures var a := MigrationStart(d) + 2 * k;
            forall id | id in GraphOf(ops) ::
              id in IdsOf(WithoutMigration(d, ops, k)) || id in [ops[a].id, ops[a + 1].id]
  {
    var a := MigrationStart(d) + 2 * k;
    forall id | id in GraphOf(ops)
      ensures id in IdsOf(WithoutMigration(d, ops, k)) || id in [ops[a].id, ops[a + 1].id]
    {
      var op :| op in ops && op.id == id;
      var q: nat :| q < |ops| && ops[q] == op;
      if q != a && q != a + 1 {
        WithoutMigrationKeeps(d, ops, k, q);
        IdIsListed(WithoutMigration(d, ops, k), ops[q]);
      }
    }
  }

  /** If another decision names the source, some execution of the whole plan deletes it
      too early. */
  lemma NamedElsewhereMayDelete(d: PlacementDecisions, ms: seq<MigrateDecision>, uuids: Uuids, ops: seq<Operation>,
                                err: Outcomes, k: nat) returns (logs: Logs, run: Run, i: nat)
    requires IsPlanFor(d, ms, uuids, ops) && NeverRepeats(uuids) && k < |ms| && NamedElsewhere(d, ms, k)
    requires Succeeding(err)
    ensures DeletedTooEarly(d, ms, uuids, ops, err, logs, run, k, i)
  {
    var other := OtherId(ms[k].sourceReplicaID);
    PlanIsExecutable(d, ms, uuids, ops);
    logs := SuccessLogs(ops, other);
    SuccessIsProduced(ops, err, other);
    var run1 := ExecuteOthers(d, ms, uuids, ops, err, k, logs);
    run := ExecuteMigration(d, ms, uuids, ops, err, k, logs, run1);
    CreatesOnly(logs, run, ms[k].sourceReplicaID);
    i := NamerDeletes(d, ms, uuids, ops, err, k, logs, other, run1);
    StillTooEarly(run1, run, i, ReplacementOp(d, ms, uuids, k).id);
  }

  lemma OtherId(r: ReplicaID) returns (other: ReplicaID)
    ensures other != r
  {
    other := r + "x";
    assert |other| == |r| + 1;
  }

  lemma StillTooEarly(run1: Run, run: Run, i: nat, id: OperationID)
    requires run1 <= run && i < |run1| && !exists replacement :: RanBefore(run1, i, id, replacement)
    ensures run[i] == run1[i] && !exists replacement :: RanBefore(run, i, id, replacement)
  {
    forall replacement ensures !RanBefore(run, i, id, replacement) {
      assert run[..i] == run1[..i] && !RanBefore(run1, i, id, replacement);
    }
  }

  /** By the time everything else is done, whoever else names the source has deleted it. */
  lemma NamerDeletes(d: PlacementDecisions, ms: seq<MigrateDecision>, uuids: Uuids, ops: seq<Operation>, err: Outcomes,
                     k: nat, logs: Logs, other: ReplicaID, run: Run) returns (i: nat)
    requires IsPlanFor(d, ms, uuids, ops) && DistinctIds(ops) && k < |ms| && NamedElsewhere(d, ms, k)
    requires logs == SuccessLogs(ops, other)
    requires Serial(ops, err, logs, run, AllOf(IdsOf(WithoutMigration(d, ops, k))))
    ensures i < |run| && run[i].Handler? && run[i].call == Deleted(ms[k].sourceReplicaID)
    ensures !exists replacement :: RanBefore(run, i, ReplacementOp(d, ms, uuids, k).id, replacement)
  {
    NamedElsewhereIff(d, ms, uuids, ops, k);
    var q: nat :| AlsoNamedAt(d, ms, ops, k, q);
    MigrationOps(d, ms, uuids, ops, k);
    WithoutMigrationKeeps(d, ops, k, q);
    IdIsListed(WithoutMigration(d, ops, k), ops[q]);
    SuccessLogAt(ops, other, ops[q]);
    SuccessCallsSucceed(ops[q].payload, other);
    assert CalledAt(logs, run, AllOf(IdsOf(WithoutMigration(d, ops, k))), ops[q].id);
    i := CallIsMade(run, ops[q].id, Deleted(ms[k].sourceReplicaID));
    assert CalledAt(logs, run, AllOf(IdsOf(WithoutMigration(d, ops, k))), ReplacementOp(d, ms, uuids, k).id);
    NeverRan(run, i, ReplacementOp(d, ms, uuids, k).id);
  }

  lemma CallIsMade(run: Run, id: OperationID, c: Call) returns (i: nat)
    requires c in CallsOf(run, id)
    ensures i < |run| && run[i] == Handler(id, c)
  {
    CallsOfKeepsCalls(run, id, c);
    i :| 0 <= i < |run| && run[i] == Handler(id, c);
  }

  lemma NeverRan(run: Run, i: nat, id: OperationID)
    requires i <= |run| && CallsOf(run, id) == []
    ensures !exists replacement :: RanBefore(run, i, id, replacement)
  {
    forall replacement ensures !RanBefore(run, i, id, replacement) {
      CallsOfKeepsCalls(run, id, Created(replacement));
      assert Handler(id, Created(replacement)) in run[..i] ==> Handler(id, Created(replacement)) in run;
    }
  }

  lemma CreatesOnly(logs: Logs, run: Run, r: ReplicaID)
    requires Interleaves(LoopTrace(run), logs, run) && forall id :: Created(r) !in logs(id)
    ensures !CreatedIn(run, r)
  {
    forall id ensures Handler(id, Created(r)) !in run {
      CallsOfKeepsCalls(run, id, Created(r));
      assert CallsOf(run, id) <= logs(id);
    }
  }

  /** A replica named by nothing else survives the failure of its replacement. */
  lemma FailedReplacementKeepsReplica(d: PlacementDecisions, ms: seq<MigrateDecision>, uuids: Uuids,
                                      ops: seq<Operation>, err: Outcomes, run: Run, k: nat, i: nat)
    requires IsPlanFor(d, ms, uuids, ops) && NeverRepeats(uuids) && LegalRun(ops, err, run)
    requires k < |ms| && i < |run| && !NamedElsewhere(d, ms, k) && !CreatedIn(run, ms[k].sourceReplicaID)
    requires var su := ReplacementOp(d, ms, uuids, k).id; Loop(Errored(su)) in run || Loop(Dropped(su)) in run
    ensures !(run[i].Handler? && run[i].call == Deleted(ms[k].sourceReplicaID))
  {
    if run[i].Handler? && run[i].call == Deleted(ms[k].sourceReplicaID) {
      DeleterIsOwn(d, ms, uuids, ops, err, run, k, i);
    }
    FailedReplacementKeepsSource(d, ms, uuids, ops, err, run, k, i);
  }

  /** In every execution the source replica of a migration is deleted only after its
      replacement was created and seen running, exactly when no preemption, no
      scale-down and no other migration of the cycle names that replica. */
  lemma SourceIsBlueGreenIff(d: PlacementDecisions, ms: seq<MigrateDecision>, uuids: Uuids, ops: seq<Operation>, k: nat)
    requires IsPlanFor(d, ms, uuids, ops) && NeverRepeats(uuids) && k < |ms|
    ensures (forall err: Outcomes, logs: Logs, run: Run, i: nat ::
               !DeletedTooEarly(d, ms, uuids, ops, err, logs, run, k, i)) <==>
            !NamedElsewhere(d, ms, k)
  {
    if NamedElsewhere(d, ms, k) {
      var err: Outcomes := (id: OperationID) => None;
      var logs, run, i := NamedElsewhereMayDelete(d, ms, uuids, ops, err, k);
      assert DeletedTooEarly(d, ms, uuids, ops, err, logs, run, k, i);
    } else {
      forall err: Outcomes, logs: Logs, run: Run, i: nat
        ensures !DeletedTooEarly(d, ms, uuids, ops, err, logs, run, k, i)
      {
        if DeletedTooEarly(d, ms, uuids, ops, err, logs, run, k, i) {
          InterleavingIsLegal(ops, err, LoopTrace(run), logs, run);
          OnlyNamerIsOwn(d, ms, uuids, ops, err, run, k, i);
          assert false;
        }
      }
    }
  }
}
