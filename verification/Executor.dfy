/** The plan executor: dispatches every operation whose dependencies completed,
    takes results in whatever order they arrive, aborts everything downstream of
    a failure, and can be cancelled while it waits. Execute's contract says what
    the three result lists hold and that the run's events form a legal trace. */
module Executor {
  import opened Model
  import opened Collections
  import opened DependencyGraph
  import opened ExecutionTrace

  datatype FailedOp = FailedOp(operationID: OperationID, operationType: OperationType, err: string)

  datatype ExecutionResult = ExecutionResult(
    completed: seq<OperationID>,
    failed: seq<FailedOp>,
    aborted: seq<OperationID>)

  ghost predicate DistinctIds(ops: seq<Operation>) {
    forall i, j :: 0 <= i < j < |ops| ==> ops[i].id != ops[j].id
  }

  function Ids(ops: seq<Operation>): set<OperationID> {
    set op | op in ops :: op.id
  }

  ghost function GraphOf(ops: seq<Operation>): Graph {
    map id | id in Ids(ops) :: set op, d | op in ops && op.id == id && d in op.dependsOn :: d
  }

  ghost function FailedIds(failed: seq<FailedOp>): seq<OperationID> {
    seq(|failed|, i requires 0 <= i < |failed| => failed[i].operationID)
  }

  ghost predicate IsIndex(ops: seq<Operation>, opByID: map<OperationID, Operation>) {
    && opByID.Keys == Ids(ops)
    && forall id | id in opByID ::
         opByID[id] in ops && opByID[id].id == id && GraphOf(ops)[id] == set d | d in opByID[id].dependsOn
  }

  type StatusMap = map<OperationID, OpStatus>

  ghost function WithStatus(status: StatusMap, st: OpStatus): set<OperationID> {
    set id | id in status && status[id] == st
  }

  // ---------- What holds between any two statements of the main loop ----------

  /** Statuses agree with the history of events. */
  ghost predicate Recorded(g: Graph, err: Outcomes, status: StatusMap, trace: Trace) {
    && status.Keys == g.Keys
    && LegalTrace(g, err, trace)
    && forall id :: StatusAfter(trace, id) == if id in status then status[id] else OpPending
  }

  /** Counters and result lists agree with the statuses. */
  ghost predicate Counted(ops: seq<Operation>, err: Outcomes, status: StatusMap, pending: int, inflight: int,
                          res: ExecutionResult)
  {
    && pending == |WithStatus(status, OpPending)|
    && inflight == |WithStatus(status, InFlight)|
    && Enumerates(res.completed, WithStatus(status, Completed))
    && Enumerates(FailedIds(res.failed), WithStatus(status, Failed))
    && Enumerates(res.aborted, WithStatus(status, Aborted))
    && ReportsErrors(ops, err, res)
  }

  /** Only operations that settle were ever dispatched, each after all its
      dependencies completed, and results follow the outcomes. */
  ghost predicate Sound(g: Graph, err: Outcomes, status: StatusMap) {
    && status.Keys == g.Keys
    && (forall id | id in status && status[id] in {InFlight, Completed, Failed} ::
          Settles(g, id) && g[id] <= WithStatus(status, Completed))
    && (forall id | id in status && status[id] == Completed :: err(id).None?)
    && (forall id | id in status && status[id] == Failed :: err(id).Some?)
  }

  ghost predicate Blocks(g: Graph, status: StatusMap, f: OperationID, id: OperationID) {
    f in status && status[f] == Failed && DependsOn(g, id, f)
  }

  /** Aborted means: downstream of a failure, and nothing else. */
  ghost predicate AbortsExact(g: Graph, status: StatusMap) {
    forall id | id in status :: status[id] == Aborted <==> exists f :: Blocks(g, status, f, id)
  }

  // ---------- One status change at a time ----------

  lemma StatusMoves(status: StatusMap, id: OperationID, st: OpStatus)
    requires id in status && status[id] != st
    ensures WithStatus(status[id := st], st) == WithStatus(status, st) + {id}
    ensures WithStatus(status[id := st], status[id]) == WithStatus(status, status[id]) - {id}
    ensures id in WithStatus(status, status[id]) && id !in WithStatus(status, st)
    ensures forall s | s != st && s != status[id] :: WithStatus(status[id := st], s) == WithStatus(status, s)
  {
  }

  function EventFor(st: OpStatus, id: OperationID): Event
    requires st != OpPending
  {
    match st
    case InFlight => Dispatched(id)
    case Completed => Succeeded(id)
    case Failed => Errored(id)
    case Aborted => Dropped(id)
  }

  lemma StatusAfterStep(t: Trace, id: OperationID, st: OpStatus, x: OperationID)
    requires st != OpPending
    requires StatusAfter(t, id) == if st == InFlight || st == Aborted then OpPending else InFlight
    ensures StatusAfter(t + [EventFor(st, id)], x) == if x == id then st else StatusAfter(t, x)
  {
    var e := EventFor(st, id);
    assert Succeeded(x) in t + [e] <==> Succeeded(x) in t || Succeeded(x) == e;
    assert Errored(x) in t + [e] <==> Errored(x) in t || Errored(x) == e;
    assert Dropped(x) in t + [e] <==> Dropped(x) in t || Dropped(x) == e;
    assert Dispatched(x) in t + [e] <==> Dispatched(x) in t || Dispatched(x) == e;
  }

  lemma RecordedMoves(g: Graph, err: Outcomes, status: StatusMap, trace: Trace, id: OperationID, st: OpStatus)
    requires Recorded(g, err, status, trace)
    requires st != OpPending && Justified(g, err, trace, EventFor(st, id))
    ensures Recorded(g, err, status[id := st], trace + [EventFor(st, id)])
  {
    LegalTraceExtends(g, err, trace, EventFor(st, id));
    forall x ensures StatusAfter(trace + [EventFor(st, id)], x) ==
                     if x in status[id := st] then status[id := st][x] else OpPending
    {
      StatusAfterStep(trace, id, st, x);
    }
  }

  lemma SoundMoves(g: Graph, err: Outcomes, status: StatusMap, id: OperationID, st: OpStatus)
    requires Sound(g, err, status) && id in status
    requires status[id] == OpPending && st == InFlight ==> g[id] <= WithStatus(status, Completed)
    requires st == Completed ==> status[id] == InFlight && err(id).None?
    requires st == Failed ==> status[id] == InFlight && err(id).Some?
    requires st == InFlight || st == Aborted ==> status[id] == OpPending
    requires st != OpPending
    ensures Sound(g, err, status[id := st])
  {
    var status' := status[id := st];
    assert WithStatus(status, Completed) <= WithStatus(status', Completed);
    if st == InFlight {
      forall d | d in g[id] ensures Settles(g, d) {
        assert d in WithStatus(status, Completed);
      }
      SettlesUpward(g, id);
    }
  }

  /** Nothing that was dispatched depends on an operation that has not completed. */
  lemma DispatchedAboveCompleted(g: Graph, err: Outcomes, status: StatusMap, id: OperationID, d: OperationID)
    requires Sound(g, err, status)
    requires id in status && status[id] in {InFlight, Completed, Failed}
    requires DependsOn(g, id, d)
    ensures d in status && status[d] == Completed
  {
    var done := WithStatus(status, Completed);
    var s := FirstStep(g, id, d);
    assert s in done;
    if s != d {
      DependenciesStayIn(g, done, s, d);
    }
  }

  // ---------- Bookkeeping for each kind of status change ----------

  lemma CountedDispatch(ops: seq<Operation>, err: Outcomes, status: StatusMap, pending: int, inflight: int,
                        res: ExecutionResult, id: OperationID)
    requires Counted(ops, err, status, pending, inflight, res)
    requires id in status && status[id] == OpPending
    ensures Counted(ops, err, status[id := InFlight], pending - 1, inflight + 1, res)
  {
    StatusMoves(status, id, InFlight);
  }

  lemma CountedComplete(ops: seq<Operation>, err: Outcomes, status: StatusMap, pending: int, inflight: int,
                        res: ExecutionResult, id: OperationID)
    requires Counted(ops, err, status, pending, inflight, res)
    requires id in status && status[id] == InFlight
    ensures Counted(ops, err, status[id := Completed], pending, inflight - 1, res.(completed := res.completed + [id]))
  {
    StatusMoves(status, id, Completed);
    EnumeratesAppend(res.completed, WithStatus(status, Completed), id);
  }

  lemma CountedFail(ops: seq<Operation>, err: Outcomes, status: StatusMap, pending: int, inflight: int,
                    res: ExecutionResult, op: Operation)
    requires Counted(ops, err, status, pending, inflight, res)
    requires op in ops && op.id in status && status[op.id] == InFlight && err(op.id).Some?
    ensures Counted(ops, err, status[op.id := Failed], pending, inflight - 1,
                    res.(failed := res.failed + [FailedOp(op.id, TypeOf(op.payload), err(op.id).value)]))
  {
    var f := FailedOp(op.id, TypeOf(op.payload), err(op.id).value);
    StatusMoves(status, op.id, Failed);
    EnumeratesAppend(FailedIds(res.failed), WithStatus(status, Failed), op.id);
    assert FailedIds(res.failed + [f]) == FailedIds(res.failed) + [op.id];
    assert forall x | x in res.failed + [f] :: x in res.failed || x == f;
  }

  ghost function WithAborted(status: StatusMap, s: set<OperationID>): StatusMap {
    map id | id in status :: if id in s then Aborted else status[id]
  }

  lemma WithAbortedSets(status: StatusMap, s: set<OperationID>)
    requires s <= WithStatus(status, OpPending)
    ensures WithStatus(WithAborted(status, s), OpPending) == WithStatus(status, OpPending) - s
    ensures WithStatus(WithAborted(status, s), InFlight) == WithStatus(status, InFlight)
    ensures WithStatus(WithAborted(status, s), Completed) == WithStatus(status, Completed)
    ensures WithStatus(WithAborted(status, s), Failed) == WithStatus(status, Failed)
    ensures WithStatus(WithAborted(status, s), Aborted) == WithStatus(status, Aborted) + s
  {
  }

  lemma CountedAbort(ops: seq<Operation>, err: Outcomes, status: StatusMap, pending: int, inflight: int,
                     res: ExecutionResult, dropped: seq<OperationID>, s: set<OperationID>)
    requires Counted(ops, err, status, pending, inflight, res)
    requires Enumerates(dropped, s) && s <= WithStatus(status, OpPending)
    ensures Counted(ops, err, WithAborted(status, s), pending - |dropped|, inflight,
                    res.(aborted := res.aborted + dropped))
  {
    WithAbortedSets(status, s);
    EnumerationSize(dropped, s);
    EnumeratesConcat(res.aborted, WithStatus(status, Aborted), dropped, s);
  }

  // ---------- The executor's own steps ----------

  predicate Lists(dependents: map<OperationID, seq<OperationID>>, x: OperationID, y: OperationID) {
    x in dependents && y in dependents[x]
  }

  /** dependents[x] lists the operations that depend directly on x. */
  ghost predicate IsReverse(g: Graph, dependents: map<OperationID, seq<OperationID>>) {
    forall x, y :: Lists(dependents, x, y) <==> (y in g && x in g[y])
  }

  ghost predicate HasEdge(ops: seq<Operation>, x: OperationID, y: OperationID) {
    exists op :: op in ops && op.id == y && x in op.dependsOn
  }

  ghost predicate ListsEdges(ops: seq<Operation>, dependents: map<OperationID, seq<OperationID>>) {
    forall x, y :: HasEdge(ops, x, y) <==> Lists(dependents, x, y)
  }

  lemma HasEdgeAppend(ops: seq<Operation>, op: Operation, x: OperationID, y: OperationID)
    ensures HasEdge(ops + [op], x, y) <==> HasEdge(ops, x, y) || (y == op.id && x in op.dependsOn)
  {
    if HasEdge(ops, x, y) {
      var o :| o in ops && o.id == y && x in o.dependsOn;
      assert o in ops + [op];
    } else if y == op.id && x in op.dependsOn {
      assert op in ops + [op];
    }
  }

  /** The edges of ops and the first n of op's. */
  ghost predicate ListsPart(ops: seq<Operation>, op: Operation, n: nat, dependents: map<OperationID, seq<OperationID>>)
    requires n <= |op.dependsOn|
  {
    forall x, y {:trigger Lists(dependents, x, y)} ::
      Lists(dependents, x, y) <==> HasEdge(ops, x, y) || (y == op.id && x in op.dependsOn[..n])
  }

  lemma ListsPartStep(ops: seq<Operation>, op: Operation, n: nat, dependents: map<OperationID, seq<OperationID>>)
    requires n < |op.dependsOn| && ListsPart(ops, op, n, dependents)
    ensures var dep := op.dependsOn[n];
            ListsPart(ops, op, n + 1, dependents[dep := (if dep in dependents then dependents[dep] else []) + [op.id]])
  {
    var dep := op.dependsOn[n];
    var known := if dep in dependents then dependents[dep] else [];
    var dependents' := dependents[dep := known + [op.id]];
    assert op.dependsOn[..n + 1] == op.dependsOn[..n] + [dep];
    forall x, y
      ensures Lists(dependents', x, y) <==> HasEdge(ops, x, y) || (y == op.id && x in op.dependsOn[..n + 1])
    {
      assert Lists(dependents', x, y) <==> Lists(dependents, x, y) || (x == dep && y == op.id);
    }
  }

  /** Records that op depends on each of its dependencies. */
  method AddDependent(ghost ops: seq<Operation>, op: Operation, dependents0: map<OperationID, seq<OperationID>>)
    returns (dependents: map<OperationID, seq<OperationID>>)
    requires ListsEdges(ops, dependents0)
    ensures ListsEdges(ops + [op], dependents)
  {
    dependents := dependents0;
    for j := 0 to |op.dependsOn|
      invariant ListsPart(ops, op, j, dependents)
    {
      var dep := op.dependsOn[j];
      ListsPartStep(ops, op, j, dependents);
      dependents := dependents[dep := (if dep in dependents then dependents[dep] else []) + [op.id]];
    }
    assert op.dependsOn[..|op.dependsOn|] == op.dependsOn;
    forall x, y ensures HasEdge(ops + [op], x, y) <==> Lists(dependents, x, y) {
      HasEdgeAppend(ops, op, x, y);
      assert Lists(dependents, x, y) <==> HasEdge(ops, x, y) || (y == op.id && x in op.dependsOn);
    }
  }

  method BuildIndices(ops: seq<Operation>)
    returns (opByID: map<OperationID, Operation>, status: StatusMap, dependents: map<OperationID, seq<OperationID>>)
    requires DistinctIds(ops)
    ensures IsIndex(ops, opByID)
    ensures status == map id | id in Ids(ops) :: OpPending
    ensures IsReverse(GraphOf(ops), dependents)
  {
    opByID, status, dependents := map[], map[], map[];
    for i := 0 to |ops|
      invariant opByID.Keys == status.Keys == Ids(ops[..i])
      invariant forall id | id in opByID :: opByID[id] in ops && opByID[id].id == id && status[id] == OpPending
      invariant ListsEdges(ops[..i], dependents)
    {
      var op := ops[i];
      opByID := opByID[op.id := op];
      status := status[op.id := OpPending];
      dependents := AddDependent(ops[..i], op, dependents);
      assert ops[..i + 1] == ops[..i] + [op];
    }
    assert ops[..|ops|] == ops;
    EdgesAreReverse(ops, dependents);
    IndexHasDependencies(ops, opByID);
  }

  lemma EdgesAreReverse(ops: seq<Operation>, dependents: map<OperationID, seq<OperationID>>)
    requires ListsEdges(ops, dependents)
    ensures IsReverse(GraphOf(ops), dependents)
  {
    forall x, y ensures HasEdge(ops, x, y) <==> (y in GraphOf(ops) && x in GraphOf(ops)[y]) {
    }
  }

  lemma IndexHasDependencies(ops: seq<Operation>, opByID: map<OperationID, Operation>)
    requires DistinctIds(ops) && opByID.Keys == Ids(ops)
    requires forall id | id in opByID :: opByID[id] in ops && opByID[id].id == id
    ensures IsIndex(ops, opByID)
  {
    forall id | id in opByID ensures GraphOf(ops)[id] == set d | d in opByID[id].dependsOn {
      forall op | op in ops && op.id == id ensures op == opByID[id] {
      }
    }
  }

  method DepsCompleted(op: Operation, status: StatusMap) returns (ready: bool)
    ensures ready <==> forall dep | dep in op.dependsOn :: dep in WithStatus(status, Completed)
  {
    for i := 0 to |op.dependsOn|
      invariant forall j | 0 <= j < i :: op.dependsOn[j] in WithStatus(status, Completed)
    {
      var dep := op.dependsOn[i];
      if !(dep in status && status[dep] == Completed) {
        assert dep in op.dependsOn && dep !in WithStatus(status, Completed);
        return false;
      }
    }
    return true;
  }

  /** The search has reached only operations downstream of failedID, and what is
      left to look at is in the queue. */
  ghost predicate Searching(g: Graph, failedID: OperationID, visited: set<OperationID>, queue: seq<OperationID>) {
    && failedID in visited && visited <= g.Keys
    && (forall id | id in queue :: id in g && DependsOn(g, id, failedID))
    && (forall id | id in visited && id != failedID :: DependsOn(g, id, failedID))
    && (forall x, y | y in g && x in g[y] && x in visited :: y in visited || y in queue)
  }

  lemma SearchStarts(g: Graph, dependents: map<OperationID, seq<OperationID>>, failedID: OperationID)
    requires IsReverse(g, dependents) && failedID in g
    ensures Searching(g, failedID, {failedID}, if failedID in dependents then dependents[failedID] else [])
  {
    forall y | y in g && failedID in g[y] ensures Lists(dependents, failedID, y) {
    }
    if failedID in dependents {
      forall y | y in dependents[failedID] ensures y in g && DependsOn(g, y, failedID) {
        assert Lists(dependents, failedID, y);
        DirectDependency(g, y, failedID);
      }
    }
  }

  lemma SearchVisits(g: Graph, dependents: map<OperationID, seq<OperationID>>, failedID: OperationID,
                     visited: set<OperationID>, queue: seq<OperationID>)
    requires IsReverse(g, dependents) && queue != []
    requires Searching(g, failedID, visited, queue)
    ensures var id := queue[0];
            Searching(g, failedID, visited + {id}, queue[1..] + if id in dependents then dependents[id] else [])
  {
    var id := queue[0];
    var more := if id in dependents then dependents[id] else [];
    assert queue == [id] + queue[1..];
    forall y | y in more ensures y in g && DependsOn(g, y, failedID) {
      assert Lists(dependents, id, y);
      DirectDependency(g, y, id);
      Transitive(g, y, id, failedID);
    }
    forall x, y | y in g && x in g[y] && x in visited + {id} ensures y in visited + {id} || y in queue[1..] + more {
      if x == id {
        assert Lists(dependents, id, y);
      }
    }
  }

  /** Meeting a visited operation again adds nothing. */
  lemma SearchRepeats(g: Graph, failedID: OperationID, visited: set<OperationID>, id: OperationID,
                      queue: seq<OperationID>)
    requires Searching(g, failedID, visited, [id] + queue) && id in visited
    ensures Searching(g, failedID, visited, queue)
  {
    forall x | x in queue ensures x in [id] + queue {
    }
  }

  lemma SearchStep(g: Graph, dependents: map<OperationID, seq<OperationID>>, failedID: OperationID,
                   visited: set<OperationID>, queue: seq<OperationID>)
    requires IsReverse(g, dependents) && queue != [] && Searching(g, failedID, visited, queue)
    ensures queue[0] in g
    ensures var id := queue[0];
            if id in visited then Searching(g, failedID, visited, queue[1..])
            else Searching(g, failedID, visited + {id}, queue[1..] + if id in dependents then dependents[id] else [])
  {
    if queue[0] in visited {
      assert queue == [queue[0]] + queue[1..];
      SearchRepeats(g, failedID, visited, queue[0], queue[1..]);
    } else {
      SearchVisits(g, dependents, failedID, visited, queue);
    }
  }

  lemma SearchEnds(g: Graph, failedID: OperationID, visited: set<OperationID>, status: StatusMap)
    requires Searching(g, failedID, visited, []) && status.Keys == g.Keys
    requires failedID in status && status[failedID] == Failed
    ensures PendingIn(status, visited) == Downstream(g, status, failedID)
  {
    forall id | DependsOn(g, id, failedID) ensures id in visited {
      DependentsStayIn(g, visited, id, failedID);
    }
  }

  ghost function PendingIn(status: StatusMap, visited: set<OperationID>): set<OperationID> {
    set id | id in visited && id in status && status[id] == OpPending
  }

  /** The pending operations that depend on failedID. */
  ghost function Downstream(g: Graph, status: StatusMap, failedID: OperationID): set<OperationID> {
    set id | id in status && status[id] == OpPending && DependsOn(g, id, failedID)
  }

  /** Exactly the visited operations that were pending have been aborted. */
  ghost predicate Marking(g: Graph, err: Outcomes, status: StatusMap, visited: set<OperationID>,
                          status': StatusMap, trace': Trace, abortedIDs: seq<OperationID>)
  {
    && Enumerates(abortedIDs, PendingIn(status, visited))
    && status' == WithAborted(status, PendingIn(status, visited))
    && Recorded(g, err, status', trace') && Sound(g, err, status')
  }

  lemma MarkingStarts(g: Graph, err: Outcomes, status: StatusMap, trace: Trace, failedID: OperationID)
    requires Recorded(g, err, status, trace) && Sound(g, err, status)
    requires failedID in status && status[failedID] == Failed
    ensures Marking(g, err, status, {failedID}, status, trace, [])
  {
    assert PendingIn(status, {failedID}) == {};
    assert WithAborted(status, {}) == status;
  }

  lemma MarkingSkips(g: Graph, err: Outcomes, status: StatusMap, visited: set<OperationID>,
                     status': StatusMap, trace': Trace, abortedIDs: seq<OperationID>, id: OperationID)
    requires Marking(g, err, status, visited, status', trace', abortedIDs)
    requires id in status' && id !in visited && status'[id] != OpPending
    ensures Marking(g, err, status, visited + {id}, status', trace', abortedIDs)
  {
    assert PendingIn(status, visited + {id}) == PendingIn(status, visited);
  }

  lemma MarkingAborts(g: Graph, err: Outcomes, status: StatusMap, visited: set<OperationID>,
                      status': StatusMap, trace': Trace, abortedIDs: seq<OperationID>, id: OperationID)
    requires Marking(g, err, status, visited, status', trace', abortedIDs)
    requires id in status' && id !in visited && status'[id] == OpPending
    ensures Marking(g, err, status, visited + {id}, status'[id := Aborted], trace' + [Dropped(id)], abortedIDs + [id])
  {
    var hit := PendingIn(status, visited);
    assert PendingIn(status, visited + {id}) == hit + {id};
    assert status'[id := Aborted] == WithAborted(status, hit + {id});
    assert Enumerates(abortedIDs + [id], hit + {id}) by {
      EnumeratesAppend(abortedIDs, hit, id);
    }
    assert Sound(g, err, status'[id := Aborted]) by {
      SoundMoves(g, err, status', id, Aborted);
    }
    assert Recorded(g, err, status'[id := Aborted], trace' + [Dropped(id)]) by {
      RecordedMoves(g, err, status', trace', id, Aborted);
    }
  }

  /** Aborts an operation just reached, if it is still pending. */
  method MarkAborted(ghost g: Graph, ghost err: Outcomes, ghost status: StatusMap, ghost visited: set<OperationID>,
                     status0: StatusMap, abortedIDs0: seq<OperationID>, ghost trace0: Trace, id: OperationID)
    returns (status': StatusMap, abortedIDs: seq<OperationID>, ghost trace': Trace)
    requires Marking(g, err, status, visited, status0, trace0, abortedIDs0)
    requires id in status0 && id !in visited
    ensures Marking(g, err, status, visited + {id}, status', trace', abortedIDs)
  {
    status', abortedIDs, trace' := status0, abortedIDs0, trace0;
    if status'[id] == OpPending {
      MarkingAborts(g, err, status, visited, status', trace', abortedIDs, id);
      status' := status'[id := Aborted];
      trace' := trace' + [Dropped(id)];
      abortedIDs := abortedIDs + [id];
    } else {
      MarkingSkips(g, err, status, visited, status', trace', abortedIDs, id);
    }
  }

  /** Breadth-first search from the failed operation over the reverse edges. The
      pending operations it reaches are exactly those that depend on the failed
      one, directly or through others. */
  method AbortTransitive(
      ghost g: Graph, ghost err: Outcomes, ghost trace: Trace,
      failedID: OperationID, dependents: map<OperationID, seq<OperationID>>, status: StatusMap)
    returns (status': StatusMap, abortedIDs: seq<OperationID>, ghost trace': Trace)
    requires IsReverse(g, dependents)
    requires Recorded(g, err, status, trace) && Sound(g, err, status)
    requires failedID in status && status[failedID] == Failed
    ensures Recorded(g, err, status', trace') && Sound(g, err, status')
    ensures Enumerates(abortedIDs, Downstream(g, status, failedID))
    ensures status' == WithAborted(status, Downstream(g, status, failedID))
  {
    status', abortedIDs, trace' := status, [], trace;
    var queue := if failedID in dependents then dependents[failedID] else [];
    var visited := {failedID};
    SearchStarts(g, dependents, failedID);
    MarkingStarts(g, err, status, trace, failedID);
    while queue != []
      invariant Searching(g, failedID, visited, queue)
      invariant Marking(g, err, status, visited, status', trace', abortedIDs)
      decreases g.Keys - visited, |queue|
    {
      SearchStep(g, dependents, failedID, visited, queue);
      var id := queue[0];
      queue := queue[1..];
      if id in visited {
        continue;
      }
      status', abortedIDs, trace' := MarkAborted(g, err, status, visited, status', abortedIDs, trace', id);
      visited := visited + {id};
      queue := queue + if id in dependents then dependents[id] else [];
    }
    SearchEnds(g, failedID, visited, status);
  }

  // ---------- Aborts are exact, and statuses end up at fates ----------

  lemma AbortsUnmoved(g: Graph, status: StatusMap, id: OperationID, st: OpStatus)
    requires AbortsExact(g, status) && id in status
    requires status[id] in {OpPending, InFlight} && st in {InFlight, Completed}
    ensures AbortsExact(g, status[id := st])
  {
    var after := status[id := st];
    forall x | x in after ensures after[x] == Aborted <==> exists f :: Blocks(g, after, f, x) {
      if status[x] == Aborted {
        var f :| Blocks(g, status, f, x);
        assert Blocks(g, after, f, x);
      } else if f :| Blocks(g, after, f, x) {
        assert Blocks(g, status, f, x);
      }
    }
  }

  lemma AbortsStayExact(g: Graph, err: Outcomes, status: StatusMap, r: OperationID)
    requires Sound(g, err, status) && AbortsExact(g, status)
    requires r in status && status[r] == InFlight
    ensures var failed := status[r := Failed];
            AbortsExact(g, WithAborted(failed, Downstream(g, failed, r)))
  {
    var failed := status[r := Failed];
    var after := WithAborted(failed, Downstream(g, failed, r));
    forall id | id in after ensures after[id] == Aborted <==> exists f :: Blocks(g, after, f, id) {
      if after[id] == Aborted {
        if status[id] == Aborted {
          var f :| Blocks(g, status, f, id);
          assert Blocks(g, after, f, id);
        } else {
          assert Blocks(g, after, r, id);
        }
      } else if f :| Blocks(g, after, f, id) {
        if f == r {
          DispatchedAboveCompleted(g, err, status, id, r);
        } else {
          assert Blocks(g, status, f, id);
        }
        assert false;
      }
    }
  }

  /** Nothing is in flight and no pending operation is ready. */
  ghost predicate Quiescent(g: Graph, status: StatusMap) {
    && WithStatus(status, InFlight) == {}
    && NoneReady(g, status, {})
  }

  lemma SoundFates(g: Graph, err: Outcomes, status: StatusMap, id: OperationID)
    requires Sound(g, err, status) && id in status
    ensures status[id] == Completed ==> MustComplete(g, err, id)
    ensures status[id] == Failed ==> MustFail(g, err, id)
  {
    if status[id] in {Completed, Failed} {
      forall d | DependsOn(g, id, d) ensures err(d).None? {
        DispatchedAboveCompleted(g, err, status, id, d);
      }
    }
  }

  lemma MustCompleteBelow(g: Graph, err: Outcomes, id: OperationID, d: OperationID)
    requires Settles(g, id) && DependenciesSucceed(g, err, id) && d in g[id]
    ensures MustComplete(g, err, d)
  {
    DirectDependency(g, id, d);
    SettlesDownward(g, id, d);
    forall e | DependsOn(g, d, e) ensures err(e).None? {
      Transitive(g, id, d, e);
    }
  }

  /** The operations that must complete but have not. */
  ghost function Owed(g: Graph, err: Outcomes, status: StatusMap): set<OperationID> {
    set id | id in g && id in status && MustComplete(g, err, id) && status[id] != Completed
  }

  lemma OwedIsPending(g: Graph, err: Outcomes, status: StatusMap, id: OperationID)
    requires Sound(g, err, status) && AbortsExact(g, status) && WithStatus(status, InFlight) == {}
    requires id in status && Settles(g, id) && DependenciesSucceed(g, err, id)
    ensures status[id] in {OpPending, Completed, Failed}
  {
    assert id !in WithStatus(status, InFlight);
  }

  lemma OwedStepsIntoOwed(g: Graph, err: Outcomes, status: StatusMap, id: OperationID)
    requires Sound(g, err, status) && AbortsExact(g, status) && Quiescent(g, status)
    requires id in Owed(g, err, status)
    ensures StepsInto(g, id, Owed(g, err, status))
  {
    OwedIsPending(g, err, status, id);
    assert id in WithStatus(status, OpPending);
    var d :| d in g[id] && d !in WithStatus(status, Completed);
    MustCompleteBelow(g, err, id, d);
    assert d in Owed(g, err, status);
  }

  lemma NothingOwed(g: Graph, err: Outcomes, status: StatusMap)
    requires Sound(g, err, status) && AbortsExact(g, status) && Quiescent(g, status)
    ensures Owed(g, err, status) == {}
  {
    var owed := Owed(g, err, status);
    if owed != {} {
      forall id | id in owed ensures StepsInto(g, id, owed) {
        OwedStepsIntoOwed(g, err, status, id);
      }
      var x := NoSinkMeansCycle(g, owed);
      assert false;
    }
  }

  lemma FailuresReached(g: Graph, err: Outcomes, status: StatusMap, id: OperationID)
    requires Sound(g, err, status) && AbortsExact(g, status) && Quiescent(g, status)
    requires MustFail(g, err, id)
    ensures id in status && status[id] == Failed
  {
    NothingOwed(g, err, status);
    OwedIsPending(g, err, status, id);
    forall d | d in g[id] ensures d in WithStatus(status, Completed) {
      MustCompleteBelow(g, err, id, d);
      assert d !in Owed(g, err, status);
    }
    assert id !in WithStatus(status, OpPending);
  }

  /** Confluence: however results arrived, an uncancelled run that comes to rest
      has given each operation its fate. */
  lemma RestingFates(g: Graph, err: Outcomes, status: StatusMap)
    requires Sound(g, err, status) && AbortsExact(g, status) && Quiescent(g, status)
    ensures WithStatus(status, Completed) == Completing(g, err)
    ensures WithStatus(status, Failed) == Failing(g, err)
    ensures WithStatus(status, Aborted) == Aborting(g, err)
  {
    NothingOwed(g, err, status);
    forall id | id in status
      ensures status[id] == Completed <==> MustComplete(g, err, id)
      ensures status[id] == Failed <==> MustFail(g, err, id)
    {
      SoundFates(g, err, status, id);
      assert id !in Owed(g, err, status);
      if MustFail(g, err, id) {
        FailuresReached(g, err, status, id);
      }
    }
    forall id | id in status ensures status[id] == Aborted <==> MustAbort(g, err, id) {
      if status[id] == Aborted {
        var f :| Blocks(g, status, f, id);
        assert MustFail(g, err, f);
      }
      if MustAbort(g, err, id) {
        var f :| DependsOn(g, id, f) && MustFail(g, err, f);
        FailuresReached(g, err, status, f);
        assert Blocks(g, status, f, id);
      }
    }
  }

  ghost function Completing(g: Graph, err: Outcomes): set<OperationID> {
    set id | id in g && MustComplete(g, err, id)
  }

  ghost function Failing(g: Graph, err: Outcomes): set<OperationID> {
    set id | id in g && MustFail(g, err, id)
  }

  ghost function Aborting(g: Graph, err: Outcomes): set<OperationID> {
    set id | id in g && MustAbort(g, err, id)
  }

  /** No operation has two fates, and in a closed acyclic plan each has one. */
  lemma FatesPartition(g: Graph, err: Outcomes)
    ensures Completing(g, err) !! Failing(g, err) !! Aborting(g, err)
    ensures Closed(g) && Acyclic(g) ==> Completing(g, err) + Failing(g, err) + Aborting(g, err) == g.Keys
  {
    forall id | id in g
      ensures !(id in Completing(g, err) && id in Failing(g, err))
      ensures !((id in Completing(g, err) || id in Failing(g, err)) && id in Aborting(g, err))
    {
      FatesExclude(g, err, id);
    }
    if Closed(g) && Acyclic(g) {
      EveryOperationHasFateIff(g);
      forall id | id in g ensures id in Completing(g, err) + Failing(g, err) + Aborting(g, err) {
        assert HasFate(g, err, id);
      }
    }
  }

  // ---------- The main loop ----------

  ghost predicate Running(ops: seq<Operation>, err: Outcomes, status: StatusMap, pending: int, inflight: int,
                          res: ExecutionResult, trace: Trace)
  {
    && Recorded(GraphOf(ops), err, status, trace)
    && Sound(GraphOf(ops), err, status)
    && Counted(ops, err, status, pending, inflight, res)
  }

  lemma RunningStarts(ops: seq<Operation>, err: Outcomes)
    requires DistinctIds(ops)
    ensures var status := map id | id in Ids(ops) :: OpPending;
            && Running(ops, err, status, |ops|, 0, ExecutionResult([], [], []), [])
            && AbortsExact(GraphOf(ops), status)
  {
    var status := map id | id in Ids(ops) :: OpPending;
    var ids := seq(|ops|, i requires 0 <= i < |ops| => ops[i].id);
    assert Enumerates(ids, Ids(ops)) by {
      forall id | id in Ids(ops) ensures id in ids {
        var op :| op in ops && op.id == id;
        var i :| 0 <= i < |ops| && ops[i] == op;
        assert ids[i] == id;
      }
    }
    EnumerationSize(ids, Ids(ops));
    assert WithStatus(status, OpPending) == Ids(ops);
    assert WithStatus(status, InFlight) == {};
  }

  lemma RunningDispatches(ops: seq<Operation>, err: Outcomes, status: StatusMap, pending: int, inflight: int,
                          res: ExecutionResult, trace: Trace, id: OperationID)
    requires Running(ops, err, status, pending, inflight, res, trace)
    requires id in status && status[id] == OpPending
    requires GraphOf(ops)[id] <= WithStatus(status, Completed)
    ensures Running(ops, err, status[id := InFlight], pending - 1, inflight + 1, res, trace + [Dispatched(id)])
  {
    var g := GraphOf(ops);
    forall d | d in g[id] ensures Succeeded(d) in trace {
      assert d in WithStatus(status, Completed) && StatusAfter(trace, d) == Completed;
    }
    RecordedMoves(g, err, status, trace, id, InFlight);
    SoundMoves(g, err, status, id, InFlight);
    CountedDispatch(ops, err, status, pending, inflight, res, id);
  }

  ghost predicate Ready(g: Graph, status: StatusMap, id: OperationID) {
    id in g && g[id] <= WithStatus(status, Completed)
  }

  /** No pending operation is ready, except possibly among todo. */
  ghost predicate NoneReady(g: Graph, status: StatusMap, todo: set<OperationID>) {
    forall id | id in status && status[id] == OpPending && id !in todo :: !Ready(g, status, id)
  }

  /** What the status map says of readiness, said of the trace. */
  lemma NoneWaitingNow(g: Graph, err: Outcomes, status: StatusMap, trace: Trace)
    requires Recorded(g, err, status, trace) && NoneReady(g, status, {})
    ensures NoneWaiting(g, trace)
  {
    forall id ensures !CanStart(g, trace, id) {
      if id in g && StatusAfter(trace, id) == OpPending {
        assert !Ready(g, status, id);
        var d :| d in g[id] && d !in WithStatus(status, Completed);
        assert StatusAfter(trace, d) != Completed;
      }
    }
  }

  lemma NothingPendingNoneReady(g: Graph, status: StatusMap)
    requires WithStatus(status, OpPending) == {}
    ensures NoneReady(g, status, {})
  {
    assert forall id | id in status :: id !in WithStatus(status, OpPending);
  }

  lemma RunningCompletes(ops: seq<Operation>, err: Outcomes, status: StatusMap, pending: int, inflight: int,
                         res: ExecutionResult, trace: Trace, id: OperationID)
    requires Running(ops, err, status, pending, inflight, res, trace)
    requires id in status && status[id] == InFlight && err(id).None? && NoneReady(GraphOf(ops), status, {})
    ensures Running(ops, err, status[id := Completed], pending, inflight - 1,
                    res.(completed := res.completed + [id]), trace + [Succeeded(id)])
  {
    NoneWaitingNow(GraphOf(ops), err, status, trace);
    RecordedMoves(GraphOf(ops), err, status, trace, id, Completed);
    SoundMoves(GraphOf(ops), err, status, id, Completed);
    CountedComplete(ops, err, status, pending, inflight, res, id);
  }

  lemma RunningFails(ops: seq<Operation>, err: Outcomes, status: StatusMap, pending: int, inflight: int,
                     res: ExecutionResult, trace: Trace, op: Operation)
    requires Running(ops, err, status, pending, inflight, res, trace)
    requires op in ops && op.id in status && status[op.id] == InFlight && err(op.id).Some?
    requires NoneReady(GraphOf(ops), status, {})
    ensures Running(ops, err, status[op.id := Failed], pending, inflight - 1,
                    res.(failed := res.failed + [FailedOp(op.id, TypeOf(op.payload), err(op.id).value)]),
                    trace + [Errored(op.id)])
  {
    NoneWaitingNow(GraphOf(ops), err, status, trace);
    RecordedMoves(GraphOf(ops), err, status, trace, op.id, Failed);
    SoundMoves(GraphOf(ops), err, status, op.id, Failed);
    CountedFail(ops, err, status, pending, inflight, res, op);
  }

  lemma InFlightExists(status: StatusMap)
    requires |WithStatus(status, InFlight)| > 0
    ensures exists id :: id in status && status[id] == InFlight
  {
    var id :| id in WithStatus(status, InFlight);
  }

  lemma AfterDispatch(g: Graph, status0: StatusMap, status: StatusMap, todo: set<OperationID>, id: OperationID)
    requires NoneReady(g, status, todo + {id})
    requires AbortsExact(g, status0) ==> AbortsExact(g, status)
    requires id in status && status[id] == OpPending
    ensures NoneReady(g, status[id := InFlight], todo)
    ensures AbortsExact(g, status0) ==> AbortsExact(g, status[id := InFlight])
  {
    StatusMoves(status, id, InFlight);
    if AbortsExact(g, status) {
      AbortsUnmoved(g, status, id, InFlight);
    }
  }

  lemma NotReady(ops: seq<Operation>, op: Operation, status: StatusMap, todo: set<OperationID>)
    requires op.id in GraphOf(ops) && GraphOf(ops)[op.id] == set d | d in op.dependsOn
    requires !forall dep | dep in op.dependsOn :: dep in WithStatus(status, Completed)
    requires NoneReady(GraphOf(ops), status, todo + {op.id})
    ensures NoneReady(GraphOf(ops), status, todo)
  {
  }

  /** Dispatches an operation if it is pending and all its dependencies completed. */
  method TryDispatch(ops: seq<Operation>, opByID: map<OperationID, Operation>, id: OperationID, ghost err: Outcomes,
                     ghost res: ExecutionResult, ghost todo: set<OperationID>, ghost status1: StatusMap,
                     status0: StatusMap, pending0: int, inflight0: int, ghost trace0: Trace)
    returns (status: StatusMap, pending: int, inflight: int, ghost trace: Trace)
    requires IsIndex(ops, opByID) && id in todo && todo <= GraphOf(ops).Keys
    requires Running(ops, err, status0, pending0, inflight0, res, trace0)
    requires NoneReady(GraphOf(ops), status0, todo)
    requires AbortsExact(GraphOf(ops), status1) ==> AbortsExact(GraphOf(ops), status0)
    ensures Running(ops, err, status, pending, inflight, res, trace)
    ensures pending + inflight == pending0 + inflight0
    ensures NoneReady(GraphOf(ops), status, todo - {id})
    ensures AbortsExact(GraphOf(ops), status1) ==> AbortsExact(GraphOf(ops), status)
  {
    status, pending, inflight, trace := status0, pending0, inflight0, trace0;
    if status[id] != OpPending {
      return;
    }
    assert todo == todo - {id} + {id};
    var op := opByID[id];
    var ready := DepsCompleted(op, status);
    if ready {
      RunningDispatches(ops, err, status, pending, inflight, res, trace, id);
      AfterDispatch(GraphOf(ops), status1, status, todo - {id}, id);
      status := status[id := InFlight];
      pending := pending - 1;
      inflight := inflight + 1;
      trace := trace + [Dispatched(id)];
    } else {
      NotReady(ops, op, status, todo - {id});
    }
  }

  /** One pass over the statuses in map order: afterwards no pending operation is
      ready. */
  method DispatchReady(ops: seq<Operation>, opByID: map<OperationID, Operation>, ghost err: Outcomes,
                       ghost res: ExecutionResult,
                       status0: StatusMap, pending0: int, inflight0: int, ghost trace0: Trace)
    returns (status: StatusMap, pending: int, inflight: int, ghost trace: Trace)
    requires IsIndex(ops, opByID)
    requires Running(ops, err, status0, pending0, inflight0, res, trace0)
    ensures Running(ops, err, status, pending, inflight, res, trace)
    ensures AbortsExact(GraphOf(ops), status0) ==> AbortsExact(GraphOf(ops), status)
    ensures pending + inflight == pending0 + inflight0
    ensures NoneReady(GraphOf(ops), status, {})
  {
    status, pending, inflight, trace := status0, pending0, inflight0, trace0;
    var todo := status.Keys;
    while todo != {}
      invariant todo <= GraphOf(ops).Keys
      invariant Running(ops, err, status, pending, inflight, res, trace)
      invariant AbortsExact(GraphOf(ops), status0) ==> AbortsExact(GraphOf(ops), status)
      invariant pending + inflight == pending0 + inflight0
      invariant NoneReady(GraphOf(ops), status, todo)
    {
      var id :| id in todo;
      status, pending, inflight, trace :=
        TryDispatch(ops, opByID, id, err, res, todo, status0, status, pending, inflight, trace);
      todo := todo - {id};
    }
  }

  /** Records a failure and aborts everything downstream. */
  method RecordFailure(ops: seq<Operation>, op: Operation, dependents: map<OperationID, seq<OperationID>>,
                       err: Outcomes,
                       status0: StatusMap, pending0: int, inflight0: int, res0: ExecutionResult, ghost trace0: Trace)
    returns (status: StatusMap, pending: int, res: ExecutionResult, ghost trace: Trace)
    requires IsReverse(GraphOf(ops), dependents)
    requires Running(ops, err, status0, pending0, inflight0, res0, trace0)
    requires op in ops && op.id in status0 && status0[op.id] == InFlight && err(op.id).Some?
    requires NoneReady(GraphOf(ops), status0, {})
    ensures Running(ops, err, status, pending, inflight0 - 1, res, trace)
    ensures status == WithAborted(status0[op.id := Failed], Downstream(GraphOf(ops), status0[op.id := Failed], op.id))
    ensures pending <= pending0
  {
    RunningFails(ops, err, status0, pending0, inflight0, res0, trace0, op);
    var failed := status0[op.id := Failed];
    res := res0.(failed := res0.failed + [FailedOp(op.id, TypeOf(op.payload), err(op.id).value)]);
    var abortedIDs;
    status, abortedIDs, trace :=
      AbortTransitive(GraphOf(ops), err, trace0 + [Errored(op.id)], op.id, dependents, failed);
    CountedAbort(ops, err, failed, pending0, inflight0 - 1, res, abortedIDs, Downstream(GraphOf(ops), failed, op.id));
    res := res.(aborted := res.aborted + abortedIDs);
    pending := pending0 - |abortedIDs|;
  }

  /** Takes whichever result arrives. */
  method TakeResult(ops: seq<Operation>, opByID: map<OperationID, Operation>,
                    dependents: map<OperationID, seq<OperationID>>, err: Outcomes,
                    status0: StatusMap, pending0: int, inflight0: int, res0: ExecutionResult, ghost trace0: Trace)
    returns (status: StatusMap, pending: int, inflight: int, res: ExecutionResult, ghost trace: Trace)
    requires IsIndex(ops, opByID) && IsReverse(GraphOf(ops), dependents)
    requires Running(ops, err, status0, pending0, inflight0, res0, trace0)
    requires AbortsExact(GraphOf(ops), status0) && inflight0 > 0 && NoneReady(GraphOf(ops), status0, {})
    ensures Running(ops, err, status, pending, inflight, res, trace)
    ensures AbortsExact(GraphOf(ops), status)
    ensures pending + inflight < pending0 + inflight0
  {
    InFlightExists(status0);
    var id :| id in status0 && status0[id] == InFlight;
    var op := opByID[id];
    inflight := inflight0 - 1;
    if err(id).Some? {
      AbortsStayExact(GraphOf(ops), err, status0, id);
      status, pending, res, trace :=
        RecordFailure(ops, op, dependents, err, status0, pending0, inflight0, res0, trace0);
    } else {
      RunningCompletes(ops, err, status0, pending0, inflight0, res0, trace0, id);
      AbortsUnmoved(GraphOf(ops), status0, id, Completed);
      pending := pending0;
      status := status0[id := Completed];
      res := res0.(completed := res0.completed + [id]);
      trace := trace0 + [Succeeded(id)];
    }
  }

  lemma CountedAbortOne(ops: seq<Operation>, err: Outcomes, status: StatusMap, pending: int, inflight: int,
                        res: ExecutionResult, id: OperationID)
    requires Counted(ops, err, status, pending, inflight, res)
    requires id in status && status[id] == OpPending
    ensures Counted(ops, err, status[id := Aborted], pending - 1, inflight, res.(aborted := res.aborted + [id]))
  {
    StatusMoves(status, id, Aborted);
    EnumeratesAppend(res.aborted, WithStatus(status, Aborted), id);
  }

  lemma RunningAborts(ops: seq<Operation>, err: Outcomes, status: StatusMap, pending: int, inflight: int,
                      res: ExecutionResult, trace: Trace, id: OperationID)
    requires Running(ops, err, status, pending, inflight, res, trace)
    requires id in status && status[id] == OpPending
    ensures Running(ops, err, status[id := Aborted], pending - 1, inflight,
                    res.(aborted := res.aborted + [id]), trace + [Dropped(id)])
  {
    RecordedMoves(GraphOf(ops), err, status, trace, id, Aborted);
    SoundMoves(GraphOf(ops), err, status, id, Aborted);
    CountedAbortOne(ops, err, status, pending, inflight, res, id);
  }

  /** On cancellation everything still pending is aborted. */
  method AbortPending(ghost ops: seq<Operation>, ghost err: Outcomes, status0: StatusMap, pending0: int,
                      ghost inflight: int, res0: ExecutionResult, ghost trace0: Trace)
    returns (status: StatusMap, pending: int, res: ExecutionResult, ghost trace: Trace)
    requires Running(ops, err, status0, pending0, inflight, res0, trace0)
    ensures Running(ops, err, status, pending, inflight, res, trace)
    ensures pending == 0
  {
    status, pending, res, trace := status0, pending0, res0, trace0;
    var todo := status.Keys;
    while todo != {}
      invariant todo <= status.Keys
      invariant Running(ops, err, status, pending, inflight, res, trace)
      invariant WithStatus(status, OpPending) <= todo
    {
      var id :| id in todo;
      todo := todo - {id};
      if status[id] == OpPending {
        RunningAborts(ops, err, status, pending, inflight, res, trace, id);
        status := status[id := Aborted];
        res := res.(aborted := res.aborted + [id]);
        pending := pending - 1;
        trace := trace + [Dropped(id)];
      }
    }
    assert WithStatus(status, OpPending) == {};
  }

  /** After cancellation the results of operations already in flight are still
      collected; nothing is aborted because of them. */
  method DrainInFlight(ghost ops: seq<Operation>, opByID: map<OperationID, Operation>, err: Outcomes,
                       status0: StatusMap, ghost pending: int, inflight0: int,
                       res0: ExecutionResult, ghost trace0: Trace)
    returns (status: StatusMap, inflight: int, res: ExecutionResult, ghost trace: Trace)
    requires IsIndex(ops, opByID) && pending == 0
    requires Running(ops, err, status0, pending, inflight0, res0, trace0)
    ensures Running(ops, err, status, pending, inflight, res, trace)
    ensures inflight == 0
  {
    status, inflight, res, trace := status0, inflight0, res0, trace0;
    while inflight > 0
      invariant Running(ops, err, status, pending, inflight, res, trace)
    {
      InFlightExists(status);
      NothingPendingNoneReady(GraphOf(ops), status);
      var id :| id in status && status[id] == InFlight;
      inflight := inflight - 1;
      if err(id).Some? {
        var op := opByID[id];
        RunningFails(ops, err, status, pending, inflight + 1, res, trace, op);
        status := status[id := Failed];
        res := res.(failed := res.failed + [FailedOp(id, TypeOf(op.payload), err(id).value)]);
        trace := trace + [Errored(id)];
      } else {
        RunningCompletes(ops, err, status, pending, inflight + 1, res, trace, id);
        status := status[id := Completed];
        res := res.(completed := res.completed + [id]);
        trace := trace + [Succeeded(id)];
      }
    }
  }

  // ---------- What a run returns ----------

  /** The lists are a function of the plan and the outcomes: three sets of
      operations, no two of which meet. */
  ghost predicate Confluent(g: Graph, err: Outcomes, res: ExecutionResult) {
    && Completing(g, err) !! Failing(g, err) !! Aborting(g, err)
    && Enumerates(res.completed, Completing(g, err))
    && Enumerates(FailedIds(res.failed), Failing(g, err))
    && Enumerates(res.aborted, Aborting(g, err))
  }

  /** The lists are disjoint and free of duplicates; completed and failed
      operations got the fate they must have. */
  ghost predicate Consistent(g: Graph, err: Outcomes, res: ExecutionResult) {
    && NoDuplicates(res.completed) && NoDuplicates(FailedIds(res.failed)) && NoDuplicates(res.aborted)
    && (forall id | id in res.completed :: MustComplete(g, err, id))
    && (forall id | id in FailedIds(res.failed) :: MustFail(g, err, id))
    && (forall id | id in res.aborted :: id in g && id !in res.completed && id !in FailedIds(res.failed))
  }

  /** No operation is lost. */
  ghost predicate Total(g: Graph, res: ExecutionResult) {
    forall id | id in g :: id in res.completed || id in FailedIds(res.failed) || id in res.aborted
  }

  ghost predicate MatchesTrace(res: ExecutionResult, trace: Trace) {
    forall id :: && (id in res.completed <==> Succeeded(id) in trace)
                 && (id in FailedIds(res.failed) <==> Errored(id) in trace)
                 && (id in res.aborted <==> Dropped(id) in trace)
  }

  ghost predicate ReportsErrors(ops: seq<Operation>, err: Outcomes, res: ExecutionResult) {
    forall f | f in res.failed ::
      && err(f.operationID) == Some(f.err)
      && exists op :: op in ops && op.id == f.operationID && TypeOf(op.payload) == f.operationType
  }

  /** Runs the plan. The operation whose result arrives next is arbitrary, and so is
      the moment of cancellation in a context that may be cancelled.

      Without cancellation the three lists are determined by the plan and the
      outcomes alone. With it, an operation may be aborted that would have
      completed or failed, and nothing else changes. If the plan is closed and
      acyclic, or the run was cancelled, every operation ends in exactly one of
      the lists, so the escape from the loop never leaves work behind. */
  method Execute(ops: seq<Operation>, err: Outcomes, mayCancel: bool)
    returns (res: ExecutionResult, cancelled: bool, ghost trace: Trace)
    requires DistinctIds(ops)
    ensures cancelled ==> mayCancel
    ensures !cancelled ==> Confluent(GraphOf(ops), err, res)
    ensures Consistent(GraphOf(ops), err, res)
    ensures cancelled || (Closed(GraphOf(ops)) && Acyclic(GraphOf(ops))) ==> Total(GraphOf(ops), res)
    ensures ReportsErrors(ops, err, res)
    ensures LegalTrace(GraphOf(ops), err, trace) && MatchesTrace(res, trace)
  {
    res, cancelled, trace := ExecutionResult([], [], []), false, [];
    var opByID, status, dependents := BuildIndices(ops);
    var pending, inflight := |ops|, 0;
    RunningStarts(ops, err);
    while pending + inflight > 0
      invariant Running(ops, err, status, pending, inflight, res, trace)
      invariant if cancelled then pending == 0 && inflight == 0 else AbortsExact(GraphOf(ops), status)
      invariant cancelled ==> mayCancel
    {
      status, pending, inflight, trace :=
        DispatchReady(ops, opByID, err, res, status, pending, inflight, trace);
      if inflight == 0 {
        break;
      }
      var doneFirst: bool := *;
      cancelled := mayCancel && doneFirst;
      if !cancelled {
        status, pending, inflight, res, trace :=
          TakeResult(ops, opByID, dependents, err, status, pending, inflight, res, trace);
      } else {
        status, pending, res, trace := AbortPending(ops, err, status, pending, inflight, res, trace);
        status, inflight, res, trace := DrainInFlight(ops, opByID, err, status, pending, inflight, res, trace);
      }
    }
    RunEnds(ops, err, status, pending, inflight, res, trace, cancelled);
  }

  lemma EndsConfluent(ops: seq<Operation>, err: Outcomes, status: StatusMap, pending: int, inflight: int,
                      res: ExecutionResult, trace: Trace)
    requires Running(ops, err, status, pending, inflight, res, trace)
    requires inflight == 0 && AbortsExact(GraphOf(ops), status)
    requires pending == 0 || NoneReady(GraphOf(ops), status, {})
    ensures Confluent(GraphOf(ops), err, res)
  {
    assert WithStatus(status, InFlight) == {};
    assert pending == 0 ==> WithStatus(status, OpPending) == {};
    RestingFates(GraphOf(ops), err, status);
    FatesPartition(GraphOf(ops), err);
  }

  lemma EndsConsistent(ops: seq<Operation>, err: Outcomes, status: StatusMap, pending: int, inflight: int,
                       res: ExecutionResult, trace: Trace)
    requires Running(ops, err, status, pending, inflight, res, trace)
    ensures Consistent(GraphOf(ops), err, res)
  {
    forall id | id in status
      ensures status[id] == Completed ==> MustComplete(GraphOf(ops), err, id)
      ensures status[id] == Failed ==> MustFail(GraphOf(ops), err, id)
    {
      SoundFates(GraphOf(ops), err, status, id);
    }
  }

  lemma CancelledIsTotal(ops: seq<Operation>, err: Outcomes, status: StatusMap, res: ExecutionResult, trace: Trace)
    requires Running(ops, err, status, 0, 0, res, trace)
    ensures Total(GraphOf(ops), res)
  {
    assert WithStatus(status, OpPending) == {} && WithStatus(status, InFlight) == {};
    forall id | id in GraphOf(ops) ensures id in res.completed || id in FailedIds(res.failed) || id in res.aborted {
      assert id !in WithStatus(status, OpPending) && id !in WithStatus(status, InFlight);
    }
  }

  lemma ConfluentIsTotal(g: Graph, err: Outcomes, res: ExecutionResult)
    requires Confluent(g, err, res) && Closed(g) && Acyclic(g)
    ensures Total(g, res)
  {
    EveryOperationHasFateIff(g);
    forall id | id in g ensures id in res.completed || id in FailedIds(res.failed) || id in res.aborted {
      assert HasFate(g, err, id);
    }
  }

  lemma RunEnds(ops: seq<Operation>, err: Outcomes, status: StatusMap, pending: int, inflight: int,
                res: ExecutionResult, trace: Trace, cancelled: bool)
    requires Running(ops, err, status, pending, inflight, res, trace)
    requires inflight == 0
    requires cancelled ==> pending == 0
    requires !cancelled ==> AbortsExact(GraphOf(ops), status)
    requires pending == 0 || NoneReady(GraphOf(ops), status, {})
    ensures !cancelled ==> Confluent(GraphOf(ops), err, res)
    ensures Consistent(GraphOf(ops), err, res)
    ensures cancelled || (Closed(GraphOf(ops)) && Acyclic(GraphOf(ops))) ==> Total(GraphOf(ops), res)
    ensures MatchesTrace(res, trace)
  {
    EndsConsistent(ops, err, status, pending, inflight, res, trace);
    if cancelled {
      CancelledIsTotal(ops, err, status, res, trace);
    } else {
      EndsConfluent(ops, err, status, pending, inflight, res, trace);
      if Closed(GraphOf(ops)) && Acyclic(GraphOf(ops)) {
        ConfluentIsTotal(GraphOf(ops), err, res);
      }
    }
    forall id
      ensures id in res.completed <==> Succeeded(id) in trace
      ensures id in FailedIds(res.failed) <==> Errored(id) in trace
      ensures id in res.aborted <==> Dropped(id) in trace
    {
      TraceResults(GraphOf(ops), err, status, trace, id);
    }
  }

  /** An operation gets at most one result. */
  lemma TraceResults(g: Graph, err: Outcomes, status: StatusMap, trace: Trace, id: OperationID)
    requires Recorded(g, err, status, trace)
    ensures Succeeded(id) in trace <==> id in WithStatus(status, Completed)
    ensures Errored(id) in trace <==> id in WithStatus(status, Failed)
    ensures Dropped(id) in trace <==> id in WithStatus(status, Aborted)
  {
    if Succeeded(id) in trace {
      SuccessIsFinal(g, err, trace, id);
    } else if Errored(id) in trace {
      ErrorIsFinal(g, err, trace, id);
    }
  }

  /** Running a plan without cancellation never loses an operation, whatever
      fails, exactly when the plan is closed and acyclic. */
  lemma NothingLostIff(g: Graph)
    ensures (forall err: Outcomes, res | Confluent(g, err, res) :: Total(g, res)) <==> Closed(g) && Acyclic(g)
  {
    if Closed(g) && Acyclic(g) {
      forall err: Outcomes, res | Confluent(g, err, res) ensures Total(g, res) {
        ConfluentIsTotal(g, err, res);
      }
    } else {
      EveryOperationHasFateIff(g);
      var err: Outcomes, id :| id in g && !HasFate(g, err, id);
      FatesPartition(g, err);
      var completed := EnumerationExists(Completing(g, err));
      var failedIds := EnumerationExists(Failing(g, err));
      var aborted := EnumerationExists(Aborting(g, err));
      var failed := seq(|failedIds|, i requires 0 <= i < |failedIds| => FailedOp(failedIds[i], PreemptOp, ""));
      assert FailedIds(failed) == failedIds;
      var res := ExecutionResult(completed, failed, aborted);
      assert Confluent(g, err, res) && !Total(g, res);
    }
  }
}
