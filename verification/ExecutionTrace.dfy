/** Which events of the executor's loop may follow which. What a run does to the
    clusters is argued from this alone. */
module ExecutionTrace {
  import opened Model
  import opened DependencyGraph

  datatype OpStatus = OpPending | InFlight | Completed | Failed | Aborted

  datatype Event =
    | Dispatched(id: OperationID)
    | Succeeded(id: OperationID)
    | Errored(id: OperationID)
    | Dropped(id: OperationID)

  type Trace = seq<Event>

  /** An operation's status after the events of t. */
  ghost function StatusAfter(t: Trace, id: OperationID): OpStatus {
    if Succeeded(id) in t then Completed
    else if Errored(id) in t then Failed
    else if Dropped(id) in t then Aborted
    else if Dispatched(id) in t then InFlight
    else OpPending
  }

  /** A pending operation whose dependencies have all succeeded. */
  ghost predicate CanStart(g: Graph, t: Trace, id: OperationID) {
    id in g && StatusAfter(t, id) == OpPending && forall d | d in g[id] :: Succeeded(d) in t
  }

  /** The loop dispatches everything that can start before it takes a result. */
  ghost predicate NoneWaiting(g: Graph, t: Trace) {
    forall id :: !CanStart(g, t, id)
  }

  /** What must have happened before e may happen. */
  ghost predicate Justified(g: Graph, err: Outcomes, t: Trace, e: Event) {
    && e.id in g
    && match e
       case Dispatched(id) => CanStart(g, t, id)
       case Succeeded(id) => StatusAfter(t, id) == InFlight && err(id).None? && NoneWaiting(g, t)
       case Errored(id) => StatusAfter(t, id) == InFlight && err(id).Some? && NoneWaiting(g, t)
       case Dropped(id) => StatusAfter(t, id) == OpPending
  }

  /** Every operation succeeded, failed or was dropped. */
  ghost predicate Finished(g: Graph, t: Trace) {
    forall id | id in g :: Succeeded(id) in t || Errored(id) in t || Dropped(id) in t
  }

  ghost predicate LegalTrace(g: Graph, err: Outcomes, t: Trace) {
    forall i | 0 <= i < |t| :: Justified(g, err, t[..i], t[i])
  }

  lemma LegalTraceExtends(g: Graph, err: Outcomes, t: Trace, e: Event)
    requires LegalTrace(g, err, t) && Justified(g, err, t, e)
    ensures LegalTrace(g, err, t + [e])
  {
    forall i | 0 <= i < |t + [e]| ensures Justified(g, err, (t + [e])[..i], (t + [e])[i]) {
      assert (t + [e])[..i] == t[..i];
      assert t[..|t|] == t;
    }
  }

  /** An operation that succeeded neither failed nor was dropped. */
  lemma {:induction false} SuccessIsFinal(g: Graph, err: Outcomes, t: Trace, id: OperationID)
    requires LegalTrace(g, err, t) && Succeeded(id) in t
    ensures Errored(id) !in t && Dropped(id) !in t
  {
    var front, last := t[..|t| - 1], t[|t| - 1];
    assert t == front + [last] && Justified(g, err, t[..|t| - 1], t[|t| - 1]);
    LegalTracePrefix(g, err, t, |t| - 1);
    if Succeeded(id) in front {
      SuccessIsFinal(g, err, front, id);
    }
  }

  /** An operation that failed neither succeeded nor was dropped. */
  lemma {:induction false} ErrorIsFinal(g: Graph, err: Outcomes, t: Trace, id: OperationID)
    requires LegalTrace(g, err, t) && Errored(id) in t
    ensures Succeeded(id) !in t && Dropped(id) !in t
  {
    var front, last := t[..|t| - 1], t[|t| - 1];
    assert t == front + [last] && Justified(g, err, t[..|t| - 1], t[|t| - 1]);
    LegalTracePrefix(g, err, t, |t| - 1);
    if Errored(id) in front {
      ErrorIsFinal(g, err, front, id);
    }
  }

  lemma LegalTracePrefix(g: Graph, err: Outcomes, t: Trace, n: nat)
    requires LegalTrace(g, err, t) && n <= |t|
    ensures LegalTrace(g, err, t[..n])
  {
    forall i | 0 <= i < n ensures Justified(g, err, t[..n][..i], t[..n][i]) {
      assert t[..n][..i] == t[..i];
    }
  }
}
