/** The control loop's own work between the engines: applying events and scaling
    decisions to the world state, and turning decisions into an executed plan. */
module ControlLoop {
  import opened Model
  import opened DependencyGraph
  import opened ExecutionTrace
  import opened Executor
  import opened PlanGenerator
  import opened Events
  import opened Scaling
  import Placement
  import Runs = InterleavedRuns
  import W = World
  import WS = WorldState

  method ApplyClusterEventTo(ws: WS.Store, ce: ClusterEvent)
    modifies ws
    ensures ws.Value() == ApplyClusterEvent(old(ws.Value()), ce)
  {
    match ce.kind {
      case NodeUp =>
        ws.UpsertNode(Node(ce.nodeID, ce.clusterID, ce.totalGPUs, 0, ce.totalGPUs, [], Ready));
      case NodeDown =>
        ws.RemoveNode(ce.clusterID, ce.nodeID);
      case PodRunning =>
        if ce.replicaID != "" {
          ws.UpsertReplica(Replica(ce.replicaID, ce.appID, ce.clusterID, ce.nodeID, ce.gpus, Running, ce.timestamp));
        }
      case PodTerminated =>
        if ce.replicaID != "" {
          ws.DeleteReplica(ce.replicaID);
        }
    }
  }

  /** Applies a batch in order. */
  method ApplyEvents(ws: WS.Store, events: seq<Events.Event>)
    modifies ws
    ensures ws.Value() == ApplyAll(old(ws.Value()), events)
  {
    for i := 0 to |events|
      invariant ws.Value() == ApplyAll(old(ws.Value()), events[..i])
    {
      assert events[..i + 1][..i] == events[..i];
      var ev := events[i];
      match ev.kind {
        case MetricsUpdate =>
          if ev.vllmMetrics.Some? {
            ws.UpdateVLLMMetrics(ev.vllmMetrics.value);
          }
        case ClusterChange =>
          if ev.clusterEvent.Some? {
            ApplyClusterEventTo(ws, ev.clusterEvent.value);
          }
        case AppConfigUpdate =>
          if ev.application.Some? {
            ws.UpsertApplication(ev.application.value);
          }
        case SLABreach =>
        case PeriodicEval =>
      }
    }
    assert events[..|events|] == events;
  }

  /** Moves each application's history one step of the stability machine, in map
      order. */
  method ApplyScalingDecisions(ws: WS.Store, decisions: map<AppID, ScalingDecision>)
    modifies ws`scalingHistory
    ensures forall a :: W.HistoryOf(ws.scalingHistory, a) ==
                        if a in decisions then Advance(W.HistoryOf(old(ws.scalingHistory), a), decisions[a])
                        else W.HistoryOf(old(ws.scalingHistory), a)
  {
    var todo := decisions.Keys;
    while todo != {}
      invariant todo <= decisions.Keys
      invariant forall a :: W.HistoryOf(ws.scalingHistory, a) ==
                            if a in decisions && a !in todo
                            then Advance(W.HistoryOf(old(ws.scalingHistory), a), decisions[a])
                            else W.HistoryOf(old(ws.scalingHistory), a)
    {
      var a :| a in todo;
      todo := todo - {a};
      var d := decisions[a];
      if d.scaleActionApproved {
        ws.RecordScaleEvent(a, d.direction, d.actionAt);
      } else if d.scaleDownSignalObserved {
        ws.IncrementScaleDownSignal(a);
      }
    }
  }

  /** Generates a plan and runs it: whatever fails and whenever the cycle is
      cancelled, each operation of the plan ends in exactly one list, and without
      cancellation the lists depend on the decisions and outcomes alone. However the
      handlers interleave with the loop, the run is a legal one. */
  method RunPlan(d: PlacementDecisions, migrations: seq<MigrateDecision>, uuids: Uuids, err: Outcomes, mayCancel: bool)
    returns (ops: seq<Operation>, res: ExecutionResult, cancelled: bool, ghost trace: Trace)
    requires NeverRepeats(uuids)
    ensures cancelled ==> mayCancel
    ensures IsPlanFor(d, migrations, uuids, ops)
    ensures Total(GraphOf(ops), res) && Consistent(GraphOf(ops), err, res)
    ensures !cancelled ==> Confluent(GraphOf(ops), err, res)
    ensures LegalTrace(GraphOf(ops), err, trace) && MatchesTrace(res, trace)
    ensures forall logs: Runs.Logs, run: Runs.Run |
              Runs.HandlersProduce(ops, err, logs) && Runs.Interleaves(trace, logs, run) ::
              Runs.IsWholeExecution(ops, err, logs, run) && Runs.LegalRun(ops, err, run)
  {
    ops := GeneratePlan(d, migrations, uuids);
    PlanIsExecutable(d, migrations, uuids, ops);
    res, cancelled, trace := Execute(ops, err, mayCancel);
    forall logs: Runs.Logs, run: Runs.Run | Runs.HandlersProduce(ops, err, logs) && Runs.Interleaves(trace, logs, run)
      ensures Runs.IsWholeExecution(ops, err, logs, run) && Runs.LegalRun(ops, err, run)
    {
      Runs.InterleavingIsLegal(ops, err, trace, logs, run);
    }
  }

  /** What the placement engine sees as available in a fresh snapshot, before its
      first reservation, is what the live world state reports. */
  method AvailabilityAgrees(ws: WS.Store, cluster: ClusterID, now: nat) returns (live: int, seen: int)
    requires forall id | id in ws.replicas :: ws.replicas[id].replicaID == id
    ensures live == seen
  {
    live := ws.AvailableGPUs(cluster);
    var snap := ws.TakeSnapshot(now);
    seen := Placement.ClusterAvailableGPUs(cluster, snap, map[], []);
  }
}
