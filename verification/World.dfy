/** The world state as a value, what each mutation makes of it, and the accounting
    that ties node counters, pod lists, fragmentation scores and gauges to the
    replicas actually tracked. */
module World {
  import opened Model
  import opened Collections
  import opened Snapshots

  datatype World = World(
    clusters: map<ClusterID, Cluster>,
    applications: map<AppID, Application>,
    replicas: map<ReplicaID, Replica>,
    cacheLocations: map<ModelID, seq<CacheLocation>>,
    performanceProfiles: map<AppID, PerformanceProfile>,
    vllmMetrics: map<AppID, VLLMMetrics>,
    reservations: map<ReservationID, GPUReservation>,
    scalingHistory: map<AppID, ScalingHistory>,
    replicasGauge: map<ReplicaStatus, int>,
    reservationsGauge: int)

  // ---------- Nodes ----------

  function TotalOf(): Node -> int {
    (n: Node) => n.totalGPUs
  }

  function FreeOf(): Node -> int {
    (n: Node) => n.freeGPUs
  }

  /** 1 - free/total over all nodes; 0 when there is no capacity. */
  ghost function Fragmentation(nodes: map<NodeID, Node>): real {
    var total := MapSum(nodes, TotalOf());
    if total == 0 then 0.0 else 1.0 - MapSum(nodes, FreeOf()) as real / total as real
  }

  /** Where every node's GPUs are either free or allocated, the score is the share of
      GPUs in use. */
  lemma FragmentationIsUtilization(nodes: map<NodeID, Node>)
    requires forall n | n in nodes :: nodes[n].allocatedGPUs + nodes[n].freeGPUs == nodes[n].totalGPUs
    ensures var used := MapSum(nodes, (n: Node) => n.allocatedGPUs);
            var total := MapSum(nodes, (n: Node) => n.totalGPUs);
            Fragmentation(nodes) == if total == 0 then 0.0 else used as real / total as real
  {
    var usedOf, totalOf := (n: Node) => n.allocatedGPUs, (n: Node) => n.totalGPUs;
    var used, free, total := MapSum(nodes, usedOf), MapSum(nodes, FreeOf()), MapSum(nodes, totalOf);
    MapSumCompare(nodes, TotalOf(), nodes, totalOf);
    MapSumCompare(nodes, totalOf, nodes, TotalOf());
    MapSumAdds(nodes, usedOf, FreeOf(), totalOf);
    if total != 0 {
      RestOfOne(used as real, free as real, total as real);
    }
  }

  lemma RestOfOne(used: real, free: real, total: real)
    requires used + free == total && total != 0.0
    ensures 1.0 - free / total == used / total
  {
    assert (used + free) / total == used / total + free / total;
    assert total / total == 1.0;
  }

  /** The list without the first occurrence of x. */
  function RemoveFirst(q: seq<ReplicaID>, x: ReplicaID): seq<ReplicaID> {
    if q == [] then []
    else if q[0] == x then q[1..]
    else [q[0]] + RemoveFirst(q[1..], x)
  }

  lemma {:induction false} RemoveFirstEnumerates(q: seq<ReplicaID>, s: set<ReplicaID>, x: ReplicaID)
    requires Enumerates(q, s) && x in s
    ensures Enumerates(RemoveFirst(q, x), s - {x})
  {
    assert x in q;
    if q[0] == x {
      EnumeratesTail(q, s);
    } else {
      EnumeratesTail(q, s);
      RemoveFirstEnumerates(q[1..], s - {q[0]}, x);
      EnumeratesPrepend(q[0], RemoveFirst(q[1..], x), s - {q[0]} - {x});
      assert {q[0]} + (s - {q[0]} - {x}) == s - {x};
    }
  }

  function Occupy(n: Node, r: Replica): Node {
    n.(allocatedGPUs := n.allocatedGPUs + r.gpus, freeGPUs := n.freeGPUs - r.gpus, pods := n.pods + [r.replicaID])
  }

  function Vacate(n: Node, r: Replica): Node {
    n.(allocatedGPUs := n.allocatedGPUs - r.gpus, freeGPUs := n.freeGPUs + r.gpus,
       pods := RemoveFirst(n.pods, r.replicaID))
  }

  predicate At(r: Replica, c: ClusterID, n: NodeID) {
    r.clusterID == c && r.nodeID == n
  }

  // ---------- What the mutators do, node by node ----------

  /** The node a replica was on before an upsert that moves it. */
  predicate Leaves(replicas: map<ReplicaID, Replica>, r: Replica, c: ClusterID, n: NodeID) {
    && r.replicaID in replicas && At(replicas[r.replicaID], c, n) && !At(r, c, n)
  }

  /** The node a replica is on only after the upsert. */
  predicate Enters(replicas: map<ReplicaID, Replica>, r: Replica, c: ClusterID, n: NodeID) {
    && At(r, c, n) && !(r.replicaID in replicas && At(replicas[r.replicaID], c, n))
  }

  function NodeAfterUpsert(replicas: map<ReplicaID, Replica>, r: Replica, c: ClusterID, n: NodeID, node: Node): Node {
    if Leaves(replicas, r, c, n) then Vacate(node, replicas[r.replicaID])
    else if Enters(replicas, r, c, n) then Occupy(node, r)
    else node
  }

  ghost function NodesAfterUpsert(replicas: map<ReplicaID, Replica>, r: Replica, cl: Cluster, c: ClusterID)
    : map<NodeID, Node>
  {
    map n | n in cl.nodes :: NodeAfterUpsert(replicas, r, c, n, cl.nodes[n])
  }

  predicate Touches(replicas: map<ReplicaID, Replica>, r: Replica, c: ClusterID) {
    c == r.clusterID || (r.replicaID in replicas && c == replicas[r.replicaID].clusterID)
  }

  ghost function Rescored(cl: Cluster): Cluster {
    cl.(fragmentationScore := Fragmentation(cl.nodes))
  }

  function GaugeOf(g: map<ReplicaStatus, int>, st: ReplicaStatus): int {
    if st in g then g[st] else 0
  }

  function Bump(g: map<ReplicaStatus, int>, st: ReplicaStatus, step: int): map<ReplicaStatus, int> {
    g[st := GaugeOf(g, st) + step]
  }

  ghost function UpsertReplica(w: World, r: Replica): World {
    var gauge := if r.replicaID in w.replicas then Bump(w.replicasGauge, w.replicas[r.replicaID].status, -1)
                 else w.replicasGauge;
    w.(clusters := map c | c in w.clusters ::
         var cl := w.clusters[c].(nodes := NodesAfterUpsert(w.replicas, r, w.clusters[c], c));
         if Touches(w.replicas, r, c) then Rescored(cl) else cl,
       replicas := w.replicas[r.replicaID := r],
       replicasGauge := Bump(gauge, r.status, 1))
  }

  ghost function DeleteReplica(w: World, id: ReplicaID): World {
    if id !in w.replicas then w
    else
      var r := w.replicas[id];
      w.(clusters := map c | c in w.clusters ::
           var cl := w.clusters[c].(nodes := map n | n in w.clusters[c].nodes ::
                                      if At(r, c, n) then Vacate(w.clusters[c].nodes[n], r)
                                      else w.clusters[c].nodes[n]);
           if c == r.clusterID then Rescored(cl) else cl,
         replicas := w.replicas - {id},
         replicasGauge := Bump(w.replicasGauge, r.status, -1))
  }

  ghost function UpsertNode(w: World, n: Node): World {
    var cl := if n.clusterID in w.clusters then w.clusters[n.clusterID] else Cluster(n.clusterID, map[], 0.0);
    w.(clusters := w.clusters[n.clusterID := Rescored(cl.(nodes := cl.nodes[n.nodeID := n]))])
  }

  ghost function RemoveNode(w: World, c: ClusterID, n: NodeID): World {
    if c !in w.clusters then w
    else
      var cl := w.clusters[c];
      w.(clusters := w.clusters[c := Rescored(cl.(nodes := cl.nodes - {n}))])
  }

  // ---------- Accounting ----------

  /** Map keys agree with stored ids. */
  ghost predicate Keyed(w: World) {
    && (forall id | id in w.replicas :: w.replicas[id].replicaID == id)
    && (forall c | c in w.clusters :: ClusterKeyed(c, w.clusters[c]))
  }

  function GpusAt(c: ClusterID, n: NodeID): Replica -> int {
    (r: Replica) => if At(r, c, n) then r.gpus else 0
  }

  ghost function IdsAt(replicas: map<ReplicaID, Replica>, c: ClusterID, n: NodeID): set<ReplicaID> {
    set id | id in replicas && At(replicas[id], c, n)
  }

  /** A node's counters and pod list say exactly which replicas are on it. */
  ghost predicate NodeAccounted(replicas: map<ReplicaID, Replica>, c: ClusterID, n: NodeID, node: Node) {
    && node.allocatedGPUs == MapSum(replicas, GpusAt(c, n))
    && node.freeGPUs == node.totalGPUs - node.allocatedGPUs
    && Enumerates(node.pods, IdsAt(replicas, c, n))
  }

  ghost predicate NodesAccounted(w: World) {
    forall c, n | c in w.clusters && n in w.clusters[c].nodes ::
      NodeAccounted(w.replicas, c, n, w.clusters[c].nodes[n])
  }

  ghost predicate ScoresExact(w: World) {
    forall c | c in w.clusters :: w.clusters[c].fragmentationScore == Fragmentation(w.clusters[c].nodes)
  }

  ghost function IdsIn(replicas: map<ReplicaID, Replica>, st: ReplicaStatus): set<ReplicaID> {
    set id | id in replicas && replicas[id].status == st
  }

  ghost predicate GaugesExact(w: World) {
    forall st: ReplicaStatus :: GaugeOf(w.replicasGauge, st) == |IdsIn(w.replicas, st)|
  }

  ghost predicate Accounted(w: World) {
    Keyed(w) && NodesAccounted(w) && ScoresExact(w) && GaugesExact(w)
  }

  /** An upsert that changes the size of a replica already on a tracked node: the
      node's counters are left as they were. */
  ghost predicate ResizesInPlace(w: World, r: Replica) {
    && r.replicaID in w.replicas
    && At(w.replicas[r.replicaID], r.clusterID, r.nodeID)
    && r.clusterID in w.clusters && r.nodeID in w.clusters[r.clusterID].nodes
    && w.replicas[r.replicaID].gpus != r.gpus
  }

  lemma IdsAtPut(replicas: map<ReplicaID, Replica>, r: Replica, c: ClusterID, n: NodeID)
    ensures IdsAt(replicas[r.replicaID := r], c, n) ==
            if At(r, c, n) then IdsAt(replicas, c, n) + {r.replicaID} else IdsAt(replicas, c, n) - {r.replicaID}
  {
  }

  lemma GpusAtPut(replicas: map<ReplicaID, Replica>, r: Replica, c: ClusterID, n: NodeID)
    ensures MapSum(replicas[r.replicaID := r], GpusAt(c, n)) ==
            MapSum(replicas, GpusAt(c, n))
            - (if r.replicaID in replicas && At(replicas[r.replicaID], c, n) then replicas[r.replicaID].gpus else 0)
            + (if At(r, c, n) then r.gpus else 0)
  {
    MapSumPut(replicas, GpusAt(c, n), r.replicaID, r);
  }

  lemma UpsertAccountsNode(replicas: map<ReplicaID, Replica>, r: Replica, c: ClusterID, n: NodeID, node: Node)
    requires NodeAccounted(replicas, c, n, node)
    requires forall id | id in replicas :: replicas[id].replicaID == id
    ensures NodeAccounted(replicas[r.replicaID := r], c, n, NodeAfterUpsert(replicas, r, c, n, node)) <==>
            !(At(r, c, n) && r.replicaID in replicas && At(replicas[r.replicaID], c, n)
              && replicas[r.replicaID].gpus != r.gpus)
  {
    IdsAtPut(replicas, r, c, n);
    GpusAtPut(replicas, r, c, n);
    var ids := IdsAt(replicas, c, n);
    if Leaves(replicas, r, c, n) {
      RemoveFirstEnumerates(node.pods, ids, r.replicaID);
    } else if Enters(replicas, r, c, n) {
      EnumeratesAppend(node.pods, ids, r.replicaID);
    } else if At(r, c, n) {
      assert ids + {r.replicaID} == ids;
    } else {
      assert ids - {r.replicaID} == ids;
    }
  }

  lemma StatusIdsRemove(replicas: map<ReplicaID, Replica>, id: ReplicaID, st: ReplicaStatus)
    ensures |IdsIn(replicas - {id}, st)| ==
            |IdsIn(replicas, st)| - if id in replicas && replicas[id].status == st then 1 else 0
  {
    if id in replicas && replicas[id].status == st {
      assert IdsIn(replicas, st) == IdsIn(replicas - {id}, st) + {id};
    } else {
      assert IdsIn(replicas, st) == IdsIn(replicas - {id}, st);
    }
  }

  lemma StatusIdsPut(replicas: map<ReplicaID, Replica>, r: Replica, st: ReplicaStatus)
    ensures |IdsIn(replicas[r.replicaID := r], st)| ==
            |IdsIn(replicas, st)|
            - (if r.replicaID in replicas && replicas[r.replicaID].status == st then 1 else 0)
            + (if r.status == st then 1 else 0)
  {
    var id := r.replicaID;
    StatusIdsRemove(replicas, id, st);
    StatusIdsRemove(replicas[id := r], id, st);
    assert replicas[id := r] - {id} == replicas - {id};
  }

  lemma UpsertKeepsGauges(w: World, r: Replica)
    requires GaugesExact(w)
    ensures GaugesExact(UpsertReplica(w, r))
  {
    forall st: ReplicaStatus
      ensures GaugeOf(UpsertReplica(w, r).replicasGauge, st) == |IdsIn(w.replicas[r.replicaID := r], st)|
    {
      StatusIdsPut(w.replicas, r, st);
      assert GaugeOf(w.replicasGauge, st) == |IdsIn(w.replicas, st)|;
    }
  }

  lemma UpsertKeepsScores(w: World, r: Replica)
    requires ScoresExact(w)
    ensures ScoresExact(UpsertReplica(w, r))
  {
    forall c | c in w.clusters && !Touches(w.replicas, r, c)
      ensures NodesAfterUpsert(w.replicas, r, w.clusters[c], c) == w.clusters[c].nodes
    {
    }
  }

  lemma UpsertKeepsNodesIff(w: World, r: Replica)
    requires Keyed(w) && NodesAccounted(w)
    ensures NodesAccounted(UpsertReplica(w, r)) <==> !ResizesInPlace(w, r)
  {
    var w' := UpsertReplica(w, r);
    forall c, n | c in w.clusters && n in w.clusters[c].nodes
      ensures w'.clusters[c].nodes[n] == NodeAfterUpsert(w.replicas, r, c, n, w.clusters[c].nodes[n])
      ensures NodeAccounted(w'.replicas, c, n, w'.clusters[c].nodes[n]) <==>
              !(At(r, c, n) && r.replicaID in w.replicas && At(w.replicas[r.replicaID], c, n)
                && w.replicas[r.replicaID].gpus != r.gpus)
    {
      UpsertAccountsNode(w.replicas, r, c, n, w.clusters[c].nodes[n]);
    }
    if ResizesInPlace(w, r) {
      assert !NodeAccounted(w'.replicas, r.clusterID, r.nodeID, w'.clusters[r.clusterID].nodes[r.nodeID]);
    }
  }

  lemma UpsertKeepsKeys(w: World, r: Replica)
    requires Keyed(w)
    ensures Keyed(UpsertReplica(w, r))
  {
    forall c | c in w.clusters ensures ClusterKeyed(c, UpsertReplica(w, r).clusters[c]) {
      assert ClusterKeyed(c, w.clusters[c]);
      UpsertKeepsClusterKeys(w, r, c);
    }
  }

  ghost predicate ClusterKeyed(c: ClusterID, cl: Cluster) {
    cl.clusterID == c && forall n | n in cl.nodes :: cl.nodes[n].nodeID == n && cl.nodes[n].clusterID == c
  }

  lemma UpsertKeepsClusterKeys(w: World, r: Replica, c: ClusterID)
    requires c in w.clusters && ClusterKeyed(c, w.clusters[c])
    ensures ClusterKeyed(c, UpsertReplica(w, r).clusters[c])
  {
    var nodes := NodesAfterUpsert(w.replicas, r, w.clusters[c], c);
    assert forall n | n in nodes :: nodes[n].nodeID == n && nodes[n].clusterID == c;
    assert UpsertReplica(w, r).clusters[c].nodes == nodes;
  }

  /** An upsert, whether of a new replica, a move or a status change, keeps the
      accounting, exactly when it does not resize a replica in place. */
  lemma UpsertKeepsAccountingIff(w: World, r: Replica)
    requires Accounted(w)
    ensures Accounted(UpsertReplica(w, r)) <==> !ResizesInPlace(w, r)
  {
    UpsertKeepsKeys(w, r);
    UpsertKeepsGauges(w, r);
    UpsertKeepsScores(w, r);
    UpsertKeepsNodesIff(w, r);
  }

  lemma DeleteAccountsNode(replicas: map<ReplicaID, Replica>, id: ReplicaID, c: ClusterID, n: NodeID, node: Node)
    requires NodeAccounted(replicas, c, n, node) && id in replicas && replicas[id].replicaID == id
    ensures NodeAccounted(replicas - {id}, c, n, if At(replicas[id], c, n) then Vacate(node, replicas[id]) else node)
  {
    MapSumTake(replicas, GpusAt(c, n), id);
    if At(replicas[id], c, n) {
      RemoveFirstEnumerates(node.pods, IdsAt(replicas, c, n), id);
      assert IdsAt(replicas - {id}, c, n) == IdsAt(replicas, c, n) - {id};
    } else {
      assert IdsAt(replicas - {id}, c, n) == IdsAt(replicas, c, n);
    }
  }

  lemma DeleteKeepsNodes(w: World, id: ReplicaID)
    requires Keyed(w) && NodesAccounted(w)
    ensures NodesAccounted(DeleteReplica(w, id)) && Keyed(DeleteReplica(w, id))
  {
    if id in w.replicas {
      var w' := DeleteReplica(w, id);
      forall c, n | c in w.clusters && n in w.clusters[c].nodes
        ensures NodeAccounted(w'.replicas, c, n, w'.clusters[c].nodes[n])
      {
        DeleteAccountsNode(w.replicas, id, c, n, w.clusters[c].nodes[n]);
      }
    }
  }

  lemma DeleteKeepsScores(w: World, id: ReplicaID)
    requires ScoresExact(w)
    ensures ScoresExact(DeleteReplica(w, id))
  {
    if id in w.replicas {
      var w', r := DeleteReplica(w, id), w.replicas[id];
      forall c | c in w.clusters && c != r.clusterID ensures w'.clusters[c].nodes == w.clusters[c].nodes {
      }
    }
  }

  lemma DeleteKeepsGauges(w: World, id: ReplicaID)
    requires GaugesExact(w)
    ensures GaugesExact(DeleteReplica(w, id))
  {
    if id in w.replicas {
      var w' := DeleteReplica(w, id);
      forall st: ReplicaStatus ensures GaugeOf(w'.replicasGauge, st) == |IdsIn(w'.replicas, st)| {
        StatusIdsRemove(w.replicas, id, st);
        assert GaugeOf(w.replicasGauge, st) == |IdsIn(w.replicas, st)|;
      }
    }
  }

  /** Deleting a replica, known or not, keeps the accounting. */
  lemma DeleteKeepsAccounting(w: World, id: ReplicaID)
    requires Accounted(w)
    ensures Accounted(DeleteReplica(w, id))
  {
    DeleteKeepsNodes(w, id);
    DeleteKeepsScores(w, id);
    DeleteKeepsGauges(w, id);
  }

  /** Replacing or adding a node keeps the accounting exactly when the node given
      is itself accounted for. */
  lemma UpsertNodeKeepsAccountingIff(w: World, n: Node)
    requires Accounted(w)
    ensures Accounted(UpsertNode(w, n)) <==> NodeAccounted(w.replicas, n.clusterID, n.nodeID, n)
  {
    var w' := UpsertNode(w, n);
    assert w'.clusters[n.clusterID].nodes[n.nodeID] == n;
  }

  lemma RemoveNodeKeepsAccounting(w: World, c: ClusterID, n: NodeID)
    requires Accounted(w)
    ensures Accounted(RemoveNode(w, c, n))
  {
  }

  /** Accounting is the same as an empty node being empty: a node announced with all
      its GPUs free is accounted for exactly when no replica is tracked on it. */
  lemma EmptyNodeAccountedIff(replicas: map<ReplicaID, Replica>, n: Node)
    requires n.allocatedGPUs == 0 && n.freeGPUs == n.totalGPUs && n.pods == []
    ensures NodeAccounted(replicas, n.clusterID, n.nodeID, n) <==> IdsAt(replicas, n.clusterID, n.nodeID) == {}
  {
    var w := GpusAt(n.clusterID, n.nodeID);
    if IdsAt(replicas, n.clusterID, n.nodeID) == {} {
      forall id | id in replicas ensures w(replicas[id]) == 0 {
        assert id !in IdsAt(replicas, n.clusterID, n.nodeID);
      }
      MapSumZero(replicas, w);
    }
  }

  // ---------- The other mutators ----------

  ghost function UpsertCluster(w: World, c: Cluster): World {
    w.(clusters := w.clusters[c.clusterID := c])
  }

  ghost function UpsertApplication(w: World, a: Application): World {
    w.(applications := w.applications[a.appID := a])
  }

  ghost function UpdateVLLMMetrics(w: World, m: VLLMMetrics): World {
    w.(vllmMetrics := w.vllmMetrics[m.appID := m])
  }

  // ---------- Reservations ----------

  ghost function ActiveReservations(reservations: map<ReservationID, GPUReservation>): set<ReservationID> {
    set id | id in reservations && reservations[id].status == Active
  }

  ghost predicate ReservationGaugeExact(w: World) {
    w.reservationsGauge == |ActiveReservations(w.reservations)|
  }

  predicate IsStale(r: GPUReservation, now: nat) {
    r.status == Active && now - r.createdAt >= r.ttlSeconds * SECOND
  }

  ghost function StaleReservations(reservations: map<ReservationID, GPUReservation>, now: nat): set<ReservationID> {
    set id | id in reservations && IsStale(reservations[id], now)
  }

  ghost function CreateReservation(w: World, r: GPUReservation): World {
    if r.reservationID in w.reservations then w
    else w.(reservations := w.reservations[r.reservationID := r],
            reservationsGauge := w.reservationsGauge + if r.status == Active then 1 else 0)
  }

  /** Moves a reservation out of Active; refused for any other. */
  ghost function CloseReservation(w: World, id: ReservationID, st: ReservationStatus): World {
    if id in w.reservations && w.reservations[id].status == Active then
      w.(reservations := w.reservations[id := w.reservations[id].(status := st)],
         reservationsGauge := w.reservationsGauge - 1)
    else w
  }

  ghost function ExpireStaleReservations(w: World, now: nat): World {
    w.(reservations := map id | id in w.reservations ::
         if IsStale(w.reservations[id], now) then w.reservations[id].(status := Expired) else w.reservations[id],
       reservationsGauge := w.reservationsGauge - |StaleReservations(w.reservations, now)|)
  }

  lemma CreateKeepsReservationGauge(w: World, r: GPUReservation)
    requires ReservationGaugeExact(w)
    ensures ReservationGaugeExact(CreateReservation(w, r))
  {
    if r.reservationID !in w.reservations {
      assert ActiveReservations(CreateReservation(w, r).reservations) ==
             ActiveReservations(w.reservations) + if r.status == Active then {r.reservationID} else {};
    }
  }

  lemma CloseKeepsReservationGauge(w: World, id: ReservationID, st: ReservationStatus)
    requires ReservationGaugeExact(w) && st != Active
    ensures ReservationGaugeExact(CloseReservation(w, id, st))
  {
    if id in w.reservations && w.reservations[id].status == Active {
      assert ActiveReservations(w.reservations) == ActiveReservations(CloseReservation(w, id, st).reservations) + {id};
    }
  }

  lemma ExpiryKeepsReservationGauge(w: World, now: nat)
    requires ReservationGaugeExact(w)
    ensures ReservationGaugeExact(ExpireStaleReservations(w, now))
  {
    assert ActiveReservations(w.reservations) ==
           ActiveReservations(ExpireStaleReservations(w, now).reservations) + StaleReservations(w.reservations, now);
  }

  // ---------- Scaling history ----------

  function HistoryOf(history: map<AppID, ScalingHistory>, app: AppID): ScalingHistory {
    if app in history then history[app] else ScalingHistory(0, 0, 0)
  }

  /** An approved scale-up restarts the signal count; an approved scale-down is one
      more signal. */
  function AfterScaleEvent(h: ScalingHistory, direction: ScaleDirection, at: nat): ScalingHistory {
    match direction
    case Up => h.(lastScaleUpAt := at, consecutiveScaleDownSignals := 0)
    case DownDirection => h.(lastScaleDownAt := at, consecutiveScaleDownSignals := h.consecutiveScaleDownSignals + 1)
    case Unchanged => h
  }

  function AfterSignal(h: ScalingHistory): ScalingHistory {
    h.(consecutiveScaleDownSignals := h.consecutiveScaleDownSignals + 1)
  }
}
