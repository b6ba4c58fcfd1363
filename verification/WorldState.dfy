/** The mutable world state. Each mutator, one atomic step since the world state
    holds a lock around it, is proved to do what the value-level functions of World say. */
module WorldState {
  import opened Model
  import opened Snapshots
  import W = World

  ghost function Vacated(cs: map<ClusterID, Cluster>, r: Replica): map<ClusterID, Cluster> {
    if r.clusterID in cs && r.nodeID in cs[r.clusterID].nodes then
      var cl := cs[r.clusterID];
      cs[r.clusterID := cl.(nodes := cl.nodes[r.nodeID := W.Vacate(cl.nodes[r.nodeID], r)])]
    else cs
  }

  ghost function Occupied(cs: map<ClusterID, Cluster>, r: Replica): map<ClusterID, Cluster> {
    if r.clusterID in cs && r.nodeID in cs[r.clusterID].nodes then
      var cl := cs[r.clusterID];
      cs[r.clusterID := cl.(nodes := cl.nodes[r.nodeID := W.Occupy(cl.nodes[r.nodeID], r)])]
    else cs
  }

  ghost function RescoredAt(cs: map<ClusterID, Cluster>, c: ClusterID): map<ClusterID, Cluster> {
    if c in cs then cs[c := W.Rescored(cs[c])] else cs
  }

  /** The clusters after GPUs were given back and taken, before rescoring. */
  ghost function MovedClusters(w: W.World, r: Replica): map<ClusterID, Cluster> {
    var known := r.replicaID in w.replicas;
    var moves := known && !W.At(w.replicas[r.replicaID], r.clusterID, r.nodeID);
    var cs := if moves then Vacated(w.clusters, w.replicas[r.replicaID]) else w.clusters;
    if !known || moves then Occupied(cs, r) else cs
  }

  lemma MovedClusterAt(w: W.World, r: Replica, c: ClusterID)
    requires c in w.clusters
    ensures c in MovedClusters(w, r)
    ensures MovedClusters(w, r)[c] == w.clusters[c].(nodes := W.NodesAfterUpsert(w.replicas, r, w.clusters[c], c))
  {
    assert MovedClusters(w, r)[c].nodes == W.NodesAfterUpsert(w.replicas, r, w.clusters[c], c);
  }

  /** The same after rescoring the clusters affected. */
  ghost function FinalClusters(w: W.World, r: Replica): map<ClusterID, Cluster> {
    var cs := RescoredAt(MovedClusters(w, r), r.clusterID);
    if r.replicaID in w.replicas && w.replicas[r.replicaID].clusterID != r.clusterID then
      RescoredAt(cs, w.replicas[r.replicaID].clusterID)
    else cs
  }

  /** The order in which the mutator updates the clusters does not show in the result. */
  lemma UpsertSteps(w: W.World, r: Replica)
    ensures FinalClusters(w, r) == W.UpsertReplica(w, r).clusters
  {
    var cs, cs' := FinalClusters(w, r), W.UpsertReplica(w, r).clusters;
    assert cs.Keys == cs'.Keys;
    forall c | c in cs ensures cs[c] == cs'[c] {
      MovedClusterAt(w, r, c);
    }
  }

  lemma DeleteSteps(w: W.World, id: ReplicaID)
    requires id in w.replicas
    ensures W.DeleteReplica(w, id).clusters ==
            RescoredAt(Vacated(w.clusters, w.replicas[id]), w.replicas[id].clusterID)
  {
    var cs, cs' := Vacated(w.clusters, w.replicas[id]), W.DeleteReplica(w, id).clusters;
    forall c | c in w.clusters ensures cs[c].nodes == cs'[c].nodes {
    }
  }

  /** Some reservations expired so far. */
  ghost function PartlyExpired(w: W.World, done: set<ReservationID>): W.World {
    w.(reservations := map id | id in w.reservations ::
         if id in done then w.reservations[id].(status := Expired) else w.reservations[id],
       reservationsGauge := w.reservationsGauge - |done|)
  }

  lemma PartlyExpiredNone(w: W.World)
    ensures PartlyExpired(w, {}) == w
  {
    assert PartlyExpired(w, {}).reservations == w.reservations;
  }

  ghost predicate ExpiredSoFar(rs: map<ReservationID, GPUReservation>, now: nat, todo: set<ReservationID>,
                               done: set<ReservationID>)
  {
    forall id :: id in done <==> id in rs && id !in todo && W.IsStale(rs[id], now)
  }

  lemma PartlyExpiredAll(w: W.World, done: set<ReservationID>, now: nat)
    requires ExpiredSoFar(w.reservations, now, {}, done)
    ensures done == W.StaleReservations(w.reservations, now)
    ensures PartlyExpired(w, done) == W.ExpireStaleReservations(w, now)
  {
    assert done == W.StaleReservations(w.reservations, now);
    assert PartlyExpired(w, done).reservations == W.ExpireStaleReservations(w, now).reservations;
  }

  lemma PartlyExpiredStep(w: W.World, done: set<ReservationID>, id: ReservationID)
    requires id in w.reservations && id !in done
    ensures var p := PartlyExpired(w, done);
            PartlyExpired(w, done + {id}) ==
            p.(reservations := p.reservations[id := w.reservations[id].(status := Expired)],
               reservationsGauge := p.reservationsGauge - 1)
  {
    var p := PartlyExpired(w, done);
    assert PartlyExpired(w, done + {id}).reservations == p.reservations[id := w.reservations[id].(status := Expired)];
  }

  method ComputeFragmentation(nodes: map<NodeID, Node>) returns (score: real)
    ensures score == W.Fragmentation(nodes)
  {
    var totalCapacity := SumMap(nodes, W.TotalOf());
    var totalFree := SumMap(nodes, W.FreeOf());
    if totalCapacity == 0 {
      return 0.0;
    }
    return 1.0 - totalFree as real / totalCapacity as real;
  }

  method RemoveFromSlice(s: seq<ReplicaID>, val: ReplicaID) returns (r: seq<ReplicaID>)
    ensures r == W.RemoveFirst(s, val)
  {
    for i := 0 to |s|
      invariant W.RemoveFirst(s, val) == s[..i] + W.RemoveFirst(s[i..], val)
    {
      if s[i] == val {
        return s[..i] + s[i + 1..];
      }
      assert s[i..][1..] == s[i + 1..];
      assert s[..i + 1] == s[..i] + [s[i]];
    }
    return s;
  }

  class Store {
    var clusters: map<ClusterID, Cluster>
    var applications: map<AppID, Application>
    var replicas: map<ReplicaID, Replica>
    var cacheLocations: map<ModelID, seq<CacheLocation>>
    var performanceProfiles: map<AppID, PerformanceProfile>
    var vllmMetrics: map<AppID, VLLMMetrics>
    var reservations: map<ReservationID, GPUReservation>
    var scalingHistory: map<AppID, ScalingHistory>
    var replicasGauge: map<ReplicaStatus, int>
    var reservationsGauge: int

    ghost function Value(): W.World
      reads this
    {
      W.World(clusters, applications, replicas, cacheLocations, performanceProfiles, vllmMetrics, reservations,
              scalingHistory, replicasGauge, reservationsGauge)
    }

    constructor ()
      ensures W.Accounted(Value()) && W.ReservationGaugeExact(Value())
      ensures clusters == map[] && replicas == map[] && reservations == map[] && applications == map[]
      ensures scalingHistory == map[] && vllmMetrics == map[]
    {
      clusters, applications, replicas, cacheLocations := map[], map[], map[], map[];
      performanceProfiles, vllmMetrics, reservations, scalingHistory := map[], map[], map[], map[];
      replicasGauge := map[Pending := 0, Running := 0, Draining := 0, Terminated := 0];
      reservationsGauge := 0;
      new;
      forall st: ReplicaStatus ensures W.GaugeOf(replicasGauge, st) == |W.IdsIn(replicas, st)| {
        assert W.IdsIn(replicas, st) == {};
      }
      assert W.ActiveReservations(reservations) == {};
    }

    // ---------- Helpers under the lock ----------

    method RestoreNodeGPUs(r: Replica)
      modifies `clusters
      ensures clusters == Vacated(old(clusters), r)
    {
      if r.clusterID !in clusters {
        return;
      }
      var c := clusters[r.clusterID];
      if r.nodeID !in c.nodes {
        return;
      }
      var n := c.nodes[r.nodeID];
      var pods := RemoveFromSlice(n.pods, r.replicaID);
      n := n.(allocatedGPUs := n.allocatedGPUs - r.gpus, freeGPUs := n.freeGPUs + r.gpus, pods := pods);
      clusters := clusters[r.clusterID := c.(nodes := c.nodes[r.nodeID := n])];
    }

    method AllocateNodeGPUs(r: Replica)
      modifies `clusters
      ensures clusters == Occupied(old(clusters), r)
    {
      if r.clusterID !in clusters {
        return;
      }
      var c := clusters[r.clusterID];
      if r.nodeID !in c.nodes {
        return;
      }
      var n := c.nodes[r.nodeID];
      n := n.(allocatedGPUs := n.allocatedGPUs + r.gpus, freeGPUs := n.freeGPUs - r.gpus,
             pods := n.pods + [r.replicaID]);
      clusters := clusters[r.clusterID := c.(nodes := c.nodes[r.nodeID := n])];
    }

    method Rescore(id: ClusterID)
      modifies `clusters
      ensures clusters == RescoredAt(old(clusters), id)
    {
      if id in clusters {
        var score := ComputeFragmentation(clusters[id].nodes);
        clusters := clusters[id := clusters[id].(fragmentationScore := score)];
      }
    }

    // ---------- Clusters, nodes, applications, metrics ----------

    method UpsertCluster(c: Cluster)
      modifies this
      ensures Value() == W.UpsertCluster(old(Value()), c)
    {
      clusters := clusters[c.clusterID := c];
    }

    method UpsertNode(n: Node)
      modifies this
      ensures Value() == W.UpsertNode(old(Value()), n)
    {
      var c := if n.clusterID in clusters then clusters[n.clusterID] else Cluster(n.clusterID, map[], 0.0);
      c := c.(nodes := c.nodes[n.nodeID := n]);
      var score := ComputeFragmentation(c.nodes);
      clusters := clusters[n.clusterID := c.(fragmentationScore := score)];
    }

    method RemoveNode(clusterID: ClusterID, nodeID: NodeID)
      modifies this
      ensures Value() == W.RemoveNode(old(Value()), clusterID, nodeID)
    {
      if clusterID !in clusters {
        return;
      }
      var c := clusters[clusterID];
      c := c.(nodes := c.nodes - {nodeID});
      var score := ComputeFragmentation(c.nodes);
      clusters := clusters[clusterID := c.(fragmentationScore := score)];
    }

    method UpsertApplication(app: Application)
      modifies this
      ensures Value() == W.UpsertApplication(old(Value()), app)
    {
      applications := applications[app.appID := app];
    }

    method UpdateVLLMMetrics(m: VLLMMetrics)
      modifies this
      ensures Value() == W.UpdateVLLMMetrics(old(Value()), m)
    {
      vllmMetrics := vllmMetrics[m.appID := m];
    }

    // ---------- Replicas ----------

    method UpsertReplica(r: Replica)
      modifies this
      ensures Value() == W.UpsertReplica(old(Value()), r)
    {
      var existed := r.replicaID in replicas;
      var prev := if existed then replicas[r.replicaID] else r;
      if existed && (prev.nodeID != r.nodeID || prev.clusterID != r.clusterID) {
        RestoreNodeGPUs(prev);
      }
      if existed {
        replicasGauge := W.Bump(replicasGauge, prev.status, -1);
      }
      if !existed || prev.nodeID != r.nodeID || prev.clusterID != r.clusterID {
        AllocateNodeGPUs(r);
      }
      replicas := replicas[r.replicaID := r];
      replicasGauge := W.Bump(replicasGauge, r.status, 1);
      Rescore(r.clusterID);
      if existed && prev.clusterID != r.clusterID {
        Rescore(prev.clusterID);
      }
      UpsertSteps(old(Value()), r);
    }

    method DeleteReplica(id: ReplicaID)
      modifies this
      ensures Value() == W.DeleteReplica(old(Value()), id)
    {
      if id !in replicas {
        return;
      }
      var r := replicas[id];
      RestoreNodeGPUs(r);
      replicas := replicas - {id};
      replicasGauge := W.Bump(replicasGauge, r.status, -1);
      Rescore(r.clusterID);
      DeleteSteps(old(Value()), id);
    }

    // ---------- Reservations ----------

    method CreateReservation(r: GPUReservation) returns (ok: bool)
      modifies this
      ensures Value() == W.CreateReservation(old(Value()), r)
      ensures ok <==> r.reservationID !in old(reservations)
    {
      if r.reservationID in reservations {
        return false;
      }
      reservations := reservations[r.reservationID := r];
      if r.status == Active {
        reservationsGauge := reservationsGauge + 1;
      }
      return true;
    }

    method FulfillReservation(id: ReservationID) returns (ok: bool)
      modifies this
      ensures Value() == W.CloseReservation(old(Value()), id, Fulfilled)
      ensures ok <==> id in old(reservations) && old(reservations)[id].status == Active
    {
      if id !in reservations || reservations[id].status != Active {
        return false;
      }
      reservations := reservations[id := reservations[id].(status := Fulfilled)];
      reservationsGauge := reservationsGauge - 1;
      return true;
    }

    method ExpireReservation(id: ReservationID) returns (ok: bool)
      modifies this
      ensures Value() == W.CloseReservation(old(Value()), id, Expired)
      ensures ok <==> id in old(reservations) && old(reservations)[id].status == Active
    {
      if id !in reservations || reservations[id].status != Active {
        return false;
      }
      reservations := reservations[id := reservations[id].(status := Expired)];
      reservationsGauge := reservationsGauge - 1;
      return true;
    }

    method ExpireIfStale(id: ReservationID, now: nat, ghost w: W.World, ghost done: set<ReservationID>)
      returns (hit: bool)
      requires id in w.reservations && id !in done && Value() == PartlyExpired(w, done)
      modifies this
      ensures hit <==> W.IsStale(w.reservations[id], now)
      ensures Value() == PartlyExpired(w, if hit then done + {id} else done)
    {
      var r := reservations[id];
      hit := r.status == Active && now - r.createdAt >= r.ttlSeconds * SECOND;
      if hit {
        PartlyExpiredStep(w, done, id);
        reservations := reservations[id := r.(status := Expired)];
        reservationsGauge := reservationsGauge - 1;
      }
    }

    method ExpireStaleReservations(now: nat) returns (expired: int)
      modifies this
      ensures Value() == W.ExpireStaleReservations(old(Value()), now)
      ensures expired == |W.StaleReservations(old(reservations), now)|
    {
      expired := 0;
      var todo := reservations.Keys;
      ghost var w, done: set<ReservationID> := Value(), {};
      PartlyExpiredNone(w);
      while todo != {}
        invariant todo <= w.reservations.Keys
        invariant ExpiredSoFar(w.reservations, now, todo, done)
        invariant expired == |done|
        invariant Value() == PartlyExpired(w, done)
      {
        var id :| id in todo;
        var hit := ExpireIfStale(id, now, w, done);
        if hit {
          expired := expired + 1;
          done := done + {id};
        }
        todo := todo - {id};
      }
      PartlyExpiredAll(w, done, now);
    }

    // ---------- Scaling history ----------

    method RecordScaleEvent(app: AppID, direction: ScaleDirection, at: nat)
      modifies `scalingHistory
      ensures scalingHistory ==
                old(scalingHistory)[app := W.AfterScaleEvent(W.HistoryOf(old(scalingHistory), app), direction, at)]
    {
      var h := W.HistoryOf(scalingHistory, app);
      match direction {
        case Up =>
          h := h.(lastScaleUpAt := at, consecutiveScaleDownSignals := 0);
        case DownDirection =>
          h := h.(lastScaleDownAt := at, consecutiveScaleDownSignals := h.consecutiveScaleDownSignals + 1);
        case Unchanged =>
      }
      scalingHistory := scalingHistory[app := h];
    }

    method IncrementScaleDownSignal(app: AppID)
      modifies `scalingHistory
      ensures scalingHistory == old(scalingHistory)[app := W.AfterSignal(W.HistoryOf(old(scalingHistory), app))]
    {
      var h := W.HistoryOf(scalingHistory, app);
      h := h.(consecutiveScaleDownSignals := h.consecutiveScaleDownSignals + 1);
      scalingHistory := scalingHistory[app := h];
    }

    // ---------- Reading ----------

    /** Free GPUs on ready nodes less active reservations, at least 0: what the
        placement engine computes from a snapshot before its first reservation. */
    method AvailableGPUs(cluster: ClusterID) returns (available: int)
      ensures available == if cluster in clusters then Max0(Headroom(clusters, reservations, cluster)) else 0
    {
      if cluster !in clusters {
        return 0;
      }
      var free := SumMap(clusters[cluster].nodes, ReadyFree());
      var reserved := SumMap(reservations, HeldIn(cluster));
      available := free - reserved;
      if available < 0 {
        return 0;
      }
    }

    method TakeSnapshot(now: nat) returns (snap: Snapshot)
      requires forall id | id in replicas :: replicas[id].replicaID == id
      ensures snap.clusters == clusters && snap.applications == applications && snap.replicas == replicas
      ensures snap.cacheLocations == cacheLocations && snap.vllmMetrics == vllmMetrics
      ensures snap.performanceProfiles == performanceProfiles
      ensures snap.reservations == reservations && snap.scalingHistory == scalingHistory && snap.takenAt == now
      ensures snap.replicasByApp.Some? && Indexes(replicas, snap.replicasByApp.value)
    {
      var index := BuildReplicasByApp(replicas);
      snap := Snapshot(clusters, applications, replicas, Some(index), cacheLocations, performanceProfiles, vllmMetrics,
                       reservations, scalingHistory, now);
    }
  }
}
