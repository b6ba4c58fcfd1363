/** What one step of the simulator may do to the world, and why no node is ever
    asked for more GPUs than it has. */
module SimulatedWorld {
  import opened Model
  import opened Collections
  import opened World

  // ---------- Safety ----------

  ghost predicate NothingOverdrawn(w: World) {
    && (forall c, n | c in w.clusters && n in w.clusters[c].nodes :: w.clusters[c].nodes[n].freeGPUs >= 0)
    && (forall id | id in w.replicas :: w.replicas[id].gpus >= 0)
    && (forall a | a in w.applications :: w.applications[a].gpusPerReplica >= 0)
  }

  /** Node names are never empty: the empty name means "no node". */
  ghost predicate NodesNamed(w: World) {
    forall c | c in w.clusters :: "" !in w.clusters[c].nodes
  }

  ghost predicate Safe(w: World) {
    Accounted(w) && NothingOverdrawn(w) && NodesNamed(w)
  }

  /** In a safe world the replicas placed on a node fit in it, each and together. */
  lemma SafeMeansEverythingFits(w: World, c: ClusterID, n: NodeID)
    requires Safe(w) && c in w.clusters && n in w.clusters[c].nodes
    ensures var node := w.clusters[c].nodes[n];
            && node.allocatedGPUs + node.freeGPUs == node.totalGPUs
            && MapSum(w.replicas, GpusAt(c, n)) == node.allocatedGPUs <= node.totalGPUs
            && forall id | id in node.pods :: id in w.replicas && 0 <= w.replicas[id].gpus <= node.allocatedGPUs
  {
    var node := w.clusters[c].nodes[n];
    assert NodeAccounted(w.replicas, c, n, node);
    MapSumNonNegative(w.replicas, GpusAt(c, n));
    forall id | id in node.pods ensures id in w.replicas && 0 <= w.replicas[id].gpus <= node.allocatedGPUs {
      assert id in IdsAt(w.replicas, c, n);
      assert GpusAt(c, n)(w.replicas[id]) == w.replicas[id].gpus;
    }
  }

  /** A ready node of the cluster with enough free GPUs. */
  ghost predicate RoomAt(w: World, c: ClusterID, n: NodeID, gpus: int) {
    && c in w.clusters && n in w.clusters[c].nodes
    && w.clusters[c].nodes[n].status == Ready && w.clusters[c].nodes[n].freeGPUs >= gpus
  }

  ghost predicate SomeRoomIn(w: World, c: ClusterID, gpus: int) {
    exists n :: RoomAt(w, c, n, gpus)
  }

  lemma PlacingOverdrawsNothing(w: World, r: Replica)
    requires NothingOverdrawn(w) && NodesNamed(w) && r.replicaID !in w.replicas && r.gpus >= 0
    requires RoomAt(w, r.clusterID, r.nodeID, r.gpus)
    ensures NothingOverdrawn(UpsertReplica(w, r)) && NodesNamed(UpsertReplica(w, r))
  {
    var w' := UpsertReplica(w, r);
    forall c, n | c in w.clusters && n in w.clusters[c].nodes
      ensures w'.clusters[c].nodes[n] == NodeAfterUpsert(w.replicas, r, c, n, w.clusters[c].nodes[n])
    {
    }
  }

  /** Placing a new replica where there is room. */
  lemma PlacingIsSafe(w: World, r: Replica)
    requires Safe(w) && r.replicaID !in w.replicas && r.gpus >= 0
    requires RoomAt(w, r.clusterID, r.nodeID, r.gpus)
    ensures Safe(UpsertReplica(w, r))
  {
    assert Accounted(UpsertReplica(w, r)) by {
      UpsertKeepsAccountingIff(w, r);
    }
    PlacingOverdrawsNothing(w, r);
  }

  lemma DeletingOverdrawsNothing(w: World, id: ReplicaID)
    requires NothingOverdrawn(w) && NodesNamed(w)
    ensures NothingOverdrawn(DeleteReplica(w, id)) && NodesNamed(DeleteReplica(w, id))
  {
  }

  lemma DeletingIsSafe(w: World, id: ReplicaID)
    requires Safe(w)
    ensures Safe(DeleteReplica(w, id))
  {
    assert Accounted(DeleteReplica(w, id)) by {
      DeleteKeepsAccounting(w, id);
    }
    DeletingOverdrawsNothing(w, id);
  }

  // ---------- Status changes ----------

  ghost function Promoted(replicas: map<ReplicaID, Replica>, started: set<ReplicaID>): map<ReplicaID, Replica> {
    map id | id in replicas :: if id in started then replicas[id].(status := Running) else replicas[id]
  }

  /** The clusters with some nodes marked down. */
  ghost function WithDown(clusters: map<ClusterID, Cluster>, down: set<(ClusterID, NodeID)>): map<ClusterID, Cluster> {
    map c | c in clusters ::
      clusters[c].(nodes := map n | n in clusters[c].nodes ::
        if (c, n) in down then clusters[c].nodes[n].(status := Down) else clusters[c].nodes[n])
  }

  /** The world w with only statuses changed. */
  ghost predicate Restatused(w: World, w': World, started: set<ReplicaID>, down: set<(ClusterID, NodeID)>) {
    && Safe(w')
    && w'.replicas == Promoted(w.replicas, started)
    && w'.clusters == WithDown(w.clusters, down)
    && w'.applications == w.applications && w'.reservations == w.reservations
    && w'.vllmMetrics == w.vllmMetrics && w'.scalingHistory == w.scalingHistory
    && w'.reservationsGauge == w.reservationsGauge
  }

  lemma RestatusedNone(w: World)
    requires Safe(w)
    ensures Restatused(w, w, {}, {})
  {
    assert Promoted(w.replicas, {}) == w.replicas;
    forall c | c in w.clusters ensures WithDown(w.clusters, {})[c] == w.clusters[c] {
      assert WithDown(w.clusters, {})[c].nodes == w.clusters[c].nodes;
    }
    assert WithDown(w.clusters, {}) == w.clusters;
  }

  /** An upsert that keeps place and size leaves every cluster as it was. */
  lemma StatusUpsertKeepsClusters(w: World, r: Replica)
    requires ScoresExact(w) && r.replicaID in w.replicas
    requires At(w.replicas[r.replicaID], r.clusterID, r.nodeID)
    ensures UpsertReplica(w, r).clusters == w.clusters
  {
    forall c | c in w.clusters ensures UpsertReplica(w, r).clusters[c] == w.clusters[c] {
      assert NodesAfterUpsert(w.replicas, r, w.clusters[c], c) == w.clusters[c].nodes;
    }
  }

  lemma StatusUpsertIsSafe(w: World, r: Replica)
    requires Safe(w) && r.replicaID in w.replicas
    requires At(w.replicas[r.replicaID], r.clusterID, r.nodeID) && w.replicas[r.replicaID].gpus == r.gpus
    ensures UpsertReplica(w, r).clusters == w.clusters && Safe(UpsertReplica(w, r))
  {
    assert Accounted(UpsertReplica(w, r)) by {
      UpsertKeepsAccountingIff(w, r);
    }
    StatusUpsertKeepsClusters(w, r);
    assert r.gpus >= 0 by {
      assert r.replicaID in w.replicas;
    }
    assert NothingOverdrawn(UpsertReplica(w, r)) && NodesNamed(UpsertReplica(w, r));
  }

  /** Marking a replica of the earlier snapshot as running. */
  lemma PromotionStep(w: World, w': World, started: set<ReplicaID>, down: set<(ClusterID, NodeID)>, id: ReplicaID)
    requires Restatused(w, w', started, down) && id in w.replicas && w.replicas[id].replicaID == id
    ensures Restatused(w, UpsertReplica(w', w.replicas[id].(status := Running)), started + {id}, down)
  {
    var r := w.replicas[id].(status := Running);
    StatusUpsertIsSafe(w', r);
    assert Promoted(w.replicas, started)[id := r] == Promoted(w.replicas, started + {id});
  }

  lemma PromotionOfUnknown(w: World, w': World, started: set<ReplicaID>, down: set<(ClusterID, NodeID)>, id: ReplicaID)
    requires Restatused(w, w', started, down) && id !in w.replicas
    ensures Restatused(w, w', started + {id}, down)
  {
    assert Promoted(w.replicas, started + {id}) == Promoted(w.replicas, started);
  }

  lemma StatusKeepsFragmentation(nodes: map<NodeID, Node>, nodes': map<NodeID, Node>)
    requires nodes.Keys == nodes'.Keys
    requires forall n | n in nodes :: nodes'[n] == nodes[n].(status := nodes'[n].status)
    ensures Fragmentation(nodes') == Fragmentation(nodes)
  {
    MapSumCompare(nodes, TotalOf(), nodes', TotalOf());
    MapSumCompare(nodes', TotalOf(), nodes, TotalOf());
    MapSumCompare(nodes, FreeOf(), nodes', FreeOf());
    MapSumCompare(nodes', FreeOf(), nodes, FreeOf());
  }

  /** Marking down one more node: what is written is the current node, as nothing
      since the snapshot has changed its counters. */
  lemma DownStepClusters(clusters: map<ClusterID, Cluster>, down: set<(ClusterID, NodeID)>, c: ClusterID, n: NodeID)
    requires c in clusters && n in clusters[c].nodes
    requires WithDown(clusters, down)[c].fragmentationScore == Fragmentation(WithDown(clusters, down)[c].nodes)
    ensures var cl := WithDown(clusters, down)[c];
            && clusters[c].nodes[n].(status := Down) == cl.nodes[n].(status := Down)
            && WithDown(clusters, down + {(c, n)}) ==
               WithDown(clusters, down)[c := Rescored(cl.(nodes := cl.nodes[n := cl.nodes[n].(status := Down)]))]
  {
    var cs, cs' := WithDown(clusters, down), WithDown(clusters, down + {(c, n)});
    assert cs'[c].nodes == cs[c].nodes[n := cs[c].nodes[n].(status := Down)];
    StatusKeepsFragmentation(cs[c].nodes, cs'[c].nodes);
    forall k | k in clusters && k != c ensures cs'[k] == cs[k] {
      assert cs'[k].nodes == cs[k].nodes;
    }
  }

  lemma DowningIsSafe(w: World, c: ClusterID, n: NodeID)
    requires Safe(w) && c in w.clusters && n in w.clusters[c].nodes
    ensures Safe(UpsertNode(w, w.clusters[c].nodes[n].(status := Down)))
  {
    var node := w.clusters[c].nodes[n].(status := Down);
    var w' := UpsertNode(w, node);
    assert NodeAccounted(w.replicas, c, n, w.clusters[c].nodes[n]);
    assert node.clusterID == c && node.nodeID == n;
    assert Accounted(w') by {
      UpsertNodeKeepsAccountingIff(w, node);
    }
    DowningOverdrawsNothing(w, c, n);
  }

  lemma DowningOverdrawsNothing(w: World, c: ClusterID, n: NodeID)
    requires NothingOverdrawn(w) && NodesNamed(w) && c in w.clusters && n in w.clusters[c].nodes
    requires w.clusters[c].nodes[n].clusterID == c && w.clusters[c].nodes[n].nodeID == n
    ensures NothingOverdrawn(UpsertNode(w, w.clusters[c].nodes[n].(status := Down)))
    ensures NodesNamed(UpsertNode(w, w.clusters[c].nodes[n].(status := Down)))
  {
  }

  lemma DownStep(w: World, w': World, started: set<ReplicaID>, down: set<(ClusterID, NodeID)>, c: ClusterID, n: NodeID)
    requires Restatused(w, w', started, down) && c in w.clusters && n in w.clusters[c].nodes
    requires w.clusters[c].nodes[n].nodeID == n && w.clusters[c].nodes[n].clusterID == c
    ensures Restatused(w, UpsertNode(w', w.clusters[c].nodes[n].(status := Down)), started, down + {(c, n)})
  {
    assert w'.clusters[c].fragmentationScore == Fragmentation(w'.clusters[c].nodes);
    DownStepClusters(w.clusters, down, c, n);
    DowningIsSafe(w', c, n);
  }

  // ---------- Evolution over a run ----------

  /** Capacity never changes, and a node that is down stays down and only loses
      replicas. */
  ghost predicate NodeEvolves(w: World, w': World, c: ClusterID, n: NodeID)
    requires c in w.clusters && n in w.clusters[c].nodes && c in w'.clusters && n in w'.clusters[c].nodes
  {
    var node, node' := w.clusters[c].nodes[n], w'.clusters[c].nodes[n];
    && node'.totalGPUs == node.totalGPUs
    && (node.status == Down ==> node'.status == Down && IdsAt(w'.replicas, c, n) <= IdsAt(w.replicas, c, n))
  }

  ghost predicate SameNodes(w: World, w': World) {
    && w'.clusters.Keys == w.clusters.Keys
    && forall c | c in w.clusters :: w'.clusters[c].nodes.Keys == w.clusters[c].nodes.Keys
  }

  ghost predicate Evolves(w: World, w': World) {
    && SameNodes(w, w')
    && w'.applications == w.applications
    && forall c, n | c in w.clusters && n in w.clusters[c].nodes :: NodeEvolves(w, w', c, n)
  }

  lemma EvolvesTransitive(w: World, w': World, w'': World)
    requires Evolves(w, w') && Evolves(w', w'')
    ensures Evolves(w, w'')
  {
    forall c, n | c in w.clusters && n in w.clusters[c].nodes ensures NodeEvolves(w, w'', c, n) {
      assert NodeEvolves(w, w', c, n) && NodeEvolves(w', w'', c, n);
    }
  }

  lemma PlacingEvolves(w: World, r: Replica)
    requires r.replicaID !in w.replicas && RoomAt(w, r.clusterID, r.nodeID, r.gpus)
    ensures Evolves(w, UpsertReplica(w, r))
  {
    var w' := UpsertReplica(w, r);
    forall c, n | c in w.clusters && n in w.clusters[c].nodes ensures NodeEvolves(w, w', c, n) {
      assert w'.clusters[c].nodes[n] == NodeAfterUpsert(w.replicas, r, c, n, w.clusters[c].nodes[n]);
      IdsAtPut(w.replicas, r, c, n);
    }
  }

  lemma DeletingEvolves(w: World, id: ReplicaID)
    ensures Evolves(w, DeleteReplica(w, id))
  {
  }

  lemma RestatusedEvolves(w: World, w': World, started: set<ReplicaID>, down: set<(ClusterID, NodeID)>)
    requires Restatused(w, w', started, down)
    ensures Evolves(w, w')
  {
  }
}
