/** Proactive migration: which replicas to move where, and why moving can never go
    back and forth. */
module Rebalancing {
  import opened Model
  import opened Collections
  import opened Snapshots
  import opened World

  datatype RebalancingConfig = RebalancingConfig(maxMigrationsPerCycle: int, minFragmentationDelta: real)

  const DEFAULT_CONFIG := RebalancingConfig(2, 0.15)

  predicate HasRoom(n: Node, gpus: int) {
    n.status == Ready && n.freeGPUs >= gpus
  }

  ghost predicate SomeRoom(nodes: map<NodeID, Node>, gpus: int) {
    exists id :: id in nodes && HasRoom(nodes[id], gpus)
  }

  /** A node with room that wastes the least. */
  ghost predicate IsTightest(nodes: map<NodeID, Node>, gpus: int, id: NodeID) {
    && id in nodes && HasRoom(nodes[id], gpus)
    && forall k | k in nodes && HasRoom(nodes[k], gpus) :: nodes[id].freeGPUs <= nodes[k].freeGPUs
  }

  /** The first loop of both the target search and the estimate: the tightest node
      with room, if any. */
  method TightestNode(nodes: map<NodeID, Node>, gpus: int) returns (best: Option<NodeID>)
    ensures best.Some? <==> SomeRoom(nodes, gpus)
    ensures best.Some? ==> IsTightest(nodes, gpus, best.value)
  {
    best := None;
    var bestWaste := -1;
    var todo := nodes.Keys;
    while todo != {}
      invariant todo <= nodes.Keys
      invariant best.None? <==> bestWaste < 0
      invariant best.None? ==> forall k | k in nodes && k !in todo :: !HasRoom(nodes[k], gpus)
      invariant best.Some? ==>
                  && best.value in nodes && HasRoom(nodes[best.value], gpus)
                  && bestWaste == nodes[best.value].freeGPUs - gpus
                  && forall k | k in nodes && k !in todo && HasRoom(nodes[k], gpus) ::
                       nodes[best.value].freeGPUs <= nodes[k].freeGPUs
    {
      var id :| id in todo;
      todo := todo - {id};
      var node := nodes[id];
      if node.status != Ready || node.freeGPUs < gpus {
        continue;
      }
      var waste := node.freeGPUs - gpus;
      if bestWaste < 0 || waste < bestWaste {
        bestWaste := waste;
        best := Some(id);
      }
    }
  }

  /** Another cluster with room, whose tightest node wastes the least of all. */
  ghost predicate IsTarget(snap: Snapshot, r: Replica, cluster: ClusterID, node: NodeID) {
    && cluster in snap.clusters && cluster != r.clusterID
    && IsTightest(snap.clusters[cluster].nodes, r.gpus, node)
    && forall c, n | c in snap.clusters && c != r.clusterID && n in snap.clusters[c].nodes
                     && HasRoom(snap.clusters[c].nodes[n], r.gpus) ::
         snap.clusters[cluster].nodes[node].freeGPUs <= snap.clusters[c].nodes[n].freeGPUs
  }

  ghost predicate SomeTarget(snap: Snapshot, r: Replica) {
    exists c :: c in snap.clusters && c != r.clusterID && SomeRoom(snap.clusters[c].nodes, r.gpus)
  }

  datatype Target = Target(clusterID: ClusterID, nodeID: NodeID)

  method FindConsolidationTarget(r: Replica, snap: Snapshot) returns (target: Option<Target>)
    requires WellKeyed(snap)
    ensures target.Some? <==> SomeTarget(snap, r)
    ensures target.Some? ==> IsTarget(snap, r, target.value.clusterID, target.value.nodeID)
  {
    target := None;
    var bestWaste := -1;
    var todo := snap.clusters.Keys;
    while todo != {}
      invariant todo <= snap.clusters.Keys
      invariant target.None? <==> bestWaste < 0
      invariant target.None? ==>
                  forall c | c in snap.clusters && c != r.clusterID && c !in todo ::
                    !SomeRoom(snap.clusters[c].nodes, r.gpus)
      invariant target.Some? ==>
                  && Tightest(snap, r, todo, target.value)
                  && bestWaste == snap.clusters[target.value.clusterID].nodes[target.value.nodeID].freeGPUs - r.gpus
    {
      var c :| c in todo;
      todo := todo - {c};
      if c == r.clusterID {
        continue;
      }
      var best := TightestNode(snap.clusters[c].nodes, r.gpus);
      if best.None? {
        continue;
      }
      var waste := snap.clusters[c].nodes[best.value].freeGPUs - r.gpus;
      if bestWaste < 0 || waste < bestWaste {
        bestWaste := waste;
        target := Some(Target(c, best.value));
      }
    }
  }

  /** The target is the tightest among the clusters looked at. */
  ghost predicate Tightest(snap: Snapshot, r: Replica, todo: set<ClusterID>, t: Target) {
    && t.clusterID in snap.clusters && t.clusterID != r.clusterID
    && IsTightest(snap.clusters[t.clusterID].nodes, r.gpus, t.nodeID)
    && forall c, n | c in snap.clusters && c != r.clusterID && c !in todo && n in snap.clusters[c].nodes
                     && HasRoom(snap.clusters[c].nodes[n], r.gpus) ::
         snap.clusters[t.clusterID].nodes[t.nodeID].freeGPUs <= snap.clusters[c].nodes[n].freeGPUs
  }

  // ---------- The fragmentation estimate ----------

  /** Fragmentation if one node had delta more GPUs free. */
  function FreeShifted(id: NodeID, delta: int): Node -> int {
    (n: Node) => if n.nodeID == id then n.freeGPUs + delta else n.freeGPUs
  }

  method FragmentationIfFreed(nodes: map<NodeID, Node>, id: NodeID, delta: int) returns (score: real)
    ensures score == FragmentationShifted(nodes, id, delta)
  {
    var totalCapacity := SumMap(nodes, TotalOf());
    var totalFree := SumMap(nodes, FreeShifted(id, delta));
    if totalCapacity == 0 {
      return 0.0;
    }
    return 1.0 - totalFree as real / totalCapacity as real;
  }

  ghost function FragmentationShifted(nodes: map<NodeID, Node>, id: NodeID, delta: int): real {
    var total := MapSum(nodes, TotalOf());
    if total == 0 then 0.0 else 1.0 - MapSum(nodes, FreeShifted(id, delta)) as real / total as real
  }

  ghost function Capacity(snap: Snapshot, c: ClusterID): int
    requires c in snap.clusters
  {
    MapSum(snap.clusters[c].nodes, TotalOf())
  }

  lemma ShiftedSum(nodes: map<NodeID, Node>, id: NodeID, delta: int)
    requires id in nodes && forall k | k in nodes :: nodes[k].nodeID == k
    ensures MapSum(nodes, FreeShifted(id, delta)) == MapSum(nodes, FreeOf()) + delta
  {
    MapSumTake(nodes, FreeShifted(id, delta), id);
    MapSumTake(nodes, FreeOf(), id);
    var rest := nodes - {id};
    MapSumCompare(rest, FreeShifted(id, delta), rest, FreeOf());
    MapSumCompare(rest, FreeOf(), rest, FreeShifted(id, delta));
  }

  lemma ShiftChangesScore(nodes: map<NodeID, Node>, id: NodeID, delta: int)
    requires id in nodes && forall k | k in nodes :: nodes[k].nodeID == k
    requires MapSum(nodes, TotalOf()) > 0
    ensures Fragmentation(nodes) - FragmentationShifted(nodes, id, delta) ==
            delta as real / MapSum(nodes, TotalOf()) as real
  {
    var total, free := MapSum(nodes, TotalOf()), MapSum(nodes, FreeOf());
    ShiftedSum(nodes, id, delta);
    QuotientOfSum(free, delta, total);
  }

  lemma QuotientOfSum(a: int, b: int, c: int)
    requires c > 0
    ensures (a + b) as real / c as real == a as real / c as real + b as real / c as real
  {
  }

  method EstimateFragmentationDelta(source: Node, dest: ClusterID, gpus: int, snap: Snapshot)
    returns (improvement: real)
    requires WellKeyed(snap) && dest in snap.clusters
    ensures IsEstimate(snap, source, dest, gpus, improvement)
  {
    if source.clusterID !in snap.clusters {
      return 0.0;
    }
    var sourceCluster, destCluster := snap.clusters[source.clusterID], snap.clusters[dest];
    var newSourceFrag := FragmentationIfFreed(sourceCluster.nodes, source.nodeID, gpus);
    var best := TightestNode(destCluster.nodes, gpus);
    var newDestFrag := destCluster.fragmentationScore;
    if best.Some? {
      newDestFrag := FragmentationIfFreed(destCluster.nodes, best.value, -gpus);
    }
    return (sourceCluster.fragmentationScore + destCluster.fragmentationScore) - (newSourceFrag + newDestFrag);
  }

  /** What the engine computes from the stored scores. */
  ghost predicate IsEstimate(snap: Snapshot, source: Node, dest: ClusterID, gpus: int, improvement: real)
    requires dest in snap.clusters
  {
    if source.clusterID !in snap.clusters then improvement == 0.0
    else
      var before := snap.clusters[source.clusterID].fragmentationScore + snap.clusters[dest].fragmentationScore;
      var sourceAfter := FragmentationShifted(snap.clusters[source.clusterID].nodes, source.nodeID, gpus);
      if SomeRoom(snap.clusters[dest].nodes, gpus) then
        exists id :: IsTightest(snap.clusters[dest].nodes, gpus, id)
                     && improvement ==
                        before - (sourceAfter + FragmentationShifted(snap.clusters[dest].nodes, id, -gpus))
      else improvement == before - (sourceAfter + snap.clusters[dest].fragmentationScore)
  }

  ghost predicate ScoresConsistent(snap: Snapshot) {
    forall c | c in snap.clusters :: snap.clusters[c].fragmentationScore == Fragmentation(snap.clusters[c].nodes)
  }

  /** With consistent scores, the estimate is the replica's share of the source
      cluster less its share of the destination. */
  lemma EstimateIsShareDifference(snap: Snapshot, source: Node, dest: ClusterID, gpus: int, improvement: real)
    requires WellKeyed(snap) && ScoresConsistent(snap) && dest in snap.clusters
    requires source.clusterID in snap.clusters && source.nodeID in snap.clusters[source.clusterID].nodes
    requires Capacity(snap, source.clusterID) > 0 && Capacity(snap, dest) > 0
    requires SomeRoom(snap.clusters[dest].nodes, gpus) && IsEstimate(snap, source, dest, gpus, improvement)
    ensures improvement ==
            gpus as real / Capacity(snap, source.clusterID) as real - gpus as real / Capacity(snap, dest) as real
  {
    var nodes := snap.clusters[dest].nodes;
    var id :| IsTightest(nodes, gpus, id)
              && improvement == snap.clusters[source.clusterID].fragmentationScore
                   + snap.clusters[dest].fragmentationScore
                                - (FragmentationShifted(snap.clusters[source.clusterID].nodes, source.nodeID, gpus)
                                   + FragmentationShifted(nodes, id, -gpus));
    SourceScoreDrops(snap, source, gpus);
    DestinationScoreRises(snap, dest, id, gpus);
  }

  lemma SourceScoreDrops(snap: Snapshot, source: Node, gpus: int)
    requires WellKeyed(snap) && ScoresConsistent(snap) && source.clusterID in snap.clusters
    requires source.nodeID in snap.clusters[source.clusterID].nodes && Capacity(snap, source.clusterID) > 0
    ensures var c := snap.clusters[source.clusterID];
            c.fragmentationScore - FragmentationShifted(c.nodes, source.nodeID, gpus) ==
            gpus as real / Capacity(snap, source.clusterID) as real
  {
    ShiftChangesScore(snap.clusters[source.clusterID].nodes, source.nodeID, gpus);
  }

  lemma DestinationScoreRises(snap: Snapshot, dest: ClusterID, id: NodeID, gpus: int)
    requires WellKeyed(snap) && ScoresConsistent(snap) && dest in snap.clusters && id in snap.clusters[dest].nodes
    requires Capacity(snap, dest) > 0
    ensures snap.clusters[dest].fragmentationScore - FragmentationShifted(snap.clusters[dest].nodes, id, -gpus) ==
            -(gpus as real / Capacity(snap, dest) as real)
  {
    ShiftChangesScore(snap.clusters[dest].nodes, id, -gpus);
    NegatedQuotient(gpus, Capacity(snap, dest));
  }

  lemma NegatedQuotient(a: int, c: int)
    requires c > 0
    ensures (-a) as real / c as real == -(a as real / c as real)
  {
  }

  lemma LargerShareSmallerCapacity(gpus: int, c: int, d: int)
    requires gpus > 0 && c > 0 && d > 0
    requires gpus as real / c as real > gpus as real / d as real
    ensures c < d
  {
  }

  // ---------- Proposals ----------

  ghost predicate HasCachedModel(snap: Snapshot, cluster: ClusterID, model: ModelID) {
    model in snap.cacheLocations && exists i :: 0 <= i < |snap.cacheLocations[model]|
                                                && snap.cacheLocations[model][i].clusterID == cluster
  }

  method CheckCachedModel(snap: Snapshot, cluster: ClusterID, model: ModelID) returns (cached: bool)
    ensures cached == HasCachedModel(snap, cluster, model)
  {
    if model !in snap.cacheLocations {
      return false;
    }
    var locs := snap.cacheLocations[model];
    for i := 0 to |locs|
      invariant forall j | 0 <= j < i :: locs[j].clusterID != cluster
    {
      if locs[i].clusterID == cluster {
        return true;
      }
    }
    return false;
  }

  ghost function RunningCount(snap: Snapshot, app: AppID): nat {
    |set id | id in snap.replicas && snap.replicas[id].appID == app && snap.replicas[id].status == Running|
  }

  method CountRunningReplicas(snap: Snapshot, app: AppID) returns (count: nat)
    requires WellKeyed(snap)
    ensures count == RunningCount(snap, app)
  {
    var test := (r: Replica) => r.status == Running;
    count := CountMatching(snap, app, test);
    assert (set id | id in snap.replicas && snap.replicas[id].appID == app && snap.replicas[id].status == Running) ==
           set id | id in snap.replicas && snap.replicas[id].appID == app && test(snap.replicas[id]);
  }

  /** A partly allocated ready node. */
  predicate IsFragmented(n: Node) {
    n.status == Ready && 0 < n.allocatedGPUs < n.totalGPUs
  }

  /** The migration names the tightest room there is for the replica elsewhere. */
  ghost predicate Targets(snap: Snapshot, r: Replica, model: ModelID, m: MigrateDecision) {
    exists n :: IsTarget(snap, r, m.targetClusterID, n) && m.constraints == SchedulingConstraints(r.gpus, [n], model)
  }

  /** The estimated improvement reaches the threshold. */
  ghost predicate Improves(cfg: RebalancingConfig, snap: Snapshot, node: Node, dest: ClusterID, gpus: int)
    requires dest in snap.clusters
  {
    exists x :: IsEstimate(snap, node, dest, gpus, x) && x >= cfg.minFragmentationDelta
  }

  /** Moving this replica off this node, to this target, is worth proposing. */
  ghost predicate Worthwhile(cfg: RebalancingConfig, snap: Snapshot, node: Node, m: MigrateDecision) {
    && IsFragmented(node)
    && m.sourceReplicaID in node.pods && m.sourceReplicaID in snap.replicas
    && m.appID == snap.replicas[m.sourceReplicaID].appID && m.appID in snap.applications
    && RunningCount(snap, m.appID) > snap.applications[m.appID].minReplicas
    && m.targetClusterID in snap.clusters
    && HasCachedModel(snap, m.targetClusterID, snap.applications[m.appID].modelID)
    && Targets(snap, snap.replicas[m.sourceReplicaID], snap.applications[m.appID].modelID, m)
    && Improves(cfg, snap, node, m.targetClusterID, snap.replicas[m.sourceReplicaID].gpus)
  }

  /** Some tightest target is not worth it: the model is not cached there, or the
      improvement is too small. Which target is looked at is arbitrary among ties. */
  ghost predicate PoorTarget(cfg: RebalancingConfig, snap: Snapshot, node: Node, r: Replica, model: ModelID,
                             dest: ClusterID, n: NodeID)
  {
    && IsTarget(snap, r, dest, n)
    && (HasCachedModel(snap, dest, model) ==>
          exists x :: IsEstimate(snap, node, dest, r.gpus, x) && x < cfg.minFragmentationDelta)
  }

  ghost predicate SomePoorTarget(cfg: RebalancingConfig, snap: Snapshot, node: Node, r: Replica, model: ModelID) {
    exists c, n :: PoorTarget(cfg, snap, node, r, model, c, n)
  }

  /** Why a replica of a fragmented node may be left where it is. */
  ghost predicate MayStay(cfg: RebalancingConfig, snap: Snapshot, node: Node, id: ReplicaID) {
    || id !in snap.replicas
    || snap.replicas[id].appID !in snap.applications
    || RunningCount(snap, snap.replicas[id].appID) <= snap.applications[snap.replicas[id].appID].minReplicas
    || !SomeTarget(snap, snap.replicas[id])
    || SomePoorTarget(cfg, snap, node, snap.replicas[id], snap.applications[snap.replicas[id].appID].modelID)
  }

  /** One replica of a fragmented node: a migration if it passes every filter, and
      none only if it fails one. */
  method ConsiderReplica(cfg: RebalancingConfig, snap: Snapshot, node: Node, id: ReplicaID)
    returns (m: Option<MigrateDecision>)
    requires WellKeyed(snap) && IsFragmented(node) && id in node.pods
    ensures m.Some? ==> m.value.sourceReplicaID == id && Worthwhile(cfg, snap, node, m.value)
    ensures m.None? ==> MayStay(cfg, snap, node, id)
  {
    if id !in snap.replicas || snap.replicas[id].appID !in snap.applications {
      return None;
    }
    var r := snap.replicas[id];
    var app := snap.applications[r.appID];
    var runningCount := CountRunningReplicas(snap, r.appID);
    if runningCount <= app.minReplicas {
      return None;
    }
    var target := FindConsolidationTarget(r, snap);
    if target.None? {
      return None;
    }
    var cached := CheckCachedModel(snap, target.value.clusterID, app.modelID);
    if !cached {
      assert PoorTarget(cfg, snap, node, r, app.modelID, target.value.clusterID, target.value.nodeID);
      return None;
    }
    var improvement := EstimateFragmentationDelta(node, target.value.clusterID, r.gpus, snap);
    if improvement < cfg.minFragmentationDelta {
      assert PoorTarget(cfg, snap, node, r, app.modelID, target.value.clusterID, target.value.nodeID);
      return None;
    }
    m := Some(MigrateDecision(r.appID, id, target.value.clusterID,
                              SchedulingConstraints(r.gpus, [target.value.nodeID], app.modelID)));
    assert Targets(snap, r, app.modelID, m.value);
    assert Improves(cfg, snap, node, target.value.clusterID, r.gpus);
  }

  // ---------- The scan ----------

  type Place = (ClusterID, NodeID)

  /** A fragmented node of a poorly packed cluster. */
  ghost predicate IsScanned(cfg: RebalancingConfig, snap: Snapshot, p: Place) {
    && p.0 in snap.clusters && p.1 in snap.clusters[p.0].nodes
    && snap.clusters[p.0].fragmentationScore >= cfg.minFragmentationDelta
    && IsFragmented(snap.clusters[p.0].nodes[p.1])
  }

  ghost function NodeAt(snap: Snapshot, p: Place): Node
    requires p.0 in snap.clusters && p.1 in snap.clusters[p.0].nodes
  {
    snap.clusters[p.0].nodes[p.1]
  }

  ghost predicate ProposedAt(cfg: RebalancingConfig, snap: Snapshot, m: MigrateDecision, p: Place) {
    IsScanned(cfg, snap, p) && Worthwhile(cfg, snap, NodeAt(snap, p), m)
  }

  /** The proposal comes from some fragmented node of some poorly packed cluster. */
  ghost predicate Proposed(cfg: RebalancingConfig, snap: Snapshot, m: MigrateDecision) {
    exists p :: ProposedAt(cfg, snap, m, p)
  }

  ghost predicate ProposedIn(cfg: RebalancingConfig, snap: Snapshot, m: MigrateDecision, done: set<Place>) {
    exists p :: p in done && ProposedAt(cfg, snap, m, p)
  }

  ghost predicate AllProposedIn(cfg: RebalancingConfig, snap: Snapshot, ms: seq<MigrateDecision>, done: set<Place>) {
    forall i | 0 <= i < |ms| :: ProposedIn(cfg, snap, ms[i], done)
  }

  ghost predicate Moves(ms: seq<MigrateDecision>, id: ReplicaID) {
    exists i :: 0 <= i < |ms| && ms[i].sourceReplicaID == id
  }

  /** The replica is moved, unless it failed a filter. */
  ghost predicate Considered(cfg: RebalancingConfig, snap: Snapshot, node: Node, id: ReplicaID,
                             ms: seq<MigrateDecision>)
  {
    Moves(ms, id) || MayStay(cfg, snap, node, id)
  }

  /** Every pod of a scanned node was considered. */
  ghost predicate Covered(cfg: RebalancingConfig, snap: Snapshot, p: Place, ms: seq<MigrateDecision>) {
    IsScanned(cfg, snap, p) ==>
      forall k | 0 <= k < |NodeAt(snap, p).pods| :: Considered(cfg, snap, NodeAt(snap, p), NodeAt(snap, p).pods[k], ms)
  }

  ghost predicate AllCovered(cfg: RebalancingConfig, snap: Snapshot, ms: seq<MigrateDecision>, done: set<Place>) {
    forall p {:trigger Covered(cfg, snap, p, ms)} | p in done :: Covered(cfg, snap, p, ms)
  }

  /** No replica is listed as a pod twice, on one node or on two. */
  ghost predicate PodsOnce(snap: Snapshot) {
    && (forall c, n | c in snap.clusters && n in snap.clusters[c].nodes :: NoDuplicates(snap.clusters[c].nodes[n].pods))
    && (forall c, n, c', n', id | && c in snap.clusters && n in snap.clusters[c].nodes
                                  && c' in snap.clusters && n' in snap.clusters[c'].nodes
                                  && id in snap.clusters[c].nodes[n].pods && id in snap.clusters[c'].nodes[n'].pods ::
          c == c' && n == n')
  }

  ghost predicate DistinctSources(ms: seq<MigrateDecision>) {
    forall i, j | 0 <= i < j < |ms| :: ms[i].sourceReplicaID != ms[j].sourceReplicaID
  }

  /** The cap is checked only after adding, so a cap of 0 still lets one through. */
  ghost predicate AtCap(cfg: RebalancingConfig, ms: seq<MigrateDecision>) {
    |ms| == if cfg.maxMigrationsPerCycle < 1 then 1 else cfg.maxMigrationsPerCycle
  }

  ghost predicate BelowCap(cfg: RebalancingConfig, ms: seq<MigrateDecision>) {
    ms == [] || |ms| < cfg.maxMigrationsPerCycle
  }

  /** Where the scan stands: every proposal comes from a place visited, none moves a
      replica twice, and unless the cap stopped the scan nothing visited was missed. */
  ghost predicate Scan(cfg: RebalancingConfig, snap: Snapshot, ms: seq<MigrateDecision>, full: bool, done: set<Place>) {
    && AllProposedIn(cfg, snap, ms, done)
    && (PodsOnce(snap) ==> DistinctSources(ms))
    && (if full then AtCap(cfg, ms) else BelowCap(cfg, ms) && AllCovered(cfg, snap, ms, done))
  }

  /** The same in the middle of a node: its first k pods were considered. */
  ghost predicate PartScan(cfg: RebalancingConfig, snap: Snapshot, ms: seq<MigrateDecision>, done: set<Place>, p: Place,
                           k: nat)
    requires IsScanned(cfg, snap, p) && k <= |NodeAt(snap, p).pods|
  {
    && AllProposedIn(cfg, snap, ms, done + {p})
    && (PodsOnce(snap) ==>
          DistinctSources(ms) && forall j | k <= j < |NodeAt(snap, p).pods| :: !Moves(ms, NodeAt(snap, p).pods[j]))
    && BelowCap(cfg, ms) && AllCovered(cfg, snap, ms, done)
    && (forall j | 0 <= j < k :: Considered(cfg, snap, NodeAt(snap, p), NodeAt(snap, p).pods[j], ms))
  }

  lemma MoreProposals(cfg: RebalancingConfig, snap: Snapshot, ms: seq<MigrateDecision>, m: MigrateDecision,
                      done: set<Place>)
    requires AllCovered(cfg, snap, ms, done)
    ensures AllCovered(cfg, snap, ms + [m], done)
    ensures forall node, id {:trigger Considered(cfg, snap, node, id, ms + [m])} ::
              Considered(cfg, snap, node, id, ms) ==> Considered(cfg, snap, node, id, ms + [m])
  {
    forall id | Moves(ms, id) ensures Moves(ms + [m], id) {
      var i :| 0 <= i < |ms| && ms[i].sourceReplicaID == id;
      assert (ms + [m])[i].sourceReplicaID == id;
    }
    forall p | p in done ensures Covered(cfg, snap, p, ms + [m]) {
      assert Covered(cfg, snap, p, ms);
    }
  }

  lemma ProposedWiden(cfg: RebalancingConfig, snap: Snapshot, ms: seq<MigrateDecision>, done: set<Place>, p: Place)
    requires AllProposedIn(cfg, snap, ms, done)
    ensures AllProposedIn(cfg, snap, ms, done + {p})
  {
    forall i | 0 <= i < |ms| ensures ProposedIn(cfg, snap, ms[i], done + {p}) {
      assert ProposedIn(cfg, snap, ms[i], done);
      var q :| q in done && ProposedAt(cfg, snap, ms[i], q);
      assert q in done + {p};
    }
  }

  lemma PartScanStarts(cfg: RebalancingConfig, snap: Snapshot, ms: seq<MigrateDecision>, done: set<Place>, p: Place)
    requires Scan(cfg, snap, ms, false, done) && p !in done && IsScanned(cfg, snap, p)
    ensures PartScan(cfg, snap, ms, done, p, 0)
  {
    ProposedWiden(cfg, snap, ms, done, p);
    if PodsOnce(snap) {
      forall j | 0 <= j < |NodeAt(snap, p).pods| ensures !Moves(ms, NodeAt(snap, p).pods[j]) {
        NotMovedYet(cfg, snap, ms, done, p, j);
      }
    }
  }

  lemma NotMovedYet(cfg: RebalancingConfig, snap: Snapshot, ms: seq<MigrateDecision>, done: set<Place>, p: Place,
                    j: nat)
    requires AllProposedIn(cfg, snap, ms, done) && PodsOnce(snap) && p !in done && IsScanned(cfg, snap, p)
    requires j < |NodeAt(snap, p).pods|
    ensures !Moves(ms, NodeAt(snap, p).pods[j])
  {
    var id := NodeAt(snap, p).pods[j];
    assert id in NodeAt(snap, p).pods;
    forall i | 0 <= i < |ms| ensures ms[i].sourceReplicaID != id {
      assert ProposedIn(cfg, snap, ms[i], done);
      var q :| q in done && ProposedAt(cfg, snap, ms[i], q);
      assert ms[i].sourceReplicaID in NodeAt(snap, q).pods && q != p;
    }
  }

  lemma PartScanAdds(cfg: RebalancingConfig, snap: Snapshot, ms: seq<MigrateDecision>, done: set<Place>, p: Place,
                     k: nat, m: MigrateDecision)
    requires IsScanned(cfg, snap, p) && k < |NodeAt(snap, p).pods| && PartScan(cfg, snap, ms, done, p, k)
    requires m.sourceReplicaID == NodeAt(snap, p).pods[k] && Worthwhile(cfg, snap, NodeAt(snap, p), m)
    ensures AllProposedIn(cfg, snap, ms + [m], done + {p})
    ensures PodsOnce(snap) ==> DistinctSources(ms + [m])
    ensures |ms| + 1 < cfg.maxMigrationsPerCycle ==> PartScan(cfg, snap, ms + [m], done, p, k + 1)
  {
    MoreProposals(cfg, snap, ms, m, done);
    assert ProposedAt(cfg, snap, m, p) && p in done + {p};
    var id := NodeAt(snap, p).pods[k];
    assert (ms + [m])[|ms|].sourceReplicaID == id;
    assert Considered(cfg, snap, NodeAt(snap, p), id, ms + [m]);
    if PodsOnce(snap) {
      assert !Moves(ms, id);
      forall j | k + 1 <= j < |NodeAt(snap, p).pods| ensures !Moves(ms + [m], NodeAt(snap, p).pods[j]) {
        assert !Moves(ms, NodeAt(snap, p).pods[j]);
      }
    }
  }

  lemma PartScanEnds(cfg: RebalancingConfig, snap: Snapshot, ms: seq<MigrateDecision>, done: set<Place>, p: Place)
    requires IsScanned(cfg, snap, p) && PartScan(cfg, snap, ms, done, p, |NodeAt(snap, p).pods|)
    ensures Scan(cfg, snap, ms, false, done + {p})
  {
    assert Covered(cfg, snap, p, ms);
  }

  lemma ScanSkips(cfg: RebalancingConfig, snap: Snapshot, ms: seq<MigrateDecision>, done: set<Place>, p: Place)
    requires Scan(cfg, snap, ms, false, done) && !IsScanned(cfg, snap, p)
    ensures Scan(cfg, snap, ms, false, done + {p})
  {
    ProposedWiden(cfg, snap, ms, done, p);
    assert Covered(cfg, snap, p, ms);
  }

  /** Reaching the cap ends the scan at once. */
  method ScanNode(cfg: RebalancingConfig, snap: Snapshot, c: ClusterID, n: NodeID, ms0: seq<MigrateDecision>,
                  ghost done: set<Place>)
    returns (ms: seq<MigrateDecision>, full: bool)
    requires WellKeyed(snap) && IsScanned(cfg, snap, (c, n)) && (c, n) !in done
    requires Scan(cfg, snap, ms0, false, done)
    ensures Scan(cfg, snap, ms, full, done + {(c, n)})
  {
    ms, full := ms0, false;
    var node := snap.clusters[c].nodes[n];
    PartScanStarts(cfg, snap, ms, done, (c, n));
    for i := 0 to |node.pods|
      invariant PartScan(cfg, snap, ms, done, (c, n), i)
    {
      var m := ConsiderReplica(cfg, snap, node, node.pods[i]);
      if m.Some? {
        PartScanAdds(cfg, snap, ms, done, (c, n), i, m.value);
        ms := ms + [m.value];
        if |ms| >= cfg.maxMigrationsPerCycle {
          return ms, true;
        }
      }
    }
    PartScanEnds(cfg, snap, ms, done, (c, n));
  }

  ghost function PlacesIn(c: ClusterID, nodes: set<NodeID>): set<Place> {
    set n | n in nodes :: (c, n)
  }

  lemma PlacesStep(c: ClusterID, nodes: set<NodeID>, todo: set<NodeID>, n: NodeID)
    requires n in todo && todo <= nodes
    ensures PlacesIn(c, nodes - (todo - {n})) == PlacesIn(c, nodes - todo) + {(c, n)}
    ensures (c, n) !in PlacesIn(c, nodes - todo)
  {
  }

  method ScanCluster(cfg: RebalancingConfig, snap: Snapshot, c: ClusterID, ms0: seq<MigrateDecision>,
                     ghost done0: set<Place>)
    returns (ms: seq<MigrateDecision>, full: bool, ghost done: set<Place>)
    requires WellKeyed(snap) && c in snap.clusters
    requires Scan(cfg, snap, ms0, false, done0) && forall n :: (c, n) !in done0
    ensures Scan(cfg, snap, ms, full, done)
    ensures forall p | p in done :: p in done0 || (p.0 == c && p.1 in snap.clusters[c].nodes)
    ensures !full ==> forall p | p in done0 || (p.0 == c && p.1 in snap.clusters[c].nodes) :: p in done
  {
    ms, full, done := ms0, false, done0;
    if snap.clusters[c].fragmentationScore < cfg.minFragmentationDelta {
      done := SkipCluster(cfg, snap, c, ms, done0);
      return;
    }
    var todo := snap.clusters[c].nodes.Keys;
    while todo != {} && !full
      invariant todo <= snap.clusters[c].nodes.Keys
      invariant done == done0 + PlacesIn(c, snap.clusters[c].nodes.Keys - todo)
      invariant Scan(cfg, snap, ms, full, done)
      decreases todo
    {
      var n :| n in todo;
      PlacesStep(c, snap.clusters[c].nodes.Keys, todo, n);
      if IsFragmented(snap.clusters[c].nodes[n]) {
        ms, full := ScanNode(cfg, snap, c, n, ms, done);
      } else {
        ScanSkips(cfg, snap, ms, done, (c, n));
      }
      done := done + {(c, n)};
      todo := todo - {n};
    }
  }

  /** A well-packed cluster has no place to scan. */
  lemma SkipCluster(cfg: RebalancingConfig, snap: Snapshot, c: ClusterID, ms: seq<MigrateDecision>, done0: set<Place>)
    returns (done: set<Place>)
    requires c in snap.clusters && snap.clusters[c].fragmentationScore < cfg.minFragmentationDelta
    requires Scan(cfg, snap, ms, false, done0)
    ensures Scan(cfg, snap, ms, false, done)
    ensures forall p :: p in done <==> p in done0 || (p.0 == c && p.1 in snap.clusters[c].nodes)
  {
    done := done0;
    var todo := snap.clusters[c].nodes.Keys;
    while todo != {}
      invariant todo <= snap.clusters[c].nodes.Keys
      invariant forall p :: p in done <==> p in done0 || (p.0 == c && p.1 in snap.clusters[c].nodes && p.1 !in todo)
      invariant Scan(cfg, snap, ms, false, done)
    {
      var n :| n in todo;
      ScanSkips(cfg, snap, ms, done, (c, n));
      done := done + {(c, n)};
      todo := todo - {n};
    }
  }

  function PriorityOf(snap: Snapshot, app: AppID): int {
    if app in snap.applications then snap.applications[app].priority else 0
  }

  /** Lower-priority applications first, ties by replica id. */
  function MigrationOrder(snap: Snapshot): (MigrateDecision, MigrateDecision) -> bool {
    (a: MigrateDecision, b: MigrateDecision) =>
      if PriorityOf(snap, a.appID) != PriorityOf(snap, b.appID) then
        PriorityOf(snap, a.appID) > PriorityOf(snap, b.appID)
      else LexLess(a.sourceReplicaID, b.sourceReplicaID)
  }

  lemma LexIsWeak(a: string, b: string, c: string)
    ensures LexLess(a, b) ==> !LexLess(b, a)
    ensures !LexLess(b, a) && !LexLess(c, b) ==> !LexLess(c, a)
  {
    LexIrreflexive(a);
    if LexLess(a, b) && LexLess(b, a) {
      LexTransitive(a, b, a);
    }
    LexTotal(a, b);
    LexTotal(b, c);
    if LexLess(a, b) && LexLess(b, c) {
      LexTransitive(a, b, c);
    }
    if LexLess(c, a) && LexLess(a, b) {
      LexTransitive(c, a, b);
    }
    if LexLess(b, c) && LexLess(c, a) {
      LexTransitive(b, c, a);
    }
  }

  lemma MigrationOrderIsWeak(snap: Snapshot)
    ensures StrictWeakOrder(MigrationOrder(snap))
  {
    var less := MigrationOrder(snap);
    forall x, y | less(x, y) ensures NotAfter(less, x, y) {
      LexIsWeak(x.sourceReplicaID, y.sourceReplicaID, y.sourceReplicaID);
    }
    forall x, y, z | NotAfter(less, x, y) && NotAfter(less, y, z) ensures NotAfter(less, x, z) {
      LexIsWeak(x.sourceReplicaID, y.sourceReplicaID, z.sourceReplicaID);
    }
  }

  /** Every pod of every fragmented node of every poorly packed cluster was
      considered. */
  ghost predicate NothingMissed(cfg: RebalancingConfig, snap: Snapshot, ms: seq<MigrateDecision>) {
    forall p {:trigger Covered(cfg, snap, p, ms)} :: Covered(cfg, snap, p, ms)
  }

  /** What one cycle of the engine may propose. */
  ghost predicate IsOutcome(cfg: RebalancingConfig, snap: Snapshot, ms: seq<MigrateDecision>) {
    && (forall m | m in ms :: Proposed(cfg, snap, m))
    && (PodsOnce(snap) ==> DistinctSources(ms))
    && (AtCap(cfg, ms) || (BelowCap(cfg, ms) && NothingMissed(cfg, snap, ms) && InOrder(ms, MigrationOrder(snap))))
  }

  /** Proposes migrations until the cap is reached, or else, in order of preference,
      one for every replica that passes the filters. */
  method FindRebalancingOpportunities(cfg: RebalancingConfig, snap: Snapshot) returns (ms: seq<MigrateDecision>)
    requires WellKeyed(snap) && cfg.maxMigrationsPerCycle >= 0
    ensures IsOutcome(cfg, snap, ms)
    ensures |ms| > cfg.maxMigrationsPerCycle <==> cfg.maxMigrationsPerCycle == 0 && ms != []
  {
    ms := [];
    var todo, full := snap.clusters.Keys, false;
    ghost var done: set<Place> := {};
    while todo != {} && !full
      invariant todo <= snap.clusters.Keys
      invariant Scan(cfg, snap, ms, full, done)
      invariant forall p | p in done :: p.0 in snap.clusters && p.0 !in todo
      invariant !full ==> forall c, n | c in snap.clusters && c !in todo && n in snap.clusters[c].nodes ::
                  (c, n) in done
      decreases todo
    {
      var c :| c in todo;
      todo := todo - {c};
      ms, full, done := ScanCluster(cfg, snap, c, ms, done);
    }
    ScanProposes(cfg, snap, ms, full, done);
    if full {
      return;
    }
    ScanMissesNothing(cfg, snap, ms, done);
    MigrationOrderIsWeak(snap);
    ghost var found := ms;
    ms := SortWeakly(ms, MigrationOrder(snap));
    SortedOutcome(cfg, snap, found, ms);
  }

  // ---------- What an outcome means ----------

  /** The proposal moves a tracked replica of a known application off a ready, partly used
      node of a cluster that is used enough, to room of its size in another cluster. */
  ghost predicate MovesOff(cfg: RebalancingConfig, snap: Snapshot, m: MigrateDecision, c: ClusterID, n: NodeID,
                           to: NodeID)
  {
    && c in snap.clusters && n in snap.clusters[c].nodes
    && snap.clusters[c].fragmentationScore >= cfg.minFragmentationDelta
    && var from := snap.clusters[c].nodes[n];
       && from.status == Ready && from.allocatedGPUs > 0 && from.allocatedGPUs < from.totalGPUs
       && m.sourceReplicaID in from.pods && m.sourceReplicaID in snap.replicas
       && m.appID in snap.applications
       && var r, k := snap.replicas[m.sourceReplicaID], m.targetClusterID;
          && m.appID == r.appID && k != r.clusterID && k in snap.clusters && to in snap.clusters[k].nodes
          && snap.clusters[k].nodes[to].status == Ready && snap.clusters[k].nodes[to].freeGPUs >= r.gpus
          && m.constraints == SchedulingConstraints(r.gpus, [to], snap.applications[m.appID].modelID)
  }

  lemma ProposalMovesOff(cfg: RebalancingConfig, snap: Snapshot, m: MigrateDecision)
    requires Proposed(cfg, snap, m)
    ensures exists c, n, to :: MovesOff(cfg, snap, m, c, n, to)
  {
    var p :| ProposedAt(cfg, snap, m, p);
    var r, model := snap.replicas[m.sourceReplicaID], snap.applications[m.appID].modelID;
    var to :| IsTarget(snap, r, m.targetClusterID, to) && m.constraints == SchedulingConstraints(r.gpus, [to], model);
    assert MovesOff(cfg, snap, m, p.0, p.1, to);
  }

  /** Below the cap, migrations of less important applications come first, and those of
      equally important ones in the order of their replica ids. */
  lemma OutcomeInOrder(cfg: RebalancingConfig, snap: Snapshot, ms: seq<MigrateDecision>, i: nat, j: nat)
    requires IsOutcome(cfg, snap, ms) && !AtCap(cfg, ms) && i < j < |ms|
    ensures ms[i].appID in snap.applications && ms[j].appID in snap.applications
    ensures var p, q := snap.applications[ms[i].appID].priority, snap.applications[ms[j].appID].priority;
            p >= q && (p == q ==> forall k: nat :: !SmallerAt(ms[j].sourceReplicaID, ms[i].sourceReplicaID, k))
  {
    assert Proposed(cfg, snap, ms[i]) && Proposed(cfg, snap, ms[j]);
    assert NotAfter(MigrationOrder(snap), ms[i], ms[j]);
    LexLessIff(ms[j].sourceReplicaID, ms[i].sourceReplicaID);
  }

  /** Below the cap, every replica on a ready, partly used node of a cluster that is used
      enough is moved, unless it failed a filter. */
  lemma OutcomeCovers(cfg: RebalancingConfig, snap: Snapshot, ms: seq<MigrateDecision>, c: ClusterID, n: NodeID,
                      id: ReplicaID)
    requires IsOutcome(cfg, snap, ms) && !AtCap(cfg, ms)
    requires c in snap.clusters && n in snap.clusters[c].nodes && id in snap.clusters[c].nodes[n].pods
    requires snap.clusters[c].fragmentationScore >= cfg.minFragmentationDelta
    requires var from := snap.clusters[c].nodes[n];
             from.status == Ready && from.allocatedGPUs > 0 && from.allocatedGPUs < from.totalGPUs
    ensures (exists i :: 0 <= i < |ms| && ms[i].sourceReplicaID == id)
            || MayStay(cfg, snap, snap.clusters[c].nodes[n], id)
  {
    var from := snap.clusters[c].nodes[n];
    var p: Place := (c, n);
    assert IsScanned(cfg, snap, p) && NodeAt(snap, p) == from;
    assert Covered(cfg, snap, p, ms);
    var k :| 0 <= k < |from.pods| && from.pods[k] == id;
    assert Considered(cfg, snap, NodeAt(snap, p), NodeAt(snap, p).pods[k], ms);
  }

  lemma ScanProposes(cfg: RebalancingConfig, snap: Snapshot, ms: seq<MigrateDecision>, full: bool, done: set<Place>)
    requires Scan(cfg, snap, ms, full, done)
    ensures forall m | m in ms :: Proposed(cfg, snap, m)
  {
    forall m | m in ms ensures Proposed(cfg, snap, m) {
      var i :| 0 <= i < |ms| && ms[i] == m;
      assert ProposedIn(cfg, snap, ms[i], done);
      var p :| p in done && ProposedAt(cfg, snap, m, p);
    }
  }

  lemma ScanMissesNothing(cfg: RebalancingConfig, snap: Snapshot, ms: seq<MigrateDecision>, done: set<Place>)
    requires Scan(cfg, snap, ms, false, done)
    requires forall c, n | c in snap.clusters && n in snap.clusters[c].nodes :: (c, n) in done
    ensures NothingMissed(cfg, snap, ms)
  {
    forall p ensures Covered(cfg, snap, p, ms) {
      if IsScanned(cfg, snap, p) {
        assert (p.0, p.1) in done;
      }
    }
  }

  /** Reordering keeps what was proposed. */
  lemma SortedOutcome(cfg: RebalancingConfig, snap: Snapshot, found: seq<MigrateDecision>, ms: seq<MigrateDecision>)
    requires multiset(found) == multiset(ms)
    requires BelowCap(cfg, found) && NothingMissed(cfg, snap, found)
    requires (forall m | m in found :: Proposed(cfg, snap, m)) && (PodsOnce(snap) ==> DistinctSources(found))
    ensures |found| == |ms| && BelowCap(cfg, ms) && NothingMissed(cfg, snap, ms)
    ensures (forall m | m in ms :: Proposed(cfg, snap, m)) && (PodsOnce(snap) ==> DistinctSources(ms))
  {
    SameSize(found, ms);
    forall m | m in ms ensures m in found {
      assert m in multiset(ms);
    }
    forall p ensures Covered(cfg, snap, p, ms) {
      assert Covered(cfg, snap, p, found);
      forall id | Moves(found, id) ensures Moves(ms, id) {
        MovesSorted(found, ms, id);
      }
    }
    if DistinctSources(found) {
      DistinctSorted(found, ms);
    }
  }

  lemma MovesSorted(found: seq<MigrateDecision>, ms: seq<MigrateDecision>, id: ReplicaID)
    requires multiset(found) == multiset(ms) && Moves(found, id)
    ensures Moves(ms, id)
  {
    var i :| 0 <= i < |found| && found[i].sourceReplicaID == id;
    assert found[i] in multiset(ms);
  }

  lemma DistinctSorted(found: seq<MigrateDecision>, ms: seq<MigrateDecision>)
    requires multiset(found) == multiset(ms) && DistinctSources(found)
    ensures DistinctSources(ms)
  {
    forall i, j | 0 <= i < j < |ms| ensures ms[i].sourceReplicaID != ms[j].sourceReplicaID {
      assert ms[i] in multiset(found) && ms[j] in multiset(found);
      if ms[i].sourceReplicaID == ms[j].sourceReplicaID {
        assert ms[i] == ms[j];
        TwiceInMultiset(ms, i, j);
        OnceInMultiset(found, ms[i]);
      }
    }
  }

  lemma TwiceInMultiset<T>(q: seq<T>, i: nat, j: nat)
    requires i < j < |q| && q[i] == q[j]
    ensures multiset(q)[q[i]] >= 2
  {
    assert q == q[..j] + q[j..];
    assert q[..j][i] == q[i] && q[j..][0] == q[i];
  }

  lemma {:induction false} OnceInMultiset(q: seq<MigrateDecision>, m: MigrateDecision)
    requires DistinctSources(q)
    ensures multiset(q)[m] <= 1
  {
    if q != [] {
      var front := q[..|q| - 1];
      assert q == front + [q[|q| - 1]];
      OnceInMultiset(front, m);
      assert forall i | 0 <= i < |front| :: front[i] == q[i] && front[i] != q[|q| - 1];
    }
  }

  lemma SameSize<T>(p: seq<T>, q: seq<T>)
    requires multiset(p) == multiset(q)
    ensures |p| == |q|
  {
    assert |multiset(p)| == |p| && |multiset(q)| == |q|;
  }

  // ---------- No ping-pong ----------

  /** A snapshot taken from an accounted world with positive sizes: pods are where
      the node says, free GPUs fit in the total, and stored scores are current. */
  ghost predicate Faithful(snap: Snapshot) {
    && WellKeyed(snap) && ScoresConsistent(snap)
    && (forall id | id in snap.replicas :: snap.replicas[id].gpus > 0)
    && (forall c, n | c in snap.clusters && n in snap.clusters[c].nodes ::
         IsSane(snap, c, n, snap.clusters[c].nodes[n]))
  }

  ghost predicate IsSane(snap: Snapshot, c: ClusterID, n: NodeID, node: Node) {
    && 0 <= node.totalGPUs && node.freeGPUs <= node.totalGPUs
    && forall id | id in node.pods && id in snap.replicas :: At(snap.replicas[id], c, n)
  }

  /** Every snapshot of an accounted world with positive sizes is faithful, so the
      results below hold as long as the world-state accounting does. */
  lemma AccountedSnapshotIsFaithful(w: World, snap: Snapshot)
    requires Accounted(w) && WellKeyed(snap) && snap.clusters == w.clusters && snap.replicas == w.replicas
    requires forall id | id in w.replicas :: w.replicas[id].gpus > 0
    requires forall c, n | c in w.clusters && n in w.clusters[c].nodes :: w.clusters[c].nodes[n].totalGPUs >= 0
    ensures Faithful(snap)
  {
    forall c, n | c in w.clusters && n in w.clusters[c].nodes
      ensures w.clusters[c].nodes[n].freeGPUs <= w.clusters[c].nodes[n].totalGPUs
      ensures forall id | id in w.clusters[c].nodes[n].pods && id in w.replicas :: At(w.replicas[id], c, n)
    {
      assert NodeAccounted(w.replicas, c, n, w.clusters[c].nodes[n]);
      MapSumNonNegative(w.replicas, GpusAt(c, n));
      forall id | id in w.clusters[c].nodes[n].pods && id in w.replicas ensures At(w.replicas[id], c, n) {
        assert id in IdsAt(w.replicas, c, n);
      }
    }
  }

  lemma CapacityPositive(snap: Snapshot, c: ClusterID, n: NodeID)
    requires Faithful(snap) && c in snap.clusters && n in snap.clusters[c].nodes
    requires snap.clusters[c].nodes[n].totalGPUs > 0
    ensures Capacity(snap, c) > 0
  {
    forall k | k in snap.clusters[c].nodes ensures TotalOf()(snap.clusters[c].nodes[k]) >= 0 {
      assert IsSane(snap, c, k, snap.clusters[c].nodes[k]);
    }
    MapSumNonNegative(snap.clusters[c].nodes, TotalOf());
  }

  /** Room for the replica in the destination makes its capacity positive. */
  lemma TargetHasCapacity(snap: Snapshot, r: Replica, dest: ClusterID, t: NodeID)
    requires Faithful(snap) && r.gpus > 0 && IsTarget(snap, r, dest, t)
    ensures Capacity(snap, dest) > 0 && SomeRoom(snap.clusters[dest].nodes, r.gpus)
  {
    assert HasRoom(snap.clusters[dest].nodes[t], r.gpus) && IsSane(snap, dest, t, snap.clusters[dest].nodes[t]);
    CapacityPositive(snap, dest, t);
  }

  lemma ImprovementGrowsCapacity(snap: Snapshot, c: ClusterID, n: NodeID, r: Replica, dest: ClusterID, t: NodeID,
                                 improvement: real)
    requires Faithful(snap) && c in snap.clusters && n in snap.clusters[c].nodes && r.gpus > 0
    requires IsFragmented(snap.clusters[c].nodes[n]) && IsTarget(snap, r, dest, t)
    requires IsEstimate(snap, snap.clusters[c].nodes[n], dest, r.gpus, improvement) && improvement > 0.0
    ensures Capacity(snap, c) < Capacity(snap, dest)
  {
    CapacityPositive(snap, c, n);
    TargetHasCapacity(snap, r, dest, t);
    EstimateIsShareDifference(snap, snap.clusters[c].nodes[n], dest, r.gpus, improvement);
    LargerShareSmallerCapacity(r.gpus, Capacity(snap, c), Capacity(snap, dest));
  }

  lemma WorthwhileGrowsCapacity(cfg: RebalancingConfig, snap: Snapshot, c: ClusterID, n: NodeID, m: MigrateDecision)
    requires Faithful(snap) && cfg.minFragmentationDelta > 0.0 && c in snap.clusters && n in snap.clusters[c].nodes
    requires Worthwhile(cfg, snap, snap.clusters[c].nodes[n], m)
    ensures snap.replicas[m.sourceReplicaID].clusterID == c && Capacity(snap, c) < Capacity(snap, m.targetClusterID)
  {
    var node, r, dest := snap.clusters[c].nodes[n], snap.replicas[m.sourceReplicaID], m.targetClusterID;
    var t :| IsTarget(snap, r, dest, t);
    var x :| IsEstimate(snap, node, dest, r.gpus, x) && x >= cfg.minFragmentationDelta;
    ImprovementGrowsCapacity(snap, c, n, r, dest, t, x);
    assert IsSane(snap, c, n, node) && At(r, c, n);
  }

  /** Every proposed migration goes to a cluster of strictly larger total capacity. */
  lemma ProposalsGrowCapacity(cfg: RebalancingConfig, snap: Snapshot, m: MigrateDecision)
    requires Faithful(snap) && cfg.minFragmentationDelta > 0.0 && Proposed(cfg, snap, m)
    ensures m.sourceReplicaID in snap.replicas && m.targetClusterID in snap.clusters
    ensures var source := snap.replicas[m.sourceReplicaID].clusterID;
            source in snap.clusters && Capacity(snap, source) < Capacity(snap, m.targetClusterID)
  {
    var p :| ProposedAt(cfg, snap, m, p);
    WorthwhileGrowsCapacity(cfg, snap, p.0, p.1, m);
  }

  /** One migration of a replica, decided on the snapshot of its time. */
  datatype Hop = Hop(snap: Snapshot, m: MigrateDecision)

  ghost function SourceOf(h: Hop): ClusterID
    requires h.m.sourceReplicaID in h.snap.replicas
  {
    h.snap.replicas[h.m.sourceReplicaID].clusterID
  }

  /** Decided on a faithful snapshot, while cluster capacities are what cap says. */
  ghost predicate IsHop(cfg: RebalancingConfig, cap: ClusterID -> int, h: Hop) {
    && Faithful(h.snap) && Proposed(cfg, h.snap, h.m) && h.m.sourceReplicaID in h.snap.replicas
    && forall c | c in h.snap.clusters :: Capacity(h.snap, c) == cap(c)
  }

  /** A chain of migrations of one replica, each starting where the previous ended. */
  ghost predicate IsChainOfHops(cfg: RebalancingConfig, cap: ClusterID -> int, hops: seq<Hop>) {
    && (forall i | 0 <= i < |hops| :: IsHop(cfg, cap, hops[i]))
    && (forall i | 0 < i < |hops| :: SourceOf(hops[i]) == hops[i - 1].m.targetClusterID)
  }

  /** No cluster is visited twice: each hop leads to more capacity than every cluster
      the chain has been in. */
  lemma {:induction false} NoPingPong(cfg: RebalancingConfig, cap: ClusterID -> int, hops: seq<Hop>, i: nat, j: nat)
    requires cfg.minFragmentationDelta > 0.0 && IsChainOfHops(cfg, cap, hops)
    requires i <= j < |hops|
    ensures cap(SourceOf(hops[i])) < cap(hops[j].m.targetClusterID)
    ensures SourceOf(hops[i]) != hops[j].m.targetClusterID
    decreases j
  {
    ProposalsGrowCapacity(cfg, hops[j].snap, hops[j].m);
    assert cap(SourceOf(hops[j])) < cap(hops[j].m.targetClusterID);
    if i < j {
      NoPingPong(cfg, cap, hops, i, j - 1);
    }
  }

  /** No chain of migrations, over any capacities, returns to a cluster it left. */
  ghost predicate NoReturn(cfg: RebalancingConfig) {
    forall cap: ClusterID -> int, hops: seq<Hop>, i: nat, j: nat :: !Returns(cfg, cap, hops, i, j)
  }

  /** Hop j leads to the cluster hop i, the same or an earlier one, started from. */
  ghost predicate Returns(cfg: RebalancingConfig, cap: ClusterID -> int, hops: seq<Hop>, i: nat, j: nat) {
    IsChainOfHops(cfg, cap, hops) && i <= j < |hops| && SourceOf(hops[i]) == hops[j].m.targetClusterID
  }

  /** The exact condition: a positive threshold. */
  lemma NoReturnIff(cfg: RebalancingConfig)
    ensures NoReturn(cfg) <==> cfg.minFragmentationDelta > 0.0
  {
    if cfg.minFragmentationDelta > 0.0 {
      forall cap: ClusterID -> int, hops: seq<Hop>, i: nat, j: nat ensures !Returns(cfg, cap, hops, i, j) {
        NeverReturns(cfg, cap, hops, i, j);
      }
    } else {
      var cap, hops := SomeRoundTrip(cfg);
      assert Returns(cfg, cap, hops, 0, 1);
    }
  }

  lemma SomeRoundTrip(cfg: RebalancingConfig) returns (cap: ClusterID -> int, hops: seq<Hop>)
    requires cfg.minFragmentationDelta <= 0.0
    ensures Returns(cfg, cap, hops, 0, 1)
  {
    cap := c => 2;
    hops := RoundTrip(cfg, cap, "a", "b");
  }

  lemma NeverReturns(cfg: RebalancingConfig, cap: ClusterID -> int, hops: seq<Hop>, i: nat, j: nat)
    requires cfg.minFragmentationDelta > 0.0
    ensures !Returns(cfg, cap, hops, i, j)
  {
    if Returns(cfg, cap, hops, i, j) {
      NoPingPong(cfg, cap, hops, i, j);
    }
  }

  // ---------- Two equal clusters ----------

  const ONE_GPU_APP := Application("app", "model", 1, 0, 0, NoRule, 0)

  function HostNode(c: ClusterID, host: int): Node {
    Node("n", c, host, 1, host - 1, ["r"], Ready)
  }

  function FreeNode(c: ClusterID, size: int): Node {
    Node("n", c, size, 0, size, [], Ready)
  }

  function OnlyReplica(c: ClusterID): Replica {
    Replica("r", "app", c, "n", 1, Running, 1)
  }

  /** Two clusters of one node each; a one-GPU replica runs on the first. */
  function TwoClusters(a: ClusterID, b: ClusterID, host: int, size: int): Snapshot
    requires host > 0
  {
    Snapshot(map[a := Cluster(a, map["n" := HostNode(a, host)], 1.0 / host as real),
                 b := Cluster(b, map["n" := FreeNode(b, size)], 0.0)],
             map["app" := ONE_GPU_APP], map["r" := OnlyReplica(a)], None,
             map["model" := [CacheLocation(a, "n", GpuMemory), CacheLocation(b, "n", GpuMemory)]],
             map[], map[], map[], map[], 1)
  }

  function MoveOver(b: ClusterID): MigrateDecision {
    MigrateDecision("app", "r", b, SchedulingConstraints(1, ["n"], "model"))
  }

  lemma SumOfOne<V>(k: NodeID, v: V, w: V -> int)
    ensures MapSum(map[k := v], w) == w(v)
  {
    MapSumPut(map[], w, k, v);
    assert map[][k := v] == map[k := v];
  }

  lemma TwoClustersAreKeyed(a: ClusterID, b: ClusterID, host: int, size: int)
    requires a != b && a != "" && b != "" && host >= 2
    ensures WellKeyed(TwoClusters(a, b, host, size)) && PodsOnce(TwoClusters(a, b, host, size))
  {
  }

  lemma HostScore(c: ClusterID, host: int)
    requires host >= 2
    ensures MapSum(map["n" := HostNode(c, host)], TotalOf()) == host
            && Fragmentation(map["n" := HostNode(c, host)]) == 1.0 / host as real
  {
    SumOfOne("n", HostNode(c, host), TotalOf());
    SumOfOne("n", HostNode(c, host), FreeOf());
  }

  lemma FreeScore(c: ClusterID, size: int)
    requires size > 0
    ensures MapSum(map["n" := FreeNode(c, size)], TotalOf()) == size
            && Fragmentation(map["n" := FreeNode(c, size)]) == 0.0
  {
    SumOfOne("n", FreeNode(c, size), TotalOf());
    SumOfOne("n", FreeNode(c, size), FreeOf());
    assert size as real / size as real == 1.0;
  }

  lemma TwoClustersAreFaithful(a: ClusterID, b: ClusterID, host: int, size: int)
    requires a != b && a != "" && b != "" && host >= 2 && size > 0
    ensures Faithful(TwoClusters(a, b, host, size))
    ensures Capacity(TwoClusters(a, b, host, size), a) == host && Capacity(TwoClusters(a, b, host, size), b) == size
  {
    TwoClustersAreKeyed(a, b, host, size);
    TwoClustersAreScored(a, b, host, size);
    var snap := TwoClusters(a, b, host, size);
    assert IsSane(snap, a, "n", HostNode(a, host)) && IsSane(snap, b, "n", FreeNode(b, size));
    forall c, n | c in snap.clusters && n in snap.clusters[c].nodes
      ensures IsSane(snap, c, n, snap.clusters[c].nodes[n])
    {
      assert c == a || c == b;
    }
  }

  lemma TwoClustersAreScored(a: ClusterID, b: ClusterID, host: int, size: int)
    requires a != b && host >= 2 && size > 0
    ensures ScoresConsistent(TwoClusters(a, b, host, size))
    ensures Capacity(TwoClusters(a, b, host, size), a) == host && Capacity(TwoClusters(a, b, host, size), b) == size
  {
    HostScore(a, host);
    FreeScore(b, size);
  }

  lemma OnlyTarget(a: ClusterID, b: ClusterID, host: int, size: int)
    requires a != b && host >= 2 && size > 0
    ensures IsTarget(TwoClusters(a, b, host, size), OnlyReplica(a), b, "n")
    ensures forall c, n | IsTarget(TwoClusters(a, b, host, size), OnlyReplica(a), c, n) :: c == b && n == "n"
    ensures Targets(TwoClusters(a, b, host, size), OnlyReplica(a), "model", MoveOver(b))
  {
    assert HasRoom(FreeNode(b, size), 1);
    assert IsTarget(TwoClusters(a, b, host, size), OnlyReplica(a), b, "n");
  }

  lemma OnlyEstimate(a: ClusterID, b: ClusterID, host: int, size: int)
    requires a != b && a != "" && b != "" && host >= 2 && size > 0
    ensures IsEstimate(TwoClusters(a, b, host, size), HostNode(a, host), b, 1, 1.0 / host as real - 1.0 / size as real)
    ensures forall x | IsEstimate(TwoClusters(a, b, host, size), HostNode(a, host), b, 1, x) ::
              x == 1.0 / host as real - 1.0 / size as real
  {
    var snap := TwoClusters(a, b, host, size);
    TwoClustersAreFaithful(a, b, host, size);
    OnlyTarget(a, b, host, size);
    assert HasRoom(snap.clusters[b].nodes["n"], 1) && SomeRoom(snap.clusters[b].nodes, 1);
    var x := EstimateExists(snap, HostNode(a, host), b, 1);
    forall y | IsEstimate(snap, HostNode(a, host), b, 1, y) ensures y == 1.0 / host as real - 1.0 / size as real {
      EstimateIsShareDifference(snap, HostNode(a, host), b, 1, y);
    }
  }

  lemma EstimateExists(snap: Snapshot, source: Node, dest: ClusterID, gpus: int) returns (x: real)
    requires dest in snap.clusters
    ensures IsEstimate(snap, source, dest, gpus, x)
  {
    x := 0.0;
    if source.clusterID in snap.clusters {
      var before := snap.clusters[source.clusterID].fragmentationScore + snap.clusters[dest].fragmentationScore;
      var sourceAfter := FragmentationShifted(snap.clusters[source.clusterID].nodes, source.nodeID, gpus);
      x := before - (sourceAfter + snap.clusters[dest].fragmentationScore);
      if SomeRoom(snap.clusters[dest].nodes, gpus) {
        var id := TightestExists(snap.clusters[dest].nodes, gpus);
        x := before - (sourceAfter + FragmentationShifted(snap.clusters[dest].nodes, id, -gpus));
      }
    }
  }

  lemma {:induction false} TightestExists(nodes: map<NodeID, Node>, gpus: int) returns (id: NodeID)
    requires SomeRoom(nodes, gpus)
    ensures IsTightest(nodes, gpus, id)
  {
    id :| id in nodes && HasRoom(nodes[id], gpus);
    var todo := nodes.Keys;
    while todo != {}
      invariant todo <= nodes.Keys && id in nodes && HasRoom(nodes[id], gpus)
      invariant forall k | k in nodes && k !in todo && HasRoom(nodes[k], gpus) ::
                  nodes[id].freeGPUs <= nodes[k].freeGPUs
    {
      var k :| k in todo;
      todo := todo - {k};
      if HasRoom(nodes[k], gpus) && nodes[k].freeGPUs < nodes[id].freeGPUs {
        id := k;
      }
    }
  }

  lemma OneRunning(a: ClusterID, b: ClusterID, host: int, size: int)
    requires host > 0
    ensures RunningCount(TwoClusters(a, b, host, size), "app") == 1
  {
    var snap := TwoClusters(a, b, host, size);
    assert (set id | id in snap.replicas && snap.replicas[id].appID == "app" && snap.replicas[id].status == Running)
           == {"r"};
  }

  /** Moving over is proposed when the gain reaches the threshold. */
  lemma MoveIsProposed(cfg: RebalancingConfig, a: ClusterID, b: ClusterID, host: int, size: int)
    requires host >= 2 && size >= 2 && a != b && a != "" && b != ""
    requires cfg.minFragmentationDelta <= 1.0 / host as real - 1.0 / size as real
    ensures ProposedAt(cfg, TwoClusters(a, b, host, size), MoveOver(b), (a, "n"))
  {
    var snap, m := TwoClusters(a, b, host, size), MoveOver(b);
    OneRunning(a, b, host, size);
    OnlyTarget(a, b, host, size);
    OnlyEstimate(a, b, host, size);
    assert snap.cacheLocations["model"][1].clusterID == b;
    assert Improves(cfg, snap, HostNode(a, host), b, 1);
    assert 1.0 / size as real > 0.0;
    assert Worthwhile(cfg, snap, HostNode(a, host), m);
  }

  lemma HopBetween(cfg: RebalancingConfig, cap: ClusterID -> int, a: ClusterID, b: ClusterID) returns (h: Hop)
    requires cfg.minFragmentationDelta <= 0.0 && a != b && a != "" && b != "" && cap(a) == cap(b) >= 2
    ensures IsHop(cfg, cap, h) && SourceOf(h) == a && h.m.targetClusterID == b
  {
    h := Hop(TwoClusters(a, b, cap(a), cap(b)), MoveOver(b));
    TwoClustersAreFaithful(a, b, cap(a), cap(b));
    MoveIsProposed(cfg, a, b, cap(a), cap(b));
    assert Proposed(cfg, h.snap, h.m);
  }

  /** There and back again: between two equal clusters, a threshold of 0 or less lets
      the replica move from a to b and then from b to a. */
  lemma RoundTrip(cfg: RebalancingConfig, cap: ClusterID -> int, a: ClusterID, b: ClusterID) returns (hops: seq<Hop>)
    requires cfg.minFragmentationDelta <= 0.0 && a != b && a != "" && b != "" && cap(a) == cap(b) >= 2
    ensures Returns(cfg, cap, hops, 0, 1)
  {
    var there := HopBetween(cfg, cap, a, b);
    var back := HopBetween(cfg, cap, b, a);
    hops := [there, back];
    ChainOfTwo(cfg, cap, there, back);
  }

  lemma ChainOfTwo(cfg: RebalancingConfig, cap: ClusterID -> int, there: Hop, back: Hop)
    requires IsHop(cfg, cap, there) && IsHop(cfg, cap, back) && SourceOf(back) == there.m.targetClusterID
    requires SourceOf(there) == back.m.targetClusterID
    ensures Returns(cfg, cap, [there, back], 0, 1)
  {
    var hops := [there, back];
    assert hops[0] == there && hops[1] == back;
    forall i: nat | i < 2 ensures IsHop(cfg, cap, hops[i]) {
      EitherIsHop(cfg, cap, there, back, hops[i], i == 0);
    }
  }

  lemma EitherIsHop(cfg: RebalancingConfig, cap: ClusterID -> int, there: Hop, back: Hop, h: Hop, first: bool)
    requires IsHop(cfg, cap, there) && IsHop(cfg, cap, back) && h == if first then there else back
    ensures IsHop(cfg, cap, h)
  {
    if first {
      assert h == there;
    } else {
      assert h == back;
    }
  }

  // ---------- When something is proposed ----------

  /** No two clusters tie as the tightest target of a replica of the snapshot. */
  ghost predicate TargetsDecided(snap: Snapshot) {
    forall id, c, n, c', n' | && id in snap.replicas
                              && IsTarget(snap, snap.replicas[id], c, n) && IsTarget(snap, snap.replicas[id], c', n') ::
      c == c'
  }

  lemma EstimateIsUnique(snap: Snapshot, source: Node, dest: ClusterID, gpus: int, x: real, y: real)
    requires WellKeyed(snap) && dest in snap.clusters
    requires IsEstimate(snap, source, dest, gpus, x) && IsEstimate(snap, source, dest, gpus, y)
    ensures x == y
  {
    var nodes := snap.clusters[dest].nodes;
    forall id | id in nodes ensures MapSum(nodes, FreeShifted(id, -gpus)) == MapSum(nodes, FreeOf()) - gpus {
      ShiftedSum(nodes, id, -gpus);
    }
  }

  ghost predicate SomeMove(cfg: RebalancingConfig, snap: Snapshot, node: Node, id: ReplicaID) {
    exists m: MigrateDecision :: m.sourceReplicaID == id && Worthwhile(cfg, snap, node, m)
  }

  /** Unless targets tie, the filters decide: a replica is left exactly when no
      migration of it is worth proposing. */
  lemma FiltersDecide(cfg: RebalancingConfig, snap: Snapshot, node: Node, id: ReplicaID)
    requires WellKeyed(snap) && TargetsDecided(snap) && IsFragmented(node) && id in node.pods
    ensures MayStay(cfg, snap, node, id) <==> !SomeMove(cfg, snap, node, id)
  {
    if SomeMove(cfg, snap, node, id) {
      WorthwhileMustMove(cfg, snap, node, id);
    } else if !MayStay(cfg, snap, node, id) {
      MustMove(cfg, snap, node, id);
    }
  }

  lemma WorthwhileMustMove(cfg: RebalancingConfig, snap: Snapshot, node: Node, id: ReplicaID)
    requires WellKeyed(snap) && TargetsDecided(snap) && SomeMove(cfg, snap, node, id)
    ensures !MayStay(cfg, snap, node, id)
  {
    var m: MigrateDecision :| m.sourceReplicaID == id && Worthwhile(cfg, snap, node, m);
    var r := snap.replicas[id];
    var n :| IsTarget(snap, r, m.targetClusterID, n);
    var x :| IsEstimate(snap, node, m.targetClusterID, r.gpus, x) && x >= cfg.minFragmentationDelta;
    assert SomeRoom(snap.clusters[m.targetClusterID].nodes, r.gpus) && SomeTarget(snap, r);
    forall c, k ensures !PoorTarget(cfg, snap, node, r, snap.applications[r.appID].modelID, c, k) {
      if IsTarget(snap, r, c, k) {
        assert c == m.targetClusterID;
        forall y | IsEstimate(snap, node, c, r.gpus, y) ensures y == x {
          EstimateIsUnique(snap, node, c, r.gpus, x, y);
        }
      }
    }
  }

  lemma MustMove(cfg: RebalancingConfig, snap: Snapshot, node: Node, id: ReplicaID)
    requires WellKeyed(snap) && IsFragmented(node) && id in node.pods && !MayStay(cfg, snap, node, id)
    ensures SomeMove(cfg, snap, node, id)
  {
    var r := snap.replicas[id];
    var model := snap.applications[r.appID].modelID;
    var c, n := TargetExists(snap, r);
    assert !PoorTarget(cfg, snap, node, r, model, c, n);
    var x := EstimateExists(snap, node, c, r.gpus);
    var m := MigrateDecision(r.appID, id, c, SchedulingConstraints(r.gpus, [n], model));
    assert Targets(snap, r, model, m) && Improves(cfg, snap, node, c, r.gpus);
    assert Worthwhile(cfg, snap, node, m);
  }

  lemma TargetExists(snap: Snapshot, r: Replica) returns (c: ClusterID, n: NodeID)
    requires SomeTarget(snap, r)
    ensures IsTarget(snap, r, c, n)
  {
    c :| c in snap.clusters && c != r.clusterID && SomeRoom(snap.clusters[c].nodes, r.gpus);
    n := TightestExists(snap.clusters[c].nodes, r.gpus);
    var todo := snap.clusters.Keys;
    while todo != {}
      invariant todo <= snap.clusters.Keys
      invariant Tightest(snap, r, todo, Target(c, n))
    {
      var k :| k in todo;
      todo := todo - {k};
      if k != r.clusterID && SomeRoom(snap.clusters[k].nodes, r.gpus) {
        var id := TightestExists(snap.clusters[k].nodes, r.gpus);
        if snap.clusters[k].nodes[id].freeGPUs < snap.clusters[c].nodes[n].freeGPUs {
          c, n := k, id;
        }
      }
    }
  }

  ghost predicate SomethingWorthwhile(cfg: RebalancingConfig, snap: Snapshot) {
    exists m :: Proposed(cfg, snap, m)
  }

  /** Unless targets tie, a cycle proposes something exactly when some migration is
      worth proposing. */
  lemma OutcomeIsEmptyIff(cfg: RebalancingConfig, snap: Snapshot, ms: seq<MigrateDecision>)
    requires WellKeyed(snap) && TargetsDecided(snap) && IsOutcome(cfg, snap, ms)
    ensures ms != [] <==> SomethingWorthwhile(cfg, snap)
  {
    if ms != [] {
      assert ms[0] in ms && Proposed(cfg, snap, ms[0]);
    } else if SomethingWorthwhile(cfg, snap) {
      var m :| Proposed(cfg, snap, m);
      var p :| ProposedAt(cfg, snap, m, p);
      var k :| 0 <= k < |NodeAt(snap, p).pods| && NodeAt(snap, p).pods[k] == m.sourceReplicaID;
      assert Covered(cfg, snap, p, ms);
      assert Considered(cfg, snap, NodeAt(snap, p), NodeAt(snap, p).pods[k], ms);
      WorthwhileMustMove(cfg, snap, NodeAt(snap, p), m.sourceReplicaID);
      assert false;
    }
  }

  /** The cap is exceeded exactly when it is 0 and something is worth proposing. */
  lemma CapExceededIff(cfg: RebalancingConfig, snap: Snapshot, ms: seq<MigrateDecision>)
    requires WellKeyed(snap) && TargetsDecided(snap) && IsOutcome(cfg, snap, ms) && cfg.maxMigrationsPerCycle >= 0
    ensures |ms| > cfg.maxMigrationsPerCycle <==> cfg.maxMigrationsPerCycle == 0 && SomethingWorthwhile(cfg, snap)
  {
    OutcomeIsEmptyIff(cfg, snap, ms);
  }

  lemma OneIsOutcome(cfg: RebalancingConfig, snap: Snapshot, m: MigrateDecision)
    requires cfg.maxMigrationsPerCycle == 0 && Proposed(cfg, snap, m)
    ensures IsOutcome(cfg, snap, [m])
  {
  }

  lemma OutcomeSize(cfg: RebalancingConfig, snap: Snapshot, ms: seq<MigrateDecision>)
    requires IsOutcome(cfg, snap, ms) && cfg.maxMigrationsPerCycle >= 0
    ensures ms != [] ==> SomethingWorthwhile(cfg, snap)
    ensures |ms| > cfg.maxMigrationsPerCycle ==> cfg.maxMigrationsPerCycle == 0 && ms != []
  {
    if ms != [] {
      assert Proposed(cfg, snap, ms[0]);
    }
  }

  /** Ties or not: the cap is respected by every outcome exactly when it is positive or
      nothing is worth proposing. */
  lemma CapRespectedIff(cfg: RebalancingConfig, snap: Snapshot)
    requires WellKeyed(snap) && cfg.maxMigrationsPerCycle >= 0
    ensures (forall ms | IsOutcome(cfg, snap, ms) :: |ms| <= cfg.maxMigrationsPerCycle) <==>
            cfg.maxMigrationsPerCycle > 0 || !SomethingWorthwhile(cfg, snap)
  {
    if cfg.maxMigrationsPerCycle == 0 && SomethingWorthwhile(cfg, snap) {
      var m :| Proposed(cfg, snap, m);
      OneIsOutcome(cfg, snap, m);
      assert |[m]| > cfg.maxMigrationsPerCycle;
    } else {
      forall ms | IsOutcome(cfg, snap, ms) ensures |ms| <= cfg.maxMigrationsPerCycle {
        OutcomeSize(cfg, snap, ms);
      }
    }
  }

  /** It does happen, with the default threshold too: from two GPUs to four, every
      cycle with a cap of 0 proposes one migration. */
  lemma CapOfZeroIsExceeded(cfg: RebalancingConfig, a: ClusterID, b: ClusterID, ms: seq<MigrateDecision>)
    requires cfg.maxMigrationsPerCycle == 0 && cfg.minFragmentationDelta <= 0.25 && a != b && a != "" && b != ""
    requires IsOutcome(cfg, TwoClusters(a, b, 2, 4), ms)
    ensures |ms| == 1
  {
    EmptyIsNoOutcome(cfg, a, b);
  }

  lemma EmptyIsNoOutcome(cfg: RebalancingConfig, a: ClusterID, b: ClusterID)
    requires cfg.maxMigrationsPerCycle == 0 && cfg.minFragmentationDelta <= 0.25 && a != b && a != "" && b != ""
    ensures !IsOutcome(cfg, TwoClusters(a, b, 2, 4), [])
  {
    EmptyLeavesItOut(cfg, a, b);
  }

  lemma EmptyLeavesItOut(cfg: RebalancingConfig, a: ClusterID, b: ClusterID)
    requires cfg.minFragmentationDelta <= 0.25 && a != b && a != "" && b != ""
    ensures !Covered(cfg, TwoClusters(a, b, 2, 4), (a, "n"), [])
  {
    HostPodMustMove(cfg, a, b);
    assert NodeAt(TwoClusters(a, b, 2, 4), (a, "n")).pods[0] == "r";
    assert !Considered(cfg, TwoClusters(a, b, 2, 4), HostNode(a, 2), "r", []);
  }

  lemma HostPodMustMove(cfg: RebalancingConfig, a: ClusterID, b: ClusterID)
    requires cfg.minFragmentationDelta <= 0.25 && a != b && a != "" && b != ""
    ensures !MayStay(cfg, TwoClusters(a, b, 2, 4), HostNode(a, 2), "r")
  {
    var snap := TwoClusters(a, b, 2, 4);
    OnlyTarget(a, b, 2, 4);
    OnlyEstimate(a, b, 2, 4);
    OneRunning(a, b, 2, 4);
    assert snap.cacheLocations["model"][1].clusterID == b;
    assert HasRoom(snap.clusters[b].nodes["n"], 1) && SomeRoom(snap.clusters[b].nodes, 1);
  }
}
