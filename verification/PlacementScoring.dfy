/** How the placement engine scores a cluster: cache affinity by tier, tightness
    of fit, and balance. */
module PlacementScoring {
  import opened Model
  import opened Collections
  import opened Snapshots

  datatype PlacementConfig = PlacementConfig(
    weightCacheGPUMemory: real,
    weightCacheLocalNVMe: real,
    weightCacheClusterStorage: real,
    weightFragmentation: real,
    weightBalance: real,
    maxGPUsPerNode: int,
    reservationTTLMultiplier: int,
    defaultReservationTTLSeconds: int)

  const DEFAULT_CONFIG := PlacementConfig(1000.0, 500.0, 100.0, 50.0, 30.0, 8, 2, 300)

  // ---------- Cache tier ----------

  ghost predicate HasTier(locs: seq<CacheLocation>, cluster: ClusterID, tier: CacheTier) {
    exists i :: 0 <= i < |locs| && locs[i].clusterID == cluster && locs[i].tier == tier
  }

  /** The warmest tier at which a cluster caches the model; None is remote. */
  ghost function WarmestTier(locs: seq<CacheLocation>, cluster: ClusterID): Option<CacheTier> {
    if HasTier(locs, cluster, GpuMemory) then Some(GpuMemory)
    else if HasTier(locs, cluster, LocalNVMe) then Some(LocalNVMe)
    else if HasTier(locs, cluster, ClusterStorage) then Some(ClusterStorage)
    else None
  }

  /** Warmer tiers rank higher. */
  function Warmth(tier: Option<CacheTier>): nat {
    match tier
    case None => 0
    case Some(ClusterStorage) => 1
    case Some(LocalNVMe) => 2
    case Some(GpuMemory) => 3
  }

  function TierWeight(cfg: PlacementConfig, tier: Option<CacheTier>): real {
    match tier
    case None => 0.0
    case Some(ClusterStorage) => cfg.weightCacheClusterStorage
    case Some(LocalNVMe) => cfg.weightCacheLocalNVMe
    case Some(GpuMemory) => cfg.weightCacheGPUMemory
  }

  /** The nodes of a cluster caching the model at a tier, in registry order. */
  function NodesAt(locs: seq<CacheLocation>, cluster: ClusterID, tier: CacheTier): seq<NodeID> {
    if locs == [] then []
    else
      var last := locs[|locs| - 1];
      NodesAt(locs[..|locs| - 1], cluster, tier)
      + if last.clusterID == cluster && last.tier == tier then [last.nodeID] else []
  }

  lemma {:induction false} NodesAtSome(locs: seq<CacheLocation>, cluster: ClusterID, tier: CacheTier)
    ensures HasTier(locs, cluster, tier) <==> NodesAt(locs, cluster, tier) != []
  {
    if locs != [] {
      var front, last := locs[..|locs| - 1], locs[|locs| - 1];
      NodesAtSome(front, cluster, tier);
      if HasTier(front, cluster, tier) {
        var i :| 0 <= i < |front| && front[i].clusterID == cluster && front[i].tier == tier;
        assert locs[i] == front[i];
      }
      if HasTier(locs, cluster, tier) && !(last.clusterID == cluster && last.tier == tier) {
        var i :| 0 <= i < |locs| && locs[i].clusterID == cluster && locs[i].tier == tier;
        assert front[i] == locs[i];
      }
    }
  }

  function LocationsOf(snap: Snapshot, model: ModelID): seq<CacheLocation> {
    if model in snap.cacheLocations then snap.cacheLocations[model] else []
  }

  /** Nodes worth preferring: GPU memory before local NVMe. */
  function PreferredNodes(locs: seq<CacheLocation>, cluster: ClusterID): seq<NodeID> {
    NodesAt(locs, cluster, GpuMemory) + NodesAt(locs, cluster, LocalNVMe)
  }

  ghost predicate CachedOn(locs: seq<CacheLocation>, cluster: ClusterID, node: NodeID, tier: CacheTier) {
    exists i :: 0 <= i < |locs| && locs[i] == CacheLocation(cluster, node, tier)
  }

  lemma {:induction false} NodesAtIff(locs: seq<CacheLocation>, cluster: ClusterID, tier: CacheTier, node: NodeID)
    ensures node in NodesAt(locs, cluster, tier) <==> CachedOn(locs, cluster, node, tier)
  {
    if locs != [] {
      var front, last := locs[..|locs| - 1], locs[|locs| - 1];
      NodesAtIff(front, cluster, tier, node);
      if CachedOn(front, cluster, node, tier) {
        var i :| 0 <= i < |front| && front[i] == CacheLocation(cluster, node, tier);
        assert locs[i] == front[i];
      }
      if CachedOn(locs, cluster, node, tier) && last != CacheLocation(cluster, node, tier) {
        var i :| 0 <= i < |locs| && locs[i] == CacheLocation(cluster, node, tier);
        assert front[i] == locs[i];
      }
    }
  }

  /** Preferred are first exactly the nodes with the model in GPU memory, then exactly
      those with it on local NVMe, and no others. */
  lemma PreferredMeans(locs: seq<CacheLocation>, cluster: ClusterID)
    ensures var q := PreferredNodes(locs, cluster);
            exists k :: && 0 <= k <= |q|
                        && (forall n :: n in q[..k] <==> CachedOn(locs, cluster, n, GpuMemory))
                        && (forall n :: n in q[k..] <==> CachedOn(locs, cluster, n, LocalNVMe))
  {
    var q, k := PreferredNodes(locs, cluster), |NodesAt(locs, cluster, GpuMemory)|;
    assert q[..k] == NodesAt(locs, cluster, GpuMemory) && q[k..] == NodesAt(locs, cluster, LocalNVMe);
    forall n ensures n in q[..k] <==> CachedOn(locs, cluster, n, GpuMemory) {
      NodesAtIff(locs, cluster, GpuMemory, n);
    }
    forall n ensures n in q[k..] <==> CachedOn(locs, cluster, n, LocalNVMe) {
      NodesAtIff(locs, cluster, LocalNVMe, n);
    }
  }

  method ComputeCacheScore(cfg: PlacementConfig, model: ModelID, cluster: ClusterID, snap: Snapshot)
    returns (score: real, preferred: seq<NodeID>)
    ensures score == TierWeight(cfg, WarmestTier(LocationsOf(snap, model), cluster))
    ensures preferred == PreferredNodes(LocationsOf(snap, model), cluster)
  {
    var locs := LocationsOf(snap, model);
    var gpuMemoryNodes, localNVMeNodes, clusterStorage := [], [], false;
    for i := 0 to |locs|
      invariant gpuMemoryNodes == NodesAt(locs[..i], cluster, GpuMemory)
      invariant localNVMeNodes == NodesAt(locs[..i], cluster, LocalNVMe)
      invariant clusterStorage <==> NodesAt(locs[..i], cluster, ClusterStorage) != []
    {
      assert locs[..i + 1][..i] == locs[..i];
      var loc := locs[i];
      if loc.clusterID == cluster {
        match loc.tier
        case GpuMemory => gpuMemoryNodes := gpuMemoryNodes + [loc.nodeID];
        case LocalNVMe => localNVMeNodes := localNVMeNodes + [loc.nodeID];
        case ClusterStorage => clusterStorage := true;
      }
    }
    assert locs[..|locs|] == locs;
    NodesAtSome(locs, cluster, GpuMemory);
    NodesAtSome(locs, cluster, LocalNVMe);
    NodesAtSome(locs, cluster, ClusterStorage);
    if |gpuMemoryNodes| > 0 {
      return cfg.weightCacheGPUMemory, gpuMemoryNodes + localNVMeNodes;
    }
    if |localNVMeNodes| > 0 {
      return cfg.weightCacheLocalNVMe, localNVMeNodes;
    }
    if clusterStorage {
      return cfg.weightCacheClusterStorage, [];
    }
    return 0.0, [];
  }

  // ---------- Packing ----------

  predicate Fits(n: Node, need: int) {
    n.status == Ready && n.freeGPUs >= need
  }

  ghost predicate HasFit(nodes: map<NodeID, Node>, need: int) {
    exists id :: id in nodes && Fits(nodes[id], need)
  }

  /** free is the fewest free GPUs of any ready node with room. */
  ghost predicate IsTightestFit(nodes: map<NodeID, Node>, need: int, free: int) {
    && (exists id :: id in nodes && Fits(nodes[id], need) && nodes[id].freeGPUs == free)
    && (forall id | id in nodes && Fits(nodes[id], need) :: free <= nodes[id].freeGPUs)
  }

  function Clamp01(x: real): real {
    if x < 0.0 then 0.0 else if x > 1.0 then 1.0 else x
  }

  ghost predicate IsPackingScore(cfg: PlacementConfig, nodes: map<NodeID, Node>, need: int, score: real)
    requires cfg.maxGPUsPerNode > 0
  {
    if HasFit(nodes, need) then
      exists free :: IsTightestFit(nodes, need, free)
                     && score == Clamp01(1.0 - (free - need) as real / cfg.maxGPUsPerNode as real)
    else score == 0.0
  }

  lemma PackingScoreUnique(cfg: PlacementConfig, nodes: map<NodeID, Node>, need: int, x: real, y: real)
    requires cfg.maxGPUsPerNode > 0
    requires IsPackingScore(cfg, nodes, need, x) && IsPackingScore(cfg, nodes, need, y)
    ensures x == y && 0.0 <= x <= 1.0
  {
    if HasFit(nodes, need) {
      var f :| IsTightestFit(nodes, need, f) && x == Clamp01(1.0 - (f - need) as real / cfg.maxGPUsPerNode as real);
      var g :| IsTightestFit(nodes, need, g) && y == Clamp01(1.0 - (g - need) as real / cfg.maxGPUsPerNode as real);
      assert f == g;
    }
  }

  method ComputePackingScore(cfg: PlacementConfig, nodes: map<NodeID, Node>, need: int) returns (score: real)
    requires cfg.maxGPUsPerNode > 0 && need >= 0
    ensures IsPackingScore(cfg, nodes, need, score)
  {
    var bestFit := -1;
    var todo := nodes.Keys;
    while todo != {}
      invariant todo <= nodes.Keys
      invariant bestFit < 0 ==> forall id | id in nodes && id !in todo :: !Fits(nodes[id], need)
      invariant bestFit >= 0 ==>
                  && (exists id :: id in nodes && Fits(nodes[id], need) && nodes[id].freeGPUs == bestFit)
                  && (forall id | id in nodes && id !in todo && Fits(nodes[id], need) :: bestFit <= nodes[id].freeGPUs)
    {
      var id :| id in todo;
      todo := todo - {id};
      var n := nodes[id];
      if !Fits(n, need) {
        continue;
      }
      if bestFit < 0 || n.freeGPUs < bestFit {
        bestFit := n.freeGPUs;
      }
    }
    if bestFit < 0 {
      return 0.0;
    }
    assert IsTightestFit(nodes, need, bestFit);
    return Clamp01(1.0 - (bestFit - need) as real / cfg.maxGPUsPerNode as real);
  }

  // ---------- Balance and total ----------

  function ReadyTotal(): Node -> int {
    (n: Node) => if n.status == Ready then n.totalGPUs else 0
  }

  function ReadyAllocated(): Node -> int {
    (n: Node) => if n.status == Ready then n.allocatedGPUs else 0
  }

  ghost function BalanceScore(nodes: map<NodeID, Node>): real {
    var total := MapSum(nodes, ReadyTotal());
    if total > 0 then 1.0 - MapSum(nodes, ReadyAllocated()) as real / total as real else 0.0
  }

  method ComputeBalanceScore(nodes: map<NodeID, Node>) returns (score: real)
    ensures score == BalanceScore(nodes)
  {
    var totalGPUs := SumMap(nodes, ReadyTotal());
    var allocatedGPUs := SumMap(nodes, ReadyAllocated());
    score := 0.0;
    if totalGPUs > 0 {
      score := 1.0 - allocatedGPUs as real / totalGPUs as real;
    }
  }

  ghost predicate PackedScore(cfg: PlacementConfig, snap: Snapshot, app: Application, cluster: ClusterID,
                              packing: real, score: real)
    requires cfg.maxGPUsPerNode > 0 && cluster in snap.clusters
  {
    && IsPackingScore(cfg, snap.clusters[cluster].nodes, app.gpusPerReplica, packing)
    && score == TierWeight(cfg, WarmestTier(LocationsOf(snap, app.modelID), cluster))
                + (cfg.weightFragmentation * packing
                   + cfg.weightBalance * BalanceScore(snap.clusters[cluster].nodes))
  }

  /** The total score of a cluster for one more replica of an application. */
  ghost predicate IsScore(cfg: PlacementConfig, snap: Snapshot, app: Application, cluster: ClusterID, score: real)
    requires cfg.maxGPUsPerNode > 0 && cluster in snap.clusters
  {
    exists packing :: PackedScore(cfg, snap, app, cluster, packing, score)
  }

  /** Ready nodes never report more allocated GPUs than they have, or fewer than
      none. */
  ghost predicate SaneAllocation(nodes: map<NodeID, Node>) {
    forall id | id in nodes && nodes[id].status == Ready :: 0 <= nodes[id].allocatedGPUs <= nodes[id].totalGPUs
  }

  lemma BalanceInRange(nodes: map<NodeID, Node>)
    requires SaneAllocation(nodes)
    ensures 0.0 <= BalanceScore(nodes) <= 1.0
  {
    var total, used := MapSum(nodes, ReadyTotal()), MapSum(nodes, ReadyAllocated());
    MapSumCompare(nodes, ReadyAllocated(), nodes, ReadyTotal());
    MapSumNonNegative(nodes, ReadyAllocated());
    if total > 0 {
      RatioInRange(used, total);
    }
  }

  lemma RatioInRange(a: int, b: int)
    requires 0 <= a <= b && b > 0
    ensures 0.0 <= a as real / b as real <= 1.0
  {
  }

  /** The gaps between tier weights exceed what packing and balance can add. */
  predicate TiersDominate(cfg: PlacementConfig) {
    var soft := cfg.weightFragmentation + cfg.weightBalance;
    && cfg.weightFragmentation >= 0.0 && cfg.weightBalance >= 0.0
    && cfg.weightCacheClusterStorage > soft
    && cfg.weightCacheLocalNVMe - cfg.weightCacheClusterStorage > soft
    && cfg.weightCacheGPUMemory - cfg.weightCacheLocalNVMe > soft
  }

  lemma DefaultTiersDominate()
    ensures TiersDominate(DEFAULT_CONFIG)
  {
  }

  lemma ScoreInBand(cfg: PlacementConfig, snap: Snapshot, app: Application, c: ClusterID, score: real)
    requires cfg.maxGPUsPerNode > 0 && cfg.weightFragmentation >= 0.0 && cfg.weightBalance >= 0.0
    requires c in snap.clusters && SaneAllocation(snap.clusters[c].nodes) && IsScore(cfg, snap, app, c, score)
    ensures var soft := score - TierWeight(cfg, WarmestTier(LocationsOf(snap, app.modelID), c));
            0.0 <= soft <= cfg.weightFragmentation + cfg.weightBalance
  {
    var nodes := snap.clusters[c].nodes;
    var packing :| PackedScore(cfg, snap, app, c, packing, score);
    assert 0.0 <= packing <= 1.0 by {
      PackingScoreUnique(cfg, nodes, app.gpusPerReplica, packing, packing);
    }
    var balance := BalanceScore(nodes);
    assert 0.0 <= balance <= 1.0 by {
      BalanceInRange(nodes);
    }
    var soft := cfg.weightFragmentation * packing + cfg.weightBalance * balance;
    assert 0.0 <= soft <= cfg.weightFragmentation + cfg.weightBalance by {
      SoftScoreInRange(cfg.weightFragmentation, packing, cfg.weightBalance, balance);
    }
  }

  lemma SoftScoreInRange(w: real, x: real, v: real, y: real)
    requires w >= 0.0 && v >= 0.0 && 0.0 <= x <= 1.0 && 0.0 <= y <= 1.0
    ensures 0.0 <= w * x + v * y <= w + v
  {
    var p := Scaled(w, x);
    var q := Scaled(v, y);
    assert w * x + v * y == p + q;
  }

  lemma Scaled(w: real, x: real) returns (p: real)
    requires w >= 0.0 && 0.0 <= x <= 1.0
    ensures p == w * x && 0.0 <= p <= w
  {
    p := w * x;
    ProductNonNegative(w, x);
    ProductNonNegative(w, 1.0 - x);
    assert w * (1.0 - x) == w - p;
  }

  lemma ProductNonNegative(a: real, b: real)
    requires a >= 0.0 && b >= 0.0
    ensures a * b >= 0.0
  {
  }

  /** A warmer cache beats any packing and balance: the linear score refines the
      lexicographic order with the tier first. */
  lemma WarmerScoresHigher(cfg: PlacementConfig, snap: Snapshot, app: Application, a: ClusterID, b: ClusterID,
                           scoreA: real, scoreB: real)
    requires cfg.maxGPUsPerNode > 0 && TiersDominate(cfg)
    requires a in snap.clusters && SaneAllocation(snap.clusters[a].nodes) && IsScore(cfg, snap, app, a, scoreA)
    requires b in snap.clusters && SaneAllocation(snap.clusters[b].nodes) && IsScore(cfg, snap, app, b, scoreB)
    requires Warmth(WarmestTier(LocationsOf(snap, app.modelID), a))
             > Warmth(WarmestTier(LocationsOf(snap, app.modelID), b))
    ensures scoreA > scoreB
  {
    ScoreInBand(cfg, snap, app, a, scoreA);
    ScoreInBand(cfg, snap, app, b, scoreB);
  }
}
