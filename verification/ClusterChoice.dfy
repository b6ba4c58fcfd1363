/** What the chosen cluster is best at, counted in GPUs. */
module ClusterChoice {
  import opened Model
  import opened Collections
  import opened Snapshots
  import opened PlacementScoring
  import opened PlacementCycle

  /** free is what the fullest ready node with room for the need has free. */
  ghost predicate TightestFree(nodes: map<NodeID, Node>, need: int, free: int) {
    && (exists id :: id in nodes && nodes[id].status == Ready && nodes[id].freeGPUs == free >= need)
    && (forall id | id in nodes && nodes[id].status == Ready && nodes[id].freeGPUs >= need ::
          free <= nodes[id].freeGPUs)
  }

  /** GPUs left over on that node, up to the size of a node. */
  function LeftOver(cfg: PlacementConfig, free: int, need: int): int {
    if free - need > cfg.maxGPUsPerNode then cfg.maxGPUsPerNode else free - need
  }

  ghost function ReadyGPUs(nodes: map<NodeID, Node>): int {
    MapSum(nodes, ReadyTotal())
  }

  ghost function ReadyUsed(nodes: map<NodeID, Node>): int {
    MapSum(nodes, ReadyAllocated())
  }

  /** Only ready nodes count, each with its own figures. */
  lemma OneNodeCounts(nodes: map<NodeID, Node>, id: NodeID, n: Node)
    requires id !in nodes
    ensures ReadyGPUs(nodes[id := n]) == ReadyGPUs(nodes) + if n.status == Ready then n.totalGPUs else 0
    ensures ReadyUsed(nodes[id := n]) == ReadyUsed(nodes) + if n.status == Ready then n.allocatedGPUs else 0
    ensures ReadyGPUs(map[]) == ReadyUsed(map[]) == 0
  {
    MapSumPut(nodes, ReadyTotal(), id, n);
    MapSumPut(nodes, ReadyAllocated(), id, n);
  }

  /** The share of ready GPUs in use; a cluster without any counts as full. */
  ghost function Share(nodes: map<NodeID, Node>): real {
    if ReadyGPUs(nodes) > 0 then ReadyUsed(nodes) as real / ReadyGPUs(nodes) as real else 1.0
  }

  ghost function TierOf(snap: Snapshot, app: Application, c: ClusterID): Option<CacheTier> {
    WarmestTier(LocationsOf(snap, app.modelID), c)
  }

  function Weighed(tier: real, w: real, x: real, v: real, y: real): real {
    tier + w * x + v * y
  }

  /** What a cluster is worth: the weight of its tier, less for every GPU left over and
      for the share in use. */
  ghost function Worth(cfg: PlacementConfig, snap: Snapshot, app: Application, c: ClusterID, free: int): real
    requires cfg.maxGPUsPerNode > 0 && c in snap.clusters
  {
    Weighed(TierWeight(cfg, TierOf(snap, app, c)), cfg.weightFragmentation, Tightness(cfg, free, app.gpusPerReplica),
            cfg.weightBalance, 1.0 - Share(snap.clusters[c].nodes))
  }

  function Tightness(cfg: PlacementConfig, free: int, need: int): real
    requires cfg.maxGPUsPerNode > 0
  {
    1.0 - LeftOver(cfg, free, need) as real / cfg.maxGPUsPerNode as real
  }

  lemma RatioOf(a: int, b: int)
    requires b > 0
    ensures a <= b <==> a as real / b as real <= 1.0
    ensures 0 <= a <==> 0.0 <= a as real / b as real
    ensures b as real / b as real == 1.0
  {
  }

  /** The packing score by its meaning. */
  lemma PackingMeans(cfg: PlacementConfig, nodes: map<NodeID, Node>, need: int, score: real, free: int)
    requires cfg.maxGPUsPerNode > 0 && IsPackingScore(cfg, nodes, need, score) && TightestFree(nodes, need, free)
    ensures score == Tightness(cfg, free, need)
    ensures free >= need + cfg.maxGPUsPerNode ==> score == 0.0
    ensures free == need ==> score == 1.0
  {
    var f :| IsTightestFit(nodes, need, f)
             && score == Clamp01(1.0 - (f - need) as real / cfg.maxGPUsPerNode as real);
    assert f == free;
    RatioOf(free - need, cfg.maxGPUsPerNode);
  }

  lemma BalanceMeans(nodes: map<NodeID, Node>)
    ensures BalanceScore(nodes) == 1.0 - Share(nodes)
  {
  }

  lemma ScoreIsWorth(cfg: PlacementConfig, snap: Snapshot, app: Application, c: ClusterID, score: real, free: int)
    requires cfg.maxGPUsPerNode > 0 && c in snap.clusters && IsScore(cfg, snap, app, c, score)
    requires TightestFree(snap.clusters[c].nodes, app.gpusPerReplica, free)
    ensures score == Worth(cfg, snap, app, c, free)
  {
    var packing :| PackedScore(cfg, snap, app, c, packing, score);
    PackingMeans(cfg, snap.clusters[c].nodes, app.gpusPerReplica, packing, free);
    BalanceMeans(snap.clusters[c].nodes);
    SumInAnyOrder(TierWeight(cfg, TierOf(snap, app, c)), cfg.weightFragmentation * packing,
                  cfg.weightBalance * (1.0 - Share(snap.clusters[c].nodes)));
  }

  lemma SumInAnyOrder(a: real, b: real, c: real)
    ensures a + (b + c) == a + b + c
  {
  }

  lemma AllowedHasTightest(snap: Snapshot, log: Log, app: Application, c: ClusterID) returns (free: int)
    requires Allowed(snap, log, app, c)
    ensures c in snap.clusters && TightestFree(snap.clusters[c].nodes, app.gpusPerReplica, free)
  {
    free := TightestExists(snap.clusters[c].nodes, app.gpusPerReplica);
  }

  /** No allowed cluster is worth more. */
  ghost predicate WorthMost(e: Engine, snap: Snapshot, log: Log, app: Application, b: ClusterID)
    requires e.cfg.maxGPUsPerNode > 0
  {
    && Allowed(snap, log, app, b)
    && forall c, f, g | && Allowed(snap, log, app, c)
                        && TightestFree(snap.clusters[b].nodes, app.gpusPerReplica, f)
                        && TightestFree(snap.clusters[c].nodes, app.gpusPerReplica, g) ::
         Worth(e.cfg, snap, app, c, g) <= Worth(e.cfg, snap, app, b, f)
  }

  /** A cluster is best exactly when no allowed one is worth more. */
  lemma BestIffWorthMost(e: Engine, snap: Snapshot, log: Log, app: Application, b: ClusterID)
    requires e.cfg.maxGPUsPerNode > 0
    ensures IsBest(e, snap, log, app, b) <==> WorthMost(e, snap, log, app, b)
  {
    if IsBest(e, snap, log, app, b) {
      BestIsWorthMost(e, snap, log, app, b);
    }
    if WorthMost(e, snap, log, app, b) {
      WorthMostIsBest(e, snap, log, app, b);
    }
  }

  lemma BestIsWorthMost(e: Engine, snap: Snapshot, log: Log, app: Application, b: ClusterID)
    requires e.cfg.maxGPUsPerNode > 0 && IsBest(e, snap, log, app, b)
    ensures WorthMost(e, snap, log, app, b)
  {
    var best :| && IsScore(e.cfg, snap, app, b, best)
                && forall k, score | Allowed(snap, log, app, k) && IsScore(e.cfg, snap, app, k, score) :: score <= best;
    forall c, f, g | && Allowed(snap, log, app, c)
                     && TightestFree(snap.clusters[b].nodes, app.gpusPerReplica, f)
                     && TightestFree(snap.clusters[c].nodes, app.gpusPerReplica, g)
      ensures Worth(e.cfg, snap, app, c, g) <= Worth(e.cfg, snap, app, b, f)
    {
      var score := ScoreExists(e.cfg, snap, app, c);
      ScoreIsWorth(e.cfg, snap, app, c, score, g);
      ScoreIsWorth(e.cfg, snap, app, b, best, f);
    }
  }

  lemma WorthMostIsBest(e: Engine, snap: Snapshot, log: Log, app: Application, b: ClusterID)
    requires e.cfg.maxGPUsPerNode > 0 && WorthMost(e, snap, log, app, b)
    ensures IsBest(e, snap, log, app, b)
  {
    var f := AllowedHasTightest(snap, log, app, b);
    var best := ScoreExists(e.cfg, snap, app, b);
    ScoreIsWorth(e.cfg, snap, app, b, best, f);
    forall c, score | Allowed(snap, log, app, c) && IsScore(e.cfg, snap, app, c, score) ensures score <= best {
      var g := AllowedHasTightest(snap, log, app, c);
      ScoreIsWorth(e.cfg, snap, app, c, score, g);
    }
  }

  lemma SmallerPart(tier: real, w: real, x: real, x': real, v: real, y: real, y': real)
    requires Weighed(tier, w, x, v, y) <= Weighed(tier, w, x', v, y')
    ensures w > 0.0 && y == y' ==> x <= x'
    ensures v > 0.0 && x == x' ==> y <= y'
  {
    if w > 0.0 && y == y' {
      SmallerProduct(w, x, x');
    }
    if v > 0.0 && x == x' {
      SmallerProduct(v, y, y');
    }
  }

  lemma SmallerProduct(w: real, x: real, y: real)
    requires w > 0.0 && w * x <= w * y
    ensures x <= y
  {
  }

  lemma SmallerRatio(a: int, b: int, c: int)
    requires c > 0 && a as real / c as real <= b as real / c as real
    ensures a <= b
  {
  }

  lemma TighterHasLess(cfg: PlacementConfig, f: int, g: int, need: int)
    requires cfg.maxGPUsPerNode > 0 && g - need < cfg.maxGPUsPerNode
    requires Tightness(cfg, g, need) <= Tightness(cfg, f, need)
    ensures f <= g
  {
    SmallerRatio(LeftOver(cfg, f, need), LeftOver(cfg, g, need), cfg.maxGPUsPerNode);
  }

  /** The comparison the engine's choice settles. */
  lemma ChosenIsWorthMore(e: Engine, snap: Snapshot, log: Log, app: Application, b: ClusterID, c: ClusterID, f: int,
                          g: int)
    requires e.cfg.maxGPUsPerNode > 0 && IsBest(e, snap, log, app, b) && Allowed(snap, log, app, c)
    requires TightestFree(snap.clusters[b].nodes, app.gpusPerReplica, f)
    requires TightestFree(snap.clusters[c].nodes, app.gpusPerReplica, g)
    ensures Worth(e.cfg, snap, app, c, g) <= Worth(e.cfg, snap, app, b, f)
  {
    BestIsWorthMost(e, snap, log, app, b);
  }

  /** At the same tier and the same share in use, the tighter fit wins: the chosen
      cluster's tightest node has no more free, as long as the other's waste is less
      than a whole node. */
  lemma TighterFitWins(e: Engine, snap: Snapshot, log: Log, app: Application, b: ClusterID, c: ClusterID, f: int,
                       g: int)
    requires e.cfg.maxGPUsPerNode > 0 && e.cfg.weightFragmentation > 0.0
    requires IsBest(e, snap, log, app, b) && Allowed(snap, log, app, c)
    requires TierOf(snap, app, b) == TierOf(snap, app, c)
    requires Share(snap.clusters[b].nodes) == Share(snap.clusters[c].nodes)
    requires TightestFree(snap.clusters[b].nodes, app.gpusPerReplica, f)
    requires TightestFree(snap.clusters[c].nodes, app.gpusPerReplica, g)
    requires g - app.gpusPerReplica < e.cfg.maxGPUsPerNode
    ensures f <= g
  {
    ChosenIsWorthMore(e, snap, log, app, b, c, f, g);
    var need := app.gpusPerReplica;
    var tier, share := TierWeight(e.cfg, TierOf(snap, app, b)), Share(snap.clusters[b].nodes);
    SmallerPart(tier, e.cfg.weightFragmentation, Tightness(e.cfg, g, need), Tightness(e.cfg, f, need),
                e.cfg.weightBalance, 1.0 - share, 1.0 - share);
    TighterHasLess(e.cfg, f, g, need);
  }

  /** At the same tier and the same tightest fit, the emptier cluster wins. */
  lemma EmptierClusterWins(e: Engine, snap: Snapshot, log: Log, app: Application, b: ClusterID, c: ClusterID, f: int)
    requires e.cfg.maxGPUsPerNode > 0 && e.cfg.weightBalance > 0.0
    requires IsBest(e, snap, log, app, b) && Allowed(snap, log, app, c)
    requires TierOf(snap, app, b) == TierOf(snap, app, c)
    requires TightestFree(snap.clusters[b].nodes, app.gpusPerReplica, f)
    requires TightestFree(snap.clusters[c].nodes, app.gpusPerReplica, f)
    ensures Share(snap.clusters[b].nodes) <= Share(snap.clusters[c].nodes)
  {
    ChosenIsWorthMore(e, snap, log, app, b, c, f, f);
    var tier, fit := TierWeight(e.cfg, TierOf(snap, app, b)), Tightness(e.cfg, f, app.gpusPerReplica);
    SmallerPart(tier, e.cfg.weightFragmentation, fit, fit, e.cfg.weightBalance,
                1.0 - Share(snap.clusters[c].nodes), 1.0 - Share(snap.clusters[b].nodes));
  }

  /** So it is for every capacity placement of a cycle. */
  lemma CapacityPlacementIsWorthMost(e: Engine, snap: Snapshot, log: Log, i: nat)
    requires e.cfg.maxGPUsPerNode > 0 && WellKeyed(snap) && ValidCycle(e, snap, log)
    requires i < |log| && log[i].via.None?
    ensures log[i].appID in snap.applications
    ensures WorthMost(e, snap, log[..i], snap.applications[log[i].appID], log[i].clusterID)
  {
    assert JustifiedAt(e, snap, log, i);
    BestIsWorthMost(e, snap, log[..i], snap.applications[log[i].appID], log[i].clusterID);
  }
}
