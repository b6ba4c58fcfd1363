/** The simulator: a closed loop over the real world state, driven by arbitrary
    scaling and placement decisions. */
module Simulator {
  import opened Model
  import opened Collections
  import opened World
  import opened SimulatedWorld
  import opened Snapshots
  import WS = WorldState

  // ---------- Names ----------

  function Digit(d: nat): char
    requires d < 10
  {
    ('0' as int + d) as char
  }

  /** Decimal notation. */
  function Decimal(n: nat): string {
    if n < 10 then [Digit(n)] else Decimal(n / 10) + [Digit(n % 10)]
  }

  ghost predicate NoDash(s: string) {
    forall k | 0 <= k < |s| :: s[k] != '-'
  }

  lemma {:induction false} DecimalIsInjective(m: nat, n: nat)
    requires Decimal(m) == Decimal(n)
    ensures m == n
  {
    assert Decimal(m)[|Decimal(m)| - 1] == Digit(m % 10);
    assert Decimal(n)[|Decimal(n)| - 1] == Digit(n % 10);
    if m >= 10 && n >= 10 {
      assert Decimal(m / 10) == Decimal(m)[..|Decimal(m)| - 1];
      assert Decimal(n / 10) == Decimal(n)[..|Decimal(n)| - 1];
      DecimalIsInjective(m / 10, n / 10);
    } else if m >= 10 {
      DecimalNotEmpty(m / 10);
    } else if n >= 10 {
      DecimalNotEmpty(n / 10);
    }
  }

  lemma {:induction false} DecimalNotEmpty(n: nat)
    ensures |Decimal(n)| > 0 && NoDash(Decimal(n))
  {
    if n >= 10 {
      DecimalNotEmpty(n / 10);
    }
  }

  /** The last dash splits a name in only one way. */
  lemma LastDashSplits(a: string, x: string, b: string, y: string)
    requires NoDash(x) && NoDash(y) && a + "-" + x == b + "-" + y
    ensures a == b && x == y
  {
    var s := a + "-" + x;
    assert s[|a|] == '-' && s[|b|] == '-';
    assert forall k | |a| < k < |s| :: s[k] == x[k - |a| - 1];
    assert forall k | |b| < k < |s| :: s[k] == y[k - |b| - 1];
    assert |a| == |b|;
    assert a == s[..|a|] && b == s[..|b|] && x == s[|a| + 1..] && y == s[|b| + 1..];
  }

  /** Application, time and position of the scale-up. */
  function ReplicaName(app: AppID, time: nat, i: nat): ReplicaID {
    app + "-" + Decimal(time) + "-" + Decimal(i)
  }

  /** No two scale-ups of a run, in the same tick or not, share a name, whatever
      dashes and digits the application ids contain. */
  lemma ReplicaNameIsInjective(app: AppID, time: nat, i: nat, app': AppID, time': nat, i': nat)
    requires ReplicaName(app, time, i) == ReplicaName(app', time', i')
    ensures app == app' && time == time' && i == i'
  {
    DecimalNotEmpty(time);
    DecimalNotEmpty(time');
    DecimalNotEmpty(i);
    DecimalNotEmpty(i');
    LastDashSplits(app + "-" + Decimal(time), Decimal(i), app' + "-" + Decimal(time'), Decimal(i'));
    LastDashSplits(app, Decimal(time), app', Decimal(time'));
    DecimalIsInjective(time, time');
    DecimalIsInjective(i, i');
  }

  function NodeName(cluster: ClusterID, i: nat): NodeID {
    cluster + "-node-" + Decimal(i)
  }

  lemma NodeNameIsInjective(cluster: ClusterID, i: nat, j: nat)
    requires NodeName(cluster, i) == NodeName(cluster, j)
    ensures i == j
  {
    assert Decimal(i) == NodeName(cluster, i)[|cluster + "-node-"|..];
    assert Decimal(j) == NodeName(cluster, j)[|cluster + "-node-"|..];
    DecimalIsInjective(i, j);
  }

  /** The replica was created by a scale-up before the k-th of the tick at now. */
  ghost predicate NamedBefore(id: ReplicaID, now: nat, k: nat) {
    exists app, t: nat, i: nat :: id == ReplicaName(app, t, i) && (t < now || (t == now && i < k))
  }

  ghost predicate AllNamedBefore(replicas: map<ReplicaID, Replica>, now: nat, k: nat) {
    forall id | id in replicas :: NamedBefore(id, now, k)
  }

  lemma NextNameIsFresh(replicas: map<ReplicaID, Replica>, app: AppID, now: nat, k: nat)
    requires AllNamedBefore(replicas, now, k)
    ensures ReplicaName(app, now, k) !in replicas
  {
    if ReplicaName(app, now, k) in replicas {
      assert NamedBefore(ReplicaName(app, now, k), now, k);
      var app', t: nat, i: nat :| ReplicaName(app, now, k) == ReplicaName(app', t, i)
        && (t < now || (t == now && i < k));
      ReplicaNameIsInjective(app, now, k, app', t, i);
    }
  }

  lemma NamesStayBefore(replicas: map<ReplicaID, Replica>, now: nat, k: nat, now': nat, k': nat)
    requires AllNamedBefore(replicas, now, k) && (now < now' || (now == now' && k <= k'))
    ensures AllNamedBefore(replicas, now', k')
  {
    forall id | id in replicas ensures NamedBefore(id, now', k') {
      assert NamedBefore(id, now, k);
      var app, t: nat, i: nat :| id == ReplicaName(app, t, i) && (t < now || (t == now && i < k));
    }
  }

  // ---------- Events ----------

  datatype SimulationEvent =
    | MarkRunning(time: nat, replicaID: ReplicaID)
    | ClusterDown(time: nat, targetID: ClusterID)

  ghost function Started(events: seq<SimulationEvent>, now: nat): set<ReplicaID> {
    set e | e in events && e.MarkRunning? && e.time <= now :: e.replicaID
  }

  ghost function LostClusters(events: seq<SimulationEvent>, now: nat): set<ClusterID> {
    set e | e in events && e.ClusterDown? && e.time <= now :: e.targetID
  }

  ghost function NodesOf(clusters: map<ClusterID, Cluster>, lost: set<ClusterID>): set<(ClusterID, NodeID)> {
    set c, n | c in lost && c in clusters && n in clusters[c].nodes :: (c, n)
  }

  ghost function MarkedNodes(down: set<(ClusterID, NodeID)>, c: ClusterID, all: set<NodeID>, todo: set<NodeID>)
    : set<(ClusterID, NodeID)>
  {
    down + set n | n in all && n !in todo :: (c, n)
  }

  lemma UnknownHasNoNodes(clusters: map<ClusterID, Cluster>, down: set<(ClusterID, NodeID)>, c: ClusterID)
    ensures c !in clusters ==> down + NodesOf(clusters, {c}) == down
  {
  }

  lemma MarkedEnds(clusters: map<ClusterID, Cluster>, down: set<(ClusterID, NodeID)>, c: ClusterID)
    requires c in clusters
    ensures MarkedNodes(down, c, clusters[c].nodes.Keys, clusters[c].nodes.Keys) == down
    ensures MarkedNodes(down, c, clusters[c].nodes.Keys, {}) == down + NodesOf(clusters, {c})
  {
  }

  lemma MarkedStep(down: set<(ClusterID, NodeID)>, c: ClusterID, all: set<NodeID>, todo: set<NodeID>, n: NodeID)
    requires n in todo && todo <= all
    ensures MarkedNodes(down, c, all, todo - {n}) == MarkedNodes(down, c, all, todo) + {(c, n)}
  {
  }

  function Later(events: seq<SimulationEvent>, now: nat): seq<SimulationEvent> {
    if events == [] then []
    else
      var e := events[|events| - 1];
      Later(events[..|events| - 1], now) + if e.time <= now then [] else [e]
  }

  /** Exactly the events after now are later, each as often as before. */
  lemma {:induction false} LaterMeans(events: seq<SimulationEvent>, now: nat, e: SimulationEvent)
    ensures multiset(Later(events, now))[e] == if e.time > now then multiset(events)[e] else 0
  {
    if events != [] {
      var front, last := events[..|events| - 1], events[|events| - 1];
      LaterMeans(front, now, e);
      assert events == front + [last];
    }
  }

  /** What the events due by now do to the world: promote the replicas still there,
      mark the nodes of the lost clusters down, and nothing else. */
  ghost predicate EventsApplied(w: World, w': World, events: seq<SimulationEvent>, now: nat) {
    Restatused(w, w', Started(events, now), NodesOf(w.clusters, LostClusters(events, now)))
  }

  lemma EventsAppliedNone(w: World, now: nat)
    requires Safe(w)
    ensures EventsApplied(w, w, [], now)
  {
    assert Started([], now) == {} && NodesOf(w.clusters, LostClusters([], now)) == {};
    RestatusedNone(w);
  }

  lemma DueEvent(w: World, events: seq<SimulationEvent>, e: SimulationEvent, now: nat)
    requires e.time <= now
    ensures Started(events + [e], now) ==
            if e.MarkRunning? then Started(events, now) + {e.replicaID} else Started(events, now)
    ensures NodesOf(w.clusters, LostClusters(events + [e], now)) ==
            if e.ClusterDown? then NodesOf(w.clusters, LostClusters(events, now)) + NodesOf(w.clusters, {e.targetID})
            else NodesOf(w.clusters, LostClusters(events, now))
  {
    assert forall x :: x in events + [e] <==> x in events || x == e;
    assert LostClusters(events + [e], now) ==
           LostClusters(events, now) + if e.ClusterDown? then {e.targetID} else {};
  }

  lemma LaterSplit(events: seq<SimulationEvent>, e: SimulationEvent, now: nat)
    ensures Later(events + [e], now) == Later(events, now) + if e.time <= now then [] else [e]
  {
    assert (events + [e])[..|events|] == events;
  }

  lemma EventsAppliedSkip(w: World, w': World, events: seq<SimulationEvent>, e: SimulationEvent, now: nat)
    requires EventsApplied(w, w', events, now) && e.time > now
    ensures EventsApplied(w, w', events + [e], now)
  {
    assert forall x :: x in events + [e] <==> x in events || x == e;
    assert Started(events + [e], now) == Started(events, now);
    assert LostClusters(events + [e], now) == LostClusters(events, now);
  }

  // ---------- Decisions ----------

  function SizeFor(applications: map<AppID, Application>, app: AppID): int {
    if app in applications then applications[app].gpusPerReplica else 0
  }

  function NewReplica(su: ScaleUpDecision, node: NodeID, gpus: int, now: nat, i: nat): Replica {
    Replica(ReplicaName(su.appID, now, i), su.appID, su.clusterID, node, gpus, Pending, now)
  }

  /** The world after the i-th scale-up of a tick is placed on a node. */
  ghost function Placed(w: World, su: ScaleUpDecision, node: NodeID, now: nat, i: nat): World {
    var w' := UpsertReplica(w, NewReplica(su, node, SizeFor(w.applications, su.appID), now, i));
    if su.reservationID != "" then CloseReservation(w', su.reservationID, Fulfilled) else w'
  }

  /** The scale-up was placed on some ready node with room. */
  ghost predicate PlacedSomewhere(w: World, w': World, su: ScaleUpDecision, now: nat, i: nat) {
    exists n :: RoomAt(w, su.clusterID, n, SizeFor(w.applications, su.appID)) && w' == Placed(w, su, n, now, i)
  }

  /** The replica takes what its application asks for per replica; an unknown
      application asks for nothing. */
  ghost predicate Sized(applications: map<AppID, Application>, r: Replica) {
    && (r.appID in applications ==> r.gpus == applications[r.appID].gpusPerReplica)
    && (r.appID !in applications ==> r.gpus == 0)
  }

  /** Every replica of w is still there as it was, and every other one is a pending
      replica of one of the first k scale-ups, created now in its cluster, with the size
      its application asks for. */
  ghost predicate Grown(replicas: map<ReplicaID, Replica>, replicas': map<ReplicaID, Replica>,
                        ups: seq<ScaleUpDecision>, k: nat, now: nat, applications: map<AppID, Application>)
    requires k <= |ups|
  {
    && (forall id | id in replicas :: id in replicas' && replicas'[id] == replicas[id])
    && (forall id | id in replicas' && id !in replicas ::
          AddedBy(replicas'[id], ups, k, now) && Sized(applications, replicas'[id]) && replicas'[id].replicaID == id)
  }

  ghost predicate AddedBy(r: Replica, ups: seq<ScaleUpDecision>, k: nat, now: nat)
    requires k <= |ups|
  {
    exists i: nat :: && i < k && r.replicaID == ReplicaName(ups[i].appID, now, i) && r.appID == ups[i].appID
                     && r.clusterID == ups[i].clusterID && r.status == Pending && r.createdAt == now
  }

  lemma GrownStep(replicas: map<ReplicaID, Replica>, replicas': map<ReplicaID, Replica>, ups: seq<ScaleUpDecision>,
                  k: nat, now: nat, applications: map<AppID, Application>, r: Replica)
    requires k < |ups| && Grown(replicas, replicas', ups, k, now, applications)
    requires r.replicaID == ReplicaName(ups[k].appID, now, k) && r.replicaID !in replicas'
    requires r.appID == ups[k].appID && r.clusterID == ups[k].clusterID && r.status == Pending && r.createdAt == now
    requires Sized(applications, r)
    ensures Grown(replicas, replicas'[r.replicaID := r], ups, k + 1, now, applications)
  {
    GrownKept(replicas, replicas', ups, k, now, applications);
    assert AddedBy(r, ups, k + 1, now);
  }

  lemma GrownKept(replicas: map<ReplicaID, Replica>, replicas': map<ReplicaID, Replica>, ups: seq<ScaleUpDecision>,
                  k: nat, now: nat, applications: map<AppID, Application>)
    requires k < |ups| && Grown(replicas, replicas', ups, k, now, applications)
    ensures Grown(replicas, replicas', ups, k + 1, now, applications)
  {
    forall id | id in replicas' && id !in replicas ensures AddedBy(replicas'[id], ups, k + 1, now) {
      assert AddedBy(replicas'[id], ups, k, now);
    }
  }

  /** Safety reads only nodes, replicas, applications and their gauge. */
  ghost predicate SamePlacement(w: World, w': World) {
    && w'.clusters == w.clusters && w'.replicas == w.replicas && w'.applications == w.applications
    && w'.replicasGauge == w.replicasGauge
  }

  lemma SamePlacementIsSafe(w: World, w': World)
    requires Safe(w) && SamePlacement(w, w')
    ensures Safe(w') && Evolves(w, w')
  {
  }

  lemma PlacedIsUpserted(w: World, su: ScaleUpDecision, node: NodeID, now: nat, i: nat)
    ensures SamePlacement(UpsertReplica(w, NewReplica(su, node, SizeFor(w.applications, su.appID), now, i)),
                                Placed(w, su, node, now, i))
  {
  }

  lemma PlacedIsNamed(w: World, su: ScaleUpDecision, node: NodeID, now: nat, i: nat)
    requires AllNamedBefore(w.replicas, now, i)
    ensures AllNamedBefore(Placed(w, su, node, now, i).replicas, now, i + 1)
  {
    var r := NewReplica(su, node, SizeFor(w.applications, su.appID), now, i);
    NamesStayBefore(w.replicas, now, i, now, i + 1);
    assert NamedBefore(r.replicaID, now, i + 1);
    assert Placed(w, su, node, now, i).replicas == w.replicas[r.replicaID := r];
  }

  lemma PlacedIsSafe(w: World, su: ScaleUpDecision, node: NodeID, now: nat, i: nat)
    requires Safe(w) && AllNamedBefore(w.replicas, now, i)
    requires RoomAt(w, su.clusterID, node, SizeFor(w.applications, su.appID))
    ensures Safe(Placed(w, su, node, now, i)) && Evolves(w, Placed(w, su, node, now, i))
  {
    var gpus := SizeFor(w.applications, su.appID);
    var r := NewReplica(su, node, gpus, now, i);
    NextNameIsFresh(w.replicas, su.appID, now, i);
    SizesAreNonNegative(w, su.appID);
    PlacedIsUpserted(w, su, node, now, i);
    ChainIsSafe(w, r, Placed(w, su, node, now, i));
  }

  lemma ChainIsSafe(w: World, r: Replica, w': World)
    requires Safe(w) && r.replicaID !in w.replicas && r.gpus >= 0 && RoomAt(w, r.clusterID, r.nodeID, r.gpus)
    requires SamePlacement(UpsertReplica(w, r), w')
    ensures Safe(w') && Evolves(w, w')
  {
    PlacingIsSafe(w, r);
    SamePlacementIsSafe(UpsertReplica(w, r), w');
    assert Evolves(w, w') by {
      PlacingEvolves(w, r);
      EvolvesTransitive(w, UpsertReplica(w, r), w');
    }
  }

  lemma SizesAreNonNegative(w: World, app: AppID)
    requires NothingOverdrawn(w)
    ensures SizeFor(w.applications, app) >= 0
  {
  }

  // ---------- Topology ----------

  datatype ClusterConfig = ClusterConfig(id: ClusterID, nodes: nat, gpusPerNode: nat)

  datatype AppConfig = AppConfig(id: AppID, gpusPerReplica: nat, priority: int, minReplicas: int, maxTTFT: int,
                                 coldStart: Option<nat>)

  function EmptyNode(cfg: ClusterConfig, i: nat): Node {
    Node(NodeName(cfg.id, i), cfg.id, cfg.gpusPerNode, 0, cfg.gpusPerNode, [], Ready)
  }

  ghost predicate IsTopologyOf(cfg: ClusterConfig, k: nat, nodes: map<NodeID, Node>) {
    && (forall i | 0 <= i < k :: NodeName(cfg.id, i) in nodes && nodes[NodeName(cfg.id, i)] == EmptyNode(cfg, i))
    && (forall n | n in nodes :: exists i :: 0 <= i < k && n == NodeName(cfg.id, i))
  }

  lemma TopologyGrows(cfg: ClusterConfig, k: nat, nodes: map<NodeID, Node>)
    requires IsTopologyOf(cfg, k, nodes)
    ensures IsTopologyOf(cfg, k + 1, nodes[NodeName(cfg.id, k) := EmptyNode(cfg, k)])
  {
    forall i | 0 <= i < k && NodeName(cfg.id, i) == NodeName(cfg.id, k) ensures false {
      NodeNameIsInjective(cfg.id, i, k);
    }
  }

  method BuildNodes(cfg: ClusterConfig) returns (nodes: map<NodeID, Node>)
    ensures IsTopologyOf(cfg, cfg.nodes, nodes)
  {
    nodes := map[];
    for i := 0 to cfg.nodes
      invariant IsTopologyOf(cfg, i, nodes)
    {
      TopologyGrows(cfg, i, nodes);
      var id := NodeName(cfg.id, i);
      nodes := nodes[id := Node(id, cfg.id, cfg.gpusPerNode, 0, cfg.gpusPerNode, [], Ready)];
    }
  }

  /** A cluster of empty nodes has no fragmentation. */
  lemma TopologyIsUnfragmented(cfg: ClusterConfig, nodes: map<NodeID, Node>)
    requires IsTopologyOf(cfg, cfg.nodes, nodes)
    ensures Fragmentation(nodes) == 0.0
  {
    forall n | n in nodes ensures nodes[n].totalGPUs == nodes[n].freeGPUs {
      var i :| 0 <= i < cfg.nodes && n == NodeName(cfg.id, i);
    }
    FreeNodesAreUnfragmented(nodes);
  }

  lemma FreeNodesAreUnfragmented(nodes: map<NodeID, Node>)
    requires forall n | n in nodes :: nodes[n].totalGPUs == nodes[n].freeGPUs
    ensures Fragmentation(nodes) == 0.0
  {
    MapSumCompare(nodes, TotalOf(), nodes, FreeOf());
    MapSumCompare(nodes, FreeOf(), nodes, TotalOf());
    if MapSum(nodes, TotalOf()) != 0 {
      SelfQuotient(MapSum(nodes, TotalOf()) as real);
    }
  }

  lemma SelfQuotient(x: real)
    requires x != 0.0
    ensures x / x == 1.0
  {
  }

  lemma EmptyClusterIsSafe(w: World, cfg: ClusterConfig, nodes: map<NodeID, Node>)
    requires Safe(w) && w.replicas == map[] && IsTopologyOf(cfg, cfg.nodes, nodes)
    ensures Safe(UpsertCluster(w, Cluster(cfg.id, nodes, 0.0)))
  {
    TopologyIsUnfragmented(cfg, nodes);
    forall n | n in nodes
      ensures n != "" && nodes[n].nodeID == n && nodes[n].clusterID == cfg.id && nodes[n].freeGPUs >= 0
      ensures NodeAccounted(w.replicas, cfg.id, n, nodes[n])
    {
      var i :| 0 <= i < cfg.nodes && n == NodeName(cfg.id, i);
      EmptyNodeAccountedIff(w.replicas, nodes[n]);
    }
    var w' := UpsertCluster(w, Cluster(cfg.id, nodes, 0.0));
    forall c, n | c in w'.clusters && n in w'.clusters[c].nodes
      ensures NodeAccounted(w'.replicas, c, n, w'.clusters[c].nodes[n])
    {
      if c != cfg.id {
        assert NodeAccounted(w.replicas, c, n, w.clusters[c].nodes[n]);
      }
    }
  }

  // ---------- The configured world ----------

  /** The cluster an entry of the configuration describes, all its nodes empty. */
  ghost predicate IsConfigured(cfg: ClusterConfig, c: Cluster) {
    c.clusterID == cfg.id && c.fragmentationScore == 0.0 && IsTopologyOf(cfg, cfg.nodes, c.nodes)
  }

  /** Exactly the configured clusters exist, each as the last entry for it says. */
  ghost predicate ClustersConfigured(cfgs: seq<ClusterConfig>, clusters: map<ClusterID, Cluster>) {
    && (forall cfg | cfg in cfgs :: cfg.id in clusters)
    && (forall c | c in clusters :: exists i {:trigger DescribesCluster(cfgs, i, c)} ::
          0 <= i < |cfgs| && DescribesCluster(cfgs, i, c) && IsConfigured(cfgs[i], clusters[c]))
  }

  ghost predicate DescribesCluster(cfgs: seq<ClusterConfig>, i: nat, c: ClusterID)
    requires i < |cfgs|
  {
    cfgs[i].id == c && forall j | i < j < |cfgs| :: cfgs[j].id != c
  }

  lemma ClusterConfigured(cfgs: seq<ClusterConfig>, cfg: ClusterConfig, clusters: map<ClusterID, Cluster>, c: Cluster)
    requires ClustersConfigured(cfgs, clusters) && IsConfigured(cfg, c)
    ensures ClustersConfigured(cfgs + [cfg], clusters[cfg.id := c])
  {
    var cfgs', clusters' := cfgs + [cfg], clusters[cfg.id := c];
    forall k | k in clusters'
      ensures exists i {:trigger DescribesCluster(cfgs', i, k)} ::
                0 <= i < |cfgs'| && DescribesCluster(cfgs', i, k) && IsConfigured(cfgs'[i], clusters'[k])
    {
      if k == cfg.id {
        assert DescribesCluster(cfgs', |cfgs|, k);
      } else {
        var i :| 0 <= i < |cfgs| && DescribesCluster(cfgs, i, k) && IsConfigured(cfgs[i], clusters[k]);
        assert DescribesCluster(cfgs', i, k);
      }
    }
  }

  /** An application as its entry describes it; a replica takes one GPU at least. */
  function Configured(a: AppConfig): Application {
    Application(a.id, "", if a.gpusPerReplica == 0 then 1 else a.gpusPerReplica, a.priority, a.minReplicas, NoRule,
                a.maxTTFT)
  }

  ghost predicate DescribesApp(apps: seq<AppConfig>, i: nat, a: AppID)
    requires i < |apps|
  {
    apps[i].id == a && forall j | i < j < |apps| :: apps[j].id != a
  }

  /** Exactly the configured applications exist, each as the last entry for it says. */
  ghost predicate AppsConfigured(apps: seq<AppConfig>, applications: map<AppID, Application>) {
    && (forall cfg | cfg in apps :: cfg.id in applications)
    && (forall a | a in applications :: exists i {:trigger DescribesApp(apps, i, a)} ::
          0 <= i < |apps| && DescribesApp(apps, i, a) && applications[a] == Configured(apps[i]))
  }

  lemma ApplicationKeepsSafety(w: World, a: Application)
    requires Safe(w) && a.gpusPerReplica >= 0
    ensures Safe(UpsertApplication(w, a))
  {
    var w' := UpsertApplication(w, a);
    assert Keyed(w');
    assert NodesAccounted(w') by {
      forall c, n | c in w'.clusters && n in w'.clusters[c].nodes
        ensures NodeAccounted(w'.replicas, c, n, w'.clusters[c].nodes[n])
      {
        assert NodeAccounted(w.replicas, c, n, w.clusters[c].nodes[n]);
      }
    }
  }

  lemma AppConfigured(apps: seq<AppConfig>, cfg: AppConfig, applications: map<AppID, Application>)
    requires AppsConfigured(apps, applications)
    ensures AppsConfigured(apps + [cfg], applications[cfg.id := Configured(cfg)])
  {
    var apps', applications' := apps + [cfg], applications[cfg.id := Configured(cfg)];
    forall a | a in applications'
      ensures exists i {:trigger DescribesApp(apps', i, a)} ::
                0 <= i < |apps'| && DescribesApp(apps', i, a) && applications'[a] == Configured(apps'[i])
    {
      if a == cfg.id {
        assert DescribesApp(apps', |apps|, a);
      } else {
        var i :| 0 <= i < |apps| && DescribesApp(apps, i, a) && applications[a] == Configured(apps[i]);
        assert DescribesApp(apps', i, a);
      }
    }
  }

  // ---------- The loop ----------

  const DEFAULT_COLD_START: nat := 60 * SECOND

  /** The first configuration of the application decides. */
  function ColdStart(apps: seq<AppConfig>, app: AppID): nat {
    if apps == [] then DEFAULT_COLD_START
    else if apps[0].id == app then
      if apps[0].coldStart.Some? then apps[0].coldStart.value else DEFAULT_COLD_START
    else ColdStart(apps[1..], app)
  }

  /** The first entry of the application decides, whatever later ones say. */
  lemma {:induction false} FirstEntryDecides(apps: seq<AppConfig>, app: AppID, i: nat)
    requires i <= |apps| && (forall j | 0 <= j < i :: apps[j].id != app) && (i < |apps| ==> apps[i].id == app)
    ensures ColdStart(apps, app) ==
            if i < |apps| && apps[i].coldStart.Some? then apps[i].coldStart.value else 60 * SECOND
  {
    if i > 0 {
      FirstEntryDecides(apps[1..], app, i - 1);
    }
  }

  method FindColdStart(apps: seq<AppConfig>, app: AppID) returns (coldStart: nat)
    ensures coldStart == ColdStart(apps, app)
  {
    coldStart := DEFAULT_COLD_START;
    for i := 0 to |apps|
      invariant coldStart == DEFAULT_COLD_START
      invariant ColdStart(apps, app) == ColdStart(apps[i..], app)
    {
      if apps[i].id == app {
        if apps[i].coldStart.Some? {
          coldStart := apps[i].coldStart.value;
        }
        break;
      }
    }
  }

  /** The queue grew by exactly one start event for each replica added. */
  ghost predicate Announced(q: seq<SimulationEvent>, q': seq<SimulationEvent>, replicas: map<ReplicaID, Replica>,
                            replicas': map<ReplicaID, Replica>, apps: seq<AppConfig>, now: nat)
  {
    && StartsOf(q, q', replicas, replicas', apps, now)
    && |q'| - |q| == |AddedIds(replicas, replicas')|
  }

  ghost function AddedIds(replicas: map<ReplicaID, Replica>, replicas': map<ReplicaID, Replica>): set<ReplicaID> {
    replicas'.Keys - replicas.Keys
  }

  ghost predicate StartsOf(q: seq<SimulationEvent>, q': seq<SimulationEvent>, replicas: map<ReplicaID, Replica>,
                           replicas': map<ReplicaID, Replica>, apps: seq<AppConfig>, now: nat)
  {
    && q <= q'
    && (forall j | |q| <= j < |q'| :: IsStartOf(q'[j], replicas, replicas', apps, now))
    && (forall id | id in replicas' && id !in replicas ::
          MarkRunning(now + ColdStart(apps, replicas'[id].appID), id) in q'[|q|..])
  }

  ghost predicate IsStartOf(e: SimulationEvent, replicas: map<ReplicaID, Replica>, replicas': map<ReplicaID, Replica>,
                            apps: seq<AppConfig>, now: nat)
  {
    && e.MarkRunning? && e.replicaID in replicas' && e.replicaID !in replicas
    && e.time == now + ColdStart(apps, replicas'[e.replicaID].appID)
  }

  lemma StartsStep(q: seq<SimulationEvent>, q': seq<SimulationEvent>, replicas: map<ReplicaID, Replica>,
                   replicas': map<ReplicaID, Replica>, apps: seq<AppConfig>, now: nat, r: Replica)
    requires StartsOf(q, q', replicas, replicas', apps, now)
    requires r.replicaID !in replicas && r.replicaID !in replicas'
    ensures StartsOf(q, q' + [MarkRunning(now + ColdStart(apps, r.appID), r.replicaID)], replicas,
                     replicas'[r.replicaID := r], apps, now)
  {
    var e := MarkRunning(now + ColdStart(apps, r.appID), r.replicaID);
    var q2, rs := q' + [e], replicas'[r.replicaID := r];
    assert q2[|q|..] == q'[|q|..] + [e];
    forall j | |q| <= j < |q2| ensures IsStartOf(q2[j], replicas, rs, apps, now) {
      if j < |q'| {
        assert IsStartOf(q'[j], replicas, replicas', apps, now);
      }
    }
  }

  lemma AddedIdsStep(replicas: map<ReplicaID, Replica>, replicas': map<ReplicaID, Replica>, r: Replica)
    requires r.replicaID !in replicas && r.replicaID !in replicas'
    ensures |AddedIds(replicas, replicas'[r.replicaID := r])| == |AddedIds(replicas, replicas')| + 1
  {
    assert AddedIds(replicas, replicas'[r.replicaID := r]) == AddedIds(replicas, replicas') + {r.replicaID};
  }

  lemma AnnouncedStep(q: seq<SimulationEvent>, q': seq<SimulationEvent>, replicas: map<ReplicaID, Replica>,
                      replicas': map<ReplicaID, Replica>, apps: seq<AppConfig>, now: nat, r: Replica,
                      e: SimulationEvent)
    requires Announced(q, q', replicas, replicas', apps, now)
    requires r.replicaID !in replicas && r.replicaID !in replicas'
    requires e == MarkRunning(now + ColdStart(apps, r.appID), r.replicaID)
    ensures Announced(q, q' + [e], replicas, replicas'[r.replicaID := r], apps, now)
  {
    StartsStep(q, q', replicas, replicas', apps, now, r);
    AddedIdsStep(replicas, replicas', r);
  }

  function StartOf(su: ScaleUpDecision, i: nat, apps: seq<AppConfig>, now: nat): SimulationEvent {
    MarkRunning(now + ColdStart(apps, su.appID), ReplicaName(su.appID, now, i))
  }

  /** A scale-up is placed, with its start queued, exactly when some ready node of
      its cluster has room. */
  ghost predicate ScaleUpEnacted(w: World, w': World, q: seq<SimulationEvent>, q': seq<SimulationEvent>,
                                 su: ScaleUpDecision, i: nat, apps: seq<AppConfig>, now: nat)
  {
    var size := if su.appID in w.applications then w.applications[su.appID].gpusPerReplica else 0;
    if exists n :: RoomAt(w, su.clusterID, n, size) then
      && PlacedSomewhere(w, w', su, now, i) && q' == q + [StartOf(su, i, apps, now)]
      && TakesRoom(w, w', ReplicaName(su.appID, now, i), size)
    else w' == w && q' == q
  }

  /** The new replica is of this size, on a ready node that had the room and now has that
      much less free. */
  ghost predicate TakesRoom(w: World, w': World, id: ReplicaID, size: int) {
    && id in w'.replicas && w'.replicas[id].gpus == size
    && var c, n := w'.replicas[id].clusterID, w'.replicas[id].nodeID;
       && RoomAt(w, c, n, size) && c in w'.clusters && n in w'.clusters[c].nodes
       && w'.clusters[c].nodes[n].freeGPUs == w.clusters[c].nodes[n].freeGPUs - size
  }

  lemma PlacedTakesRoom(w: World, su: ScaleUpDecision, n: NodeID, now: nat, i: nat)
    requires AllNamedBefore(w.replicas, now, i) && RoomAt(w, su.clusterID, n, SizeFor(w.applications, su.appID))
    ensures TakesRoom(w, Placed(w, su, n, now, i), ReplicaName(su.appID, now, i), SizeFor(w.applications, su.appID))
  {
    var r := NewReplica(su, n, SizeFor(w.applications, su.appID), now, i);
    NextNameIsFresh(w.replicas, su.appID, now, i);
    PlacedIsUpserted(w, su, n, now, i);
    UpsertTakesRoom(w, r);
  }

  lemma UpsertTakesRoom(w: World, r: Replica)
    requires r.replicaID !in w.replicas && RoomAt(w, r.clusterID, r.nodeID, r.gpus)
    ensures TakesRoom(w, UpsertReplica(w, r), r.replicaID, r.gpus)
  {
    assert UpsertReplica(w, r).clusters[r.clusterID].nodes[r.nodeID] ==
           NodeAfterUpsert(w.replicas, r, r.clusterID, r.nodeID, w.clusters[r.clusterID].nodes[r.nodeID]);
  }

  lemma ScaleUpStep(replicas: map<ReplicaID, Replica>, w: World, w': World, q0: seq<SimulationEvent>,
                    q: seq<SimulationEvent>, q': seq<SimulationEvent>, ups: seq<ScaleUpDecision>, i: nat,
                    apps: seq<AppConfig>, now: nat)
    requires i < |ups| && ScaleUpEnacted(w, w', q, q', ups[i], i, apps, now)
    requires Grown(replicas, w.replicas, ups, i, now, w.applications)
    requires Announced(q0, q, replicas, w.replicas, apps, now) && AllNamedBefore(w.replicas, now, i)
    ensures Grown(replicas, w'.replicas, ups, i + 1, now, w.applications)
    ensures Announced(q0, q', replicas, w'.replicas, apps, now)
  {
    if q' == q {
      GrownKept(replicas, w.replicas, ups, i, now, w.applications);
    } else {
      var su := ups[i];
      var n :| w' == Placed(w, su, n, now, i);
      var r := NewReplica(su, n, SizeFor(w.applications, su.appID), now, i);
      PlacedIsUpserted(w, su, n, now, i);
      AddedStep(replicas, w.replicas, w'.replicas, q0, q, ups, i, apps, now, w.applications, r);
    }
  }

  lemma AddedStep(replicas: map<ReplicaID, Replica>, replicas1: map<ReplicaID, Replica>,
                  replicas2: map<ReplicaID, Replica>, q0: seq<SimulationEvent>, q: seq<SimulationEvent>,
                  ups: seq<ScaleUpDecision>, i: nat, apps: seq<AppConfig>, now: nat,
                  applications: map<AppID, Application>, r: Replica)
    requires i < |ups| && Grown(replicas, replicas1, ups, i, now, applications)
    requires Announced(q0, q, replicas, replicas1, apps, now)
    requires AllNamedBefore(replicas1, now, i) && replicas2 == replicas1[r.replicaID := r]
    requires r.replicaID == ReplicaName(ups[i].appID, now, i) && r.appID == ups[i].appID
    requires r.clusterID == ups[i].clusterID && r.status == Pending && r.createdAt == now && Sized(applications, r)
    ensures Grown(replicas, replicas2, ups, i + 1, now, applications)
    ensures Announced(q0, q + [StartOf(ups[i], i, apps, now)], replicas, replicas2, apps, now)
  {
    NextNameIsFresh(replicas1, ups[i].appID, now, i);
    GrownIsKept(replicas, replicas1, ups, i, now, applications, r.replicaID);
    GrownStep(replicas, replicas1, ups, i, now, applications, r);
    AnnouncedStep(q0, q, replicas, replicas1, apps, now, r, StartOf(ups[i], i, apps, now));
  }

  lemma GrownIsKept(replicas: map<ReplicaID, Replica>, replicas': map<ReplicaID, Replica>, ups: seq<ScaleUpDecision>,
                    k: nat, now: nat, applications: map<AppID, Application>, id: ReplicaID)
    requires k <= |ups| && Grown(replicas, replicas', ups, k, now, applications) && id !in replicas'
    ensures id !in replicas
  {
  }

  ghost function IdSet(ids: seq<ReplicaID>): set<ReplicaID> {
    set id | id in ids
  }

  lemma IdSetStep(ids: seq<ReplicaID>, i: nat)
    requires i < |ids|
    ensures IdSet(ids[..i + 1]) == IdSet(ids[..i]) + {ids[i]}
  {
  }

  function VictimIds(ps: seq<PreemptionDecision>): seq<ReplicaID> {
    seq(|ps|, i requires 0 <= i < |ps| => ps[i].victimReplicaID)
  }

  function RemovedIds(ds: seq<ScaleDownDecision>): seq<ReplicaID> {
    seq(|ds|, i requires 0 <= i < |ds| => ds[i].replicaID)
  }

  ghost function Victims(ps: seq<PreemptionDecision>): set<ReplicaID> {
    set p | p in ps :: p.victimReplicaID
  }

  ghost function Removed(ds: seq<ScaleDownDecision>): set<ReplicaID> {
    set d | d in ds :: d.replicaID
  }

  lemma VictimIdsAre(ps: seq<PreemptionDecision>)
    ensures IdSet(VictimIds(ps)) == Victims(ps)
  {
    forall id | id in Victims(ps) ensures id in VictimIds(ps) {
      var p :| p in ps && p.victimReplicaID == id;
      var i :| 0 <= i < |ps| && ps[i] == p;
      assert VictimIds(ps)[i] == id;
    }
  }

  lemma RemovedIdsAre(ds: seq<ScaleDownDecision>)
    ensures IdSet(RemovedIds(ds)) == Removed(ds)
  {
    forall id | id in Removed(ds) ensures id in RemovedIds(ds) {
      var d :| d in ds && d.replicaID == id;
      var i :| 0 <= i < |ds| && ds[i] == d;
      assert RemovedIds(ds)[i] == id;
    }
  }

  ghost function AllDeleted(w: World, ids: seq<ReplicaID>): World {
    if ids == [] then w else DeleteReplica(AllDeleted(w, ids[..|ids| - 1]), ids[|ids| - 1])
  }

  /** A world and the queue that goes with it. */
  datatype Moment = Moment(world: World, queue: seq<SimulationEvent>)

  /** Each element comes from the one before by its step. */
  ghost predicate IsChain<T>(ts: seq<T>, step: (nat, T, T) -> bool) {
    ts != [] && forall i: nat | i + 1 < |ts| :: step(i, ts[i], ts[i + 1])
  }

  lemma ChainGrows<T>(ts: seq<T>, step: (nat, T, T) -> bool, t: T)
    requires IsChain(ts, step) && step(|ts| - 1, ts[|ts| - 1], t)
    ensures IsChain(ts + [t], step)
  {
  }

  ghost function TurnOf(ups: seq<ScaleUpDecision>, apps: seq<AppConfig>, now: nat): (nat, Moment, Moment) -> bool {
    (i: nat, m: Moment, m': Moment) =>
      i < |ups| && ScaleUpEnacted(m.world, m'.world, m.queue, m'.queue, ups[i], i, apps, now)
  }

  /** The moments between the first k scale-ups: each is placed, and its start queued,
      exactly when there is room for it when its turn comes. */
  ghost predicate InTurn(ms: seq<Moment>, ups: seq<ScaleUpDecision>, k: nat, apps: seq<AppConfig>, now: nat) {
    |ms| == k + 1 && IsChain(ms, TurnOf(ups, apps, now))
  }

  /** A tick's decisions: the victims go, the scale-ups take their turns, the
      scaled-down go. */
  ghost predicate Enacted(w: World, q: seq<SimulationEvent>, w': World, q': seq<SimulationEvent>,
                          d: PlacementDecisions, apps: seq<AppConfig>, now: nat)
  {
    exists ms :: EnactedVia(w, q, ms, w', q', d, apps, now)
  }

  ghost predicate EnactedVia(w: World, q: seq<SimulationEvent>, ms: seq<Moment>, w': World,
                             q': seq<SimulationEvent>, d: PlacementDecisions, apps: seq<AppConfig>, now: nat)
  {
    var k := |d.scaleUps|;
    && InTurn(ms, d.scaleUps, k, apps, now)
    && SamePlacement(AllDeleted(w, VictimIds(d.preemptions)), ms[0].world) && ms[0].queue == q
    && w' == AllDeleted(ms[k].world, RemovedIds(d.scaleDowns)) && ms[k].queue == q'
    && OnlyEnacted(w, q, ms[k].world.replicas, w'.replicas, q', d, apps, now)
  }

  /** Seen over the replicas: exactly the victims and the scaled-down are gone, only
      pending replicas of the scale-ups were added, each with exactly one start event. */
  ghost predicate OnlyEnacted(w: World, q: seq<SimulationEvent>,
                              grown: map<ReplicaID, Replica>, replicas': map<ReplicaID, Replica>,
                              q': seq<SimulationEvent>, d: PlacementDecisions, apps: seq<AppConfig>, now: nat)
  {
    var kept := w.replicas - Victims(d.preemptions);
    && Grown(kept, grown, d.scaleUps, |d.scaleUps|, now, w.applications)
    && Announced(q, q', kept, grown, apps, now)
    && replicas' == grown - Removed(d.scaleDowns)
  }

  /** The nodes of the clusters lost by now are down. */
  ghost predicate LostAreDown(w: World, events: seq<SimulationEvent>, now: nat) {
    forall c, n | c in LostClusters(events, now) && c in w.clusters && n in w.clusters[c].nodes ::
      w.clusters[c].nodes[n].status == Down
  }

  lemma LostStayDown(w: World, w1: World, w': World, events: seq<SimulationEvent>, now: nat)
    requires EventsApplied(w, w1, events, now) && Evolves(w1, w')
    ensures LostAreDown(w', events, now)
  {
    forall c, n | c in LostClusters(events, now) && c in w'.clusters && n in w'.clusters[c].nodes
      ensures w'.clusters[c].nodes[n].status == Down
    {
      assert (c, n) in NodesOf(w.clusters, LostClusters(events, now));
      assert NodeEvolves(w1, w', c, n);
    }
  }

  /** One tick: due events, then decisions; capacity stays and down nodes drain. */
  ghost predicate Ticked(w: World, q: seq<SimulationEvent>, w': World, q': seq<SimulationEvent>, d: PlacementDecisions,
                         apps: seq<AppConfig>, now: nat)
  {
    && Safe(w') && Evolves(w, w') && LostAreDown(w', q, now)
    && exists w1, w2 :: TickedVia(w, q, w1, w2, w', q', d, apps, now)
  }

  ghost predicate TickedVia(w: World, q: seq<SimulationEvent>, w1: World, w2: World, w': World,
                            q': seq<SimulationEvent>, d: PlacementDecisions, apps: seq<AppConfig>, now: nat)
  {
    EventsApplied(w, w1, q, now) && SamePlacement(w1, w2) && Enacted(w2, Later(q, now), w', q', d, apps, now)
  }

  function TimeOf(start: nat, tickInterval: nat, i: nat): nat {
    start + i * tickInterval
  }

  ghost function TickOf(decisions: nat -> PlacementDecisions, apps: seq<AppConfig>, start: nat, tickInterval: nat)
    : (nat, Moment, Moment) -> bool
  {
    (i: nat, m: Moment, m': Moment) =>
      Ticked(m.world, m.queue, m'.world, m'.queue, decisions(i), apps, TimeOf(start, tickInterval, i))
  }

  /** Moment i of a run is the one before its i-th tick, at its time. */
  ghost predicate IsRun(ms: seq<Moment>, decisions: nat -> PlacementDecisions, apps: seq<AppConfig>, start: nat,
                        tickInterval: nat)
  {
    IsChain(ms, TickOf(decisions, apps, start, tickInterval))
  }

  lemma RunGrows(ms: seq<Moment>, decisions: nat -> PlacementDecisions, apps: seq<AppConfig>, start: nat,
                 tickInterval: nat, m: Moment)
    requires IsRun(ms, decisions, apps, start, tickInterval)
    requires TickOf(decisions, apps, start, tickInterval)(|ms| - 1, ms[|ms| - 1], m)
    ensures IsRun(ms + [m], decisions, apps, start, tickInterval)
  {
    ChainGrows(ms, TickOf(decisions, apps, start, tickInterval), m);
  }

  /** Every state is safe and has evolved from every earlier one. */
  ghost predicate SafeHistory(ms: seq<Moment>) {
    && (forall i | 0 <= i < |ms| :: Safe(ms[i].world))
    && (forall i, j | 0 <= i < j < |ms| :: Evolves(ms[i].world, ms[j].world))
  }

  lemma HistoryGrows(ms: seq<Moment>, m: Moment)
    requires SafeHistory(ms) && ms != [] && Safe(m.world) && Evolves(ms[|ms| - 1].world, m.world)
    ensures SafeHistory(ms + [m])
  {
    forall i | 0 <= i < |ms| ensures Evolves(ms[i].world, m.world) {
      if i < |ms| - 1 {
        EvolvesTransitive(ms[i].world, ms[|ms| - 1].world, m.world);
      }
    }
  }

  // ---------- Sizes over a run ----------

  ghost predicate AllSized(w: World) {
    forall id | id in w.replicas :: Sized(w.applications, w.replicas[id])
  }

  ghost predicate SizedHistory(ms: seq<Moment>) {
    forall i | 0 <= i < |ms| :: AllSized(ms[i].world)
  }

  lemma EnactedKeepsSizes(w: World, q: seq<SimulationEvent>, w': World, q': seq<SimulationEvent>,
                          d: PlacementDecisions, apps: seq<AppConfig>, now: nat)
    requires Enacted(w, q, w', q', d, apps, now) && AllSized(w) && w'.applications == w.applications
    ensures AllSized(w')
  {
    var ms: seq<Moment> :| EnactedVia(w, q, ms, w', q', d, apps, now);
    var grown := ms[|d.scaleUps|].world.replicas;
    forall id | id in w'.replicas ensures Sized(w.applications, w'.replicas[id]) {
      GrownIsSized(w, w.replicas - Victims(d.preemptions), grown, d.scaleUps, now, id);
    }
  }

  lemma GrownIsSized(w: World, kept: map<ReplicaID, Replica>, grown: map<ReplicaID, Replica>,
                     ups: seq<ScaleUpDecision>, now: nat, id: ReplicaID)
    requires AllSized(w) && Grown(kept, grown, ups, |ups|, now, w.applications) && id in grown
    requires forall k | k in kept :: k in w.replicas && kept[k] == w.replicas[k]
    ensures Sized(w.applications, grown[id])
  {
    if id in kept {
      assert grown[id] == w.replicas[id];
    }
  }

  lemma TickKeepsSizes(w: World, q: seq<SimulationEvent>, w': World, q': seq<SimulationEvent>, d: PlacementDecisions,
                       apps: seq<AppConfig>, now: nat)
    requires Ticked(w, q, w', q', d, apps, now) && AllSized(w)
    ensures AllSized(w')
  {
    var w1, w2 :| TickedVia(w, q, w1, w2, w', q', d, apps, now);
    PromotionKeepsSizes(w, w1, q, now);
    assert w2.applications == w.applications;
    EnactedKeepsSizes(w2, Later(q, now), w', q', d, apps, now);
  }

  lemma PromotionKeepsSizes(w: World, w': World, q: seq<SimulationEvent>, now: nat)
    requires EventsApplied(w, w', q, now) && AllSized(w)
    ensures AllSized(w') && w'.applications == w.applications
  {
    forall id | id in w'.replicas ensures Sized(w'.applications, w'.replicas[id]) {
      assert Sized(w.applications, w.replicas[id]);
    }
  }

  /** Replicas that start with the size their application asks for keep it over a whole
      run, and so does every replica added. */
  lemma {:induction false} RunKeepsSizes(ms: seq<Moment>, decisions: nat -> PlacementDecisions, apps: seq<AppConfig>,
                                         start: nat, tickInterval: nat, i: nat)
    requires IsRun(ms, decisions, apps, start, tickInterval) && AllSized(ms[0].world) && i < |ms|
    ensures AllSized(ms[i].world)
  {
    if i > 0 {
      RunKeepsSizes(ms, decisions, apps, start, tickInterval, i - 1);
      var m, m', d := ms[i - 1], ms[i], decisions(i - 1);
      assert TickOf(decisions, apps, start, tickInterval)(i - 1, m, m');
      TickKeepsSizes(m.world, m.queue, m'.world, m'.queue, d, apps, TimeOf(start, tickInterval, i - 1));
    }
  }

  lemma RunIsSized(ms: seq<Moment>, decisions: nat -> PlacementDecisions, apps: seq<AppConfig>, start: nat,
                   tickInterval: nat)
    requires IsRun(ms, decisions, apps, start, tickInterval) && AllSized(ms[0].world)
    ensures SizedHistory(ms)
  {
    forall i | 0 <= i < |ms| ensures AllSized(ms[i].world) {
      RunKeepsSizes(ms, decisions, apps, start, tickInterval, i);
    }
  }

  /** What the application of a replica on the node asks for. */
  ghost function AskedAt(applications: map<AppID, Application>, c: ClusterID, n: NodeID): Replica -> int {
    (r: Replica) => if r.clusterID == c && r.nodeID == n && r.appID in applications then
                      applications[r.appID].gpusPerReplica else 0
  }

  /** In a safe world of sized replicas a node has allocated what the applications of its
      replicas ask for, and that fits in it. */
  lemma AllocatedIsAsked(w: World, c: ClusterID, n: NodeID)
    requires Safe(w) && AllSized(w) && c in w.clusters && n in w.clusters[c].nodes
    ensures w.clusters[c].nodes[n].allocatedGPUs == MapSum(w.replicas, AskedAt(w.applications, c, n))
    ensures MapSum(w.replicas, AskedAt(w.applications, c, n)) <= w.clusters[c].nodes[n].totalGPUs
  {
    SafeMeansEverythingFits(w, c, n);
    forall id | id in w.replicas
      ensures AskedAt(w.applications, c, n)(w.replicas[id]) == GpusAt(c, n)(w.replicas[id])
    {
      assert Sized(w.applications, w.replicas[id]);
    }
    MapSumCompare(w.replicas, AskedAt(w.applications, c, n), w.replicas, GpusAt(c, n));
    MapSumCompare(w.replicas, GpusAt(c, n), w.replicas, AskedAt(w.applications, c, n));
  }

  /** At every moment of a run that starts with sized replicas, every node has allocated
      exactly what the applications of its replicas ask for. */
  lemma RunAllocatesWhatIsAsked(ms: seq<Moment>, decisions: nat -> PlacementDecisions, apps: seq<AppConfig>,
                                start: nat, tickInterval: nat, i: nat, c: ClusterID, n: NodeID)
    requires IsRun(ms, decisions, apps, start, tickInterval) && SafeHistory(ms) && AllSized(ms[0].world)
    requires i < |ms| && c in ms[i].world.clusters && n in ms[i].world.clusters[c].nodes
    ensures var w := ms[i].world;
            && w.clusters[c].nodes[n].allocatedGPUs == MapSum(w.replicas, AskedAt(w.applications, c, n))
            && MapSum(w.replicas, AskedAt(w.applications, c, n)) <= w.clusters[c].nodes[n].totalGPUs
  {
    RunKeepsSizes(ms, decisions, apps, start, tickInterval, i);
    AllocatedIsAsked(ms[i].world, c, n);
  }

  class Simulator {
    const store: WS.Store
    const tickInterval: nat
    const endTime: nat
    const apps: seq<AppConfig>
    var currentTime: nat
    var eventQueue: seq<SimulationEvent>

    ghost predicate Valid()
      reads this, store
    {
      Safe(store.Value()) && AllNamedBefore(store.replicas, currentTime, 0)
    }

    constructor (clusters: seq<ClusterConfig>, apps: seq<AppConfig>, failures: seq<SimulationEvent>,
                 start: nat, duration: nat, tickInterval: nat)
      ensures Valid() && fresh(store)
      ensures currentTime == start && endTime == start + duration && this.tickInterval == tickInterval
      ensures eventQueue == failures && this.apps == apps && store.replicas == map[]
      ensures ClustersConfigured(clusters, store.clusters) && AppsConfigured(apps, store.applications)
    {
      this.store := new WS.Store();
      this.tickInterval, this.endTime, this.apps := tickInterval, start + duration, apps;
      this.currentTime, this.eventQueue := start, failures;
      new;
      InitializeTopology(clusters, apps);
    }

    method InitializeTopology(clusters: seq<ClusterConfig>, apps: seq<AppConfig>)
      requires Safe(store.Value()) && store.replicas == map[] && store.clusters == map[] && store.applications == map[]
      modifies store
      ensures Safe(store.Value()) && store.replicas == map[]
      ensures ClustersConfigured(clusters, store.clusters) && AppsConfigured(apps, store.applications)
    {
      for i := 0 to |clusters|
        invariant Safe(store.Value()) && store.replicas == map[] && store.applications == map[]
        invariant ClustersConfigured(clusters[..i], store.clusters)
      {
        assert clusters[..i + 1] == clusters[..i] + [clusters[i]];
        InitializeCluster(clusters[i], clusters[..i]);
      }
      assert clusters[..|clusters|] == clusters;
      for i := 0 to |apps|
        invariant Safe(store.Value()) && store.replicas == map[]
        invariant ClustersConfigured(clusters, store.clusters) && AppsConfigured(apps[..i], store.applications)
      {
        assert apps[..i + 1] == apps[..i] + [apps[i]];
        InitializeApp(apps[i], apps[..i]);
      }
      assert apps[..|apps|] == apps;
    }

    method InitializeApp(cfg: AppConfig, ghost before: seq<AppConfig>)
      requires Safe(store.Value()) && AppsConfigured(before, store.applications)
      modifies store
      ensures Safe(store.Value()) && AppsConfigured(before + [cfg], store.applications)
      ensures store.replicas == old(store.replicas) && store.clusters == old(store.clusters)
    {
      AppConfigured(before, cfg, store.applications);
      ApplicationKeepsSafety(store.Value(), Configured(cfg));
      var gpus := if cfg.gpusPerReplica == 0 then 1 else cfg.gpusPerReplica;
      store.UpsertApplication(Application(cfg.id, "", gpus, cfg.priority, cfg.minReplicas, NoRule, cfg.maxTTFT));
    }

    method InitializeCluster(cfg: ClusterConfig, ghost before: seq<ClusterConfig>)
      requires Safe(store.Value()) && store.replicas == map[] && store.applications == map[]
      requires ClustersConfigured(before, store.clusters)
      modifies store
      ensures Safe(store.Value()) && store.replicas == map[] && store.applications == map[]
      ensures ClustersConfigured(before + [cfg], store.clusters)
    {
      var nodes := BuildNodes(cfg);
      EmptyClusterIsSafe(store.Value(), cfg, nodes);
      ClusterConfigured(before, cfg, store.clusters, Cluster(cfg.id, nodes, 0.0));
      store.UpsertCluster(Cluster(cfg.id, nodes, 0.0));
    }

    /** Applies the due events to what was there when processing began. */
    method ProcessEvents()
      requires Valid()
      modifies this`eventQueue, store
      ensures EventsApplied(old(store.Value()), store.Value(), old(eventQueue), currentTime)
      ensures eventQueue == Later(old(eventQueue), currentTime)
    {
      ghost var w := store.Value();
      EventsAppliedNone(w, currentTime);
      if |eventQueue| == 0 {
        return;
      }
      var snap := store.TakeSnapshot(currentTime);
      var remaining: seq<SimulationEvent> := [];
      var queue := eventQueue;
      for i := 0 to |queue|
        invariant EventsApplied(w, store.Value(), queue[..i], currentTime)
        invariant remaining == Later(queue[..i], currentTime)
      {
        var e := queue[i];
        assert queue[..i + 1] == queue[..i] + [e];
        LaterSplit(queue[..i], e, currentTime);
        if e.time <= currentTime {
          ApplyEvent(e, snap, w, queue[..i]);
        } else {
          EventsAppliedSkip(w, store.Value(), queue[..i], e, currentTime);
          remaining := remaining + [e];
        }
      }
      assert queue[..|queue|] == queue;
      eventQueue := remaining;
    }

    method ApplyEvent(e: SimulationEvent, snap: Snapshot, ghost w: World, ghost before: seq<SimulationEvent>)
      requires Safe(w) && snap.replicas == w.replicas && snap.clusters == w.clusters && e.time <= currentTime
      requires EventsApplied(w, store.Value(), before, currentTime)
      modifies store
      ensures EventsApplied(w, store.Value(), before + [e], currentTime)
    {
      ghost var started := Started(before, currentTime);
      ghost var down := NodesOf(w.clusters, LostClusters(before, currentTime));
      DueEvent(w, before, e, currentTime);
      match e {
        case MarkRunning(_, id) =>
          MarkReplicaRunning(id, snap, w, started, down);
        case ClusterDown(_, c) =>
          MarkClusterDown(c, snap, w, started, down);
      }
    }

    method MarkReplicaRunning(id: ReplicaID, snap: Snapshot, ghost w: World, ghost started: set<ReplicaID>,
                              ghost down: set<(ClusterID, NodeID)>)
      requires Safe(w) && snap.replicas == w.replicas
      requires Restatused(w, store.Value(), started, down)
      modifies store
      ensures Restatused(w, store.Value(), started + {id}, down)
    {
      if id in snap.replicas {
        PromotionStep(w, store.Value(), started, down, id);
        store.UpsertReplica(snap.replicas[id].(status := Running));
      } else {
        PromotionOfUnknown(w, store.Value(), started, down, id);
      }
    }

    /** Writes every node of the snapshot's cluster back as down. */
    method MarkClusterDown(c: ClusterID, snap: Snapshot, ghost w: World, ghost started: set<ReplicaID>,
                           ghost down: set<(ClusterID, NodeID)>)
      requires Safe(w) && snap.clusters == w.clusters
      requires Restatused(w, store.Value(), started, down)
      modifies store
      ensures Restatused(w, store.Value(), started, down + NodesOf(w.clusters, {c}))
    {
      UnknownHasNoNodes(w.clusters, down, c);
      if c !in snap.clusters {
        return;
      }
      var nodes := snap.clusters[c].nodes;
      var todo := nodes.Keys;
      MarkedEnds(w.clusters, down, c);
      while todo != {}
        invariant todo <= nodes.Keys
        invariant Restatused(w, store.Value(), started, MarkedNodes(down, c, nodes.Keys, todo))
      {
        var n :| n in todo;
        MarkNodeDown(c, n, snap, w, started, MarkedNodes(down, c, nodes.Keys, todo));
        MarkedStep(down, c, nodes.Keys, todo, n);
        todo := todo - {n};
      }
    }

    method MarkNodeDown(c: ClusterID, n: NodeID, snap: Snapshot, ghost w: World, ghost started: set<ReplicaID>,
                        ghost down: set<(ClusterID, NodeID)>)
      requires Safe(w) && snap.clusters == w.clusters && c in snap.clusters && n in snap.clusters[c].nodes
      requires Restatused(w, store.Value(), started, down)
      modifies store
      ensures Restatused(w, store.Value(), started, down + {(c, n)})
    {
      DownStep(w, store.Value(), started, down, c, n);
      store.UpsertNode(snap.clusters[c].nodes[n].(status := Down));
    }

    /** Some ready node of the cluster with room, if there is one. */
    method FindNodeWithCapacity(clusterID: ClusterID, gpus: int) returns (nodeID: NodeID)
      requires Safe(store.Value())
      ensures nodeID != "" <==> SomeRoomIn(store.Value(), clusterID, gpus)
      ensures nodeID != "" ==> RoomAt(store.Value(), clusterID, nodeID, gpus)
    {
      var snap := store.TakeSnapshot(currentTime);
      if clusterID !in snap.clusters {
        return "";
      }
      var todo := snap.clusters[clusterID].nodes.Keys;
      while todo != {}
        invariant todo <= snap.clusters[clusterID].nodes.Keys
        invariant forall n | n !in todo :: !RoomAt(store.Value(), clusterID, n, gpus)
      {
        var n :| n in todo;
        todo := todo - {n};
        var node := snap.clusters[clusterID].nodes[n];
        if node.status == Ready && node.freeGPUs >= gpus {
          assert RoomAt(store.Value(), clusterID, n, gpus);
          return node.nodeID;
        }
      }
      return "";
    }

    method PlaceReplica(su: ScaleUpDecision, nodeID: NodeID, i: nat)
      modifies this`eventQueue, store
      ensures store.Value() == Placed(old(store.Value()), su, nodeID, currentTime, i)
      ensures eventQueue == old(eventQueue) + [StartOf(su, i, apps, currentTime)]
    {
      var replica := NewReplica(su, nodeID, SizeFor(store.applications, su.appID), currentTime, i);
      store.UpsertReplica(replica);
      if su.reservationID != "" {
        var _ := store.FulfillReservation(su.reservationID);
      }
      var coldStart := FindColdStart(apps, su.appID);
      eventQueue := eventQueue + [MarkRunning(currentTime + coldStart, replica.replicaID)];
    }

    /** Places the i-th scale-up on a node with room and queues its start; without
        room anywhere in its cluster, drops it. */
    method EnactScaleUp(su: ScaleUpDecision, i: nat)
      requires Safe(store.Value()) && AllNamedBefore(store.replicas, currentTime, i)
      modifies this`eventQueue, store
      ensures Safe(store.Value()) && AllNamedBefore(store.replicas, currentTime, i + 1)
      ensures Evolves(old(store.Value()), store.Value())
      ensures ScaleUpEnacted(old(store.Value()), store.Value(), old(eventQueue), eventQueue, su, i, apps, currentTime)
    {
      ghost var w := store.Value();
      NamesStayBefore(w.replicas, currentTime, i, currentTime, i + 1);
      var gpus := SizeFor(store.applications, su.appID);
      var nodeID := FindNodeWithCapacity(su.clusterID, gpus);
      if nodeID == "" {
        return;
      }
      PlacedIsSafe(w, su, nodeID, currentTime, i);
      PlacedTakesRoom(w, su, nodeID, currentTime, i);
      PlacedIsNamed(w, su, nodeID, currentTime, i);
      PlaceReplica(su, nodeID, i);
    }

    /** The i-th scale-up, and what that does to the summary of those before it. */
    method EnactNext(ups: seq<ScaleUpDecision>, i: nat, ghost w: World, ghost q: seq<SimulationEvent>,
                     ghost ms0: seq<Moment>)
      returns (ghost ms: seq<Moment>)
      requires i < |ups| && Safe(store.Value()) && AllNamedBefore(store.replicas, currentTime, i)
      requires Evolves(w, store.Value()) && InTurn(ms0, ups, i, apps, currentTime)
      requires ms0[i] == Moment(store.Value(), eventQueue)
      requires Grown(w.replicas, store.replicas, ups, i, currentTime, w.applications)
      requires Announced(q, eventQueue, w.replicas, store.replicas, apps, currentTime)
      modifies this`eventQueue, store
      ensures Safe(store.Value()) && AllNamedBefore(store.replicas, currentTime, i + 1)
      ensures Evolves(w, store.Value()) && InTurn(ms, ups, i + 1, apps, currentTime)
      ensures ms == ms0 + [Moment(store.Value(), eventQueue)]
      ensures Grown(w.replicas, store.replicas, ups, i + 1, currentTime, w.applications)
      ensures Announced(q, eventQueue, w.replicas, store.replicas, apps, currentTime)
    {
      ghost var w1, q1 := store.Value(), eventQueue;
      EnactScaleUp(ups[i], i);
      EvolvesTransitive(w, w1, store.Value());
      ScaleUpStep(w.replicas, w1, store.Value(), q, q1, eventQueue, ups, i, apps, currentTime);
      ChainGrows(ms0, TurnOf(ups, apps, currentTime), Moment(store.Value(), eventQueue));
      ms := ms0 + [Moment(store.Value(), eventQueue)];
    }

    method EnactScaleUps(ups: seq<ScaleUpDecision>) returns (ghost ms: seq<Moment>)
      requires Valid()
      modifies this`eventQueue, store
      ensures Safe(store.Value()) && AllNamedBefore(store.replicas, currentTime, |ups|)
      ensures Evolves(old(store.Value()), store.Value())
      ensures InTurn(ms, ups, |ups|, apps, currentTime)
      ensures ms[0] == old(Moment(store.Value(), eventQueue)) && ms[|ups|] == Moment(store.Value(), eventQueue)
      ensures Grown(old(store.replicas), store.replicas, ups, |ups|, currentTime, old(store.applications))
      ensures Announced(old(eventQueue), eventQueue, old(store.replicas), store.replicas, apps, currentTime)
    {
      ghost var w, q := store.Value(), eventQueue;
      ms := [Moment(w, q)];
      for i := 0 to |ups|
        invariant Safe(store.Value()) && AllNamedBefore(store.replicas, currentTime, i)
        invariant Evolves(w, store.Value())
        invariant InTurn(ms, ups, i, apps, currentTime)
        invariant ms[0] == Moment(w, q) && ms[i] == Moment(store.Value(), eventQueue)
        invariant Grown(w.replicas, store.replicas, ups, i, currentTime, w.applications)
        invariant Announced(q, eventQueue, w.replicas, store.replicas, apps, currentTime)
      {
        ms := EnactNext(ups, i, w, q, ms);
      }
    }

    method DeleteNext(ids: seq<ReplicaID>, i: nat, ghost w: World)
      requires i < |ids| && Safe(store.Value()) && Evolves(w, store.Value())
      requires store.Value() == AllDeleted(w, ids[..i]) && store.replicas == w.replicas - IdSet(ids[..i])
      modifies store
      ensures Safe(store.Value()) && Evolves(w, store.Value())
      ensures store.Value() == AllDeleted(w, ids[..i + 1]) && store.replicas == w.replicas - IdSet(ids[..i + 1])
    {
      ghost var w1 := store.Value();
      DeletingIsSafe(w1, ids[i]);
      DeletingEvolves(w1, ids[i]);
      store.DeleteReplica(ids[i]);
      EvolvesTransitive(w, w1, store.Value());
      IdSetStep(ids, i);
      assert ids[..i + 1][..i] == ids[..i];
    }

    method DeleteAll(ids: seq<ReplicaID>)
      requires Safe(store.Value())
      modifies store
      ensures Safe(store.Value()) && Evolves(old(store.Value()), store.Value())
      ensures store.Value() == AllDeleted(old(store.Value()), ids)
      ensures store.replicas == old(store.replicas) - IdSet(ids)
    {
      ghost var w := store.Value();
      for i := 0 to |ids|
        invariant Safe(store.Value()) && Evolves(w, store.Value())
        invariant store.Value() == AllDeleted(w, ids[..i])
        invariant store.replicas == w.replicas - IdSet(ids[..i])
      {
        DeleteNext(ids, i, w);
      }
      assert ids[..|ids|] == ids;
    }

    /** Neither reservations nor metrics touch what safety is about. */
    method CreateReservations(reservations: seq<GPUReservation>)
      requires Safe(store.Value())
      modifies store
      ensures Safe(store.Value()) && SamePlacement(old(store.Value()), store.Value())
    {
      ghost var w := store.Value();
      for i := 0 to |reservations|
        invariant SamePlacement(w, store.Value())
      {
        var _ := store.CreateReservation(reservations[i]);
      }
      SamePlacementIsSafe(w, store.Value());
    }

    method UpdateLoad(metrics: seq<VLLMMetrics>)
      requires Safe(store.Value())
      modifies store
      ensures Safe(store.Value()) && SamePlacement(old(store.Value()), store.Value())
    {
      ghost var w := store.Value();
      for i := 0 to |metrics|
        invariant SamePlacement(w, store.Value())
      {
        store.UpdateVLLMMetrics(metrics[i]);
      }
      SamePlacementIsSafe(w, store.Value());
    }

    method ExpireReservations()
      requires Safe(store.Value())
      modifies store
      ensures Safe(store.Value()) && SamePlacement(old(store.Value()), store.Value())
    {
      ghost var w := store.Value();
      var _ := store.ExpireStaleReservations(currentTime);
      SamePlacementIsSafe(w, store.Value());
    }

    /** Enacts any decisions whatever: victims go, scale-ups are placed where there
        is room, scaled-down replicas go. */
    method ApplyDecisions(d: PlacementDecisions)
      requires Valid()
      modifies this`eventQueue, store
      ensures Safe(store.Value()) && AllNamedBefore(store.replicas, currentTime, |d.scaleUps|)
      ensures Evolves(old(store.Value()), store.Value())
      ensures Enacted(old(store.Value()), old(eventQueue), store.Value(), eventQueue, d, apps, currentTime)
    {
      ghost var w0 := store.Value();
      DeleteAll(VictimIds(d.preemptions));
      VictimIdsAre(d.preemptions);
      ghost var w1 := store.Value();
      CreateReservations(d.reservations);
      ghost var w2 := store.Value();
      SamePlacementIsSafe(w1, w2);
      EvolvesTransitive(w0, w1, w2);
      ghost var ms := EnactScaleUps(d.scaleUps);
      ghost var w3 := store.Value();
      EvolvesTransitive(w0, w2, w3);
      DeleteAll(RemovedIds(d.scaleDowns));
      RemovedIdsAre(d.scaleDowns);
      EvolvesTransitive(w0, w3, store.Value());
      assert EnactedVia(w0, old(eventQueue), ms, store.Value(), eventQueue, d, apps, currentTime);
    }

    /** One tick, on whatever load arrives and whatever the engines decide. */
    method Tick(metrics: seq<VLLMMetrics>, d: PlacementDecisions)
      requires Valid()
      modifies this`eventQueue, store
      ensures AllNamedBefore(store.replicas, currentTime, |d.scaleUps|)
      ensures Ticked(old(store.Value()), old(eventQueue), store.Value(), eventQueue, d, apps, currentTime)
    {
      ghost var w0, q0 := store.Value(), eventQueue;
      ProcessEvents();
      ghost var w1, q1 := store.Value(), eventQueue;
      RestatusedEvolves(w0, w1, Started(q0, currentTime), NodesOf(w0.clusters, LostClusters(q0, currentTime)));
      ExpireReservations();
      ghost var w2 := store.Value();
      UpdateLoad(metrics);
      ghost var w3 := store.Value();
      SamePlacementIsSafe(w1, w3);
      EvolvesTransitive(w0, w1, w3);
      ApplyDecisions(d);
      EvolvesTransitive(w0, w3, store.Value());
      EvolvesTransitive(w1, w3, store.Value());
      LostStayDown(w0, w1, store.Value(), q0, currentTime);
      assert TickedVia(w0, q0, w1, w3, store.Value(), eventQueue, d, apps, currentTime);
    }

    /** A tick and the step of the clock after it. */
    method Advance(n: nat, metrics: seq<VLLMMetrics>, d: PlacementDecisions, ghost start: nat)
      requires Valid() && currentTime == TimeOf(start, tickInterval, n)
      requires tickInterval > 0
      modifies this, store
      ensures Valid() && currentTime == TimeOf(start, tickInterval, n + 1) == old(currentTime) + tickInterval
      ensures Ticked(old(store.Value()), old(eventQueue), store.Value(), eventQueue, d, apps,
                     TimeOf(start, tickInterval, n))
    {
      Tick(metrics, d);
      NamesStayBefore(store.replicas, currentTime, |d.scaleUps|, currentTime + tickInterval, 0);
      NextTick(start, n, tickInterval);
      currentTime := currentTime + tickInterval;
    }

    method AdvanceRun(n: nat, metrics: seq<VLLMMetrics>, decisions: nat -> PlacementDecisions, ghost start: nat,
                      ghost ms0: seq<Moment>)
      returns (ghost ms: seq<Moment>)
      requires Valid() && currentTime == TimeOf(start, tickInterval, n)
      requires tickInterval > 0 && |ms0| == n + 1 && ms0[n] == Moment(store.Value(), eventQueue)
      requires IsRun(ms0, decisions, apps, start, tickInterval) && SafeHistory(ms0)
      modifies this, store
      ensures Valid() && currentTime == TimeOf(start, tickInterval, n + 1) == old(currentTime) + tickInterval
      ensures ms == ms0 + [Moment(store.Value(), eventQueue)]
      ensures IsRun(ms, decisions, apps, start, tickInterval) && SafeHistory(ms)
    {
      Advance(n, metrics, decisions(n), start);
      ghost var m := Moment(store.Value(), eventQueue);
      RunGrows(ms0, decisions, apps, start, tickInterval, m);
      HistoryGrows(ms0, m);
      ms := ms0 + [m];
    }

    /** A whole run, on any load and any decisions: it ticks until the end time, each
        state comes from the one before by the tick of its time, and every one is safe
        and evolves from every earlier one. */
    method Run(metrics: nat -> seq<VLLMMetrics>, decisions: nat -> PlacementDecisions)
      returns (ghost ms: seq<Moment>)
      requires Valid() && tickInterval > 0
      modifies this, store
      ensures Valid() && IsRun(ms, decisions, apps, old(currentTime), tickInterval)
      ensures ms[0] == old(Moment(store.Value(), eventQueue)) && ms[|ms| - 1] == Moment(store.Value(), eventQueue)
      ensures currentTime == TimeOf(old(currentTime), tickInterval, |ms| - 1)
      ensures currentTime >= endTime && (|ms| > 1 ==> currentTime - tickInterval < endTime)
      ensures SafeHistory(ms)
      ensures AllSized(old(store.Value())) ==> SizedHistory(ms)
    {
      ghost var start, first := currentTime, Moment(store.Value(), eventQueue);
      ms := [first];
      var n: nat := 0;
      while currentTime < endTime
        invariant Valid() && IsRun(ms, decisions, apps, start, tickInterval) && SafeHistory(ms)
        invariant |ms| == n + 1 && currentTime == TimeOf(start, tickInterval, n)
        invariant ms[0] == first && ms[n] == Moment(store.Value(), eventQueue)
        invariant n > 0 ==> currentTime - tickInterval < endTime
        decreases endTime - currentTime
      {
        ms := AdvanceRun(n, metrics(n), decisions, start, ms);
        n := n + 1;
      }
      if AllSized(first.world) {
        RunIsSized(ms, decisions, apps, start, tickInterval);
      }
    }
  }

  lemma NextTick(start: nat, n: nat, tickInterval: nat)
    ensures TimeOf(start, tickInterval, n) + tickInterval == TimeOf(start, tickInterval, n + 1)
  {
  }
}
