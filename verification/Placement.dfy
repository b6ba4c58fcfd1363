/** The placement engine: scale-down victims, the best cluster for one replica,
    and the whole cycle. */
module Placement {
  import opened Model
  import opened Collections
  import opened Snapshots
  import opened Preemption
  import opened PlacementScoring
  import opened PlacementCycle
  import opened ScaleDownVictims

  // ---------- One cluster at a time ----------

  method HasFittingNode(nodes: map<NodeID, Node>, need: int) returns (fits: bool)
    ensures fits <==> HasFit(nodes, need)
  {
    var todo := nodes.Keys;
    while todo != {}
      invariant todo <= nodes.Keys
      invariant forall id | id in nodes && id !in todo :: !Fits(nodes[id], need)
    {
      var id :| id in todo;
      todo := todo - {id};
      if nodes[id].status == Ready && nodes[id].freeGPUs >= need {
        return true;
      }
    }
    return false;
  }

  /** The cycle's own reservations per cluster. */
  ghost predicate TracksReservations(local: map<ClusterID, int>, log: Log) {
    forall c :: TotalIn(local, c) == Reserved(log, c)
  }

  /** Replicas of one application planned so far per cluster. */
  ghost predicate TracksApp(placed: map<ClusterID, int>, log: Log, app: AppID) {
    && (forall c :: TotalIn(placed, c) == PlannedIn(log, app, c))
    && MapSum(placed, Itself()) == PlannedFor(log, app)
  }

  function Itself(): int -> int {
    (n: int) => n
  }

  method ClusterAvailableGPUs(cluster: ClusterID, snap: Snapshot, local: map<ClusterID, int>, ghost log: Log)
    returns (free: int)
    requires TracksReservations(local, log)
    ensures free == if cluster in snap.clusters then Available(snap, log, cluster) else 0
  {
    if cluster !in snap.clusters {
      return 0;
    }
    free := SumMap(snap.clusters[cluster].nodes, ReadyFree());
    var held := SumMap(snap.reservations, HeldIn(cluster));
    free := free - held - TotalIn(local, cluster);
    if free < 0 {
      return 0;
    }
  }

  method EligibleClusters(snap: Snapshot, need: int, local: map<ClusterID, int>, ghost log: Log)
    returns (eligible: seq<ClusterID>)
    requires TracksReservations(local, log)
    ensures Enumerates(eligible, EligibleSet(snap, log, need))
  {
    eligible := [];
    var todo := snap.clusters.Keys;
    while todo != {}
      invariant todo <= snap.clusters.Keys
      invariant Enumerates(eligible, EligibleSet(snap, log, need) - todo)
    {
      var c :| c in todo;
      ghost var before := EligibleSet(snap, log, need) - todo;
      todo := todo - {c};
      var fits := HasFittingNode(snap.clusters[c].nodes, need);
      var available := ClusterAvailableGPUs(c, snap, local, log);
      if fits && available >= need {
        EnumeratesAppend(eligible, before, c);
        assert EligibleSet(snap, log, need) - todo == before + {c};
        eligible := eligible + [c];
      } else {
        assert EligibleSet(snap, log, need) - todo == before;
      }
    }
    assert EligibleSet(snap, log, need) - todo == EligibleSet(snap, log, need);
  }

  method ComputeSpreadLimit(snap: Snapshot, app: Application, eligible: seq<ClusterID>, placed: map<ClusterID, int>,
                            ghost log: Log) returns (limit: int)
    requires WellKeyed(snap) && TracksApp(placed, log, app.appID)
    requires Enumerates(eligible, EligibleSet(snap, log, app.gpusPerReplica)) && eligible != []
    ensures EligibleSet(snap, log, app.gpusPerReplica) != {}
    ensures limit == SpreadLimit(snap, log, app)
  {
    assert eligible[0] in EligibleSet(snap, log, app.gpusPerReplica);
    EnumerationSize(eligible, EligibleSet(snap, log, app.gpusPerReplica));
    var active := CountActiveReplicas(snap, app.appID);
    var planned := SumMap(placed, Itself());
    limit := CeilDiv(active + planned + 1, |eligible|);
  }

  /** Replicas active or already planned in one cluster. */
  method CountReplicasIn(snap: Snapshot, app: AppID, cluster: ClusterID, placed: map<ClusterID, int>, ghost log: Log)
    returns (count: int)
    requires WellKeyed(snap) && TracksApp(placed, log, app)
    ensures count == HoldsIn(snap, log, app, cluster)
  {
    var test := (r: Replica) => r.clusterID == cluster && r.IsActive();
    count := CountMatching(snap, app, test);
    assert ActiveIdsIn(snap.replicas, app, cluster) ==
           set id | id in snap.replicas && snap.replicas[id].appID == app && test(snap.replicas[id]);
    count := count + TotalIn(placed, cluster);
  }

  method ScoreCluster(cfg: PlacementConfig, snap: Snapshot, app: Application, cluster: ClusterID)
    returns (score: real, preferred: seq<NodeID>)
    requires cfg.maxGPUsPerNode > 0 && cluster in snap.clusters && app.gpusPerReplica >= 0
    ensures IsScore(cfg, snap, app, cluster, score)
    ensures preferred == PreferredNodes(LocationsOf(snap, app.modelID), cluster)
  {
    var nodes := snap.clusters[cluster].nodes;
    var cacheScore;
    cacheScore, preferred := ComputeCacheScore(cfg, app.modelID, cluster, snap);
    var packingScore := ComputePackingScore(cfg, nodes, app.gpusPerReplica);
    var balanceScore := ComputeBalanceScore(nodes);
    score := cacheScore + (cfg.weightFragmentation * packingScore + cfg.weightBalance * balanceScore);
    assert PackedScore(cfg, snap, app, cluster, packingScore, score);
  }

  lemma ScoreUnique(cfg: PlacementConfig, snap: Snapshot, app: Application, c: ClusterID, x: real, y: real)
    requires cfg.maxGPUsPerNode > 0 && c in snap.clusters
    requires IsScore(cfg, snap, app, c, x) && IsScore(cfg, snap, app, c, y)
    ensures x == y
  {
    var p :| PackedScore(cfg, snap, app, c, p, x);
    var q :| PackedScore(cfg, snap, app, c, q, y);
    assert p == q by {
      PackingScoreUnique(cfg, snap.clusters[c].nodes, app.gpusPerReplica, p, q);
    }
    PackedScoreUnique(cfg, snap, app, c, p, x, y);
  }

  lemma PackedScoreUnique(cfg: PlacementConfig, snap: Snapshot, app: Application, c: ClusterID, p: real, x: real,
                          y: real)
    requires cfg.maxGPUsPerNode > 0 && c in snap.clusters
    requires PackedScore(cfg, snap, app, c, p, x) && PackedScore(cfg, snap, app, c, p, y)
    ensures x == y
  {
  }

  // ---------- The best cluster ----------

  datatype Best = Best(clusterID: ClusterID, score: real, preferredNodes: seq<NodeID>)

  /** best, if any, is an allowed cluster among seen with the highest score. */
  ghost predicate BestSoFar(cfg: PlacementConfig, snap: Snapshot, log: Log, app: Application, seen: seq<ClusterID>,
                            best: Option<Best>)
    requires cfg.maxGPUsPerNode > 0
  {
    match best
    case None => forall c | c in seen :: !Allowed(snap, log, app, c)
    case Some(b) =>
      && Allowed(snap, log, app, b.clusterID)
      && IsScore(cfg, snap, app, b.clusterID, b.score)
      && b.preferredNodes == PreferredNodes(LocationsOf(snap, app.modelID), b.clusterID)
      && forall c, score | c in seen && Allowed(snap, log, app, c) && IsScore(cfg, snap, app, c, score) ::
           score <= b.score
  }

  lemma BestSkips(cfg: PlacementConfig, snap: Snapshot, log: Log, app: Application, seen: seq<ClusterID>,
                  best: Option<Best>, c: ClusterID)
    requires cfg.maxGPUsPerNode > 0 && BestSoFar(cfg, snap, log, app, seen, best)
    requires !Allowed(snap, log, app, c)
    ensures BestSoFar(cfg, snap, log, app, seen + [c], best)
  {
  }

  lemma BestImproves(cfg: PlacementConfig, snap: Snapshot, log: Log, app: Application, seen: seq<ClusterID>,
                     best: Option<Best>, b: Best)
    requires cfg.maxGPUsPerNode > 0 && BestSoFar(cfg, snap, log, app, seen, best)
    requires Allowed(snap, log, app, b.clusterID) && IsScore(cfg, snap, app, b.clusterID, b.score)
    requires b.preferredNodes == PreferredNodes(LocationsOf(snap, app.modelID), b.clusterID)
    ensures BestSoFar(cfg, snap, log, app, seen + [b.clusterID],
                      if best.None? || b.score > best.value.score then Some(b) else best)
  {
    forall score | IsScore(cfg, snap, app, b.clusterID, score) ensures score == b.score {
      ScoreUnique(cfg, snap, app, b.clusterID, score, b.score);
    }
  }

  function ConstraintsFor(snap: Snapshot, app: Application, cluster: ClusterID): SchedulingConstraints {
    SchedulingConstraints(app.gpusPerReplica, PreferredNodes(LocationsOf(snap, app.modelID), cluster), app.modelID)
  }

  /** Finds a best-scoring cluster under the capacity filter and the spread limit.
      It succeeds exactly when some cluster passes the capacity filter: the spread
      limit never refuses. */
  method FindBestCluster(e: Engine, app: Application, snap: Snapshot, local: map<ClusterID, int>,
                         placed: map<ClusterID, int>, ghost log: Log)
    returns (cluster: ClusterID, constraints: SchedulingConstraints, ok: bool)
    requires e.cfg.maxGPUsPerNode > 0 && WellKeyed(snap) && app.gpusPerReplica >= 0
    requires TracksReservations(local, log) && TracksApp(placed, log, app.appID)
    ensures ok <==> EligibleSet(snap, log, app.gpusPerReplica) != {}
    ensures ok ==> IsBest(e, snap, log, app, cluster) && constraints == ConstraintsFor(snap, app, cluster)
  {
    var eligible := EligibleClusters(snap, app.gpusPerReplica, local, log);
    cluster, constraints, ok := "", SchedulingConstraints(0, [], ""), false;
    if eligible == [] {
      assert EligibleSet(snap, log, app.gpusPerReplica) == {} by {
        EnumerationSize(eligible, EligibleSet(snap, log, app.gpusPerReplica));
      }
      return;
    }
    var spreadLimit := ComputeSpreadLimit(snap, app, eligible, placed, log);
    var best := ScanForBest(e.cfg, app, snap, eligible, spreadLimit, placed, log);
    SomeClusterBelowLimit(snap, log, app);
    var b := best.value;
    cluster, constraints, ok :=
      b.clusterID, SchedulingConstraints(app.gpusPerReplica, b.preferredNodes, app.modelID), true;
    assert IsBest(e, snap, log, app, cluster) by {
      assert forall c, score | Allowed(snap, log, app, c) && IsScore(e.cfg, snap, app, c, score) :: score <= b.score;
    }
  }

  /** The second pass: spread limit, then score, strictly better wins. */
  method ScanForBest(cfg: PlacementConfig, app: Application, snap: Snapshot, eligible: seq<ClusterID>, spreadLimit: int,
                     placed: map<ClusterID, int>, ghost log: Log)
    returns (best: Option<Best>)
    requires cfg.maxGPUsPerNode > 0 && WellKeyed(snap) && app.gpusPerReplica >= 0
    requires TracksApp(placed, log, app.appID)
    requires Enumerates(eligible, EligibleSet(snap, log, app.gpusPerReplica))
    requires EligibleSet(snap, log, app.gpusPerReplica) != {} && spreadLimit == SpreadLimit(snap, log, app)
    ensures BestSoFar(cfg, snap, log, app, eligible, best)
  {
    best := None;
    for i := 0 to |eligible|
      invariant BestSoFar(cfg, snap, log, app, eligible[..i], best)
    {
      var c := eligible[i];
      assert c in EligibleSet(snap, log, app.gpusPerReplica);
      assert eligible[..i + 1] == eligible[..i] + [c];
      if app.failureDomainRule == SpreadClusters {
        var replicasInCluster := CountReplicasIn(snap, app.appID, c, placed, log);
        if replicasInCluster >= spreadLimit {
          BestSkips(cfg, snap, log, app, eligible[..i], best, c);
          continue;
        }
      }
      var totalScore, preferredNodes := ScoreCluster(cfg, snap, app, c);
      var b := Best(c, totalScore, preferredNodes);
      BestImproves(cfg, snap, log, app, eligible[..i], best, b);
      if best.None? || totalScore > best.value.score {
        best := Some(b);
      }
    }
    assert eligible[..|eligible|] == eligible;
  }

  // ---------- What a log amounts to ----------

  /** Ids drawn for reservations, in drawing order. */
  type ReservationIds = nat -> ReservationID

  function ReservationTTL(cfg: PlacementConfig, snap: Snapshot, app: AppID): int {
    if app in snap.performanceProfiles && snap.performanceProfiles[app].coldStartSeconds > 0.0 then
      cfg.reservationTTLMultiplier * snap.performanceProfiles[app].coldStartSeconds.Floor
    else cfg.defaultReservationTTLSeconds
  }

  function ReservationFor(cfg: PlacementConfig, snap: Snapshot, id: ReservationID, p: Placed): GPUReservation {
    GPUReservation(id, p.clusterID, p.gpus, p.appID, snap.takenAt, ReservationTTL(cfg, snap, p.appID), Active)
  }

  ghost function ScaleUpFor(snap: Snapshot, id: ReservationID, p: Placed): ScaleUpDecision
    requires p.appID in snap.applications
  {
    ScaleUpDecision(p.appID, p.clusterID, id,
                    if p.via.Some? then p.via.value.constraints
                    else ConstraintsFor(snap, snap.applications[p.appID], p.clusterID))
  }

  /** Reservations and scale-ups correspond one to one, in the order of the log,
      and the preemptions are the victims of the adopted plans. */
  ghost predicate Corresponds(cfg: PlacementConfig, snap: Snapshot, ids: ReservationIds, log: Log,
                              d: PlacementDecisions)
  {
    && |d.reservations| == |d.scaleUps| == |log|
    && (forall i | 0 <= i < |log| ::
          && log[i].appID in snap.applications
          && d.reservations[i] == ReservationFor(cfg, snap, ids(i), log[i])
          && d.scaleUps[i] == ScaleUpFor(snap, ids(i), log[i]))
    && d.preemptions == VictimsOf(log)
  }

  // ---------- Deltas ----------

  datatype AppDelta = AppDelta(appID: AppID, delta: int)

  /** How many replicas an approved decision wants to add; negative to remove. */
  ghost function Delta(snap: Snapshot, decisions: map<AppID, ScalingDecision>, app: AppID): int {
    if app in decisions && decisions[app].scaleActionApproved then
      decisions[app].targetCount - ActiveCount(snap.replicas, app)
    else 0
  }

  ghost predicate ListsDeltas(snap: Snapshot, decisions: map<AppID, ScalingDecision>, q: seq<AppDelta>,
                              apps: set<AppID>)
  {
    && (forall i, j :: 0 <= i < j < |q| ==> q[i].appID != q[j].appID)
    && (forall x | x in q :: x.appID in apps && x.delta == Delta(snap, decisions, x.appID))
    && (forall a | a in apps :: exists i :: 0 <= i < |q| && q[i].appID == a)
  }

  ghost function Growing(snap: Snapshot, decisions: map<AppID, ScalingDecision>): set<AppID> {
    set a | a in decisions && Delta(snap, decisions, a) > 0
  }

  ghost function Shrinking(snap: Snapshot, decisions: map<AppID, ScalingDecision>): set<AppID> {
    set a | a in decisions && Delta(snap, decisions, a) < 0
  }

  lemma ListsDeltasAppend(snap: Snapshot, decisions: map<AppID, ScalingDecision>, q: seq<AppDelta>, apps: set<AppID>,
                          x: AppDelta)
    requires ListsDeltas(snap, decisions, q, apps)
    requires x.appID !in apps && x.delta == Delta(snap, decisions, x.appID)
    ensures ListsDeltas(snap, decisions, q + [x], apps + {x.appID})
  {
    assert forall i | 0 <= i < |q| :: q[i] in q;
    forall a | a in apps + {x.appID} ensures exists i :: 0 <= i < |q + [x]| && (q + [x])[i].appID == a {
      if a in apps {
        var i :| 0 <= i < |q| && q[i].appID == a;
        assert (q + [x])[i] == q[i];
      } else {
        assert (q + [x])[|q|] == x;
      }
    }
  }

  /** The deltas of the applications already looked at. */
  ghost predicate SplitsDeltas(snap: Snapshot, decisions: map<AppID, ScalingDecision>, todo: set<AppID>,
                               scaleDowns: seq<AppDelta>, scaleUps: seq<AppDelta>)
  {
    && ListsDeltas(snap, decisions, scaleDowns, Shrinking(snap, decisions) - todo)
    && ListsDeltas(snap, decisions, scaleUps, Growing(snap, decisions) - todo)
  }

  lemma ListsDeltasStep(snap: Snapshot, decisions: map<AppID, ScalingDecision>, q: seq<AppDelta>, all: set<AppID>,
                        todo: set<AppID>, a: AppID)
    requires ListsDeltas(snap, decisions, q, all - todo) && a in todo
    ensures ListsDeltas(snap, decisions, if a in all then q + [AppDelta(a, Delta(snap, decisions, a))] else q,
                        all - (todo - {a}))
  {
    if a in all {
      assert all - (todo - {a}) == (all - todo) + {a};
      ListsDeltasAppend(snap, decisions, q, all - todo, AppDelta(a, Delta(snap, decisions, a)));
    } else {
      assert all - (todo - {a}) == all - todo;
    }
  }

  lemma SplitsDeltasStep(snap: Snapshot, decisions: map<AppID, ScalingDecision>, todo: set<AppID>,
                         scaleDowns: seq<AppDelta>, scaleUps: seq<AppDelta>, a: AppID)
    requires SplitsDeltas(snap, decisions, todo, scaleDowns, scaleUps) && a in todo && a in decisions
    ensures var delta := Delta(snap, decisions, a);
            SplitsDeltas(snap, decisions, todo - {a},
                         if delta < 0 then scaleDowns + [AppDelta(a, delta)] else scaleDowns,
                         if delta > 0 then scaleUps + [AppDelta(a, delta)] else scaleUps)
  {
    ListsDeltasStep(snap, decisions, scaleDowns, Shrinking(snap, decisions), todo, a);
    ListsDeltasStep(snap, decisions, scaleUps, Growing(snap, decisions), todo, a);
  }

  method AddDelta(snap: Snapshot, decisions: map<AppID, ScalingDecision>, ghost todo: set<AppID>,
                  scaleDowns0: seq<AppDelta>, scaleUps0: seq<AppDelta>, a: AppID)
    returns (scaleDowns: seq<AppDelta>, scaleUps: seq<AppDelta>)
    requires WellKeyed(snap) && a in todo && todo <= decisions.Keys
    requires SplitsDeltas(snap, decisions, todo, scaleDowns0, scaleUps0)
    ensures SplitsDeltas(snap, decisions, todo - {a}, scaleDowns, scaleUps)
  {
    scaleDowns, scaleUps := scaleDowns0, scaleUps0;
    SplitsDeltasStep(snap, decisions, todo, scaleDowns, scaleUps, a);
    if !decisions[a].scaleActionApproved {
      return;
    }
    var currentCount := CountActiveReplicas(snap, a);
    var delta := decisions[a].targetCount - currentCount;
    if delta < 0 {
      scaleDowns := scaleDowns + [AppDelta(a, delta)];
    } else if delta > 0 {
      scaleUps := scaleUps + [AppDelta(a, delta)];
    }
  }

  method ComputeDeltas(snap: Snapshot, decisions: map<AppID, ScalingDecision>)
    returns (scaleDowns: seq<AppDelta>, scaleUps: seq<AppDelta>)
    requires WellKeyed(snap)
    ensures ListsDeltas(snap, decisions, scaleDowns, Shrinking(snap, decisions))
    ensures ListsDeltas(snap, decisions, scaleUps, Growing(snap, decisions))
  {
    scaleDowns, scaleUps := [], [];
    var todo := decisions.Keys;
    while todo != {}
      invariant todo <= decisions.Keys
      invariant SplitsDeltas(snap, decisions, todo, scaleDowns, scaleUps)
    {
      var a :| a in todo;
      scaleDowns, scaleUps := AddDelta(snap, decisions, todo, scaleDowns, scaleUps, a);
      todo := todo - {a};
    }
    assert Shrinking(snap, decisions) - {} == Shrinking(snap, decisions);
    assert Growing(snap, decisions) - {} == Growing(snap, decisions);
  }

  // ---------- Scale-downs ----------

  ghost function RemovedOf(sds: seq<ScaleDownDecision>, app: AppID): set<ReplicaID> {
    set sd | sd in sds && sd.appID == app :: sd.replicaID
  }

  /** The scale-downs of the given applications, and of no others: each keeps
      exactly its target, or nothing if the target is negative. */
  ghost predicate ShrinksTo(snap: Snapshot, decisions: map<AppID, ScalingDecision>, sds: seq<ScaleDownDecision>,
                            apps: set<AppID>)
  {
    && NoDuplicates(sds)
    && (forall sd | sd in sds :: sd.appID in apps && sd.replicaID in ActiveIds(snap.replicas, sd.appID))
    && (forall a | a in apps && a in decisions ::
          |ActiveIds(snap.replicas, a) - RemovedOf(sds, a)| == Max0(decisions[a].targetCount))
  }

  method PlanScaleDowns(snap: Snapshot, ghost decisions: map<AppID, ScalingDecision>, scaleDowns: seq<AppDelta>)
    returns (sds: seq<ScaleDownDecision>)
    requires WellKeyed(snap) && ListsDeltas(snap, decisions, scaleDowns, Shrinking(snap, decisions))
    ensures ShrinksTo(snap, decisions, sds, Shrinking(snap, decisions))
  {
    sds := [];
    for i := 0 to |scaleDowns|
      invariant ShrinksTo(snap, decisions, sds, AppsBefore(scaleDowns, i))
    {
      var x := scaleDowns[i];
      NextShrinking(snap, decisions, scaleDowns, i);
      var victims := SelectScaleDownVictims(x.appID, -x.delta, snap);
      var more := seq(|victims|, j requires 0 <= j < |victims| => ScaleDownDecision(x.appID, victims[j]));
      ShrinksToAppend(snap, decisions, sds, AppsBefore(scaleDowns, i), x.appID, victims, more);
      sds := sds + more;
    }
    AppsListed(snap, decisions, scaleDowns);
  }

  ghost function AppsBefore(q: seq<AppDelta>, n: nat): set<AppID>
    requires n <= |q|
  {
    set i: nat | i < n :: q[i].appID
  }

  lemma NextShrinking(snap: Snapshot, decisions: map<AppID, ScalingDecision>, q: seq<AppDelta>, i: nat)
    requires ListsDeltas(snap, decisions, q, Shrinking(snap, decisions)) && i < |q|
    ensures q[i].appID !in AppsBefore(q, i) && q[i].appID in Shrinking(snap, decisions)
    ensures q[i].delta == Delta(snap, decisions, q[i].appID) < 0
    ensures AppsBefore(q, i + 1) == AppsBefore(q, i) + {q[i].appID}
  {
    assert q[i] in q;
  }

  lemma AppsListed(snap: Snapshot, decisions: map<AppID, ScalingDecision>, q: seq<AppDelta>)
    requires ListsDeltas(snap, decisions, q, Shrinking(snap, decisions))
    ensures AppsBefore(q, |q|) == Shrinking(snap, decisions)
  {
    assert forall i | 0 <= i < |q| :: q[i] in q;
  }

  lemma ShrinksToAppend(snap: Snapshot, decisions: map<AppID, ScalingDecision>, sds: seq<ScaleDownDecision>,
                        done: set<AppID>, app: AppID, victims: seq<ReplicaID>, more: seq<ScaleDownDecision>)
    requires ShrinksTo(snap, decisions, sds, done) && app !in done
    requires app in Shrinking(snap, decisions)
    requires ChosenForRemoval(snap, app, -Delta(snap, decisions, app), victims)
    requires |more| == |victims| && forall j | 0 <= j < |more| :: more[j] == ScaleDownDecision(app, victims[j])
    ensures ShrinksTo(snap, decisions, sds + more, done + {app})
  {
    AppendedAreDistinct(sds, done, app, victims, more);
    forall sd | sd in sds + more
      ensures sd.appID in done + {app} && sd.replicaID in ActiveIds(snap.replicas, sd.appID)
    {
      if sd !in sds {
        var j :| 0 <= j < |more| && more[j] == sd;
        assert victims[j] in victims;
      }
    }
    forall a | a in done + {app} && a in decisions
      ensures |ActiveIds(snap.replicas, a) - RemovedOf(sds + more, a)| == Max0(decisions[a].targetCount)
    {
      if a == app {
        RemovedOfNew(sds, done, app, victims, more);
        RemovalSize(snap, app, victims);
      } else {
        RemovedOfOther(sds, app, more, a);
      }
    }
  }

  lemma AppendedAreDistinct(sds: seq<ScaleDownDecision>, done: set<AppID>, app: AppID, victims: seq<ReplicaID>,
                            more: seq<ScaleDownDecision>)
    requires NoDuplicates(sds) && NoDuplicates(victims) && app !in done && forall sd | sd in sds :: sd.appID in done
    requires |more| == |victims| && forall j | 0 <= j < |more| :: more[j] == ScaleDownDecision(app, victims[j])
    ensures NoDuplicates(sds + more)
    ensures forall sd :: sd in sds + more <==> sd in sds || sd in more
  {
    assert forall i | 0 <= i < |sds| :: sds[i] in sds;
  }

  lemma RemovedOfOther(sds: seq<ScaleDownDecision>, app: AppID, more: seq<ScaleDownDecision>, a: AppID)
    requires a != app && forall sd | sd in more :: sd.appID == app
    ensures RemovedOf(sds + more, a) == RemovedOf(sds, a)
  {
    assert forall sd :: sd in sds + more <==> sd in sds || sd in more;
  }

  lemma RemovalSize(snap: Snapshot, app: AppID, victims: seq<ReplicaID>)
    requires NoDuplicates(victims) && forall id | id in victims :: id in ActiveIds(snap.replicas, app)
    ensures |ActiveIds(snap.replicas, app) - set id | id in victims| == ActiveCount(snap.replicas, app) - |victims|
  {
    var gone := set id | id in victims;
    EnumerationSize(victims, gone);
    assert gone <= ActiveIds(snap.replicas, app);
  }

  lemma RemovedOfNew(sds: seq<ScaleDownDecision>, done: set<AppID>, app: AppID, victims: seq<ReplicaID>,
                     more: seq<ScaleDownDecision>)
    requires app !in done && forall sd | sd in sds :: sd.appID in done
    requires |more| == |victims| && forall j | 0 <= j < |more| :: more[j] == ScaleDownDecision(app, victims[j])
    ensures RemovedOf(sds + more, app) == set id | id in victims
  {
    forall id | id in victims ensures id in RemovedOf(sds + more, app) {
      var j :| 0 <= j < |victims| && victims[j] == id;
      assert (sds + more)[|sds| + j] == ScaleDownDecision(app, id);
    }
  }

  // ---------- Scale-ups ----------

  /** No further replica of the application can be placed after this log. */
  ghost predicate Refused(e: Engine, snap: Snapshot, log: Log, app: Application)
    requires WellKeyed(snap)
  {
    && EligibleSet(snap, log, app.gpusPerReplica) == {}
    && (e.mayPreempt ==> PlanFor(snap, app, e.grace).None?)
  }

  /** The mutable state of a cycle's scale-up phase. */
  datatype Cycle = Cycle(d: PlacementDecisions, local: map<ClusterID, int>)

  ghost predicate CycleInv(e: Engine, snap: Snapshot, ids: ReservationIds, log: Log, s: Cycle)
    requires e.cfg.maxGPUsPerNode > 0 && WellKeyed(snap)
  {
    && ValidCycle(e, snap, log)
    && TracksReservations(s.local, log)
    && Corresponds(e.cfg, snap, ids, log, s.d)
  }

  function Record(e: Engine, snap: Snapshot, id: ReservationID, p: Placed, constraints: SchedulingConstraints, s: Cycle)
    : Cycle
  {
    Cycle(s.d.(reservations := s.d.reservations + [ReservationFor(e.cfg, snap, id, p)],
               scaleUps := s.d.scaleUps + [ScaleUpDecision(p.appID, p.clusterID, id, constraints)],
               preemptions := s.d.preemptions + if p.via.Some? then p.via.value.victims else []),
          s.local[p.clusterID := TotalIn(s.local, p.clusterID) + p.gpus])
  }

  lemma RecordKeepsInv(e: Engine, snap: Snapshot, ids: ReservationIds, log: Log, s: Cycle, p: Placed,
                       constraints: SchedulingConstraints)
    requires e.cfg.maxGPUsPerNode > 0 && WellKeyed(snap) && CycleInv(e, snap, ids, log, s)
    requires Justified(e, snap, log, p)
    requires constraints == ScaleUpFor(snap, ids(|log|), p).constraints
    ensures CycleInv(e, snap, ids, log + [p], Record(e, snap, ids(|log|), p, constraints, s))
  {
    ValidCycleExtends(e, snap, log, p);
    RecordTracks(e, snap, ids(|log|), log, s, p, constraints);
    RecordCorresponds(e, snap, ids, log, s, p, constraints);
  }

  lemma RecordCorresponds(e: Engine, snap: Snapshot, ids: ReservationIds, log: Log, s: Cycle, p: Placed,
                          constraints: SchedulingConstraints)
    requires Corresponds(e.cfg, snap, ids, log, s.d) && p.appID in snap.applications
    requires constraints == ScaleUpFor(snap, ids(|log|), p).constraints
    ensures Corresponds(e.cfg, snap, ids, log + [p], Record(e, snap, ids(|log|), p, constraints, s).d)
  {
    assert (log + [p])[..|log|] == log;
  }

  lemma RecordTracks(e: Engine, snap: Snapshot, id: ReservationID, log: Log, s: Cycle, p: Placed,
                     constraints: SchedulingConstraints)
    requires TracksReservations(s.local, log)
    ensures TracksReservations(Record(e, snap, id, p, constraints, s).local, log + [p])
  {
    var s' := Record(e, snap, id, p, constraints, s);
    forall c ensures TotalIn(s'.local, c) == Reserved(log + [p], c) {
      LogAppend(snap, log, p, p.appID, c);
      assert TotalIn(s.local, c) == Reserved(log, c);
    }
  }

  lemma TracksAppAppend(placed: map<ClusterID, int>, log: Log, p: Placed, snap: Snapshot)
    requires TracksApp(placed, log, p.appID)
    ensures TracksApp(placed[p.clusterID := TotalIn(placed, p.clusterID) + 1], log + [p], p.appID)
  {
    var placed' := placed[p.clusterID := TotalIn(placed, p.clusterID) + 1];
    forall c ensures TotalIn(placed', c) == PlannedIn(log + [p], p.appID, c) {
      LogAppend(snap, log, p, p.appID, c);
      assert TotalIn(placed, c) == PlannedIn(log, p.appID, c);
    }
    MapSumPut(placed, Itself(), p.clusterID, TotalIn(placed, p.clusterID) + 1);
    LogAppend(snap, log, p, p.appID, p.clusterID);
  }

  /** Finds room for one replica, or makes room by preemption, or gives up. */
  method PlaceOne(e: Engine, snap: Snapshot, app: Application, s: Cycle, placed: map<ClusterID, int>, ghost log: Log)
    returns (p: Option<Placed>, constraints: SchedulingConstraints)
    requires e.cfg.maxGPUsPerNode > 0 && WellKeyed(snap)
    requires app.appID in snap.applications && snap.applications[app.appID] == app && app.gpusPerReplica >= 0
    requires TracksReservations(s.local, log) && TracksApp(placed, log, app.appID)
    ensures p.None? ==> Refused(e, snap, log, app)
    ensures p.Some? ==> p.value.appID == app.appID && Justified(e, snap, log, p.value)
                        && constraints == ScaleUpFor(snap, "", p.value).constraints
  {
    var cluster, ok;
    cluster, constraints, ok := FindBestCluster(e, app, snap, s.local, placed, log);
    if ok {
      return Some(Placed(app.appID, cluster, app.gpusPerReplica, None)), constraints;
    }
    if e.mayPreempt {
      var plan := FindPreemptionOpportunity(app, snap, e.grace);
      if plan.Some? {
        return Some(Placed(app.appID, plan.value.targetCluster, app.gpusPerReplica, plan)), plan.value.constraints;
      }
    }
    return None, constraints;
  }

  /** Places up to delta replicas of one application. */
  method PlaceApp(e: Engine, snap: Snapshot, ids: ReservationIds, app: Application, delta: nat, s0: Cycle,
                  ghost log0: Log)
    returns (s: Cycle, ghost log: Log)
    requires e.cfg.maxGPUsPerNode > 0 && WellKeyed(snap) && SizesNonNegative(snap)
    requires app.appID in snap.applications && snap.applications[app.appID] == app
    requires CycleInv(e, snap, ids, log0, s0) && PlannedFor(log0, app.appID) == 0
    requires forall c :: PlannedIn(log0, app.appID, c) == 0
    ensures CycleInv(e, snap, ids, log, s) && s.d.scaleDowns == s0.d.scaleDowns
    ensures log0 <= log && forall i | |log0| <= i < |log| :: log[i].appID == app.appID
    ensures PlannedFor(log, app.appID) == |log| - |log0| <= delta
    ensures |log| - |log0| == delta || Refused(e, snap, log, app)
  {
    s, log := s0, log0;
    var placed: map<ClusterID, int> := map[];
    for i := 0 to delta
      invariant CycleInv(e, snap, ids, log, s) && s.d.scaleDowns == s0.d.scaleDowns
      invariant AppProgress(app.appID, log0, log, placed)
      invariant |log| - |log0| == i || (|log| - |log0| < i && Refused(e, snap, log, app))
    {
      var more;
      s, placed, log, more := PlaceNext(e, snap, ids, app, s, placed, log, log0);
    }
  }

  /** One round of the loop: a placement recorded, or nothing changed because one was
      refused. Nothing is ever placed after a refusal. */
  method PlaceNext(e: Engine, snap: Snapshot, ids: ReservationIds, app: Application, s0: Cycle,
                   placed0: map<ClusterID, int>, ghost log1: Log, ghost log0: Log)
    returns (s: Cycle, placed: map<ClusterID, int>, ghost log: Log, more: bool)
    requires e.cfg.maxGPUsPerNode > 0 && WellKeyed(snap) && app.gpusPerReplica >= 0
    requires app.appID in snap.applications && snap.applications[app.appID] == app
    requires CycleInv(e, snap, ids, log1, s0) && AppProgress(app.appID, log0, log1, placed0)
    ensures CycleInv(e, snap, ids, log, s) && AppProgress(app.appID, log0, log, placed)
    ensures s.d.scaleDowns == s0.d.scaleDowns
    ensures more ==> |log| == |log1| + 1 && !Refused(e, snap, log1, app)
    ensures !more ==> log == log1 && Refused(e, snap, log, app)
  {
    s, placed, log := s0, placed0, log1;
    var p, constraints := PlaceOne(e, snap, app, s, placed, log);
    if p.None? {
      return s, placed, log, false;
    }
    RefusalStands(e, snap, log, app, p.value);
    s, placed := RecordPlacement(e, snap, ids, s, placed, p.value, constraints, log, log0);
    log := log + [p.value];
    more := true;
  }

  method RecordPlacement(e: Engine, snap: Snapshot, ids: ReservationIds, s0: Cycle, placed0: map<ClusterID, int>,
                         p: Placed, constraints: SchedulingConstraints, ghost log: Log, ghost log0: Log)
    returns (s: Cycle, placed: map<ClusterID, int>)
    requires e.cfg.maxGPUsPerNode > 0 && WellKeyed(snap)
    requires CycleInv(e, snap, ids, log, s0) && AppProgress(p.appID, log0, log, placed0)
    requires Justified(e, snap, log, p) && constraints == ScaleUpFor(snap, ids(|log|), p).constraints
    ensures CycleInv(e, snap, ids, log + [p], s) && AppProgress(p.appID, log0, log + [p], placed)
    ensures s.d.scaleDowns == s0.d.scaleDowns
  {
    RecordKeepsInv(e, snap, ids, log, s0, p, constraints);
    AppProgresses(snap, log0, log, placed0, p);
    placed := placed0[p.clusterID := TotalIn(placed0, p.clusterID) + 1];
    s := Record(e, snap, ids(|s0.d.reservations|), p, constraints, s0);
  }

  /** All placements since log0 are the application's, and placed counts them. */
  ghost predicate AppProgress(app: AppID, log0: Log, log: Log, placed: map<ClusterID, int>) {
    && log0 <= log && (forall k | |log0| <= k < |log| :: log[k].appID == app)
    && TracksApp(placed, log, app)
    && PlannedFor(log, app) == |log| - |log0|
  }

  lemma AppProgresses(snap: Snapshot, log0: Log, log: Log, placed: map<ClusterID, int>, p: Placed)
    requires AppProgress(p.appID, log0, log, placed)
    ensures AppProgress(p.appID, log0, log + [p], placed[p.clusterID := TotalIn(placed, p.clusterID) + 1])
  {
    TracksAppAppend(placed, log, p, snap);
    LogAppend(snap, log, p, p.appID, p.clusterID);
  }

  /** After one refusal nothing more can be placed for the application. */
  lemma RefusalStands(e: Engine, snap: Snapshot, log: Log, app: Application, p: Placed)
    requires e.cfg.maxGPUsPerNode > 0 && WellKeyed(snap)
    requires app.appID in snap.applications && snap.applications[app.appID] == app
    requires p.appID == app.appID && Justified(e, snap, log, p)
    ensures !Refused(e, snap, log, app)
  {
    if p.via.None? {
      assert p.clusterID in EligibleSet(snap, log, app.gpusPerReplica);
    }
  }

  // ---------- The whole cycle ----------

  function PriorityOf(snap: Snapshot, app: AppID): int {
    if app in snap.applications then snap.applications[app].priority else 0
  }

  function ByPriority(snap: Snapshot): (AppDelta, AppDelta) -> bool {
    (a: AppDelta, b: AppDelta) => PriorityOf(snap, a.appID) < PriorityOf(snap, b.appID)
  }

  /** Higher-priority applications (lower numbers) are served first. */
  ghost predicate ServedByPriority(snap: Snapshot, log: Log) {
    forall i, j | 0 <= i < j < |log| && log[i].appID in snap.applications && log[j].appID in snap.applications ::
      snap.applications[log[i].appID].priority <= snap.applications[log[j].appID].priority
  }

  /** An application got all the replicas it wanted, or was refused further ones. */
  ghost predicate Served(e: Engine, snap: Snapshot, log: Log, x: AppDelta)
    requires WellKeyed(snap) && x.appID in snap.applications
  {
    && PlannedFor(log, x.appID) <= x.delta
    && (PlannedFor(log, x.appID) == x.delta || Refused(e, snap, log, snap.applications[x.appID]))
  }

  lemma {:induction false} AbsentFromLog(log: Log, app: AppID, c: ClusterID)
    requires forall i | 0 <= i < |log| :: log[i].appID != app
    ensures PlannedFor(log, app) == 0 && PlannedIn(log, app, c) == 0
  {
    if log != [] {
      AbsentFromLog(log[..|log| - 1], app, c);
    }
  }

  lemma {:induction false} OthersUnchanged(log: Log, n: nat, app: AppID)
    requires n <= |log| && forall i | n <= i < |log| :: log[i].appID != app
    ensures PlannedFor(log, app) == PlannedFor(log[..n], app)
  {
    if n < |log| {
      assert log[..|log| - 1][..n] == log[..n];
      OthersUnchanged(log[..|log| - 1], n, app);
    } else {
      assert log[..n] == log;
    }
  }

  lemma ServedStays(e: Engine, snap: Snapshot, log: Log, n: nat, x: AppDelta)
    requires e.cfg.maxGPUsPerNode > 0 && WellKeyed(snap) && SizesNonNegative(snap)
    requires ValidCycle(e, snap, log) && n <= |log| && x.appID in snap.applications
    requires forall i | n <= i < |log| :: log[i].appID != x.appID
    requires Served(e, snap, log[..n], x)
    ensures Served(e, snap, log, x)
  {
    OthersUnchanged(log, n, x.appID);
    EligibilityShrinks(e, snap, log, n, snap.applications[x.appID].gpusPerReplica);
  }

  /** The scale-up phase over the first n applications in order of priority. */
  ghost predicate Phase(e: Engine, snap: Snapshot, q: seq<AppDelta>, n: nat, log: Log)
    requires WellKeyed(snap) && n <= |q|
    requires forall i | 0 <= i < |q| :: q[i].appID in snap.applications
  {
    && (forall i | 0 <= i < n :: Served(e, snap, log, q[i]))
    && (forall k | 0 <= k < |log| :: AmongFirst(q, n, log[k].appID))
    && ServedByPriority(snap, log)
  }

  ghost predicate AmongFirst(q: seq<AppDelta>, n: nat, app: AppID)
    requires n <= |q|
  {
    exists i :: 0 <= i < n && q[i].appID == app
  }

  lemma PhaseStep(e: Engine, snap: Snapshot, q: seq<AppDelta>, n: nat, log0: Log, log: Log)
    requires e.cfg.maxGPUsPerNode > 0 && WellKeyed(snap) && SizesNonNegative(snap)
    requires n < |q| && forall i | 0 <= i < |q| :: q[i].appID in snap.applications
    requires forall i, j :: 0 <= i < j < |q| ==> q[i].appID != q[j].appID
    requires InOrder(q, ByPriority(snap))
    requires ValidCycle(e, snap, log) && log0 <= log
    requires forall k | |log0| <= k < |log| :: log[k].appID == q[n].appID
    requires Phase(e, snap, q, n, log0) && Served(e, snap, log, q[n])
    ensures Phase(e, snap, q, n + 1, log)
  {
    assert log[..|log0|] == log0;
    forall i | 0 <= i < n ensures Served(e, snap, log, q[i]) {
      ServedStays(e, snap, log, |log0|, q[i]);
    }
    forall k | 0 <= k < |log| ensures AmongFirst(q, n + 1, log[k].appID) {
      if k < |log0| {
        assert log[k] == log0[k] && AmongFirst(q, n, log0[k].appID);
      } else {
        assert q[n].appID == log[k].appID;
      }
    }
    forall i, j | 0 <= i < j < |log| ensures PriorityOf(snap, log[i].appID) <= PriorityOf(snap, log[j].appID) {
      if i < |log0| <= j {
        assert log[i] == log0[i] && AmongFirst(q, n, log0[i].appID);
        var m :| 0 <= m < n && q[m].appID == log0[i].appID;
        assert NotAfter(ByPriority(snap), q[m], q[n]);
      } else if j < |log0| {
        assert log[i] == log0[i] && log[j] == log0[j];
      }
    }
  }

  method PlaceAll(e: Engine, snap: Snapshot, ids: ReservationIds, q: seq<AppDelta>, sds: seq<ScaleDownDecision>)
    returns (d: PlacementDecisions, ghost log: Log)
    requires e.cfg.maxGPUsPerNode > 0 && WellKeyed(snap) && SizesNonNegative(snap)
    requires forall i | 0 <= i < |q| :: q[i].appID in snap.applications && q[i].delta >= 0
    requires forall i, j :: 0 <= i < j < |q| ==> q[i].appID != q[j].appID
    requires InOrder(q, ByPriority(snap))
    ensures ValidCycle(e, snap, log) && Corresponds(e.cfg, snap, ids, log, d)
    ensures d.scaleDowns == sds && Phase(e, snap, q, |q|, log)
  {
    var s := Cycle(PlacementDecisions([], sds, [], []), map[]);
    log := [];
    for n := 0 to |q|
      invariant CycleInv(e, snap, ids, log, s) && s.d.scaleDowns == sds
      invariant Phase(e, snap, q, n, log)
    {
      var app := snap.applications[q[n].appID];
      ghost var log0 := log;
      forall c ensures PlannedFor(log, app.appID) == 0 && PlannedIn(log, app.appID, c) == 0 {
        AbsentFromLog(log, app.appID, c);
      }
      AbsentFromLog(log, app.appID, "");
      s, log := PlaceApp(e, snap, ids, app, q[n].delta, s, log);
      PhaseStep(e, snap, q, n, log0, log);
    }
    d := s.d;
  }

  lemma SortedDeltas(snap: Snapshot, decisions: map<AppID, ScalingDecision>, p: seq<AppDelta>, q: seq<AppDelta>,
                     apps: set<AppID>)
    requires ListsDeltas(snap, decisions, p, apps) && multiset(p) == multiset(q)
    ensures ListsDeltas(snap, decisions, q, apps)
  {
    assert forall i | 0 <= i < |p| :: p[i] in p;
    SameMultisetNoDuplicates(p, q);
    forall i, j | 0 <= i < j < |q| ensures q[i].appID != q[j].appID {
      assert q[i] in q && q[j] in q;
      var a :| 0 <= a < |p| && p[a] == q[i];
      var b :| 0 <= b < |p| && p[b] == q[j];
    }
    forall a | a in apps ensures exists i :: 0 <= i < |q| && q[i].appID == a {
      var k :| 0 <= k < |p| && p[k].appID == a;
      var i :| 0 <= i < |q| && q[i] == p[k];
    }
  }

  /** What one placement cycle may decide: a justified log written out in which every
      growing application is served or refused, higher priorities first, and exactly
      the scale-downs that bring each shrinking one to its target. */
  ghost predicate IsPlacement(e: Engine, snap: Snapshot, decisions: map<AppID, ScalingDecision>, ids: ReservationIds,
                              d: PlacementDecisions, log: Log)
    requires e.cfg.maxGPUsPerNode > 0 && WellKeyed(snap) && decisions.Keys <= snap.applications.Keys
  {
    && ValidCycle(e, snap, log) && Corresponds(e.cfg, snap, ids, log, d)
    && ShrinksTo(snap, decisions, d.scaleDowns, Shrinking(snap, decisions))
    && (forall a | a in Growing(snap, decisions) :: Served(e, snap, log, AppDelta(a, Delta(snap, decisions, a))))
    && (forall k | 0 <= k < |log| :: log[k].appID in Growing(snap, decisions))
    && ServedByPriority(snap, log)
  }

  /** One placement cycle. The log says what was placed where and why; the
      decisions are the log written out, plus the scale-downs. */
  method ComputePlacement(e: Engine, snap: Snapshot, decisions: map<AppID, ScalingDecision>, ids: ReservationIds)
    returns (d: PlacementDecisions, ghost log: Log)
    requires e.cfg.maxGPUsPerNode > 0 && WellKeyed(snap) && SizesNonNegative(snap)
    requires decisions.Keys <= snap.applications.Keys
    ensures IsPlacement(e, snap, decisions, ids, d, log)
  {
    var scaleDowns, scaleUps := ComputeDeltas(snap, decisions);
    var sds := PlanScaleDowns(snap, decisions, scaleDowns);
    var sorted := SortWeakly(scaleUps, ByPriority(snap));
    SortedDeltas(snap, decisions, scaleUps, sorted, Growing(snap, decisions));
    assert forall i | 0 <= i < |sorted| :: sorted[i] in sorted;
    d, log := PlaceAll(e, snap, ids, sorted, sds);
    forall a | a in Growing(snap, decisions)
      ensures Served(e, snap, log, AppDelta(a, Delta(snap, decisions, a)))
    {
      var i :| 0 <= i < |sorted| && sorted[i].appID == a;
    }
  }
}
