/** One placement cycle as a log of placements, each justified by the snapshot and
    the placements before it, and what follows for every such log. */
module PlacementCycle {
  import opened Model
  import opened Collections
  import opened Snapshots
  import opened Preemption
  import opened PlacementScoring

  /** One reservation made in the cycle; via is the preemption plan adopted for it,
      if no cluster had room. */
  datatype Placed = Placed(appID: AppID, clusterID: ClusterID, gpus: int, via: Option<PreemptionPlan>)

  type Log = seq<Placed>

  // ---------- Totals over the log ----------

  function Reserved(log: Log, cluster: ClusterID): int {
    if log == [] then 0
    else
      var last := log[|log| - 1];
      Reserved(log[..|log| - 1], cluster) + if last.clusterID == cluster then last.gpus else 0
  }

  function PlannedIn(log: Log, app: AppID, cluster: ClusterID): nat {
    if log == [] then 0
    else
      var last := log[|log| - 1];
      PlannedIn(log[..|log| - 1], app, cluster) + if last.appID == app && last.clusterID == cluster then 1 else 0
  }

  function PlannedFor(log: Log, app: AppID): nat {
    if log == [] then 0
    else
      var last := log[|log| - 1];
      PlannedFor(log[..|log| - 1], app) + if last.appID == app then 1 else 0
  }

  /** The victims named by the adopted plans, placement by placement. */
  function VictimsOf(log: Log): seq<PreemptionDecision> {
    if log == [] then []
    else
      var last := log[|log| - 1];
      VictimsOf(log[..|log| - 1]) + if last.via.Some? then last.via.value.victims else []
  }

  /** The same, of the plans for one cluster. */
  function VictimsIn(log: Log, cluster: ClusterID): seq<PreemptionDecision> {
    if log == [] then []
    else
      var last := log[|log| - 1];
      VictimsIn(log[..|log| - 1], cluster)
      + if last.via.Some? && last.clusterID == cluster then last.via.value.victims else []
  }

  /** GPUs the adopted preemption plans free in a cluster, counted per adoption: a plan
      adopted twice counts twice. */
  function FreedIn(snap: Snapshot, log: Log, cluster: ClusterID): int {
    if log == [] then 0
    else
      var last := log[|log| - 1];
      FreedIn(snap, log[..|log| - 1], cluster)
      + if last.via.Some? && last.clusterID == cluster then EvictedGPUs(snap.replicas, last.via.value.victims) else 0
  }

  lemma LogAppend(snap: Snapshot, log: Log, p: Placed, app: AppID, c: ClusterID)
    ensures Reserved(log + [p], c) == Reserved(log, c) + if p.clusterID == c then p.gpus else 0
    ensures PlannedIn(log + [p], app, c) == PlannedIn(log, app, c) + if p.appID == app && p.clusterID == c then 1 else 0
    ensures PlannedFor(log + [p], app) == PlannedFor(log, app) + if p.appID == app then 1 else 0
    ensures FreedIn(snap, log + [p], c) ==
            FreedIn(snap, log, c)
            + if p.via.Some? && p.clusterID == c then EvictedGPUs(snap.replicas, p.via.value.victims) else 0
  {
    assert (log + [p])[..|log|] == log;
  }

  // ---------- Eligibility and the spread limit ----------

  /** GPUs of a cluster not yet spoken for, after the reservations of the log. */
  ghost function Available(snap: Snapshot, log: Log, cluster: ClusterID): nat
    requires cluster in snap.clusters
  {
    Max0(Headroom(snap.clusters, snap.reservations, cluster) - Reserved(log, cluster))
  }

  ghost predicate Eligible(snap: Snapshot, log: Log, need: int, cluster: ClusterID) {
    && cluster in snap.clusters
    && HasFit(snap.clusters[cluster].nodes, need)
    && Available(snap, log, cluster) >= need
  }

  ghost function EligibleSet(snap: Snapshot, log: Log, need: int): set<ClusterID> {
    set c | c in snap.clusters && Eligible(snap, log, need, c)
  }

  /** Active and planned replicas of an application, in a cluster and overall. */
  ghost function HoldsIn(snap: Snapshot, log: Log, app: AppID, cluster: ClusterID): nat {
    ActiveCountIn(snap.replicas, app, cluster) + PlannedIn(log, app, cluster)
  }

  ghost function HoldsTotal(snap: Snapshot, log: Log, app: AppID): nat {
    ActiveCount(snap.replicas, app) + PlannedFor(log, app)
  }

  ghost function SpreadLimit(snap: Snapshot, log: Log, app: Application): nat
    requires EligibleSet(snap, log, app.gpusPerReplica) != {}
  {
    CeilDiv(HoldsTotal(snap, log, app.appID) + 1, |EligibleSet(snap, log, app.gpusPerReplica)|)
  }

  /** Clusters that pass both the capacity filter and the spread limit. */
  ghost predicate Allowed(snap: Snapshot, log: Log, app: Application, cluster: ClusterID) {
    && cluster in EligibleSet(snap, log, app.gpusPerReplica)
    && (app.failureDomainRule == SpreadClusters ==>
          HoldsIn(snap, log, app.appID, cluster) < SpreadLimit(snap, log, app))
  }

  // ---------- Spread never causes a refusal ----------

  ghost function SumOver(s: set<ClusterID>, f: ClusterID -> nat): nat {
    if s == {} then 0
    else
      var c :| c in s;
      f(c) + SumOver(s - {c}, f)
  }

  lemma {:induction false} ActiveSpread(snap: Snapshot, app: AppID, s: set<ClusterID>)
    ensures SumOver(s, c => ActiveCountIn(snap.replicas, app, c)) ==
            |set id | id in ActiveIds(snap.replicas, app) && snap.replicas[id].clusterID in s|
    decreases s
  {
    var f := c => ActiveCountIn(snap.replicas, app, c);
    if s == {} {
      assert (set id | id in ActiveIds(snap.replicas, app) && snap.replicas[id].clusterID in s) == {};
    } else {
      var c :| c in s && SumOver(s, f) == f(c) + SumOver(s - {c}, f);
      ActiveSpread(snap, app, s - {c});
      var here := ActiveIdsIn(snap.replicas, app, c);
      var rest := set id | id in ActiveIds(snap.replicas, app) && snap.replicas[id].clusterID in s - {c};
      assert (set id | id in ActiveIds(snap.replicas, app) && snap.replicas[id].clusterID in s) == here + rest;
      assert here !! rest;
    }
  }

  lemma {:induction false} SumAdds(s: set<ClusterID>, f: ClusterID -> nat, g: ClusterID -> nat, h: ClusterID -> nat)
    requires forall c | c in s :: f(c) == g(c) + h(c)
    ensures SumOver(s, f) == SumOver(s, g) + SumOver(s, h)
    decreases s
  {
    if s != {} {
      var c :| c in s;
      SumTake(s, f, c);
      SumTake(s, g, c);
      SumTake(s, h, c);
      SumAdds(s - {c}, f, g, h);
    }
  }

  lemma {:induction false} SumTake(s: set<ClusterID>, f: ClusterID -> nat, c: ClusterID)
    requires c in s
    ensures SumOver(s, f) == f(c) + SumOver(s - {c}, f)
    decreases s
  {
    var d :| d in s && SumOver(s, f) == f(d) + SumOver(s - {d}, f);
    if d != c {
      SumTake(s - {d}, f, c);
      SumTake(s - {c}, f, d);
      assert s - {d} - {c} == s - {c} - {d};
    }
  }

  lemma {:induction false} PlannedSpread(log: Log, app: AppID, s: set<ClusterID>)
    ensures SumOver(s, c => PlannedIn(log, app, c)) <= PlannedFor(log, app)
  {
    var f := c => PlannedIn(log, app, c);
    if log == [] {
      SumConstant(s, f, 0);
    } else {
      var front, last := log[..|log| - 1], log[|log| - 1];
      var g := c => PlannedIn(front, app, c);
      var h: ClusterID -> nat := c => if last.appID == app && last.clusterID == c then 1 else 0;
      PlannedSpread(front, app, s);
      SumAdds(s, f, g, h);
      if last.clusterID in s {
        SumTake(s, h, last.clusterID);
        SumConstant(s - {last.clusterID}, h, 0);
      } else {
        SumConstant(s, h, 0);
      }
    }
  }

  lemma {:induction false} SumConstant(s: set<ClusterID>, f: ClusterID -> nat, k: nat)
    requires forall c | c in s :: f(c) == k
    ensures SumOver(s, f) == |s| * k
    decreases s
  {
    if s != {} {
      var c :| c in s;
      SumTake(s, f, c);
      SumConstant(s - {c}, f, k);
      assert |s| * k == (|s| - 1) * k + k;
    }
  }

  lemma {:induction false} SumAtLeast(s: set<ClusterID>, f: ClusterID -> nat, k: nat)
    requires forall c | c in s :: f(c) >= k
    ensures SumOver(s, f) >= |s| * k
    decreases s
  {
    if s != {} {
      var c :| c in s;
      SumTake(s, f, c);
      SumAtLeast(s - {c}, f, k);
      assert |s| * k == (|s| - 1) * k + k;
    }
  }

  /** Pigeonhole: the replicas held by the eligible clusters are at most all there
      are, so one more, rounded up per eligible cluster, is out of reach of at
      least one of them. */
  lemma SomeClusterBelowLimit(snap: Snapshot, log: Log, app: Application)
    requires EligibleSet(snap, log, app.gpusPerReplica) != {}
    ensures exists c :: Allowed(snap, log, app, c)
  {
    var eligible := EligibleSet(snap, log, app.gpusPerReplica);
    var total := HoldsTotal(snap, log, app.appID);
    var f := c => HoldsIn(snap, log, app.appID, c);
    HoldsAtMostTotal(snap, log, app.appID, eligible);
    assert SumOver(eligible, f) <= total;
    var c := BelowShare(eligible, f, total);
    assert Allowed(snap, log, app, c);
  }

  /** Pigeonhole: if everyone held the rounded-up share of one more than the total,
      together they would hold more than the total. */
  lemma BelowShare(s: set<ClusterID>, f: ClusterID -> nat, total: nat) returns (x: ClusterID)
    requires s != {} && SumOver(s, f) <= total
    ensures x in s && f(x) < CeilDiv(total + 1, |s|)
  {
    if forall x | x in s :: f(x) >= CeilDiv(total + 1, |s|) {
      SumAtLeast(s, f, CeilDiv(total + 1, |s|));
      CeilDivLeast(total + 1, |s|, CeilDiv(total + 1, |s|));
      assert false;
    }
    x :| x in s && f(x) < CeilDiv(total + 1, |s|);
  }

  lemma HoldsAtMostTotal(snap: Snapshot, log: Log, app: AppID, s: set<ClusterID>)
    ensures SumOver(s, c => HoldsIn(snap, log, app, c)) <= HoldsTotal(snap, log, app)
  {
    var f := c => HoldsIn(snap, log, app, c);
    var g := c => ActiveCountIn(snap.replicas, app, c);
    var h := c => PlannedIn(log, app, c);
    SumAdds(s, f, g, h);
    ActiveSpread(snap, app, s);
    SubsetSize((set id | id in ActiveIds(snap.replicas, app) && snap.replicas[id].clusterID in s),
               ActiveIds(snap.replicas, app));
    PlannedSpread(log, app, s);
  }

  lemma SubsetSize<T>(a: set<T>, b: set<T>)
    requires a <= b
    ensures |a| <= |b|
  {
    assert b == a + (b - a);
  }

  // ---------- Justified logs ----------

  /** The parameters of the engine: its weights, the grace period of preemptions,
      and whether it may preempt at all. */
  datatype Engine = Engine(cfg: PlacementConfig, grace: int, mayPreempt: bool)

  ghost predicate IsBest(e: Engine, snap: Snapshot, log: Log, app: Application, cluster: ClusterID)
    requires e.cfg.maxGPUsPerNode > 0
  {
    && Allowed(snap, log, app, cluster)
    && exists best :: && IsScore(e.cfg, snap, app, cluster, best)
                      && forall c, score | Allowed(snap, log, app, c) && IsScore(e.cfg, snap, app, c, score) ::
                           score <= best
  }

  ghost predicate Justified(e: Engine, snap: Snapshot, log: Log, p: Placed)
    requires e.cfg.maxGPUsPerNode > 0 && WellKeyed(snap)
  {
    && p.appID in snap.applications
    && p.gpus == snap.applications[p.appID].gpusPerReplica
    && match p.via
       case None => IsBest(e, snap, log, snap.applications[p.appID], p.clusterID)
       case Some(plan) =>
         && e.mayPreempt
         && EligibleSet(snap, log, p.gpus) == {}
         && PlanFor(snap, snap.applications[p.appID], e.grace) == Some(plan)
         && p.clusterID == plan.targetCluster
  }

  ghost predicate ValidCycle(e: Engine, snap: Snapshot, log: Log)
    requires e.cfg.maxGPUsPerNode > 0 && WellKeyed(snap)
  {
    forall i: nat {:trigger JustifiedAt(e, snap, log, i)} | i < |log| :: JustifiedAt(e, snap, log, i)
  }

  ghost predicate JustifiedAt(e: Engine, snap: Snapshot, log: Log, i: nat)
    requires e.cfg.maxGPUsPerNode > 0 && WellKeyed(snap) && i < |log|
  {
    Justified(e, snap, log[..i], log[i])
  }

  ghost predicate SizesNonNegative(snap: Snapshot) {
    forall a | a in snap.applications :: snap.applications[a].gpusPerReplica >= 0
  }

  lemma ValidCycleExtends(e: Engine, snap: Snapshot, log: Log, p: Placed)
    requires e.cfg.maxGPUsPerNode > 0 && WellKeyed(snap)
    requires ValidCycle(e, snap, log) && Justified(e, snap, log, p)
    ensures ValidCycle(e, snap, log + [p])
  {
    forall i: nat | i < |log + [p]| ensures JustifiedAt(e, snap, log + [p], i) {
      assert (log + [p])[..i] == log[..i];
      assert log[..|log|] == log;
      assert i < |log| ==> JustifiedAt(e, snap, log, i);
    }
  }

  lemma ValidCyclePrefix(e: Engine, snap: Snapshot, log: Log, n: nat)
    requires e.cfg.maxGPUsPerNode > 0 && WellKeyed(snap)
    requires ValidCycle(e, snap, log) && n <= |log|
    ensures ValidCycle(e, snap, log[..n])
  {
    forall i: nat | i < n ensures JustifiedAt(e, snap, log[..n], i) {
      assert log[..n][..i] == log[..i];
      assert JustifiedAt(e, snap, log, i);
    }
  }

  // ---------- Placement budget ----------

  ghost function Budget(snap: Snapshot, cluster: ClusterID): nat {
    if cluster in snap.clusters then Max0(Headroom(snap.clusters, snap.reservations, cluster)) else 0
  }

  /** At every point of a cycle the GPUs reserved in a cluster are at most what it
      had to spare plus what the adopted preemption plans free there. */
  lemma {:induction false} NeverOverBudget(e: Engine, snap: Snapshot, log: Log, cluster: ClusterID)
    requires e.cfg.maxGPUsPerNode > 0 && WellKeyed(snap) && SizesNonNegative(snap)
    requires ValidCycle(e, snap, log)
    ensures Reserved(log, cluster) <= Budget(snap, cluster) + FreedIn(snap, log, cluster)
    ensures FreedIn(snap, log, cluster) >= 0
  {
    if log != [] {
      var front, p := log[..|log| - 1], log[|log| - 1];
      ValidCyclePrefix(e, snap, log, |log| - 1);
      NeverOverBudget(e, snap, front, cluster);
      assert JustifiedAt(e, snap, log, |log| - 1);
      if p.via.Some? {
        PlanIsSafeAndTight(snap, snap.applications[p.appID], e.grace);
      }
    }
  }

  /** Without preemption a cycle never over-commits a cluster. */
  lemma NeverOvercommits(e: Engine, snap: Snapshot, log: Log, n: nat, cluster: ClusterID)
    requires e.cfg.maxGPUsPerNode > 0 && WellKeyed(snap) && SizesNonNegative(snap)
    requires ValidCycle(e, snap, log) && n <= |log|
    requires forall i | 0 <= i < n :: log[i].via.None?
    ensures Reserved(log[..n], cluster) <= Budget(snap, cluster)
  {
    ValidCyclePrefix(e, snap, log, n);
    NeverOverBudget(e, snap, log[..n], cluster);
    NoPlansNothingFreed(snap, log[..n], cluster);
  }

  lemma {:induction false} NoPlansNothingFreed(snap: Snapshot, log: Log, cluster: ClusterID)
    requires forall i | 0 <= i < |log| :: log[i].via.None?
    ensures FreedIn(snap, log, cluster) == 0
  {
    if log != [] {
      NoPlansNothingFreed(snap, log[..|log| - 1], cluster);
    }
  }

  // ---------- Eligibility only shrinks ----------

  lemma {:induction false} ReservedGrows(e: Engine, snap: Snapshot, log: Log, i: nat, cluster: ClusterID)
    requires e.cfg.maxGPUsPerNode > 0 && WellKeyed(snap) && SizesNonNegative(snap)
    requires ValidCycle(e, snap, log) && i <= |log|
    ensures Reserved(log[..i], cluster) <= Reserved(log, cluster)
  {
    if i < |log| {
      var front := log[..|log| - 1];
      ValidCyclePrefix(e, snap, log, |log| - 1);
      ReservedGrows(e, snap, front, i, cluster);
      assert front[..i] == log[..i];
      assert JustifiedAt(e, snap, log, |log| - 1);
    } else {
      assert log[..i] == log;
    }
  }

  lemma EligibilityShrinks(e: Engine, snap: Snapshot, log: Log, i: nat, need: int)
    requires e.cfg.maxGPUsPerNode > 0 && WellKeyed(snap) && SizesNonNegative(snap)
    requires ValidCycle(e, snap, log) && i <= |log|
    ensures EligibleSet(snap, log, need) <= EligibleSet(snap, log[..i], need)
  {
    forall c | c in EligibleSet(snap, log, need) ensures c in EligibleSet(snap, log[..i], need) {
      ReservedGrows(e, snap, log, i, c);
    }
  }

  /** Within a cycle an application's capacity placements all come before its
      preemption placements, and all the latter adopt one and the same plan: since
      every call sees the same snapshot, the same victims are named again. */
  lemma CapacityBeforePreemption(e: Engine, snap: Snapshot, log: Log, i: nat, j: nat)
    requires e.cfg.maxGPUsPerNode > 0 && WellKeyed(snap) && SizesNonNegative(snap)
    requires ValidCycle(e, snap, log) && i < j < |log|
    requires log[i].appID == log[j].appID && log[i].via.Some?
    ensures log[j].via == log[i].via && log[j].clusterID == log[i].clusterID
  {
    assert JustifiedAt(e, snap, log, i) && JustifiedAt(e, snap, log, j);
    ValidCyclePrefix(e, snap, log, j);
    assert log[..j][..i] == log[..i];
    EligibilityShrinks(e, snap, log[..j], i, log[i].gpus);
  }

  // ---------- Spread balance ----------

  /** The application's latest placement in a cluster, up to position i. */
  lemma LatestPlacement(snap: Snapshot, log: Log, app: AppID, cluster: ClusterID, k: nat, i: nat) returns (j: nat)
    requires k <= i < |log| && log[k].appID == app && log[k].clusterID == cluster
    ensures k <= j <= i && log[j].appID == app && log[j].clusterID == cluster
    ensures HoldsIn(snap, log[..i + 1], app, cluster) == HoldsIn(snap, log[..j], app, cluster) + 1
  {
    j := i;
    while !(log[j].appID == app && log[j].clusterID == cluster)
      invariant k <= j <= i
      invariant HoldsIn(snap, log[..i + 1], app, cluster) == HoldsIn(snap, log[..j + 1], app, cluster)
      decreases j
    {
      assert log[..j + 1][..j] == log[..j];
      j := j - 1;
    }
    assert log[..j + 1][..j] == log[..j];
  }

  lemma EligibleFewer(e: Engine, snap: Snapshot, log: Log, j: nat, i: nat, need: int)
    requires e.cfg.maxGPUsPerNode > 0 && WellKeyed(snap) && SizesNonNegative(snap)
    requires ValidCycle(e, snap, log) && j <= i <= |log|
    ensures EligibleSet(snap, log[..i], need) <= EligibleSet(snap, log[..j], need)
  {
    ValidCyclePrefix(e, snap, log, i);
    assert log[..i][..j] == log[..j];
    EligibilityShrinks(e, snap, log[..i], j, need);
  }

  /** Between two placements of an application the limit can only rise: there are
      more replicas to spread and no more clusters to spread them over. */
  lemma LimitRises(e: Engine, snap: Snapshot, log: Log, app: Application, j: nat, i: nat)
    requires e.cfg.maxGPUsPerNode > 0 && WellKeyed(snap) && SizesNonNegative(snap)
    requires ValidCycle(e, snap, log) && j <= i <= |log|
    requires EligibleSet(snap, log[..i], app.gpusPerReplica) != {}
    ensures EligibleSet(snap, log[..j], app.gpusPerReplica) != {}
    ensures SpreadLimit(snap, log[..j], app) <= SpreadLimit(snap, log[..i], app)
  {
    EligibleFewer(e, snap, log, j, i, app.gpusPerReplica);
    PlannedForGrows(log, app.appID, j, i);
    LimitOf(snap, log[..j], log[..i], app);
  }

  lemma {:induction false} LimitOf(snap: Snapshot, early: Log, late: Log, app: Application)
    requires EligibleSet(snap, late, app.gpusPerReplica) <= EligibleSet(snap, early, app.gpusPerReplica)
    requires EligibleSet(snap, late, app.gpusPerReplica) != {}
    requires PlannedFor(early, app.appID) <= PlannedFor(late, app.appID)
    ensures EligibleSet(snap, early, app.gpusPerReplica) != {}
    ensures SpreadLimit(snap, early, app) <= SpreadLimit(snap, late, app)
  {
    var before, after := EligibleSet(snap, early, app.gpusPerReplica), EligibleSet(snap, late, app.gpusPerReplica);
    SubsetSize(after, before);
    CeilDivMonotone(HoldsTotal(snap, early, app.appID) + 1, |before|, HoldsTotal(snap, late, app.appID) + 1, |after|);
  }

  /** Whenever a spread application gets a capacity placement, every cluster in
      which it got one this cycle holds at most its fair share, rounded up, of all
      the application's replicas over the clusters eligible at that moment. */
  lemma SpreadIsBalanced(e: Engine, snap: Snapshot, log: Log, i: nat, k: nat)
    requires e.cfg.maxGPUsPerNode > 0 && WellKeyed(snap) && SizesNonNegative(snap)
    requires ValidCycle(e, snap, log) && k <= i < |log|
    requires log[k].appID == log[i].appID && log[i].via.None?
    requires log[i].appID in snap.applications
    requires snap.applications[log[i].appID].failureDomainRule == SpreadClusters
    ensures var app := log[i].appID;
            var eligible := EligibleSet(snap, log[..i], log[i].gpus);
            && eligible != {}
            && HoldsIn(snap, log[..i + 1], app, log[k].clusterID)
               <= CeilDiv(HoldsTotal(snap, log[..i + 1], app), |eligible|)
  {
    var j := LatestPlacement(snap, log, log[i].appID, log[k].clusterID, k, i);
    ShareAt(e, snap, log, j, i);
    assert log[..i + 1][..i] == log[..i];
  }

  /** The share at an earlier placement j is within the limit at i. */
  lemma ShareAt(e: Engine, snap: Snapshot, log: Log, j: nat, i: nat)
    requires e.cfg.maxGPUsPerNode > 0 && WellKeyed(snap) && SizesNonNegative(snap)
    requires ValidCycle(e, snap, log) && j <= i < |log|
    requires log[j].appID == log[i].appID && log[i].via.None?
    requires log[i].appID in snap.applications
    requires snap.applications[log[i].appID].failureDomainRule == SpreadClusters
    ensures EligibleSet(snap, log[..i], log[i].gpus) != {}
    ensures HoldsIn(snap, log[..j], log[i].appID, log[j].clusterID) + 1
            <= CeilDiv(HoldsTotal(snap, log[..i], log[i].appID) + 1, |EligibleSet(snap, log[..i], log[i].gpus)|)
  {
    var app := snap.applications[log[i].appID];
    assert app.appID == log[i].appID;
    PlacementWithinLimit(e, snap, log, j, i);
    PlacementWithinLimit(e, snap, log, i, i);
    LimitRises(e, snap, log, app, j, i);
  }

  /** A placement followed by a capacity placement of the same application was
      itself one, and stayed below the limit of its moment. */
  lemma PlacementWithinLimit(e: Engine, snap: Snapshot, log: Log, j: nat, i: nat)
    requires e.cfg.maxGPUsPerNode > 0 && WellKeyed(snap) && SizesNonNegative(snap)
    requires ValidCycle(e, snap, log) && j <= i < |log|
    requires log[j].appID == log[i].appID && log[i].via.None?
    requires log[i].appID in snap.applications
    requires snap.applications[log[i].appID].failureDomainRule == SpreadClusters
    ensures var app := snap.applications[log[i].appID];
            && log[j].gpus == log[i].gpus == app.gpusPerReplica
            && EligibleSet(snap, log[..j], log[j].gpus) != {}
            && HoldsIn(snap, log[..j], app.appID, log[j].clusterID) < SpreadLimit(snap, log[..j], app)
  {
    if log[j].via.Some? && j < i {
      CapacityBeforePreemption(e, snap, log, j, i);
    }
    assert JustifiedAt(e, snap, log, j) && JustifiedAt(e, snap, log, i);
  }

  lemma {:induction false} PlannedForGrows(log: Log, app: AppID, j: nat, i: nat)
    requires j <= i <= |log|
    ensures PlannedFor(log[..j], app) <= PlannedFor(log[..i], app)
    decreases i
  {
    if j < i {
      assert log[..i][..i - 1] == log[..i - 1];
      PlannedForGrows(log, app, j, i - 1);
    }
  }

  // ---------- Cache tier ----------

  /** The cluster chosen for a capacity placement has the warmest cache tier of all
      clusters allowed at that moment. */
  lemma WarmestClusterWins(e: Engine, snap: Snapshot, log: Log, i: nat, c: ClusterID)
    requires e.cfg.maxGPUsPerNode > 0 && TiersDominate(e.cfg) && WellKeyed(snap)
    requires ValidCycle(e, snap, log) && i < |log| && log[i].via.None?
    requires forall k | k in snap.clusters :: SaneAllocation(snap.clusters[k].nodes)
    requires log[i].appID in snap.applications && Allowed(snap, log[..i], snap.applications[log[i].appID], c)
    ensures var locs := LocationsOf(snap, snap.applications[log[i].appID].modelID);
            Warmth(WarmestTier(locs, c)) <= Warmth(WarmestTier(locs, log[i].clusterID))
  {
    var app := snap.applications[log[i].appID];
    assert JustifiedAt(e, snap, log, i);
    var best :| && IsScore(e.cfg, snap, app, log[i].clusterID, best)
                && forall k, score | Allowed(snap, log[..i], app, k) && IsScore(e.cfg, snap, app, k, score) ::
                     score <= best;
    var score := ScoreExists(e.cfg, snap, app, c);
    if Warmth(WarmestTier(LocationsOf(snap, app.modelID), c)) >
       Warmth(WarmestTier(LocationsOf(snap, app.modelID), log[i].clusterID)) {
      WarmerScoresHigher(e.cfg, snap, app, c, log[i].clusterID, score, best);
    }
  }

  lemma ScoreExists(cfg: PlacementConfig, snap: Snapshot, app: Application, c: ClusterID) returns (score: real)
    requires cfg.maxGPUsPerNode > 0 && c in snap.clusters
    ensures IsScore(cfg, snap, app, c, score)
  {
    var nodes := snap.clusters[c].nodes;
    var packing := 0.0;
    if HasFit(nodes, app.gpusPerReplica) {
      var free := TightestExists(nodes, app.gpusPerReplica);
      packing := Clamp01(1.0 - (free - app.gpusPerReplica) as real / cfg.maxGPUsPerNode as real);
    }
    score := TierWeight(cfg, WarmestTier(LocationsOf(snap, app.modelID), c))
             + (cfg.weightFragmentation * packing + cfg.weightBalance * BalanceScore(nodes));
    assert PackedScore(cfg, snap, app, c, packing, score);
  }

  lemma TightestExists(nodes: map<NodeID, Node>, need: int) returns (free: int)
    requires HasFit(nodes, need)
    ensures IsTightestFit(nodes, need, free)
  {
    var fits := set id | id in nodes && Fits(nodes[id], need);
    var best :| best in nodes && Fits(nodes[best], need);
    var todo := fits - {best};
    while todo != {}
      invariant todo <= fits && best in fits
      invariant forall id | id in fits - todo :: nodes[best].freeGPUs <= nodes[id].freeGPUs
    {
      var id :| id in todo;
      todo := todo - {id};
      if nodes[id].freeGPUs < nodes[best].freeGPUs {
        best := id;
      }
    }
    free := nodes[best].freeGPUs;
  }
}
