/** The victims named over one whole placement cycle. Every preemption call of a
    cycle sees the same snapshot, so two placements may name the same victims and
    reserve the same freed GPUs twice. This module says exactly when. */
module CycleVictims {
  import opened Model
  import opened Collections
  import opened Snapshots
  import opened Preemption
  import opened PlacementScoring
  import opened PlacementCycle
  import opened Placement

  // ---------- Lists of victims ----------

  ghost function Ids(vs: seq<PreemptionDecision>): set<ReplicaID> {
    set v | v in vs :: v.victimReplicaID
  }

  /** No victim is named twice. */
  ghost predicate NoneTwice(vs: seq<PreemptionDecision>) {
    forall i, j | 0 <= i < j < |vs| :: vs[i].victimReplicaID != vs[j].victimReplicaID
  }

  lemma IdsConcat(xs: seq<PreemptionDecision>, ys: seq<PreemptionDecision>)
    ensures Ids(xs + ys) == Ids(xs) + Ids(ys)
  {
    assert forall v :: v in xs + ys <==> v in xs || v in ys;
  }

  lemma NoneTwiceConcat(xs: seq<PreemptionDecision>, ys: seq<PreemptionDecision>)
    ensures NoneTwice(xs + ys) <==> NoneTwice(xs) && NoneTwice(ys) && Ids(xs) !! Ids(ys)
  {
    var both := xs + ys;
    if NoneTwice(both) {
      assert forall i | 0 <= i < |xs| :: both[i] == xs[i];
      assert forall j | 0 <= j < |ys| :: both[|xs| + j] == ys[j];
      forall id | id in Ids(xs) ensures id !in Ids(ys) {
        var i :| 0 <= i < |xs| && xs[i].victimReplicaID == id;
        forall j | 0 <= j < |ys| ensures ys[j].victimReplicaID != id {
          assert both[i].victimReplicaID != both[|xs| + j].victimReplicaID;
        }
      }
    }
    if NoneTwice(xs) && NoneTwice(ys) && Ids(xs) !! Ids(ys) {
      forall i, j | 0 <= i < j < |both| ensures both[i].victimReplicaID != both[j].victimReplicaID {
        if i < |xs| <= j {
          assert xs[i] in xs && ys[j - |xs|] in ys;
          assert xs[i].victimReplicaID in Ids(xs) && ys[j - |xs|].victimReplicaID in Ids(ys);
        }
      }
    }
  }

  ghost function Plan(p: Placed): seq<PreemptionDecision> {
    if p.via.Some? then p.via.value.victims else []
  }

  /** Placements i and j name a common victim. */
  ghost predicate Share(log: Log, i: nat, j: nat)
    requires i < |log| && j < |log|
  {
    !(Ids(Plan(log[i])) !! Ids(Plan(log[j])))
  }

  ghost predicate SharesWith(log: Log, n: nat, id: ReplicaID)
    requires n <= |log|
  {
    exists i: nat :: i < n && id in Ids(Plan(log[i]))
  }

  lemma {:induction false} IdsOfVictims(log: Log, id: ReplicaID)
    ensures id in Ids(VictimsOf(log)) <==> SharesWith(log, |log|, id)
  {
    if log != [] {
      var front, n := log[..|log| - 1], |log| - 1;
      IdsOfVictims(front, id);
      IdsConcat(VictimsOf(front), Plan(log[n]));
      if SharesWith(front, n, id) {
        var i: nat :| i < n && id in Ids(Plan(front[i]));
        assert log[i] == front[i];
      }
      if SharesWith(log, |log|, id) && id !in Ids(Plan(log[n])) {
        var i: nat :| i < |log| && id in Ids(Plan(log[i]));
        assert front[i] == log[i];
      }
    }
  }

  ghost predicate SharesNone(log: Log, n: nat)
    requires n < |log|
  {
    forall i: nat | i < n :: !Share(log, i, n)
  }

  ghost predicate NoneShare(log: Log) {
    forall i: nat, j: nat | i < j < |log| :: !Share(log, i, j)
  }

  /** A victim is named twice exactly when two placements share one, each plan by
      itself naming its victims once. */
  lemma {:induction false} NoneTwiceIff(log: Log)
    requires EachPlanOnce(log)
    ensures NoneTwice(VictimsOf(log)) <==> NoneShare(log)
  {
    if log != [] {
      var front := log[..|log| - 1];
      assert EachPlanOnce(front) by {
        assert forall i | 0 <= i < |front| :: front[i] == log[i];
      }
      NoneTwiceIff(front);
      NoneTwiceStep(log);
      NoneShareStep(log);
    }
  }

  ghost predicate EachPlanOnce(log: Log) {
    forall i | 0 <= i < |log| :: NoneTwice(Plan(log[i]))
  }

  lemma NoneTwiceStep(log: Log)
    requires log != [] && EachPlanOnce(log)
    ensures NoneTwice(VictimsOf(log)) <==> NoneTwice(VictimsOf(log[..|log| - 1])) && SharesNone(log, |log| - 1)
  {
    NoneTwiceConcat(VictimsOf(log[..|log| - 1]), Plan(log[|log| - 1]));
    LastShares(log);
  }

  lemma LastShares(log: Log)
    requires log != []
    ensures Ids(VictimsOf(log[..|log| - 1])) !! Ids(Plan(log[|log| - 1])) <==>
            SharesNone(log, |log| - 1)
  {
    var front, n := log[..|log| - 1], |log| - 1;
    forall id ensures id in Ids(VictimsOf(front)) <==> SharesWith(front, n, id) {
      IdsOfVictims(front, id);
    }
    if Ids(VictimsOf(front)) !! Ids(Plan(log[n])) {
      forall i: nat | i < n ensures !Share(log, i, n) {
        forall id | id in Ids(Plan(log[i])) ensures id in Ids(VictimsOf(front)) {
          assert front[i] == log[i] && SharesWith(front, n, id);
        }
      }
    }
    if SharesNone(log, n) {
      forall id | id in Ids(VictimsOf(front)) ensures id !in Ids(Plan(log[n])) {
        var i: nat :| i < n && id in Ids(Plan(front[i]));
        assert front[i] == log[i] && !Share(log, i, n);
      }
    }
  }

  lemma NoneShareStep(log: Log)
    requires log != []
    ensures NoneShare(log) <==>
            NoneShare(log[..|log| - 1]) && SharesNone(log, |log| - 1)
  {
    var front := log[..|log| - 1];
    forall i: nat, j: nat | i < j < |front| ensures Share(front, i, j) == Share(log, i, j) {
      assert front[i] == log[i] && front[j] == log[j];
    }
    if NoneShare(front) && SharesNone(log, |log| - 1) {
      forall i: nat, j: nat | i < j < |log| ensures !Share(log, i, j) {
        assert j < |front| ==> !Share(front, i, j);
      }
    }
  }

  // ---------- Exactly when a cycle names a victim twice ----------

  /** The plans the engine would give two applications share a victim. Read off the
      snapshot alone. */
  ghost predicate PlansOverlap(e: Engine, snap: Snapshot, a: AppID, b: AppID)
    requires WellKeyed(snap)
  {
    && a in snap.applications && b in snap.applications
    && var p, q := PlanFor(snap, snap.applications[a], e.grace), PlanFor(snap, snap.applications[b], e.grace);
       p.Some? && q.Some? && !(Ids(p.value.victims) !! Ids(q.value.victims))
  }

  lemma PlansAreDistinct(e: Engine, snap: Snapshot, log: Log, i: nat)
    requires e.cfg.maxGPUsPerNode > 0 && WellKeyed(snap) && ValidCycle(e, snap, log) && i < |log|
    ensures log[i].appID in snap.applications
    ensures log[i].via.Some? ==> PlanFor(snap, snap.applications[log[i].appID], e.grace) == log[i].via
    ensures NoneTwice(Plan(log[i]))
    ensures log[i].via.Some? && log[i].gpus > 0 ==> Ids(Plan(log[i])) != {}
    ensures log[i].via.Some? && log[i].gpus <= 0 ==> Plan(log[i]) == []
  {
    assert JustifiedAt(e, snap, log, i);
    if log[i].via.Some? {
      var app := snap.applications[log[i].appID];
      PlanIsSafeAndTight(snap, app, e.grace);
      var vs := Plan(log[i]);
      if log[i].gpus > 0 {
        assert vs != [];
        assert vs[0].victimReplicaID in Ids(vs);
      } else {
        NothingNeededNothingTaken(snap, app, e.grace);
      }
    }
  }

  /** Without a need the greedy selection takes nobody. */
  lemma NothingNeededNothingTaken(snap: Snapshot, app: Application, grace: int)
    requires WellKeyed(snap) && app.gpusPerReplica <= 0 && PlanFor(snap, app, grace).Some?
    ensures PlanFor(snap, app, grace).value.victims == []
  {
    var q := Queue(snap, app, 2);
    assert q[..0] == [];
    assert Select(snap.replicas, q[..0], app.gpusPerReplica, "") == Selection([], 0, "");
    SelectStops(snap.replicas, q, app.gpusPerReplica, "", 0);
  }

  /** Two placements of one application share a victim exactly when the first of them
      was already by preemption, for an application that needs GPUs at all. */
  lemma SameApplicationSharesIff(e: Engine, snap: Snapshot, log: Log, i: nat, j: nat)
    requires e.cfg.maxGPUsPerNode > 0 && WellKeyed(snap) && SizesNonNegative(snap) && ValidCycle(e, snap, log)
    requires i < j < |log| && log[i].appID == log[j].appID
    ensures Share(log, i, j) <==> log[i].via.Some? && log[i].gpus > 0
  {
    PlansAreDistinct(e, snap, log, i);
    if log[i].via.Some? {
      CapacityBeforePreemption(e, snap, log, i, j);
      if log[i].gpus > 0 {
        var id :| id in Ids(Plan(log[i]));
        assert id in Ids(Plan(log[j]));
      }
    }
  }

  /** Two placements of different applications share a victim exactly when both were
      by preemption and the two applications' plans overlap. */
  lemma DifferentApplicationsShareIff(e: Engine, snap: Snapshot, log: Log, i: nat, j: nat)
    requires e.cfg.maxGPUsPerNode > 0 && WellKeyed(snap) && ValidCycle(e, snap, log)
    requires i < |log| && j < |log|
    ensures Share(log, i, j) <==>
            log[i].via.Some? && log[j].via.Some? && PlansOverlap(e, snap, log[i].appID, log[j].appID)
  {
    PlansAreDistinct(e, snap, log, i);
    PlansAreDistinct(e, snap, log, j);
  }

  /** Two preemption placements that must not both be made: of one application, or of
      two whose plans overlap. */
  ghost predicate Clash(e: Engine, snap: Snapshot, log: Log, i: nat, j: nat)
    requires WellKeyed(snap) && i < |log| && j < |log|
  {
    && log[i].via.Some? && log[j].via.Some?
    && if log[i].appID == log[j].appID then log[i].gpus > 0
       else PlansOverlap(e, snap, log[i].appID, log[j].appID)
  }

  /** A cycle names no victim twice exactly when no application that needs GPUs has
      two preemption placements and no two applications with overlapping plans have
      one each. */
  lemma VictimsNamedOnceIff(e: Engine, snap: Snapshot, log: Log)
    requires e.cfg.maxGPUsPerNode > 0 && WellKeyed(snap) && SizesNonNegative(snap) && ValidCycle(e, snap, log)
    ensures NoneTwice(VictimsOf(log)) <==> forall i: nat, j: nat | i < j < |log| :: !Clash(e, snap, log, i, j)
  {
    forall i | 0 <= i < |log| ensures NoneTwice(Plan(log[i])) {
      PlansAreDistinct(e, snap, log, i);
    }
    NoneTwiceIff(log);
    forall i: nat, j: nat | i < j < |log| ensures Share(log, i, j) <==> Clash(e, snap, log, i, j) {
      ShareIsClash(e, snap, log, i, j);
    }
  }

  lemma ShareIsClash(e: Engine, snap: Snapshot, log: Log, i: nat, j: nat)
    requires e.cfg.maxGPUsPerNode > 0 && WellKeyed(snap) && SizesNonNegative(snap) && ValidCycle(e, snap, log)
    requires i < j < |log|
    ensures Share(log, i, j) <==> Clash(e, snap, log, i, j)
  {
    if log[i].appID == log[j].appID {
      SameApplicationSharesIff(e, snap, log, i, j);
      if log[i].via.Some? {
        CapacityBeforePreemption(e, snap, log, i, j);
      }
    } else {
      DifferentApplicationsShareIff(e, snap, log, i, j);
    }
  }

  /** It does happen: when an application that needs GPUs wants two or more replicas,
      no cluster has room and there is a plan, every outcome of the cycle names some
      victim twice. */
  lemma StarvedApplicationNamesVictimsTwice(e: Engine, snap: Snapshot, decisions: map<AppID, ScalingDecision>,
                                            ids: ReservationIds, d: PlacementDecisions, log: Log, a: AppID)
    requires e.cfg.maxGPUsPerNode > 0 && WellKeyed(snap) && SizesNonNegative(snap)
    requires decisions.Keys <= snap.applications.Keys && IsPlacement(e, snap, decisions, ids, d, log)
    requires e.mayPreempt && a in snap.applications && snap.applications[a].gpusPerReplica > 0
    requires Delta(snap, decisions, a) >= 2 && PlanFor(snap, snap.applications[a], e.grace).Some?
    requires EligibleSet(snap, [], snap.applications[a].gpusPerReplica) == {}
    ensures !NoneTwice(d.preemptions)
  {
    assert a in Growing(snap, decisions) && Served(e, snap, log, AppDelta(a, Delta(snap, decisions, a)));
    var i, j := TwoPlacements(log, a);
    StarvedMeansPreemption(e, snap, log, i);
    VictimsNamedOnceIff(e, snap, log);
    StarvedMeansPreemption(e, snap, log, j);
    PlansAreDistinct(e, snap, log, i);
    assert JustifiedAt(e, snap, log, i);
    assert Clash(e, snap, log, i, j);
  }

  lemma StarvedMeansPreemption(e: Engine, snap: Snapshot, log: Log, i: nat)
    requires e.cfg.maxGPUsPerNode > 0 && WellKeyed(snap) && SizesNonNegative(snap) && ValidCycle(e, snap, log)
    requires i < |log| && log[i].appID in snap.applications
    requires EligibleSet(snap, [], snap.applications[log[i].appID].gpusPerReplica) == {}
    ensures log[i].via.Some?
  {
    ValidCyclePrefix(e, snap, log, i);
    assert log[..i][..0] == [];
    EligibilityShrinks(e, snap, log[..i], 0, snap.applications[log[i].appID].gpusPerReplica);
    assert JustifiedAt(e, snap, log, i);
  }

  lemma {:induction false} TwoPlacements(log: Log, a: AppID) returns (i: nat, j: nat)
    requires PlannedFor(log, a) >= 2
    ensures i < j < |log| && log[i].appID == log[j].appID == a
  {
    var front, n := log[..|log| - 1], |log| - 1;
    if log[n].appID == a {
      i := OnePlacement(front, a);
      j := n;
      assert front[i] == log[i];
    } else {
      i, j := TwoPlacements(front, a);
      assert front[i] == log[i] && front[j] == log[j];
    }
  }

  lemma {:induction false} OnePlacement(log: Log, a: AppID) returns (i: nat)
    requires PlannedFor(log, a) >= 1
    ensures i < |log| && log[i].appID == a
  {
    var front, n := log[..|log| - 1], |log| - 1;
    if log[n].appID == a {
      i := n;
    } else {
      i := OnePlacement(front, a);
      assert front[i] == log[i];
    }
  }

  // ---------- The budget of distinct victims ----------

  ghost function GpusOfId(replicas: map<ReplicaID, Replica>): ReplicaID -> int {
    (id: ReplicaID) => GpusOf(replicas, id)
  }

  /** GPUs really freed: each replica counted once. */
  ghost function FreedOnce(replicas: map<ReplicaID, Replica>, s: set<ReplicaID>): int {
    MapSum(map id | id in s :: id, GpusOfId(replicas))
  }

  lemma FreedOnceAdd(replicas: map<ReplicaID, Replica>, s: set<ReplicaID>, id: ReplicaID)
    requires id !in s
    ensures FreedOnce(replicas, s + {id}) == FreedOnce(replicas, s) + GpusOf(replicas, id)
  {
    var m, m' := map x | x in s :: x, map x | x in s + {id} :: x;
    assert m' == m[id := id];
    MapSumPut(m, GpusOfId(replicas), id, id);
  }

  lemma {:induction false} EvictedIsFreedOnce(replicas: map<ReplicaID, Replica>, vs: seq<PreemptionDecision>)
    requires NoneTwice(vs)
    ensures EvictedGPUs(replicas, vs) == FreedOnce(replicas, Ids(vs))
  {
    if vs == [] {
      assert (map id | id in Ids(vs) :: id) == map[];
    } else {
      var front, last := vs[..|vs| - 1], vs[|vs| - 1];
      assert vs == front + [last];
      EvictedIsFreedOnce(replicas, front);
      IdsConcat(front, [last]);
      assert Ids([last]) == {last.victimReplicaID};
      NoneTwiceConcat(front, [last]);
      FreedOnceAdd(replicas, Ids(front), last.victimReplicaID);
    }
  }

  lemma {:induction false} EvictedConcat(replicas: map<ReplicaID, Replica>, xs: seq<PreemptionDecision>,
                                         ys: seq<PreemptionDecision>)
    ensures EvictedGPUs(replicas, xs + ys) == EvictedGPUs(replicas, xs) + EvictedGPUs(replicas, ys)
  {
    if ys == [] {
      assert xs + ys == xs;
    } else {
      assert (xs + ys)[..|xs + ys| - 1] == xs + ys[..|ys| - 1];
      EvictedConcat(replicas, xs, ys[..|ys| - 1]);
    }
  }

  lemma {:induction false} FreedIsEvicted(snap: Snapshot, log: Log, c: ClusterID)
    ensures FreedIn(snap, log, c) == EvictedGPUs(snap.replicas, VictimsIn(log, c))
  {
    if log != [] {
      var front, last := log[..|log| - 1], log[|log| - 1];
      FreedIsEvicted(snap, front, c);
      EvictedConcat(snap.replicas, VictimsIn(front, c),
                    if last.via.Some? && last.clusterID == c then Plan(last) else []);
    }
  }

  /** Reservations in a cluster never exceed what it had to spare plus the GPUs its
      distinct victims free, as long as its plans name nobody twice. */
  lemma DistinctBudget(e: Engine, snap: Snapshot, log: Log, c: ClusterID)
    requires e.cfg.maxGPUsPerNode > 0 && WellKeyed(snap) && SizesNonNegative(snap) && ValidCycle(e, snap, log)
    requires NoneTwice(VictimsIn(log, c))
    ensures Reserved(log, c) <= Budget(snap, c) + FreedOnce(snap.replicas, Ids(VictimsIn(log, c)))
  {
    NeverOverBudget(e, snap, log, c);
    FreedIsEvicted(snap, log, c);
    EvictedIsFreedOnce(snap.replicas, VictimsIn(log, c));
  }

  ghost predicate ByPreemption(p: Placed, c: ClusterID) {
    p.via.Some? && p.clusterID == c
  }

  ghost predicate AtMostOneIn(log: Log, c: ClusterID) {
    forall i: nat, j: nat | i < j < |log| :: !(ByPreemption(log[i], c) && ByPreemption(log[j], c))
  }

  lemma {:induction false} AtMostOneNamesOnce(e: Engine, snap: Snapshot, log: Log, c: ClusterID)
    requires e.cfg.maxGPUsPerNode > 0 && WellKeyed(snap) && ValidCycle(e, snap, log) && AtMostOneIn(log, c)
    ensures NoneTwice(VictimsIn(log, c))
  {
    if log != [] {
      var front, last := log[..|log| - 1], log[|log| - 1];
      ValidCyclePrefix(e, snap, log, |log| - 1);
      assert forall i | 0 <= i < |front| :: front[i] == log[i];
      AtMostOneNamesOnce(e, snap, front, c);
      PlansAreDistinct(e, snap, log, |log| - 1);
      if ByPreemption(last, c) {
        NobodyBefore(front, c);
        assert VictimsIn(log, c) == Plan(last);
      }
    }
  }

  lemma {:induction false} NobodyBefore(log: Log, c: ClusterID)
    requires forall i | 0 <= i < |log| :: !ByPreemption(log[i], c)
    ensures VictimsIn(log, c) == []
  {
    if log != [] {
      assert !ByPreemption(log[|log| - 1], c);
      NobodyBefore(log[..|log| - 1], c);
    }
  }

  /** With at most one preemption placement in a cluster the bound holds. */
  lemma OnePlanKeepsBudget(e: Engine, snap: Snapshot, log: Log, c: ClusterID)
    requires e.cfg.maxGPUsPerNode > 0 && WellKeyed(snap) && SizesNonNegative(snap) && ValidCycle(e, snap, log)
    requires AtMostOneIn(log, c)
    ensures Reserved(log, c) <= Budget(snap, c) + FreedOnce(snap.replicas, Ids(VictimsIn(log, c)))
  {
    AtMostOneNamesOnce(e, snap, log, c);
    DistinctBudget(e, snap, log, c);
  }

  // ---------- Exactly when freed GPUs are enough, counted once ----------

  /** GPUs reserved in a cluster by capacity placements. */
  function ByCapacity(log: Log, c: ClusterID): int {
    if log == [] then 0
    else
      var last := log[|log| - 1];
      ByCapacity(log[..|log| - 1], c) + if last.via.None? && last.clusterID == c then last.gpus else 0
  }

  /** GPUs reserved in a cluster by preemption placements. */
  function ByAdoption(log: Log, c: ClusterID): int {
    if log == [] then 0
    else
      var last := log[|log| - 1];
      ByAdoption(log[..|log| - 1], c) + if last.via.Some? && last.clusterID == c then last.gpus else 0
  }

  /** The applications with a preemption placement in a cluster. */
  ghost function Adopters(log: Log, c: ClusterID): set<AppID> {
    set p | p in log && ByPreemption(p, c) :: p.appID
  }

  /** The victims of the plans the snapshot gives these applications, each once. */
  ghost function PlannedVictims(e: Engine, snap: Snapshot, apps: set<AppID>): set<ReplicaID>
    requires WellKeyed(snap)
  {
    set a, v | && a in apps && a in snap.applications && PlanFor(snap, snap.applications[a], e.grace).Some?
               && v in PlanFor(snap, snap.applications[a], e.grace).value.victims ::
      v.victimReplicaID
  }

  lemma {:induction false} ReservedSplits(log: Log, c: ClusterID)
    ensures Reserved(log, c) == ByCapacity(log, c) + ByAdoption(log, c)
  {
    if log != [] {
      ReservedSplits(log[..|log| - 1], c);
    }
  }

  lemma {:induction false} VictimsArePlanned(e: Engine, snap: Snapshot, log: Log, c: ClusterID)
    requires e.cfg.maxGPUsPerNode > 0 && WellKeyed(snap) && ValidCycle(e, snap, log)
    ensures Ids(VictimsIn(log, c)) == PlannedVictims(e, snap, Adopters(log, c))
  {
    if log != [] {
      var front, last := log[..|log| - 1], log[|log| - 1];
      ValidCyclePrefix(e, snap, log, |log| - 1);
      VictimsArePlanned(e, snap, front, c);
      PlansAreDistinct(e, snap, log, |log| - 1);
      AdoptersStep(log, c);
      if ByPreemption(last, c) {
        IdsConcat(VictimsIn(front, c), Plan(last));
        PlannedVictimsAdd(e, snap, Adopters(front, c), last.appID);
      } else {
        assert VictimsIn(front, c) + [] == VictimsIn(front, c);
      }
    }
  }

  lemma AdoptersStep(log: Log, c: ClusterID)
    requires log != []
    ensures Adopters(log, c) ==
            Adopters(log[..|log| - 1], c) + if ByPreemption(log[|log| - 1], c) then {log[|log| - 1].appID} else {}
  {
    var front, last := log[..|log| - 1], log[|log| - 1];
    assert log == front + [last];
    assert forall p :: p in log <==> p in front || p == last;
  }

  lemma PlannedVictimsAdd(e: Engine, snap: Snapshot, apps: set<AppID>, a: AppID)
    requires WellKeyed(snap) && a in snap.applications && PlanFor(snap, snap.applications[a], e.grace).Some?
    ensures PlannedVictims(e, snap, apps + {a}) ==
            PlannedVictims(e, snap, apps) + Ids(PlanFor(snap, snap.applications[a], e.grace).value.victims)
  {
  }

  /** The exact condition, whichever applications adopt plans in a cluster and however
      often: the reservations fit in the spare GPUs plus those of the distinct victims
      exactly when all placements together fit in them plus what the plans of the
      adopting applications free, each victim counted once. */
  lemma BudgetHoldsIff(e: Engine, snap: Snapshot, log: Log, c: ClusterID)
    requires e.cfg.maxGPUsPerNode > 0 && WellKeyed(snap) && ValidCycle(e, snap, log)
    ensures Reserved(log, c) <= Budget(snap, c) + FreedOnce(snap.replicas, Ids(VictimsIn(log, c))) <==>
            ByCapacity(log, c) + ByAdoption(log, c) <=
            Budget(snap, c) + FreedOnce(snap.replicas, PlannedVictims(e, snap, Adopters(log, c)))
  {
    ReservedSplits(log, c);
    VictimsArePlanned(e, snap, log, c);
  }

  // ---------- One application coming back for the same plan ----------

  /** How many preemption placements a cluster got. */
  function Adoptions(log: Log, c: ClusterID): nat {
    if log == [] then 0
    else
      Adoptions(log[..|log| - 1], c) + if log[|log| - 1].via.Some? && log[|log| - 1].clusterID == c then 1 else 0
  }

  ghost predicate OnlyBy(log: Log, c: ClusterID, a: AppID) {
    forall i | 0 <= i < |log| && ByPreemption(log[i], c) :: log[i].appID == a
  }

  lemma {:induction false} AdoptedTotals(e: Engine, snap: Snapshot, log: Log, c: ClusterID, a: AppID)
    requires e.cfg.maxGPUsPerNode > 0 && WellKeyed(snap) && ValidCycle(e, snap, log)
    requires a in snap.applications && OnlyBy(log, c, a)
    ensures ByAdoption(log, c) == Adoptions(log, c) * snap.applications[a].gpusPerReplica
    ensures Adopters(log, c) == if Adoptions(log, c) > 0 then {a} else {}
  {
    if log != [] {
      var front, last, g := log[..|log| - 1], log[|log| - 1], snap.applications[a].gpusPerReplica;
      OnlyByPrefix(e, snap, log, c, a);
      AdoptedTotals(e, snap, front, c, a);
      AdoptersStep(log, c);
      if ByPreemption(last, c) {
        PlacementSize(e, snap, log, |log| - 1);
        OneMore(Adoptions(front, c), g);
      }
    }
  }

  lemma OneMore(k: int, g: int)
    ensures (k + 1) * g == k * g + g
  {
  }

  lemma PlacementSize(e: Engine, snap: Snapshot, log: Log, i: nat)
    requires e.cfg.maxGPUsPerNode > 0 && WellKeyed(snap) && ValidCycle(e, snap, log) && i < |log|
    ensures log[i].appID in snap.applications && log[i].gpus == snap.applications[log[i].appID].gpusPerReplica
  {
    assert JustifiedAt(e, snap, log, i);
  }

  lemma OnlyByPrefix(e: Engine, snap: Snapshot, log: Log, c: ClusterID, a: AppID)
    requires e.cfg.maxGPUsPerNode > 0 && WellKeyed(snap) && ValidCycle(e, snap, log) && log != [] && OnlyBy(log, c, a)
    ensures ValidCycle(e, snap, log[..|log| - 1]) && OnlyBy(log[..|log| - 1], c, a)
    ensures ByPreemption(log[|log| - 1], c) ==> log[|log| - 1].appID == a
  {
    var front := log[..|log| - 1];
    ValidCyclePrefix(e, snap, log, |log| - 1);
    assert forall i | 0 <= i < |front| :: front[i] == log[i];
  }

  lemma AdopterHasPlan(e: Engine, snap: Snapshot, log: Log, c: ClusterID, a: AppID)
    requires e.cfg.maxGPUsPerNode > 0 && WellKeyed(snap) && ValidCycle(e, snap, log)
    requires a in snap.applications && a in Adopters(log, c)
    ensures PlanFor(snap, snap.applications[a], e.grace).Some?
  {
    var p :| p in log && ByPreemption(p, c) && p.appID == a;
    var i :| 0 <= i < |log| && log[i] == p;
    PlansAreDistinct(e, snap, log, i);
  }

  /** Coming back k times for one plan overdraws the cluster exactly when k replicas do
      not fit in what was spare plus what the plan frees once. */
  lemma RepeatedPlanFitsIff(e: Engine, snap: Snapshot, log: Log, c: ClusterID, a: AppID)
    requires e.cfg.maxGPUsPerNode > 0 && WellKeyed(snap) && ValidCycle(e, snap, log)
    requires a in snap.applications && OnlyBy(log, c, a) && Adoptions(log, c) > 0
    ensures PlanFor(snap, snap.applications[a], e.grace).Some?
    ensures Reserved(log, c) <= Budget(snap, c) + FreedOnce(snap.replicas, Ids(VictimsIn(log, c))) <==>
            ByCapacity(log, c) + Adoptions(log, c) * snap.applications[a].gpusPerReplica <=
            Budget(snap, c) + EvictedGPUs(snap.replicas, PlanFor(snap, snap.applications[a], e.grace).value.victims)
  {
    BudgetHoldsIff(e, snap, log, c);
    AdoptedTotals(e, snap, log, c, a);
    AdopterHasPlan(e, snap, log, c, a);
    OnePlanFrees(e, snap, a);
  }

  lemma OnePlanFrees(e: Engine, snap: Snapshot, a: AppID)
    requires WellKeyed(snap) && a in snap.applications && PlanFor(snap, snap.applications[a], e.grace).Some?
    ensures FreedOnce(snap.replicas, PlannedVictims(e, snap, {a})) ==
            EvictedGPUs(snap.replicas, PlanFor(snap, snap.applications[a], e.grace).value.victims)
  {
    var victims := PlanFor(snap, snap.applications[a], e.grace).value.victims;
    assert PlannedVictims(e, snap, {a}) == Ids(victims);
    assert NoneTwice(victims) by {
      PlanIsSafeAndTight(snap, snap.applications[a], e.grace);
    }
    EvictedIsFreedOnce(snap.replicas, victims);
  }

  // ---------- A full cluster ----------

  const LOW := Application("low", "model", 1, 2, 0, NoRule, 0)

  const HIGH := Application("high", "model", 1, 0, 0, NoRule, 0)

  const RUNNING_LOW := Replica("v", "low", "c", "n", 1, Running, 1)

  /** One one-GPU node, taken by a replica of the low-priority application. */
  const FULL := Snapshot(map["c" := Cluster("c", map["n" := Node("n", "c", 1, 1, 0, ["v"], Ready)], 1.0)],
                         map["low" := LOW, "high" := HIGH], map["v" := RUNNING_LOW], None,
                         map[], map[], map[], map[], map[], 1)

  /** The high-priority application wants two replicas. */
  const WANTS_TWO := map["high" := ScalingDecision("high", 0, 0, 0, 2, Up, NoSignal, false, true, 1, false)]

  lemma FullIsKeyed()
    ensures WellKeyed(FULL) && SizesNonNegative(FULL) && WANTS_TWO.Keys <= FULL.applications.Keys
  {
  }

  lemma FullHasNoRoom()
    ensures EligibleSet(FULL, [], 1) == {} && Budget(FULL, "c") == 0
  {
    var nodes := FULL.clusters["c"].nodes;
    assert !HasFit(nodes, 1);
    MapSumZero(nodes, ReadyFree());
    MapSumZero(FULL.reservations, HeldIn("c"));
  }

  lemma FullCounts()
    ensures ActiveCount(FULL.replicas, "low") == 1 && Delta(FULL, WANTS_TWO, "high") == 2
    ensures Growing(FULL, WANTS_TWO) == {"high"}
  {
    assert ActiveIds(FULL.replicas, "low") == {"v"};
    assert ActiveIds(FULL.replicas, "high") == {};
  }

  lemma OnlyCandidate()
    requires WellKeyed(FULL)
    ensures Queue(FULL, HIGH, 2) == [Candidate(RUNNING_LOW, LOW)]
  {
    var c := Candidate(RUNNING_LOW, LOW);
    assert IsCandidate(FULL, HIGH, 2, "low", "v");
    assert Pool(FULL, HIGH, 2) == {c};
    QueueListsPool(FULL, HIGH, 2);
    var q := Queue(FULL, HIGH, 2);
    EnumerationSize(q, {c});
    assert q[0] in q;
  }

  /** There is a plan: it evicts the one replica. */
  lemma FullHasPlan(grace: int)
    requires WellKeyed(FULL)
    ensures PlanFor(FULL, HIGH, grace).Some? && PlanFor(FULL, HIGH, grace).value.targetCluster == "c"
    ensures EvictedGPUs(FULL.replicas, PlanFor(FULL, HIGH, grace).value.victims) == 1
  {
    var c := Candidate(RUNNING_LOW, LOW);
    OnlyCandidate();
    FullCounts();
    TakesIt(c);
    assert Choose(FULL, HIGH) == Selection([c], 1, "c");
    var victims := PlanFor(FULL, HIGH, grace).value.victims;
    assert victims == [ToDecision(c, grace)];
    assert victims[..0] == [];
  }

  lemma TakesIt(c: Candidate)
    requires c == Candidate(RUNNING_LOW, LOW) && ActiveCount(FULL.replicas, "low") == 1
    ensures Select(FULL.replicas, [c], 1, "") == Selection([c], 1, "c")
  {
    assert [c][..0] == [];
  }

  /** Every outcome of the cycle names the one replica twice and reserves two GPUs
      where evicting it frees one. */
  lemma FullNamesVictimTwice(e: Engine, ids: ReservationIds, d: PlacementDecisions, log: Log)
    requires WellKeyed(FULL) && WANTS_TWO.Keys <= FULL.applications.Keys
    requires e.cfg.maxGPUsPerNode > 0 && e.mayPreempt && IsPlacement(e, FULL, WANTS_TWO, ids, d, log)
    ensures !NoneTwice(d.preemptions)
    ensures Reserved(log, "c") > Budget(FULL, "c") + FreedOnce(FULL.replicas, Ids(VictimsIn(log, "c")))
  {
    FullIsKeyed();
    FullHasNoRoom();
    FullCounts();
    FullHasPlan(e.grace);
    StarvedApplicationNamesVictimsTwice(e, FULL, WANTS_TWO, ids, d, log, "high");
    FullLog(e, ids, d, log);
    RepeatedPlanFitsIff(e, FULL, log, "c", "high");
  }

  lemma FullLog(e: Engine, ids: ReservationIds, d: PlacementDecisions, log: Log)
    requires WellKeyed(FULL) && SizesNonNegative(FULL) && WANTS_TWO.Keys <= FULL.applications.Keys
    requires e.cfg.maxGPUsPerNode > 0 && e.mayPreempt && IsPlacement(e, FULL, WANTS_TWO, ids, d, log)
    requires EligibleSet(FULL, [], 1) == {} && Growing(FULL, WANTS_TWO) == {"high"}
             && Delta(FULL, WANTS_TWO, "high") == 2
    requires PlanFor(FULL, HIGH, e.grace).Some? && PlanFor(FULL, HIGH, e.grace).value.targetCluster == "c"
    ensures OnlyBy(log, "c", "high") && Adoptions(log, "c") == 2 && ByCapacity(log, "c") == 0
  {
    assert Served(e, FULL, log, AppDelta("high", 2));
    forall i | 0 <= i < |log| ensures log[i].appID == "high" && ByPreemption(log[i], "c") {
      StarvedMeansPreemption(e, FULL, log, i);
      assert JustifiedAt(e, FULL, log, i);
    }
    AllAdopt(log, "c", "high");
  }

  lemma {:induction false} AllAdopt(log: Log, c: ClusterID, a: AppID)
    requires forall i | 0 <= i < |log| :: log[i].appID == a && ByPreemption(log[i], c)
    ensures Adoptions(log, c) == PlannedFor(log, a) && ByCapacity(log, c) == 0
  {
    if log != [] {
      assert ByPreemption(log[|log| - 1], c);
      AllAdopt(log[..|log| - 1], c, a);
    }
  }
}
