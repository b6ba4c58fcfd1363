/** What the decisions of a placement cycle amount to, read off the decisions: which
    applications end at their target, and what it means when one does not. */
module PlacementOutcome {
  import opened Model
  import opened Collections
  import opened Snapshots
  import opened Preemption
  import opened PlacementScoring
  import opened PlacementCycle
  import opened Placement

  /** The scale-ups of an application, by position. */
  ghost function StartedFor(ups: seq<ScaleUpDecision>, a: AppID): set<nat> {
    set i: nat | i < |ups| && ups[i].appID == a
  }

  ghost function RemovedFrom(d: PlacementDecisions, a: AppID): set<ReplicaID> {
    set sd | sd in d.scaleDowns && sd.appID == a :: sd.replicaID
  }

  ghost function ActiveOf(snap: Snapshot, a: AppID): set<ReplicaID> {
    set id | id in snap.replicas && snap.replicas[id].appID == a
      && (snap.replicas[id].status == Running || snap.replicas[id].status == Pending)
  }

  /** GPUs the active reservations of a list hold in a cluster. */
  ghost function HeldBy(rs: seq<GPUReservation>, c: ClusterID): int {
    if rs == [] then 0
    else
      var last := rs[|rs| - 1];
      HeldBy(rs[..|rs| - 1], c) + if last.clusterID == c && last.status == Active then last.gpus else 0
  }

  /** No cluster has, besides the cycle's own reservations, both a ready node for one
      more replica and the GPUs for it. */
  ghost predicate NoneFits(snap: Snapshot, d: PlacementDecisions, need: int) {
    forall c | c in snap.clusters ::
      || (forall n | n in snap.clusters[c].nodes && snap.clusters[c].nodes[n].status == Ready ::
            snap.clusters[c].nodes[n].freeGPUs < need)
      || (need > 0 && Headroom(snap.clusters, snap.reservations, c) - HeldBy(d.reservations, c) < need)
  }

  /** What the cycle wants to leave an application with: its target, if a change to it was
      approved. */
  ghost function Wanted(snap: Snapshot, decisions: map<AppID, ScalingDecision>, a: AppID): int {
    if a in decisions && decisions[a].scaleActionApproved then decisions[a].targetCount else |ActiveOf(snap, a)|
  }

  lemma {:induction false} StartedIsPlanned(ups: seq<ScaleUpDecision>, log: Log, a: AppID)
    requires |ups| == |log| && forall i | 0 <= i < |log| :: ups[i].appID == log[i].appID
    ensures |StartedFor(ups, a)| == PlannedFor(log, a)
  {
    if log == [] {
      assert StartedFor(ups, a) == {};
    } else {
      var last := |log| - 1;
      StartedIsPlanned(ups[..last], log[..last], a);
      assert StartedFor(ups, a) == StartedFor(ups[..last], a) + if ups[last].appID == a then {last} else {};
    }
  }

  lemma {:induction false} HeldIsReserved(rs: seq<GPUReservation>, log: Log, c: ClusterID)
    requires |rs| == |log|
    requires forall i | 0 <= i < |log| ::
               rs[i].clusterID == log[i].clusterID && rs[i].gpus == log[i].gpus && rs[i].status == Active
    ensures HeldBy(rs, c) == Reserved(log, c)
  {
    if log != [] {
      var last := |log| - 1;
      HeldIsReserved(rs[..last], log[..last], c);
    }
  }

  lemma DecisionsAreTheLog(e: Engine, snap: Snapshot, decisions: map<AppID, ScalingDecision>, ids: ReservationIds,
                           d: PlacementDecisions, log: Log, a: AppID)
    requires e.cfg.maxGPUsPerNode > 0 && WellKeyed(snap) && decisions.Keys <= snap.applications.Keys
    requires IsPlacement(e, snap, decisions, ids, d, log)
    ensures |StartedFor(d.scaleUps, a)| == PlannedFor(log, a)
    ensures forall c :: HeldBy(d.reservations, c) == Reserved(log, c)
    ensures RemovedFrom(d, a) == RemovedOf(d.scaleDowns, a) && ActiveOf(snap, a) == ActiveIds(snap.replicas, a)
  {
    StartedIsPlanned(d.scaleUps, log, a);
    forall c ensures HeldBy(d.reservations, c) == Reserved(log, c) {
      HeldIsReserved(d.reservations, log, c);
    }
  }

  lemma IneligibleMeans(snap: Snapshot, d: PlacementDecisions, log: Log, need: int)
    requires EligibleSet(snap, log, need) == {} && forall c :: HeldBy(d.reservations, c) == Reserved(log, c)
    ensures NoneFits(snap, d, need)
  {
    forall c | c in snap.clusters
      ensures || (forall n | n in snap.clusters[c].nodes && snap.clusters[c].nodes[n].status == Ready ::
                    snap.clusters[c].nodes[n].freeGPUs < need)
              || (need > 0 && Headroom(snap.clusters, snap.reservations, c) - HeldBy(d.reservations, c) < need)
    {
      assert Eligible(snap, log, need, c) ==> c in EligibleSet(snap, log, need);
    }
  }

  /** Every application that is to grow gets to its target, or as far towards it as there
      is room: then no cluster fits one more and no plan makes any. */
  lemma GrowthReachesTarget(e: Engine, snap: Snapshot, decisions: map<AppID, ScalingDecision>, ids: ReservationIds,
                            d: PlacementDecisions, log: Log, a: AppID)
    requires e.cfg.maxGPUsPerNode > 0 && WellKeyed(snap) && decisions.Keys <= snap.applications.Keys
    requires IsPlacement(e, snap, decisions, ids, d, log) && Wanted(snap, decisions, a) > |ActiveOf(snap, a)|
    ensures RemovedFrom(d, a) == {}
    ensures |ActiveOf(snap, a)| + |StartedFor(d.scaleUps, a)| <= Wanted(snap, decisions, a)
    ensures |ActiveOf(snap, a)| + |StartedFor(d.scaleUps, a)| < Wanted(snap, decisions, a) ==>
              && NoneFits(snap, d, snap.applications[a].gpusPerReplica)
              && (e.mayPreempt ==> PlanFor(snap, snap.applications[a], e.grace).None?)
  {
    DecisionsAreTheLog(e, snap, decisions, ids, d, log, a);
    assert a in Growing(snap, decisions) && a !in Shrinking(snap, decisions);
    assert Served(e, snap, log, AppDelta(a, Delta(snap, decisions, a)));
    if Refused(e, snap, log, snap.applications[a]) {
      IneligibleMeans(snap, d, log, snap.applications[a].gpusPerReplica);
    }
  }

  /** Every application that is to shrink ends exactly at its target, and every other one
      stays as it is. */
  lemma RestReachesTarget(e: Engine, snap: Snapshot, decisions: map<AppID, ScalingDecision>, ids: ReservationIds,
                          d: PlacementDecisions, log: Log, a: AppID)
    requires e.cfg.maxGPUsPerNode > 0 && WellKeyed(snap) && decisions.Keys <= snap.applications.Keys
    requires IsPlacement(e, snap, decisions, ids, d, log) && Wanted(snap, decisions, a) <= |ActiveOf(snap, a)|
    ensures StartedFor(d.scaleUps, a) == {} && RemovedFrom(d, a) <= ActiveOf(snap, a)
    ensures |ActiveOf(snap, a) - RemovedFrom(d, a)| ==
            if Wanted(snap, decisions, a) < 0 then 0 else Wanted(snap, decisions, a)
  {
    DecisionsAreTheLog(e, snap, decisions, ids, d, log, a);
    assert a !in Growing(snap, decisions);
    assert StartedFor(d.scaleUps, a) == {} by {
      assert forall i | 0 <= i < |log| :: d.scaleUps[i].appID == log[i].appID;
    }
    if a in Shrinking(snap, decisions) {
      assert a in decisions;
    } else {
      assert RemovedFrom(d, a) == {};
    }
  }
}
