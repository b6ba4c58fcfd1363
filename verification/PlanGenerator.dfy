/** Turns one cycle's decisions into a plan: preemptions, then scale-downs, then
    scale-ups waiting for the preemptions in their cluster, then each migration
    as a scale-up followed by the deletion of its source. */
module PlanGenerator {
  import opened Model
  import opened DependencyGraph
  import opened Executor

  /** The ids drawn for the plan's operations, in drawing order. */
  type Uuids = nat -> OperationID

  ghost predicate NeverRepeats(uuids: Uuids) {
    forall i, j :: 0 <= i < j ==> uuids(i) != uuids(j)
  }

  /** The ids of the preemptions in the given cluster, in order. */
  function PreemptionIds(ps: seq<PreemptionDecision>, uuids: Uuids, cluster: ClusterID): seq<OperationID> {
    if ps == [] then []
    else
      var last := |ps| - 1;
      PreemptionIds(ps[..last], uuids, cluster)
      + if ps[last].clusterID == cluster then [uuids(last)] else []
  }

  lemma {:induction false} PreemptionIdsAre(ps: seq<PreemptionDecision>, uuids: Uuids, cluster: ClusterID)
    ensures forall id :: id in PreemptionIds(ps, uuids, cluster) <==>
                         exists i :: 0 <= i < |ps| && ps[i].clusterID == cluster && uuids(i) == id
  {
    if ps != [] {
      var last := |ps| - 1;
      PreemptionIdsAre(ps[..last], uuids, cluster);
      forall id ensures id in PreemptionIds(ps, uuids, cluster) <==>
                        exists i :: 0 <= i < |ps| && ps[i].clusterID == cluster && uuids(i) == id {
        if id in PreemptionIds(ps[..last], uuids, cluster) {
          var i :| 0 <= i < last && ps[..last][i].clusterID == cluster && uuids(i) == id;
          assert ps[i].clusterID == cluster;
        }
        if i :| 0 <= i < |ps| && ps[i].clusterID == cluster && uuids(i) == id {
          if i < last {
            assert ps[..last][i].clusterID == cluster;
          }
        }
      }
    }
  }

  function MigrationScaleUp(m: MigrateDecision): ScaleUpDecision {
    ScaleUpDecision(m.appID, m.targetClusterID, "", m.constraints)
  }

  function PlanSize(d: PlacementDecisions, ms: seq<MigrateDecision>): nat {
    |d.preemptions| + |d.scaleDowns| + |d.scaleUps| + 2 * |ms|
  }

  /** The operation standing at position i of the plan and what it waits for. */
  function PlannedAt(d: PlacementDecisions, ms: seq<MigrateDecision>, uuids: Uuids, i: nat): Operation
    requires i < PlanSize(d, ms)
  {
    var p := |d.preemptions|;
    var q := p + |d.scaleDowns|;
    var r := q + |d.scaleUps|;
    if i < p then
      Operation(uuids(i), Preempt(d.preemptions[i]), [])
    else if i < q then
      Operation(uuids(i), ScaleDown(d.scaleDowns[i - p]), [])
    else if i < r then
      var su := d.scaleUps[i - q];
      Operation(uuids(i), ScaleUp(su), PreemptionIds(d.preemptions, uuids, su.clusterID))
    else
      var m := ms[(i - r) / 2];
      if (i - r) % 2 == 0 then
        Operation(uuids(i), ScaleUp(ScaleUpDecision(m.appID, m.targetClusterID, "", m.constraints)),
                  PreemptionIds(d.preemptions, uuids, m.targetClusterID))
      else
        Operation(uuids(i), ScaleDown(ScaleDownDecision(m.appID, m.sourceReplicaID)), [uuids(i - 1)])
  }

  ghost predicate IsPlanPrefix(d: PlacementDecisions, ms: seq<MigrateDecision>, uuids: Uuids, ops: seq<Operation>) {
    && |ops| <= PlanSize(d, ms)
    && forall i | 0 <= i < |ops| :: ops[i] == PlannedAt(d, ms, uuids, i)
  }

  ghost predicate IsPlanFor(d: PlacementDecisions, ms: seq<MigrateDecision>, uuids: Uuids, ops: seq<Operation>) {
    IsPlanPrefix(d, ms, uuids, ops) && |ops| == PlanSize(d, ms)
  }

  lemma PlanExtends(d: PlacementDecisions, ms: seq<MigrateDecision>, uuids: Uuids, ops: seq<Operation>, op: Operation)
    requires IsPlanPrefix(d, ms, uuids, ops) && |ops| < PlanSize(d, ms)
    requires op == PlannedAt(d, ms, uuids, |ops|)
    ensures IsPlanPrefix(d, ms, uuids, ops + [op])
  {
  }

  lemma PreemptionIdsStep(ps: seq<PreemptionDecision>, uuids: Uuids, i: nat, c: ClusterID)
    requires i < |ps|
    ensures PreemptionIds(ps[..i + 1], uuids, c) ==
            if ps[i].clusterID == c then PreemptionIds(ps[..i], uuids, c) + [uuids(i)]
            else PreemptionIds(ps[..i], uuids, c)
  {
    assert ps[..i + 1][..i] == ps[..i];
  }

  ghost predicate IndexesPreemptions(ps: seq<PreemptionDecision>, uuids: Uuids, m: map<ClusterID, seq<OperationID>>) {
    forall c :: IdsAt(m, c) == PreemptionIds(ps, uuids, c)
  }

  lemma IndexesExtend(ps: seq<PreemptionDecision>, uuids: Uuids, i: nat, m: map<ClusterID, seq<OperationID>>)
    requires i < |ps| && IndexesPreemptions(ps[..i], uuids, m)
    ensures var c := ps[i].clusterID; IndexesPreemptions(ps[..i + 1], uuids, m[c := IdsAt(m, c) + [uuids(i)]])
  {
    var c := ps[i].clusterID;
    var m' := m[c := IdsAt(m, c) + [uuids(i)]];
    forall c' ensures IdsAt(m', c') == PreemptionIds(ps[..i + 1], uuids, c') {
      PreemptionIdsStep(ps, uuids, i, c');
      assert IdsAt(m, c') == PreemptionIds(ps[..i], uuids, c');
    }
  }

  /** Phase 1: one operation per preemption, remembered by cluster. */
  method PlanPreemptions(d: PlacementDecisions, ghost ms: seq<MigrateDecision>, uuids: Uuids)
    returns (ops: seq<Operation>, clusterPreemptionOps: map<ClusterID, seq<OperationID>>)
    ensures |ops| == |d.preemptions| && IsPlanPrefix(d, ms, uuids, ops)
    ensures IndexesPreemptions(d.preemptions, uuids, clusterPreemptionOps)
  {
    ops, clusterPreemptionOps := [], map[];
    for i := 0 to |d.preemptions|
      invariant |ops| == i && IsPlanPrefix(d, ms, uuids, ops)
      invariant IndexesPreemptions(d.preemptions[..i], uuids, clusterPreemptionOps)
    {
      var c := d.preemptions[i].clusterID;
      IndexesExtend(d.preemptions, uuids, i, clusterPreemptionOps);
      clusterPreemptionOps := clusterPreemptionOps[c := IdsAt(clusterPreemptionOps, c) + [uuids(i)]];
      var op := Operation(uuids(i), Preempt(d.preemptions[i]), []);
      PlanExtends(d, ms, uuids, ops, op);
      ops := ops + [op];
    }
    assert d.preemptions[..|d.preemptions|] == d.preemptions;
  }

  method GeneratePlan(d: PlacementDecisions, ms: seq<MigrateDecision>, uuids: Uuids) returns (ops: seq<Operation>)
    ensures IsPlanFor(d, ms, uuids, ops)
  {
    var clusterPreemptionOps;
    ops, clusterPreemptionOps := PlanPreemptions(d, ms, uuids);
    for i := 0 to |d.scaleDowns|
      invariant |ops| == |d.preemptions| + i && IsPlanPrefix(d, ms, uuids, ops)
    {
      var op := Operation(uuids(|ops|), ScaleDown(d.scaleDowns[i]), []);
      PlanExtends(d, ms, uuids, ops, op);
      ops := ops + [op];
    }
    for i := 0 to |d.scaleUps|
      invariant |ops| == |d.preemptions| + |d.scaleDowns| + i && IsPlanPrefix(d, ms, uuids, ops)
    {
      var deps := IdsAt(clusterPreemptionOps, d.scaleUps[i].clusterID);
      var op := Operation(uuids(|ops|), ScaleUp(d.scaleUps[i]), deps);
      PlanExtends(d, ms, uuids, ops, op);
      ops := ops + [op];
    }
    for k := 0 to |ms|
      invariant |ops| == |d.preemptions| + |d.scaleDowns| + |d.scaleUps| + 2 * k && IsPlanPrefix(d, ms, uuids, ops)
    {
      var suID, sdID := uuids(|ops|), uuids(|ops| + 1);
      var deps := IdsAt(clusterPreemptionOps, ms[k].targetClusterID);
      var suOp := Operation(suID, ScaleUp(MigrationScaleUp(ms[k])), deps);
      var sdOp := Operation(sdID, ScaleDown(ScaleDownDecision(ms[k].appID, ms[k].sourceReplicaID)), [suID]);
      PlanExtends(d, ms, uuids, ops, suOp);
      PlanExtends(d, ms, uuids, ops + [suOp], sdOp);
      ops := ops + [suOp] + [sdOp];
    }
  }

  function IdsAt(m: map<ClusterID, seq<OperationID>>, c: ClusterID): seq<OperationID> {
    if c in m then m[c] else []
  }

  // ---------- What becomes of each decision ----------

  /** Waits for exactly the preemptions in the cluster. */
  ghost predicate WaitsForPreemptionsIn(d: PlacementDecisions, uuids: Uuids, op: Operation, c: ClusterID) {
    forall id :: id in op.dependsOn <==>
                 exists i :: 0 <= i < |d.preemptions| && d.preemptions[i].clusterID == c && uuids(i) == id
  }

  ghost predicate StartsReplacement(m: MigrateDecision, su: ScaleUpDecision) {
    && su.appID == m.appID && su.clusterID == m.targetClusterID && su.constraints == m.constraints
    && su.reservationID == ""
  }

  ghost predicate RemovesSource(m: MigrateDecision, sd: ScaleDownDecision) {
    sd.appID == m.appID && sd.replicaID == m.sourceReplicaID
  }

  /** The replacement starts after the preemptions of its cluster, and the source goes
      after the replacement. */
  ghost predicate IsBlueGreenPair(d: PlacementDecisions, uuids: Uuids, m: MigrateDecision, su: Operation,
                                  sd: Operation)
  {
    && su.payload.ScaleUp? && StartsReplacement(m, su.payload.scaleUp)
    && WaitsForPreemptionsIn(d, uuids, su, m.targetClusterID)
    && sd.payload.ScaleDown? && RemovesSource(m, sd.payload.scaleDown) && sd.dependsOn == [su.id]
  }

  ghost predicate Planned(ops: seq<Operation>, p: Payload) {
    exists i :: 0 <= i < |ops| && ops[i].payload == p
  }

  lemma MigrationIsPlanned(d: PlacementDecisions, ms: seq<MigrateDecision>, uuids: Uuids, ops: seq<Operation>, k: nat)
    requires IsPlanFor(d, ms, uuids, ops) && k < |ms|
    ensures exists i :: 0 <= i < |ops| - 1 && IsBlueGreenPair(d, uuids, ms[k], ops[i], ops[i + 1])
  {
    var i := PlanSize(d, []) + 2 * k;
    assert ops[i] == PlannedAt(d, ms, uuids, i) && ops[i + 1] == PlannedAt(d, ms, uuids, i + 1);
    PreemptionIdsAre(d.preemptions, uuids, ms[k].targetClusterID);
    assert IsBlueGreenPair(d, uuids, ms[k], ops[i], ops[i + 1]);
  }

  lemma ScaleUpWasDecided(d: PlacementDecisions, ms: seq<MigrateDecision>, uuids: Uuids, ops: seq<Operation>,
                          su: ScaleUpDecision)
    requires IsPlanFor(d, ms, uuids, ops) && Planned(ops, ScaleUp(su))
    ensures su in d.scaleUps || exists m :: m in ms && StartsReplacement(m, su)
  {
    var i :| 0 <= i < |ops| && ops[i].payload == ScaleUp(su);
    assert ops[i] == PlannedAt(d, ms, uuids, i);
    if i >= PlanSize(d, []) {
      assert StartsReplacement(ms[(i - PlanSize(d, [])) / 2], su);
    }
  }

  /** A scale-up is planned exactly when it was decided or starts a migration's
      replacement. */
  lemma ScaleUpIsPlannedIff(d: PlacementDecisions, ms: seq<MigrateDecision>, uuids: Uuids, ops: seq<Operation>,
                            su: ScaleUpDecision)
    requires IsPlanFor(d, ms, uuids, ops)
    ensures Planned(ops, ScaleUp(su)) <==> su in d.scaleUps || exists m :: m in ms && StartsReplacement(m, su)
  {
    var start := |d.preemptions| + |d.scaleDowns|;
    if su in d.scaleUps {
      var i :| 0 <= i < |d.scaleUps| && d.scaleUps[i] == su;
      assert ops[start + i] == PlannedAt(d, ms, uuids, start + i);
    }
    if m :| m in ms && StartsReplacement(m, su) {
      var k :| 0 <= k < |ms| && ms[k] == m;
      var i := PlanSize(d, []) + 2 * k;
      assert ops[i] == PlannedAt(d, ms, uuids, i);
    }
    if Planned(ops, ScaleUp(su)) {
      ScaleUpWasDecided(d, ms, uuids, ops, su);
    }
  }

  lemma ScaleDownWasDecided(d: PlacementDecisions, ms: seq<MigrateDecision>, uuids: Uuids, ops: seq<Operation>,
                            sd: ScaleDownDecision)
    requires IsPlanFor(d, ms, uuids, ops) && Planned(ops, ScaleDown(sd))
    ensures sd in d.scaleDowns || exists m :: m in ms && RemovesSource(m, sd)
  {
    var i :| 0 <= i < |ops| && ops[i].payload == ScaleDown(sd);
    assert ops[i] == PlannedAt(d, ms, uuids, i);
    if i >= PlanSize(d, []) {
      assert RemovesSource(ms[(i - PlanSize(d, [])) / 2], sd);
    }
  }

  /** A scale-down is planned exactly when it was decided or removes a migration's
      source. */
  lemma ScaleDownIsPlannedIff(d: PlacementDecisions, ms: seq<MigrateDecision>, uuids: Uuids, ops: seq<Operation>,
                              sd: ScaleDownDecision)
    requires IsPlanFor(d, ms, uuids, ops)
    ensures Planned(ops, ScaleDown(sd)) <==> sd in d.scaleDowns || exists m :: m in ms && RemovesSource(m, sd)
  {
    if sd in d.scaleDowns {
      var i :| 0 <= i < |d.scaleDowns| && d.scaleDowns[i] == sd;
      assert ops[|d.preemptions| + i] == PlannedAt(d, ms, uuids, |d.preemptions| + i);
    }
    if m :| m in ms && RemovesSource(m, sd) {
      var k :| 0 <= k < |ms| && ms[k] == m;
      var i := PlanSize(d, []) + 2 * k + 1;
      assert ops[i] == PlannedAt(d, ms, uuids, i);
    }
    if Planned(ops, ScaleDown(sd)) {
      ScaleDownWasDecided(d, ms, uuids, ops, sd);
    }
  }

  lemma PreemptionIsPlannedIff(d: PlacementDecisions, ms: seq<MigrateDecision>, uuids: Uuids, ops: seq<Operation>,
                               p: PreemptionDecision)
    requires IsPlanFor(d, ms, uuids, ops)
    ensures Planned(ops, Preempt(p)) <==> p in d.preemptions
  {
    if p in d.preemptions {
      var i :| 0 <= i < |d.preemptions| && d.preemptions[i] == p;
      assert ops[i] == PlannedAt(d, ms, uuids, i);
    }
    if Planned(ops, Preempt(p)) {
      var i :| 0 <= i < |ops| && ops[i].payload == Preempt(p);
      assert ops[i] == PlannedAt(d, ms, uuids, i);
    }
  }

  // ---------- Every generated plan can be executed to the end ----------

  /** Each dependency stands earlier in the plan. */
  ghost predicate DependsBackwards(ops: seq<Operation>) {
    forall i, x | 0 <= i < |ops| && x in ops[i].dependsOn :: exists j :: 0 <= j < i && ops[j].id == x
  }

  lemma PlanDependsBackwards(d: PlacementDecisions, ms: seq<MigrateDecision>, uuids: Uuids, ops: seq<Operation>)
    requires IsPlanFor(d, ms, uuids, ops)
    ensures DependsBackwards(ops)
  {
    forall i, x | 0 <= i < |ops| && x in ops[i].dependsOn ensures exists j :: 0 <= j < i && ops[j].id == x {
      match ops[i].payload
      case Preempt(_) =>
      case ScaleDown(_) =>
        assert ops[i - 1].id == x;
      case ScaleUp(su) =>
        PreemptionIdsAre(d.preemptions, uuids, su.clusterID);
        var j :| 0 <= j < |d.preemptions| && uuids(j) == x;
        assert ops[j].id == x;
    }
  }

  lemma BackwardsIsAcyclic(ops: seq<Operation>)
    requires DistinctIds(ops) && DependsBackwards(ops)
    ensures Closed(GraphOf(ops)) && Acyclic(GraphOf(ops))
  {
    var g := GraphOf(ops);
    forall a | a in g ensures g[a] <= g.Keys {
      forall x | x in g[a] ensures x in g {
        var i, j := EdgeGoesBack(ops, a, x);
      }
    }
    forall a ensures !DependsOn(g, a, a) {
      if DependsOn(g, a, a) {
        var p :| ConnectedBy(g, a, a, p);
        assert p[1] in Deps(g, p[0]);
        var i, at := EdgeGoesBack(ops, p[0], p[1]);
        for k := 1 to |p| - 1
          invariant 0 <= at < i < |ops| && ops[i].id == a && ops[at].id == p[k]
        {
          assert p[k + 1] in Deps(g, p[k]);
          var i', j' := EdgeGoesBack(ops, p[k], p[k + 1]);
          assert i' == at;
          at := j';
        }
        assert false;
      }
    }
  }

  lemma EdgeGoesBack(ops: seq<Operation>, a: OperationID, x: OperationID) returns (i: nat, j: nat)
    requires DistinctIds(ops) && DependsBackwards(ops)
    requires x in Deps(GraphOf(ops), a)
    ensures j < i < |ops| && ops[i].id == a && ops[j].id == x
  {
    var op :| op in ops && op.id == a && x in op.dependsOn;
    i :| 0 <= i < |ops| && ops[i] == op;
    j :| 0 <= j < i && ops[j].id == x;
  }

  /** Every plan the generator can produce has distinct ids and is closed and
      acyclic, so the executor loses none of its operations. */
  lemma PlanIsExecutable(d: PlacementDecisions, ms: seq<MigrateDecision>, uuids: Uuids, ops: seq<Operation>)
    requires IsPlanFor(d, ms, uuids, ops) && NeverRepeats(uuids)
    ensures DistinctIds(ops) && Closed(GraphOf(ops)) && Acyclic(GraphOf(ops))
  {
    PlanDependsBackwards(d, ms, uuids, ops);
    BackwardsIsAcyclic(ops);
  }
}
