/** What the priority cascade decides, said without its queues: at every step it
    evicts the best replica that may still go. The list this describes is unique, so
    it settles both whether there is a plan and what is in it. */
module GreedyPlan {
  import opened Model
  import opened Collections
  import opened Snapshots
  import opened Preemption

  // ---------- The choice at each step ----------

  ghost predicate Runs(r: Replica) {
    r.status == Running || r.status == Pending
  }

  ghost predicate Named(taken: seq<PreemptionDecision>, id: ReplicaID) {
    exists i :: 0 <= i < |taken| && taken[i].victimReplicaID == id
  }

  /** What an application still has running or pending once the victims are gone. */
  ghost function Remaining(snap: Snapshot, taken: seq<PreemptionDecision>, a: AppID): set<ReplicaID> {
    set id | id in snap.replicas && snap.replicas[id].appID == a && Runs(snap.replicas[id]) && !Named(taken, id)
  }

  /** An application whose replicas the requester may evict: lower priority, and of the
      middle tier only for a requester of the highest. */
  ghost predicate MayLose(snap: Snapshot, app: Application, a: AppID) {
    && a in snap.applications && a != app.appID && snap.applications[a].priority > app.priority
    && (snap.applications[a].priority == 2 || (snap.applications[a].priority == 1 && app.priority == 0))
  }

  /** The replica may still go: its application can spare it, and it is where the first
      victim was. */
  ghost predicate Evictable(snap: Snapshot, app: Application, taken: seq<PreemptionDecision>, id: ReplicaID) {
    && id in snap.replicas && Runs(snap.replicas[id]) && !Named(taken, id)
    && MayLose(snap, app, snap.replicas[id].appID)
    && |Remaining(snap, taken, snap.replicas[id].appID)| > snap.applications[snap.replicas[id].appID].minReplicas
    && (taken != [] ==> snap.replicas[id].clusterID == taken[0].clusterID)
  }

  ghost function TierOf(snap: Snapshot, id: ReplicaID): int
    requires id in snap.replicas && snap.replicas[id].appID in snap.applications
  {
    snap.applications[snap.replicas[id].appID].priority
  }

  ghost function TierGPUs(snap: Snapshot, app: Application, tier: int, cluster: ClusterID): Replica -> int {
    (r: Replica) =>
      if && r.clusterID == cluster && Runs(r) && r.appID in snap.applications && r.appID != app.appID
         && snap.applications[r.appID].priority == tier > app.priority
      then r.gpus else 0
  }

  /** All GPUs the lower-priority replicas of a tier hold in a cluster. */
  ghost function Freeable(snap: Snapshot, app: Application, tier: int, cluster: ClusterID): int {
    MapSum(snap.replicas, TierGPUs(snap, app, tier, cluster))
  }

  /** By how much a replica's size misses the need. */
  function Miss(gpus: int, need: int): int {
    if gpus > need then gpus - need else need - gpus
  }

  ghost predicate CloserMatch(r: Replica, s: Replica, need: int) {
    || Miss(r.gpus, need) < Miss(s.gpus, need)
    || (Miss(r.gpus, need) == Miss(s.gpus, need) && LexLess(r.replicaID, s.replicaID))
  }

  /** The lowest tier first; the first victim from the cluster with the most to free in
      its tier; then the closest match. */
  ghost predicate Preferred(snap: Snapshot, app: Application, taken: seq<PreemptionDecision>, v: ReplicaID,
                            c: ReplicaID)
    requires v in snap.replicas && snap.replicas[v].appID in snap.applications
    requires c in snap.replicas && snap.replicas[c].appID in snap.applications
  {
    var r, s := snap.replicas[v], snap.replicas[c];
    if TierOf(snap, v) != TierOf(snap, c) then TierOf(snap, v) > TierOf(snap, c)
    else if taken == [] && r.clusterID != s.clusterID then
      var here := Freeable(snap, app, TierOf(snap, v), r.clusterID);
      var there := Freeable(snap, app, TierOf(snap, v), s.clusterID);
      here > there || (here == there && LexLess(r.clusterID, s.clusterID))
    else CloserMatch(r, s, app.gpusPerReplica)
  }

  ghost predicate IsNext(snap: Snapshot, app: Application, taken: seq<PreemptionDecision>, v: ReplicaID) {
    && Evictable(snap, app, taken, v)
    && forall c {:trigger Evictable(snap, app, taken, c)} | Evictable(snap, app, taken, c) && c != v ::
         Preferred(snap, app, taken, v, c)
  }

  /** The i-th eviction was still needed and is the best one possible at that point. */
  ghost predicate StepAt(snap: Snapshot, app: Application, grace: int, ds: seq<PreemptionDecision>, i: nat)
    requires i < |ds|
  {
    && EvictedGPUs(snap.replicas, ds[..i]) < app.gpusPerReplica
    && IsNext(snap, app, ds[..i], ds[i].victimReplicaID)
    && var r := snap.replicas[ds[i].victimReplicaID];
       ds[i] == PreemptionDecision(r.replicaID, r.appID, r.nodeID, r.clusterID, grace)
  }

  /** Evictions go on until enough is freed or nothing may go any more. */
  ghost predicate IsGreedy(snap: Snapshot, app: Application, grace: int, ds: seq<PreemptionDecision>) {
    && (forall i: nat | i < |ds| :: StepAt(snap, app, grace, ds, i))
    && (EvictedGPUs(snap.replicas, ds) < app.gpusPerReplica ==> forall c :: !Evictable(snap, app, ds, c))
  }

  // ---------- There is only one such list ----------

  lemma CloserIsAsymmetric(r: Replica, s: Replica, need: int)
    requires CloserMatch(r, s, need)
    ensures !CloserMatch(s, r, need)
  {
    LexIrreflexive(r.replicaID);
    if LexLess(r.replicaID, s.replicaID) && LexLess(s.replicaID, r.replicaID) {
      LexTransitive(r.replicaID, s.replicaID, r.replicaID);
    }
  }

  lemma PreferredIsAsymmetric(snap: Snapshot, app: Application, taken: seq<PreemptionDecision>, v: ReplicaID,
                              c: ReplicaID)
    requires v in snap.replicas && snap.replicas[v].appID in snap.applications
    requires c in snap.replicas && snap.replicas[c].appID in snap.applications
    requires Preferred(snap, app, taken, v, c)
    ensures !Preferred(snap, app, taken, c, v)
  {
    var r, s := snap.replicas[v], snap.replicas[c];
    LexIrreflexive(r.clusterID);
    if LexLess(r.clusterID, s.clusterID) && LexLess(s.clusterID, r.clusterID) {
      LexTransitive(r.clusterID, s.clusterID, r.clusterID);
    }
    if CloserMatch(r, s, app.gpusPerReplica) {
      CloserIsAsymmetric(r, s, app.gpusPerReplica);
    }
  }

  lemma NextIsUnique(snap: Snapshot, app: Application, taken: seq<PreemptionDecision>, v: ReplicaID, c: ReplicaID)
    requires IsNext(snap, app, taken, v) && IsNext(snap, app, taken, c)
    ensures v == c
  {
    if v != c {
      PreferredIsAsymmetric(snap, app, taken, v, c);
    }
  }

  lemma {:induction false} SamePrefix(snap: Snapshot, app: Application, grace: int, ds: seq<PreemptionDecision>,
                                      es: seq<PreemptionDecision>, n: nat)
    requires IsGreedy(snap, app, grace, ds) && IsGreedy(snap, app, grace, es) && n <= |ds| && n <= |es|
    ensures ds[..n] == es[..n]
  {
    if n > 0 {
      SamePrefix(snap, app, grace, ds, es, n - 1);
      assert StepAt(snap, app, grace, ds, n - 1) && StepAt(snap, app, grace, es, n - 1);
      NextIsUnique(snap, app, ds[..n - 1], ds[n - 1].victimReplicaID, es[n - 1].victimReplicaID);
      assert ds[..n] == ds[..n - 1] + [ds[n - 1]] && es[..n] == es[..n - 1] + [es[n - 1]];
    }
  }

  lemma NotLonger(snap: Snapshot, app: Application, grace: int, ds: seq<PreemptionDecision>,
                  es: seq<PreemptionDecision>)
    requires IsGreedy(snap, app, grace, ds) && IsGreedy(snap, app, grace, es)
    ensures |es| <= |ds|
  {
    if |ds| < |es| {
      assert ds[..|ds|] == ds;
      SamePrefix(snap, app, grace, ds, es, |ds|);
      StepGoesOn(snap, app, grace, es, |ds|);
    }
  }

  lemma StepGoesOn(snap: Snapshot, app: Application, grace: int, ds: seq<PreemptionDecision>, i: nat)
    requires IsGreedy(snap, app, grace, ds) && i < |ds|
    ensures EvictedGPUs(snap.replicas, ds[..i]) < app.gpusPerReplica
    ensures Evictable(snap, app, ds[..i], ds[i].victimReplicaID)
  {
    assert StepAt(snap, app, grace, ds, i);
  }

  lemma GreedyIsUnique(snap: Snapshot, app: Application, grace: int, ds: seq<PreemptionDecision>,
                       es: seq<PreemptionDecision>)
    requires IsGreedy(snap, app, grace, ds) && IsGreedy(snap, app, grace, es)
    ensures ds == es
  {
    NotLonger(snap, app, grace, ds, es);
    NotLonger(snap, app, grace, es, ds);
    SamePrefix(snap, app, grace, ds, es, |ds|);
  }

  // ---------- The selection takes the first that may go ----------

  ghost predicate Fits(replicas: map<ReplicaID, Replica>, taken: seq<Candidate>, target: ClusterID, c: Candidate) {
    c !in taken && CanSpare(replicas, taken, c.app) && InTarget(target, c)
  }

  /** Victim i still fitted and was needed, and comes before all others that did. */
  ghost predicate PickedAt(replicas: map<ReplicaID, Replica>, q: seq<Candidate>, need: int, prefer: ClusterID,
                           sel: Selection, less: (Candidate, Candidate) -> bool, i: nat)
    requires i < |sel.victims|
  {
    var taken, target := sel.victims[..i], if i == 0 then prefer else sel.target;
    && FreedBy(taken) < need && sel.victims[i] in q && Fits(replicas, taken, target, sel.victims[i])
    && forall c | c in q && c != sel.victims[i] && Fits(replicas, taken, target, c) :: less(sel.victims[i], c)
  }

  /** One more candidate at the end of the queue changes nothing for those picked. */
  lemma PickedExtends(replicas: map<ReplicaID, Replica>, front: seq<Candidate>, last: Candidate, need: int,
                      prefer: ClusterID, less: (Candidate, Candidate) -> bool, sel: Selection, i: nat)
    requires Ascending(front + [last], less) && Pinned(prefer, sel)
    requires i < |sel.victims| && PickedAt(replicas, front, need, prefer, sel, less, i)
    ensures PickedAt(replicas, front + [last], need, prefer, Consider(replicas, need, sel, last), less, i)
  {
    var q, sel' := front + [last], Consider(replicas, need, sel, last);
    assert sel'.victims[..i] == sel.victims[..i] && sel'.victims[i] == sel.victims[i];
    var j :| 0 <= j < |front| && front[j] == sel.victims[i];
    assert q[j] == front[j] && less(q[j], q[|q| - 1]);
  }

  lemma NothingElseFits(replicas: map<ReplicaID, Replica>, q: seq<Candidate>, need: int, prefer: ClusterID)
    requires NoDuplicates(q) && HaveClusters(q) && Select(replicas, q, need, prefer).freed < need
    ensures var sel := Select(replicas, q, need, prefer);
            forall c | c in q :: !Fits(replicas, sel.victims, sel.target, c)
  {
    SelectExhausts(replicas, q, need, prefer);
  }

  lemma PickedNow(replicas: map<ReplicaID, Replica>, front: seq<Candidate>, need: int, prefer: ClusterID,
                  less: (Candidate, Candidate) -> bool, sel: Selection, last: Candidate)
    requires forall c | c in front :: !Fits(replicas, sel.victims, sel.target, c)
    requires Tight(front, need, prefer, sel) && last !in front && sel.freed < need
    requires InTarget(sel.target, last) && CanSpare(replicas, sel.victims, last.app)
    ensures PickedAt(replicas, front + [last], need, prefer, Extend(sel, last), less, |sel.victims|)
  {
    var sel' := Extend(sel, last);
    assert sel'.victims[..|sel.victims|] == sel.victims && sel'.victims[|sel.victims|] == last;
    assert last in front + [last];
    assert (if sel.victims == [] then prefer else sel'.target) == sel.target;
  }

  ghost predicate AllPicked(replicas: map<ReplicaID, Replica>, q: seq<Candidate>, need: int, prefer: ClusterID,
                            less: (Candidate, Candidate) -> bool, sel: Selection)
  {
    forall i: nat | i < |sel.victims| :: PickedAt(replicas, q, need, prefer, sel, less, i)
  }

  lemma {:induction false} SelectPicksFirst(replicas: map<ReplicaID, Replica>, q: seq<Candidate>, need: int,
                                            prefer: ClusterID, less: (Candidate, Candidate) -> bool)
    requires NoDuplicates(q) && HaveClusters(q) && Ascending(q, less)
    ensures AllPicked(replicas, q, need, prefer, less, Select(replicas, q, need, prefer))
  {
    if q != [] {
      var front, last := q[..|q| - 1], q[|q| - 1];
      assert q == front + [last] && last !in front;
      var sel := Select(replicas, front, need, prefer);
      SelectPicksFirst(replicas, front, need, prefer, less);
      SelectIsTight(replicas, front, need, prefer);
      if sel.freed < need {
        NothingElseFits(replicas, front, need, prefer);
      }
      PickedStep(replicas, front, last, need, prefer, less, sel);
    }
  }

  lemma PickedStep(replicas: map<ReplicaID, Replica>, front: seq<Candidate>, last: Candidate, need: int,
                   prefer: ClusterID, less: (Candidate, Candidate) -> bool, sel: Selection)
    requires Ascending(front + [last], less) && last !in front && Tight(front, need, prefer, sel)
    requires AllPicked(replicas, front, need, prefer, less, sel)
    requires sel.freed < need ==> forall c | c in front :: !Fits(replicas, sel.victims, sel.target, c)
    ensures AllPicked(replicas, front + [last], need, prefer, less, Consider(replicas, need, sel, last))
  {
    var sel' := Consider(replicas, need, sel, last);
    forall i: nat | i < |sel'.victims| ensures PickedAt(replicas, front + [last], need, prefer, sel', less, i) {
      if i < |sel.victims| {
        assert PickedAt(replicas, front, need, prefer, sel, less, i);
        PickedExtends(replicas, front, last, need, prefer, less, sel, i);
      } else {
        PickedNow(replicas, front, need, prefer, less, sel, last);
      }
    }
  }

  // ---------- From candidates to decisions ----------

  function AsCandidate(snap: Snapshot, id: ReplicaID): Candidate
    requires id in snap.replicas && snap.replicas[id].appID in snap.applications
  {
    Candidate(snap.replicas[id], snap.applications[snap.replicas[id].appID])
  }

  ghost predicate Known(snap: Snapshot, id: ReplicaID) {
    id in snap.replicas && snap.replicas[id].appID in snap.applications
  }

  lemma PoolHolds(snap: Snapshot, app: Application, tier: int, id: ReplicaID)
    requires WellKeyed(snap) && Known(snap, id)
    ensures AsCandidate(snap, id) in Pool(snap, app, tier) <==>
            && Runs(snap.replicas[id]) && snap.replicas[id].appID != app.appID
            && TierOf(snap, id) == tier > app.priority
  {
    assert snap.applications[snap.replicas[id].appID].appID == snap.replicas[id].appID;
    if Runs(snap.replicas[id]) && snap.replicas[id].appID != app.appID && TierOf(snap, id) == tier > app.priority {
      assert IsCandidate(snap, app, tier, snap.replicas[id].appID, id);
    }
  }

  lemma PoolIsKnown(snap: Snapshot, app: Application, tier: int, c: Candidate)
    requires WellKeyed(snap) && c in Pool(snap, app, tier)
    ensures Known(snap, c.replica.replicaID) && c == AsCandidate(snap, c.replica.replicaID)
  {
    PoolMembers(snap, app, tier, c);
  }

  lemma NamedIs(snap: Snapshot, cs: seq<Candidate>, grace: int, id: ReplicaID)
    requires WellKeyed(snap) && Known(snap, id) && forall c | c in cs :: Mirrors(snap, c)
    ensures Named(ToDecisions(cs, grace), id) <==> AsCandidate(snap, id) in cs
  {
    var ds := ToDecisions(cs, grace);
    if Named(ds, id) {
      var i :| 0 <= i < |ds| && ds[i].victimReplicaID == id;
      assert cs[i] in cs && cs[i] == AsCandidate(snap, id);
    }
    if AsCandidate(snap, id) in cs {
      var i :| 0 <= i < |cs| && cs[i] == AsCandidate(snap, id);
      assert ds[i].victimReplicaID == id;
    }
  }

  lemma RemainingIs(snap: Snapshot, cs: seq<Candidate>, grace: int, a: AppID)
    requires WellKeyed(snap) && DistinctIdsIn(cs) && forall c | c in cs :: Mirrors(snap, c)
    ensures |Remaining(snap, ToDecisions(cs, grace), a)| == ActiveCount(snap.replicas, a) - Taken(cs, a)
  {
    var ds := ToDecisions(cs, grace);
    var gone := Evicted(ds, a);
    DecisionsTake(cs, grace, a);
    forall id | id in gone ensures id in ActiveIds(snap.replicas, a) && Named(ds, id) {
      var v :| v in ds && v.victimAppID == a && v.victimReplicaID == id;
      var i :| 0 <= i < |ds| && ds[i] == v;
      assert Mirrors(snap, cs[i]);
    }
    forall id | id in ActiveIds(snap.replicas, a) && Named(ds, id) ensures id in gone {
      var i :| 0 <= i < |ds| && ds[i].victimReplicaID == id;
      assert Mirrors(snap, cs[i]) && ds[i] in ds;
    }
    assert Remaining(snap, ds, a) == ActiveIds(snap.replicas, a) - gone;
  }

  /** A candidate the cascade may still look at. */
  ghost predicate Offered(snap: Snapshot, app: Application, c: Candidate) {
    c in Pool(snap, app, 2) || (app.priority == 0 && c in Pool(snap, app, 1))
  }

  ghost predicate WithFirst(cs: seq<Candidate>, c: Candidate) {
    cs != [] ==> c.replica.clusterID == cs[0].replica.clusterID
  }

  lemma EvictableIs(snap: Snapshot, app: Application, cs: seq<Candidate>, grace: int, id: ReplicaID)
    requires WellKeyed(snap) && DistinctIdsIn(cs) && forall c | c in cs :: Mirrors(snap, c)
    ensures Evictable(snap, app, ToDecisions(cs, grace), id) <==>
            Known(snap, id) && var c := AsCandidate(snap, id);
            Offered(snap, app, c) && c !in cs && CanSpare(snap.replicas, cs, c.app) && WithFirst(cs, c)
  {
    if Known(snap, id) {
      PoolHolds(snap, app, 2, id);
      PoolHolds(snap, app, 1, id);
      NamedIs(snap, cs, grace, id);
      RemainingIs(snap, cs, grace, snap.replicas[id].appID);
    }
  }

  // ---------- What a tier holds in a cluster ----------

  /** The part of a pool made of some of the replicas. */
  ghost function PoolAmong(snap: Snapshot, app: Application, tier: int, ids: set<ReplicaID>): set<Candidate> {
    set c | c in Pool(snap, app, tier) && c.replica.replicaID in ids
  }

  lemma PoolAmongStep(snap: Snapshot, app: Application, tier: int, ids: set<ReplicaID>, id: ReplicaID)
    requires WellKeyed(snap) && id in snap.replicas && id !in ids
    ensures if Known(snap, id) && AsCandidate(snap, id) in Pool(snap, app, tier)
            then AsCandidate(snap, id) !in PoolAmong(snap, app, tier, ids)
                 && PoolAmong(snap, app, tier, ids + {id}) == PoolAmong(snap, app, tier, ids) + {AsCandidate(snap, id)}
            else PoolAmong(snap, app, tier, ids + {id}) == PoolAmong(snap, app, tier, ids)
  {
    forall c | c in Pool(snap, app, tier)
      ensures Known(snap, c.replica.replicaID) && c == AsCandidate(snap, c.replica.replicaID)
    {
      PoolIsKnown(snap, app, tier, c);
    }
  }

  lemma {:induction false} TotalAmong(snap: Snapshot, app: Application, tier: int, cluster: ClusterID,
                                      ids: set<ReplicaID>)
    requires WellKeyed(snap) && ids <= snap.replicas.Keys
    ensures ClusterTotal(PoolAmong(snap, app, tier, ids), cluster) ==
            MapSum(map id | id in ids :: snap.replicas[id], TierGPUs(snap, app, tier, cluster))
    decreases ids
  {
    if ids == {} {
      assert PoolAmong(snap, app, tier, ids) == {};
      assert (map c | c in PoolAmong(snap, app, tier, ids) :: c) == map[];
    } else {
      var id :| id in ids;
      var rest := ids - {id};
      var m := map x | x in rest :: snap.replicas[x];
      TotalAmong(snap, app, tier, cluster, rest);
      assert rest + {id} == ids;
      assert (map x | x in ids :: snap.replicas[x]) == m[id := snap.replicas[id]];
      MapSumPut(m, TierGPUs(snap, app, tier, cluster), id, snap.replicas[id]);
      PoolAmongStep(snap, app, tier, rest, id);
      if Known(snap, id) {
        PoolHolds(snap, app, tier, id);
        if AsCandidate(snap, id) in Pool(snap, app, tier) {
          ClusterTotalGrows(PoolAmong(snap, app, tier, rest), AsCandidate(snap, id), cluster);
        }
      }
    }
  }

  lemma TotalIsFreeable(snap: Snapshot, app: Application, tier: int, cluster: ClusterID)
    requires WellKeyed(snap)
    ensures TotalIn(ClusterTotals(Pool(snap, app, tier)), cluster) == Freeable(snap, app, tier, cluster)
  {
    var pool := Pool(snap, app, tier);
    forall c | c in pool ensures c.replica.replicaID in snap.replicas {
      PoolIsKnown(snap, app, tier, c);
    }
    assert PoolAmong(snap, app, tier, snap.replicas.Keys) == pool;
    assert (map id | id in snap.replicas.Keys :: snap.replicas[id]) == snap.replicas;
    TotalAmong(snap, app, tier, cluster, snap.replicas.Keys);
    if cluster !in ClustersOf(pool) {
      ClusterTotalUntouched(pool, cluster);
    }
  }

  // ---------- What the order of preference means ----------

  lemma LargerReciprocal(x: nat, y: nat)
    ensures 1.0 / (1.0 + x as real) > 1.0 / (1.0 + y as real) <==> x < y
    ensures 1.0 / (1.0 + x as real) == 1.0 / (1.0 + y as real) <==> x == y
  {
    var a, b := 1.0 + x as real, 1.0 + y as real;
    assert a * (1.0 / a) == 1.0 && b * (1.0 / b) == 1.0;
    if x < y {
      ReciprocalFalls(a, b);
    } else if y < x {
      ReciprocalFalls(b, a);
    }
  }

  lemma ReciprocalFalls(a: real, b: real)
    requires 0.0 < a < b
    ensures 1.0 / a > 1.0 / b
  {
  }

  lemma BenefitIsMiss(g: int, h: int, need: int)
    ensures PackingBenefit(g, need) > PackingBenefit(h, need) <==> Miss(g, need) < Miss(h, need)
    ensures PackingBenefit(g, need) == PackingBenefit(h, need) <==> Miss(g, need) == Miss(h, need)
  {
    LargerReciprocal(Miss(g, need), Miss(h, need));
    assert PackingBenefit(g, need) == 1.0 / (1.0 + Miss(g, need) as real);
    assert PackingBenefit(h, need) == 1.0 / (1.0 + Miss(h, need) as real);
  }

  /** Between two replicas whose applications can spare one. */
  lemma BeforeMeans(snap: Snapshot, app: Application, tier: int, a: Candidate, b: Candidate)
    requires WellKeyed(snap)
    requires ActiveCount(snap.replicas, a.app.appID) > a.app.minReplicas
    requires ActiveCount(snap.replicas, b.app.appID) > b.app.minReplicas
    requires Before(snap.replicas, app.gpusPerReplica, ClusterTotals(Pool(snap, app, tier)), a, b)
    ensures var x, y := a.replica.clusterID, b.replica.clusterID;
            if x != y then
              || Freeable(snap, app, tier, x) > Freeable(snap, app, tier, y)
              || (Freeable(snap, app, tier, x) == Freeable(snap, app, tier, y) && LexLess(x, y))
            else CloserMatch(a.replica, b.replica, app.gpusPerReplica)
  {
    TotalIsFreeable(snap, app, tier, a.replica.clusterID);
    TotalIsFreeable(snap, app, tier, b.replica.clusterID);
    BenefitIsMiss(a.replica.gpus, b.replica.gpus, app.gpusPerReplica);
  }

  // ---------- The cascade is greedy ----------

  ghost predicate StillFits(snap: Snapshot, app: Application, cs: seq<Candidate>, c: Candidate) {
    Offered(snap, app, c) && c !in cs && CanSpare(snap.replicas, cs, c.app) && WithFirst(cs, c)
  }

  /** Preferred, said of candidates. */
  ghost predicate Better(snap: Snapshot, app: Application, cs: seq<Candidate>, v: Candidate, c: Candidate) {
    var x, y := v.replica.clusterID, c.replica.clusterID;
    if v.app.priority != c.app.priority then v.app.priority > c.app.priority
    else if cs == [] && x != y then
      || Freeable(snap, app, v.app.priority, x) > Freeable(snap, app, v.app.priority, y)
      || (Freeable(snap, app, v.app.priority, x) == Freeable(snap, app, v.app.priority, y) && LexLess(x, y))
    else CloserMatch(v.replica, c.replica, app.gpusPerReplica)
  }

  ghost predicate BestOf(snap: Snapshot, app: Application, cs: seq<Candidate>, v: Candidate) {
    && StillFits(snap, app, cs, v)
    && forall c | StillFits(snap, app, cs, c) && c != v :: Better(snap, app, cs, v, c)
  }

  lemma OfferedIsKnown(snap: Snapshot, app: Application, c: Candidate)
    requires WellKeyed(snap) && Offered(snap, app, c)
    ensures Known(snap, c.replica.replicaID) && c == AsCandidate(snap, c.replica.replicaID) && Mirrors(snap, c)
    ensures c.replica.clusterID != "" && (c.app.priority == 2 || (c.app.priority == 1 && app.priority == 0))
  {
    if c in Pool(snap, app, 2) {
      PoolIsKnown(snap, app, 2, c);
      PoolMembers(snap, app, 2, c);
    } else {
      PoolIsKnown(snap, app, 1, c);
      PoolMembers(snap, app, 1, c);
    }
  }

  lemma BestIsNext(snap: Snapshot, app: Application, cs: seq<Candidate>, grace: int, v: Candidate)
    requires WellKeyed(snap) && DistinctIdsIn(cs) && forall c | c in cs :: Mirrors(snap, c)
    requires BestOf(snap, app, cs, v)
    ensures IsNext(snap, app, ToDecisions(cs, grace), v.replica.replicaID)
  {
    var ds := ToDecisions(cs, grace);
    OfferedIsKnown(snap, app, v);
    EvictableIs(snap, app, cs, grace, v.replica.replicaID);
    forall id | Evictable(snap, app, ds, id) && id != v.replica.replicaID
      ensures Preferred(snap, app, ds, v.replica.replicaID, id)
    {
      EvictableIs(snap, app, cs, grace, id);
      assert StillFits(snap, app, cs, AsCandidate(snap, id));
    }
  }

  /** The order in which a tier is gone through. */
  ghost function TierOrder(snap: Snapshot, app: Application, tier: int): (Candidate, Candidate) -> bool {
    Preference(snap.replicas, app.gpusPerReplica, ClusterTotals(Pool(snap, app, tier)))
  }

  lemma QueueAscends(snap: Snapshot, app: Application, tier: int)
    requires WellKeyed(snap)
    ensures Ascending(Queue(snap, app, tier), TierOrder(snap, app, tier))
    ensures Enumerates(Queue(snap, app, tier), Pool(snap, app, tier))
    ensures NoDuplicates(Queue(snap, app, tier)) && HaveClusters(Queue(snap, app, tier))
  {
    var pool := Pool(snap, app, tier);
    PoolIsDistinct(snap, app, tier);
    PreferenceIsStrictTotal(snap.replicas, app.gpusPerReplica, ClusterTotals(pool), pool);
    RankedAscends(pool, TierOrder(snap, app, tier));
    forall c | c in pool ensures c.replica.clusterID != "" {
      PoolMembers(snap, app, tier, c);
    }
  }

  lemma TierPrefers(snap: Snapshot, app: Application, tier: int, cs: seq<Candidate>, taken: seq<Candidate>,
                    v: Candidate, c: Candidate)
    requires WellKeyed(snap) && v in Pool(snap, app, tier) && c in Pool(snap, app, tier)
    requires CanSpare(snap.replicas, taken, v.app) && CanSpare(snap.replicas, taken, c.app)
    requires TierOrder(snap, app, tier)(v, c) && WithFirst(cs, v) && WithFirst(cs, c)
    ensures Better(snap, app, cs, v, c)
  {
    PoolMembers(snap, app, tier, v);
    PoolMembers(snap, app, tier, c);
    BeforeMeans(snap, app, tier, v, c);
  }

  /** The first in its tier's order is the best that fits, if no lower tier does. */
  lemma PickIsBest(snap: Snapshot, app: Application, tier: int, cs: seq<Candidate>, taken: seq<Candidate>,
                   target: ClusterID, v: Candidate)
    requires WellKeyed(snap) && v in Pool(snap, app, tier) && StillFits(snap, app, cs, v)
    requires Fits(snap.replicas, taken, target, v)
    requires forall c | c in Pool(snap, app, tier) && c != v && Fits(snap.replicas, taken, target, c) ::
               TierOrder(snap, app, tier)(v, c)
    requires forall c | StillFits(snap, app, cs, c) ::
               c.app.priority < tier || (c in Pool(snap, app, tier) && Fits(snap.replicas, taken, target, c))
    ensures BestOf(snap, app, cs, v)
  {
    PoolMembers(snap, app, tier, v);
    forall c | StillFits(snap, app, cs, c) && c != v ensures Better(snap, app, cs, v, c) {
      if c in Pool(snap, app, tier) && Fits(snap.replicas, taken, target, c) {
        TierPrefers(snap, app, tier, cs, taken, v, c);
      }
    }
  }

  /** Victim i of a tier, said of the tier's pool. */
  lemma PickedFromPool(snap: Snapshot, app: Application, tier: int, need: int, prefer: ClusterID, sel: Selection,
                       i: nat)
    requires WellKeyed(snap) && sel == Select(snap.replicas, Queue(snap, app, tier), need, prefer)
    requires i < |sel.victims|
    ensures var v, taken, target := sel.victims[i], sel.victims[..i], if i == 0 then prefer else sel.target;
            && FreedBy(taken) < need && v in Pool(snap, app, tier) && Fits(snap.replicas, taken, target, v)
            && forall c | c in Pool(snap, app, tier) && c != v && Fits(snap.replicas, taken, target, c) ::
                 TierOrder(snap, app, tier)(v, c)
  {
    var q := Queue(snap, app, tier);
    QueueAscends(snap, app, tier);
    PickedFromQueue(snap, app, tier, q, need, prefer, sel, i);
  }

  lemma PickedFromQueue(snap: Snapshot, app: Application, tier: int, q: seq<Candidate>, need: int, prefer: ClusterID,
                        sel: Selection, i: nat)
    requires Enumerates(q, Pool(snap, app, tier)) && Ascending(q, TierOrder(snap, app, tier)) && HaveClusters(q)
    requires sel == Select(snap.replicas, q, need, prefer) && i < |sel.victims|
    ensures var v, taken, target := sel.victims[i], sel.victims[..i], if i == 0 then prefer else sel.target;
            && FreedBy(taken) < need && v in Pool(snap, app, tier) && Fits(snap.replicas, taken, target, v)
            && forall c | c in Pool(snap, app, tier) && c != v && Fits(snap.replicas, taken, target, c) ::
                 TierOrder(snap, app, tier)(v, c)
  {
    SelectPicksFirst(snap.replicas, q, need, prefer, TierOrder(snap, app, tier));
    assert PickedAt(snap.replicas, q, need, prefer, sel, TierOrder(snap, app, tier), i);
  }

  /** What a tier's selection is, whatever queue it came from. */
  ghost predicate TierSelection(snap: Snapshot, app: Application, tier: int, need: int, prefer: ClusterID,
                                sel: Selection)
  {
    && Pinned(prefer, sel) && NoDuplicates(sel.victims) && sel.freed == FreedBy(sel.victims)
    && (forall v | v in sel.victims :: v in Pool(snap, app, tier))
    && (sel.freed < need ==> forall c | c in Pool(snap, app, tier) :: !Fits(snap.replicas, sel.victims, sel.target, c))
  }

  lemma SelectsFromTier(snap: Snapshot, app: Application, tier: int, need: int, prefer: ClusterID, sel: Selection)
    requires WellKeyed(snap) && sel == Select(snap.replicas, Queue(snap, app, tier), need, prefer)
    ensures TierSelection(snap, app, tier, need, prefer, sel)
  {
    var q := Queue(snap, app, tier);
    QueueAscends(snap, app, tier);
    SelectsFromQueue(snap, app, tier, q, need, prefer, sel);
  }

  lemma SelectsFromQueue(snap: Snapshot, app: Application, tier: int, q: seq<Candidate>, need: int, prefer: ClusterID,
                         sel: Selection)
    requires Enumerates(q, Pool(snap, app, tier)) && HaveClusters(q) && sel == Select(snap.replicas, q, need, prefer)
    ensures TierSelection(snap, app, tier, need, prefer, sel)
  {
    SelectIsTight(snap.replicas, q, need, prefer);
    if sel.freed < need {
      NothingElseFits(snap.replicas, q, need, prefer);
    }
  }

  // ---------- Tier 2 ----------

  lemma FirstIsTarget(sel: Selection, i: nat)
    requires i < |sel.victims| && Pinned("", sel)
    ensures forall c :: WithFirst(sel.victims[..i], c) <==> InTarget(if i == 0 then "" else sel.target, c)
  {
    assert sel.victims[0] in sel.victims;
  }

  lemma LowStep(snap: Snapshot, app: Application, low: Selection, i: nat)
    requires WellKeyed(snap) && low == Select(snap.replicas, Queue(snap, app, 2), app.gpusPerReplica, "")
    requires i < |low.victims|
    ensures FreedBy(low.victims[..i]) < app.gpusPerReplica && BestOf(snap, app, low.victims[..i], low.victims[i])
  {
    var v, taken, target := low.victims[i], low.victims[..i], if i == 0 then "" else low.target;
    PickedFromPool(snap, app, 2, app.gpusPerReplica, "", low, i);
    SelectsFromTier(snap, app, 2, app.gpusPerReplica, "", low);
    FirstIsTarget(low, i);
    forall c | StillFits(snap, app, taken, c)
      ensures c.app.priority < 2 || (c in Pool(snap, app, 2) && Fits(snap.replicas, taken, target, c))
    {
      if c !in Pool(snap, app, 2) {
        PoolMembers(snap, app, 1, c);
      }
    }
    PickIsBest(snap, app, 2, taken, taken, target, v);
  }

  // ---------- Tier 1 ----------

  lemma TiersApart(snap: Snapshot, app: Application, vs: seq<Candidate>, tier: int, c: Candidate, other: int)
    requires WellKeyed(snap) && c in Pool(snap, app, other) && tier != other
    requires forall v | v in vs :: v in Pool(snap, app, tier)
    ensures c !in vs && Taken(vs, c.app.appID) == 0
  {
    PoolMembers(snap, app, other, c);
    forall v | v in vs ensures v.app.appID != c.app.appID {
      PoolMembers(snap, app, tier, v);
    }
    TakenAbsent(vs, c.app.appID);
  }

  /** Counting the other tier's victims makes no difference. */
  lemma SpareAcross(snap: Snapshot, app: Application, low: seq<Candidate>, high: seq<Candidate>, c: Candidate)
    requires WellKeyed(snap) && forall v | v in low :: v in Pool(snap, app, 2)
    requires forall v | v in high :: v in Pool(snap, app, 1)
    ensures c in Pool(snap, app, 1) ==>
              c !in low && (CanSpare(snap.replicas, low + high, c.app) <==> CanSpare(snap.replicas, high, c.app))
    ensures c in Pool(snap, app, 2) ==>
              c !in high && (CanSpare(snap.replicas, low + high, c.app) <==> CanSpare(snap.replicas, low, c.app))
  {
    TakenConcat(low, high, c.app.appID);
    if c in Pool(snap, app, 1) {
      TiersApart(snap, app, low, 2, c, 1);
    }
    if c in Pool(snap, app, 2) {
      TiersApart(snap, app, high, 1, c, 2);
    }
  }

  /** Once there is a victim, being with the first is being in the pinned cluster. */
  lemma PinnedFirst(low: Selection, high: Selection, j: nat)
    requires Pinned("", low) && Pinned(low.target, high) && j <= |high.victims|
    ensures var cs := low.victims + high.victims[..j];
            forall c :: WithFirst(cs, c) <==> InTarget(if j == 0 then low.target else high.target, c)
  {
    var cs := low.victims + high.victims[..j];
    if low.victims != [] {
      assert low.victims[0] in low.victims && cs[0] == low.victims[0];
    } else if j > 0 {
      assert high.victims[0] in high.victims && cs[0] == high.victims[0];
    }
  }

  /** With the first tier exhausted, what still fits is of the second and fits there. */
  lemma LowIsOver(snap: Snapshot, app: Application, low: Selection, high: Selection, j: nat, c: Candidate)
    requires WellKeyed(snap) && TierSelection(snap, app, 2, app.gpusPerReplica, "", low)
    requires low.freed < app.gpusPerReplica && j <= |high.victims|
    requires Pinned(low.target, high) && forall v | v in high.victims :: v in Pool(snap, app, 1)
    requires StillFits(snap, app, low.victims + high.victims[..j], c)
    ensures c in Pool(snap, app, 1)
    ensures Fits(snap.replicas, high.victims[..j], if j == 0 then low.target else high.target, c)
  {
    var taken := high.victims[..j];
    PinnedFirst(low, high, j);
    SpareAcross(snap, app, low.victims, taken, c);
    if c in Pool(snap, app, 2) {
      LowTargetHolds(low, high, j, c);
    }
  }

  lemma LowTargetHolds(low: Selection, high: Selection, j: nat, c: Candidate)
    requires Pinned("", low) && Pinned(low.target, high) && j <= |high.victims|
    requires InTarget(if j == 0 then low.target else high.target, c)
    ensures InTarget(low.target, c)
  {
  }

  lemma HighStep(snap: Snapshot, app: Application, low: Selection, high: Selection, j: nat)
    requires WellKeyed(snap) && TierSelection(snap, app, 2, app.gpusPerReplica, "", low)
    requires low.freed < app.gpusPerReplica && app.priority == 0
    requires high == Select(snap.replicas, Queue(snap, app, 1), app.gpusPerReplica - low.freed, low.target)
    requires j < |high.victims|
    ensures var cs := low.victims + high.victims[..j];
            FreedBy(cs) < app.gpusPerReplica && BestOf(snap, app, cs, high.victims[j])
  {
    var v, taken, target := high.victims[j], high.victims[..j], if j == 0 then low.target else high.target;
    var cs := low.victims + taken;
    PickedFromPool(snap, app, 1, app.gpusPerReplica - low.freed, low.target, high, j);
    SelectsFromTier(snap, app, 1, app.gpusPerReplica - low.freed, low.target, high);
    FreedByConcat(low.victims, taken);
    SpareAcross(snap, app, low.victims, taken, v);
    PinnedFirst(low, high, j);
    forall c | StillFits(snap, app, cs, c)
      ensures c in Pool(snap, app, 1) && Fits(snap.replicas, taken, target, c)
    {
      LowIsOver(snap, app, low, high, j, c);
    }
    PickIsBest(snap, app, 1, cs, taken, target, v);
  }

  // ---------- Both tiers ----------

  /** Each victim was needed and the best in its turn; at the end there is enough, or
      nothing fits. */
  ghost predicate GreedyCandidates(snap: Snapshot, app: Application, vs: seq<Candidate>) {
    && (forall i: nat | i < |vs| :: BestAt(snap, app, vs, i))
    && (FreedBy(vs) < app.gpusPerReplica ==> forall c :: !StillFits(snap, app, vs, c))
  }

  ghost predicate BestAt(snap: Snapshot, app: Application, vs: seq<Candidate>, i: nat)
    requires i < |vs|
  {
    FreedBy(vs[..i]) < app.gpusPerReplica && BestOf(snap, app, vs[..i], vs[i])
  }

  lemma LowAlone(snap: Snapshot, app: Application, low: Selection)
    requires WellKeyed(snap) && low == Select(snap.replicas, Queue(snap, app, 2), app.gpusPerReplica, "")
    requires low.freed >= app.gpusPerReplica || app.priority != 0
    ensures GreedyCandidates(snap, app, low.victims)
  {
    SelectsFromTier(snap, app, 2, app.gpusPerReplica, "", low);
    forall i: nat | i < |low.victims| ensures BestAt(snap, app, low.victims, i) {
      LowStep(snap, app, low, i);
    }
    forall c | FreedBy(low.victims) < app.gpusPerReplica ensures !StillFits(snap, app, low.victims, c) {
      assert low.victims != [] ==> low.victims[0] in low.victims;
    }
  }

  lemma LowThenHigh(snap: Snapshot, app: Application, low: Selection, high: Selection)
    requires WellKeyed(snap) && low == Select(snap.replicas, Queue(snap, app, 2), app.gpusPerReplica, "")
    requires low.freed < app.gpusPerReplica && app.priority == 0
    requires high == Select(snap.replicas, Queue(snap, app, 1), app.gpusPerReplica - low.freed, low.target)
    ensures GreedyCandidates(snap, app, low.victims + high.victims)
  {
    var vs, n := low.victims + high.victims, |low.victims|;
    SelectsFromTier(snap, app, 2, app.gpusPerReplica, "", low);
    SelectsFromTier(snap, app, 1, app.gpusPerReplica - low.freed, low.target, high);
    forall i: nat | i < |vs| ensures BestAt(snap, app, vs, i) {
      if i < n {
        LowStep(snap, app, low, i);
        BestInBoth(snap, app, low.victims, high.victims, i);
      } else {
        HighStep(snap, app, low, high, i - n);
        BestInBoth(snap, app, low.victims, high.victims, i);
      }
    }
    FreedByConcat(low.victims, high.victims);
    forall c | FreedBy(vs) < app.gpusPerReplica ensures !StillFits(snap, app, vs, c) {
      NothingFitsAtTheEnd(snap, app, low, high, c);
    }
  }

  lemma BestInBoth(snap: Snapshot, app: Application, low: seq<Candidate>, high: seq<Candidate>, i: nat)
    requires i < |low| + |high|
    requires if i < |low| then BestAt(snap, app, low, i)
             else FreedBy(low + high[..i - |low|]) < app.gpusPerReplica
                  && BestOf(snap, app, low + high[..i - |low|], high[i - |low|])
    ensures BestAt(snap, app, low + high, i)
  {
    if i < |low| {
      assert (low + high)[..i] == low[..i] && (low + high)[i] == low[i];
    } else {
      assert (low + high)[..i] == low + high[..i - |low|] && (low + high)[i] == high[i - |low|];
    }
  }

  lemma NothingFitsAtTheEnd(snap: Snapshot, app: Application, low: Selection, high: Selection, c: Candidate)
    requires WellKeyed(snap) && TierSelection(snap, app, 2, app.gpusPerReplica, "", low)
    requires TierSelection(snap, app, 1, app.gpusPerReplica - low.freed, low.target, high)
    requires low.freed < app.gpusPerReplica && low.freed + high.freed < app.gpusPerReplica
    ensures !StillFits(snap, app, low.victims + high.victims, c)
  {
    if StillFits(snap, app, low.victims + high.victims, c) {
      assert high.victims[..|high.victims|] == high.victims;
      LowIsOver(snap, app, low, high, |high.victims|, c);
      assert false;
    }
  }

  lemma ChoiceIsGreedy(snap: Snapshot, app: Application)
    requires WellKeyed(snap)
    ensures GreedyCandidates(snap, app, Choose(snap, app).victims)
  {
    var low := Select(snap.replicas, Queue(snap, app, 2), app.gpusPerReplica, "");
    var high := Select(snap.replicas, Queue(snap, app, 1), app.gpusPerReplica - low.freed, low.target);
    assert Choose(snap, app).victims ==
           if low.freed < app.gpusPerReplica && app.priority == 0 then low.victims + high.victims else low.victims;
    assert GreedyCandidates(snap, app, Choose(snap, app).victims) by {
      if low.freed < app.gpusPerReplica && app.priority == 0 {
        LowThenHigh(snap, app, low, high);
      } else {
        LowAlone(snap, app, low);
      }
    }
  }

  // ---------- The engine's answer ----------

  lemma ChosenAreMirrored(snap: Snapshot, app: Application)
    requires WellKeyed(snap)
    ensures forall c | c in Choose(snap, app).victims :: Mirrors(snap, c)
    ensures DistinctIdsIn(Choose(snap, app).victims)
    ensures Choose(snap, app).freed == FreedBy(Choose(snap, app).victims)
    ensures Pinned("", Choose(snap, app))
  {
    var sel := Choose(snap, app);
    QueuesOfSnapshot(snap, app);
    CascadeIsTight(snap.replicas, Queue(snap, app, 2), Queue(snap, app, 1), app.gpusPerReplica, app.priority == 0);
    forall c | c in sel.victims ensures Mirrors(snap, c) {
      CandidateFacts(snap, app, c);
    }
    MirrorsAreDistinct(snap, sel.victims);
  }

  lemma DecisionsAreGreedy(snap: Snapshot, app: Application, grace: int, vs: seq<Candidate>)
    requires WellKeyed(snap) && GreedyCandidates(snap, app, vs)
    requires DistinctIdsIn(vs) && forall c | c in vs :: Mirrors(snap, c)
    ensures IsGreedy(snap, app, grace, ToDecisions(vs, grace))
  {
    var ds := ToDecisions(vs, grace);
    forall i: nat | i < |ds| ensures StepAt(snap, app, grace, ds, i) {
      var cs := vs[..i];
      assert BestAt(snap, app, vs, i) && Mirrors(snap, vs[i]);
      assert ds[..i] == ToDecisions(cs, grace);
      BestIsNext(snap, app, cs, grace, vs[i]);
      DecisionsFree(snap, cs, grace);
    }
    DecisionsFree(snap, vs, grace);
    forall id | EvictedGPUs(snap.replicas, ds) < app.gpusPerReplica ensures !Evictable(snap, app, ds, id) {
      EvictableIs(snap, app, vs, grace, id);
      assert Known(snap, id) ==> !StillFits(snap, app, vs, AsCandidate(snap, id));
    }
  }

  /** There is exactly one greedy list. A requester that may preempt gets a plan exactly
      when it frees enough, and then the plan is that list. */
  lemma PlanIsGreedyIff(snap: Snapshot, app: Application, grace: int, ds: seq<PreemptionDecision>)
    requires WellKeyed(snap) && IsGreedy(snap, app, grace, ds)
    ensures PlanFor(snap, app, grace).Some? <==>
            app.priority != 2 && EvictedGPUs(snap.replicas, ds) >= app.gpusPerReplica
    ensures PlanFor(snap, app, grace).Some? ==>
              PlanFor(snap, app, grace).value ==
              PreemptionPlan(ds, if ds == [] then "" else ds[0].clusterID,
                             SchedulingConstraints(app.gpusPerReplica, [], app.modelID))
  {
    var sel := Choose(snap, app);
    ChosenAreMirrored(snap, app);
    ChoiceIsGreedy(snap, app);
    DecisionsAreGreedy(snap, app, grace, sel.victims);
    GreedyIsUnique(snap, app, grace, ds, ToDecisions(sel.victims, grace));
    DecisionsFree(snap, sel.victims, grace);
    assert sel.victims != [] ==> sel.victims[0] in sel.victims;
  }

  /** There is such a list. */
  lemma GreedyExists(snap: Snapshot, app: Application, grace: int)
    requires WellKeyed(snap)
    ensures exists ds :: IsGreedy(snap, app, grace, ds)
  {
    ChosenAreMirrored(snap, app);
    ChoiceIsGreedy(snap, app);
    DecisionsAreGreedy(snap, app, grace, Choose(snap, app).victims);
    assert IsGreedy(snap, app, grace, ToDecisions(Choose(snap, app).victims, grace));
  }
}
