/** The priority cascade: which lower-priority replicas to evict so that one more
    replica of the requesting application fits. */
module Preemption {
  import opened Model
  import opened Collections
  import opened Snapshots

  /** A replica that may be evicted, with the application that owns it. */
  datatype Candidate = Candidate(replica: Replica, app: Application)

  // ---------- Candidate pools ----------

  ghost predicate IsCandidate(snap: Snapshot, app: Application, tier: int, aid: AppID, rid: ReplicaID) {
    && aid in snap.applications && rid in snap.replicas
    && aid != app.appID && snap.applications[aid].priority > app.priority
    && snap.applications[aid].priority == tier
    && snap.replicas[rid].appID == aid && snap.replicas[rid].IsActive()
  }

  /** The active replicas of strictly lower-priority applications in one tier. */
  ghost function Pool(snap: Snapshot, app: Application, tier: int): set<Candidate> {
    set aid, rid | aid in snap.applications && rid in snap.replicas && IsCandidate(snap, app, tier, aid, rid)
      :: Candidate(snap.replicas[rid], snap.applications[aid])
  }

  ghost predicate DistinctReplicas(s: set<Candidate>) {
    forall a, b | a in s && b in s && a.replica.replicaID == b.replica.replicaID :: a == b
  }

  lemma PoolIsDistinct(snap: Snapshot, app: Application, tier: int)
    requires WellKeyed(snap)
    ensures DistinctReplicas(Pool(snap, app, tier))
  {
  }

  // ---------- The order of preference ----------

  /** 0 for applications with replicas to spare, 1 for those at their minimum. */
  function AboveMinOrder(replicas: map<ReplicaID, Replica>, c: Candidate): int {
    if ActiveCount(replicas, c.app.appID) > c.app.minReplicas then 0 else 1
  }

  function Abs(x: int): nat {
    if x < 0 then -x else x
  }

  /** How well the freed GPUs match the need; 1 for a perfect match. */
  function PackingBenefit(replicaGPUs: int, gpusNeeded: int): real {
    if replicaGPUs == gpusNeeded then 1.0
    else 1.0 / (1.0 + Abs(replicaGPUs - gpusNeeded) as real)
  }

  ghost function GpusIn(cluster: ClusterID): Candidate -> int {
    (c: Candidate) => if c.replica.clusterID == cluster then c.replica.gpus else 0
  }

  /** The GPUs a set of candidates would free in one cluster. */
  ghost function ClusterTotal(s: set<Candidate>, cluster: ClusterID): int {
    MapSum(map c | c in s :: c, GpusIn(cluster))
  }

  ghost function ClustersOf(s: set<Candidate>): set<ClusterID> {
    set c | c in s :: c.replica.clusterID
  }

  /** The same for each cluster the set touches. */
  ghost function ClusterTotals(s: set<Candidate>): map<ClusterID, int> {
    map k | k in ClustersOf(s) :: ClusterTotal(s, k)
  }

  function TotalIn(totals: map<ClusterID, int>, cluster: ClusterID): int {
    if cluster in totals then totals[cluster] else 0
  }

  predicate Before(replicas: map<ReplicaID, Replica>, gpusNeeded: int, totals: map<ClusterID, int>,
                   a: Candidate, b: Candidate)
  {
    var minA, minB := AboveMinOrder(replicas, a), AboveMinOrder(replicas, b);
    var totalA, totalB := TotalIn(totals, a.replica.clusterID), TotalIn(totals, b.replica.clusterID);
    var fitA, fitB := PackingBenefit(a.replica.gpus, gpusNeeded), PackingBenefit(b.replica.gpus, gpusNeeded);
    if minA != minB then minA < minB
    else if totalA != totalB then totalA > totalB
    else if a.replica.clusterID != b.replica.clusterID then LexLess(a.replica.clusterID, b.replica.clusterID)
    else if fitA != fitB then fitA > fitB
    else LexLess(a.replica.replicaID, b.replica.replicaID)
  }

  function Preference(replicas: map<ReplicaID, Replica>, gpusNeeded: int, totals: map<ClusterID, int>)
    : (Candidate, Candidate) -> bool
  {
    (a: Candidate, b: Candidate) => Before(replicas, gpusNeeded, totals, a, b)
  }

  lemma BeforeTransitive(replicas: map<ReplicaID, Replica>, need: int, totals: map<ClusterID, int>,
                         a: Candidate, b: Candidate, c: Candidate)
    requires Before(replicas, need, totals, a, b) && Before(replicas, need, totals, b, c)
    ensures Before(replicas, need, totals, a, c)
  {
    var x, y, z := a.replica.clusterID, b.replica.clusterID, c.replica.clusterID;
    LexIrreflexive(x);
    LexIrreflexive(a.replica.replicaID);
    if LexLess(x, y) && LexLess(y, z) {
      LexTransitive(x, y, z);
    }
    if LexLess(a.replica.replicaID, b.replica.replicaID) && LexLess(b.replica.replicaID, c.replica.replicaID) {
      LexTransitive(a.replica.replicaID, b.replica.replicaID, c.replica.replicaID);
    }
  }

  /** On candidates with distinct replica ids the comparison is a strict total
      order, so sorting leaves no freedom. */
  lemma PreferenceIsStrictTotal(replicas: map<ReplicaID, Replica>, need: int, totals: map<ClusterID, int>,
                                s: set<Candidate>)
    requires DistinctReplicas(s)
    ensures StrictTotalOrder(s, Preference(replicas, need, totals))
  {
    var less := Preference(replicas, need, totals);
    forall a | a in s ensures !less(a, a) {
      LexIrreflexive(a.replica.replicaID);
    }
    forall a, b | a in s && b in s && a != b ensures less(a, b) || less(b, a) {
      LexTotal(a.replica.clusterID, b.replica.clusterID);
      LexTotal(a.replica.replicaID, b.replica.replicaID);
    }
    forall a, b, c | a in s && b in s && c in s && less(a, b) && less(b, c) ensures less(a, c) {
      BeforeTransitive(replicas, need, totals, a, b, c);
    }
  }

  /** The pool in order of preference: a function of the pool as a set. */
  ghost function Queue(snap: Snapshot, app: Application, tier: int): seq<Candidate>
    requires WellKeyed(snap)
  {
    var pool := Pool(snap, app, tier);
    PoolIsDistinct(snap, app, tier);
    var totals := ClusterTotals(pool);
    PreferenceIsStrictTotal(snap.replicas, app.gpusPerReplica, totals, pool);
    Ranked(pool, Preference(snap.replicas, app.gpusPerReplica, totals))
  }

  // ---------- Greedy selection ----------

  datatype Selection = Selection(victims: seq<Candidate>, freed: int, target: ClusterID)

  /** How many of the chosen victims belong to an application. */
  function Taken(victims: seq<Candidate>, app: AppID): nat {
    if victims == [] then 0
    else
      var last := |victims| - 1;
      Taken(victims[..last], app) + if victims[last].app.appID == app then 1 else 0
  }

  function FreedBy(victims: seq<Candidate>): int {
    if victims == [] then 0 else FreedBy(victims[..|victims| - 1]) + victims[|victims| - 1].replica.gpus
  }

  /** An application may lose one more replica. */
  predicate CanSpare(replicas: map<ReplicaID, Replica>, victims: seq<Candidate>, app: Application) {
    ActiveCount(replicas, app.appID) - Taken(victims, app.appID) > app.minReplicas
  }

  predicate InTarget(target: ClusterID, c: Candidate) {
    target == "" || c.replica.clusterID == target
  }

  /** The first victim pins the cluster. */
  function Extend(sel: Selection, c: Candidate): Selection {
    Selection(sel.victims + [c], sel.freed + c.replica.gpus,
              if sel.target == "" then c.replica.clusterID else sel.target)
  }

  function Consider(replicas: map<ReplicaID, Replica>, need: int, sel: Selection, c: Candidate): Selection {
    if sel.freed < need && InTarget(sel.target, c) && CanSpare(replicas, sel.victims, c.app) then
      Extend(sel, c)
    else
      sel
  }

  /** The selection after looking at every candidate in turn. */
  ghost function Select(replicas: map<ReplicaID, Replica>, cands: seq<Candidate>, need: int, prefer: ClusterID)
    : Selection
  {
    if cands == [] then Selection([], 0, prefer)
    else
      var last := |cands| - 1;
      Consider(replicas, need, Select(replicas, cands[..last], need, prefer), cands[last])
  }

  lemma {:induction false} SelectStops(replicas: map<ReplicaID, Replica>, cands: seq<Candidate>, need: int,
                                       prefer: ClusterID, n: nat)
    requires n <= |cands|
    requires Select(replicas, cands[..n], need, prefer).freed >= need
    ensures Select(replicas, cands, need, prefer) == Select(replicas, cands[..n], need, prefer)
  {
    if n < |cands| {
      var front := cands[..|cands| - 1];
      assert front[..n] == cands[..n];
      SelectStops(replicas, front, need, prefer, n);
    } else {
      assert cands[..n] == cands;
    }
  }

  // ---------- What the greedy selection guarantees ----------

  ghost predicate AllIn(victims: seq<Candidate>, cluster: ClusterID) {
    forall c | c in victims :: c.replica.clusterID == cluster
  }

  /** Every application that lost a replica still has its minimum. */
  ghost predicate KeepsMinimum(replicas: map<ReplicaID, Replica>, victims: seq<Candidate>) {
    forall c | c in victims ::
      ActiveCount(replicas, c.app.appID) - Taken(victims, c.app.appID) >= c.app.minReplicas
  }

  /** One application per id. */
  ghost predicate ConsistentApps(cands: seq<Candidate>) {
    forall a, b | a in cands && b in cands && a.app.appID == b.app.appID :: a.app == b.app
  }

  /** The victims are distinct candidates of one cluster, and the last of them was
      needed. */
  ghost predicate Tight(cands: seq<Candidate>, need: int, prefer: ClusterID, sel: Selection) {
    && Drawn(cands, sel.victims)
    && Pinned(prefer, sel)
    && sel.freed == FreedBy(sel.victims)
    && LastNeeded(need, sel.victims)
  }

  ghost predicate Drawn(cands: seq<Candidate>, victims: seq<Candidate>) {
    (forall c | c in victims :: c in cands) && NoDuplicates(victims)
  }

  ghost predicate Pinned(prefer: ClusterID, sel: Selection) {
    && AllIn(sel.victims, sel.target)
    && (prefer != "" ==> sel.target == prefer)
    && (if sel.victims == [] then sel.target == prefer else sel.target != "")
  }

  ghost predicate LastNeeded(need: int, victims: seq<Candidate>) {
    victims != [] ==> FreedBy(victims[..|victims| - 1]) < need
  }

  lemma DrawnExtends(cands: seq<Candidate>, victims: seq<Candidate>, c: Candidate)
    requires Drawn(cands, victims) && c !in cands
    ensures Drawn(cands + [c], victims + [c])
  {
    NoDuplicatesAppend(victims, c);
  }

  lemma PinnedExtends(prefer: ClusterID, sel: Selection, c: Candidate)
    requires Pinned(prefer, sel) && c.replica.clusterID != "" && InTarget(sel.target, c)
    ensures Pinned(prefer, Extend(sel, c))
  {
  }

  lemma TakenAppend(victims: seq<Candidate>, c: Candidate, app: AppID)
    ensures Taken(victims + [c], app) == Taken(victims, app) + if c.app.appID == app then 1 else 0
  {
    assert (victims + [c])[..|victims|] == victims;
  }

  lemma KeepsMinimumAppend(replicas: map<ReplicaID, Replica>, cands: seq<Candidate>, victims: seq<Candidate>,
                           c: Candidate)
    requires KeepsMinimum(replicas, victims) && CanSpare(replicas, victims, c.app)
    requires ConsistentApps(cands + [c]) && forall v | v in victims :: v in cands
    ensures KeepsMinimum(replicas, victims + [c])
  {
    forall v | v in victims + [c]
      ensures ActiveCount(replicas, v.app.appID) - Taken(victims + [c], v.app.appID) >= v.app.minReplicas
    {
      TakenAppend(victims, c, v.app.appID);
      assert v in cands + [c] && c in cands + [c];
    }
  }

  lemma FreedByAppend(victims: seq<Candidate>, c: Candidate)
    ensures FreedBy(victims + [c]) == FreedBy(victims) + c.replica.gpus
  {
    assert (victims + [c])[..|victims|] == victims;
  }

  lemma TightExtends(cands: seq<Candidate>, need: int, prefer: ClusterID, sel: Selection, c: Candidate)
    requires Tight(cands, need, prefer, sel)
    requires c !in cands && c.replica.clusterID != ""
    requires sel.freed < need && InTarget(sel.target, c)
    ensures Tight(cands + [c], need, prefer, Extend(sel, c))
  {
    DrawnExtends(cands, sel.victims, c);
    PinnedExtends(prefer, sel, c);
    FreedByAppend(sel.victims, c);
    assert (sel.victims + [c])[..|sel.victims|] == sel.victims;
  }

  lemma TightConsider(replicas: map<ReplicaID, Replica>, cands: seq<Candidate>, need: int, prefer: ClusterID,
                      sel: Selection, c: Candidate)
    requires Tight(cands, need, prefer, sel)
    requires c !in cands && c.replica.clusterID != ""
    ensures Tight(cands + [c], need, prefer, Consider(replicas, need, sel, c))
  {
    if sel.freed < need && InTarget(sel.target, c) {
      TightExtends(cands, need, prefer, sel, c);
    }
  }

  lemma {:induction false} SelectIsTight(replicas: map<ReplicaID, Replica>, cands: seq<Candidate>, need: int,
                                         prefer: ClusterID)
    requires NoDuplicates(cands) && forall c | c in cands :: c.replica.clusterID != ""
    ensures Tight(cands, need, prefer, Select(replicas, cands, need, prefer))
  {
    if cands != [] {
      var front, c := cands[..|cands| - 1], cands[|cands| - 1];
      assert cands == front + [c];
      assert c !in front;
      SelectIsTight(replicas, front, need, prefer);
      TightConsider(replicas, front, need, prefer, Select(replicas, front, need, prefer), c);
    }
  }

  lemma {:induction false} SelectKeepsMinimum(replicas: map<ReplicaID, Replica>, cands: seq<Candidate>, need: int,
                                              prefer: ClusterID)
    requires ConsistentApps(cands)
    ensures var victims := Select(replicas, cands, need, prefer).victims;
            KeepsMinimum(replicas, victims) && forall v | v in victims :: v in cands
  {
    if cands != [] {
      var front, c := cands[..|cands| - 1], cands[|cands| - 1];
      assert cands == front + [c];
      SelectKeepsMinimum(replicas, front, need, prefer);
      var before := Select(replicas, front, need, prefer);
      if CanSpare(replicas, before.victims, c.app) {
        KeepsMinimumAppend(replicas, front, before.victims, c);
      }
    }
  }

  /** Nothing usable was left: each candidate not chosen in the pinned cluster
      belongs to an application that cannot spare another replica. */
  ghost predicate Exhausted(replicas: map<ReplicaID, Replica>, cands: seq<Candidate>, sel: Selection) {
    forall c | c in cands && c !in sel.victims && InTarget(sel.target, c) :: !CanSpare(replicas, sel.victims, c.app)
  }

  lemma {:induction false} SelectExhausts(replicas: map<ReplicaID, Replica>, cands: seq<Candidate>, need: int,
                                          prefer: ClusterID)
    requires forall c | c in cands :: c.replica.clusterID != ""
    requires Select(replicas, cands, need, prefer).freed < need
    ensures Exhausted(replicas, cands, Select(replicas, cands, need, prefer))
  {
    if cands != [] {
      var front, last := cands[..|cands| - 1], cands[|cands| - 1];
      assert cands == front + [last];
      var before, after := Select(replicas, front, need, prefer), Select(replicas, cands, need, prefer);
      assert before.freed < need;
      SelectExhausts(replicas, front, need, prefer);
      forall c | c in cands && c !in after.victims && InTarget(after.target, c)
        ensures !CanSpare(replicas, after.victims, c.app)
      {
        if after != before {
          TakenAppend(before.victims, last, c.app.appID);
          assert last in after.victims;
          if before.target == "" {
            assert InTarget(before.target, c);
          }
        }
      }
    }
  }

  // ---------- The whole decision ----------

  /** Selects from the first queue and, if that is not enough and escalation is
      allowed, goes on with the second in the cluster the first pinned, if any. */
  ghost function Cascade(replicas: map<ReplicaID, Replica>, q2: seq<Candidate>, q1: seq<Candidate>, need: int,
                         escalate: bool): Selection
  {
    var low := Select(replicas, q2, need, "");
    if low.freed < need && escalate then
      Join(low, Select(replicas, q1, need - low.freed, low.target))
    else low
  }

  function Join(low: Selection, high: Selection): Selection {
    Selection(low.victims + high.victims, low.freed + high.freed, if low.target == "" then high.target else low.target)
  }

  /** Tier 2 first; only a requester of the highest priority goes on to tier 1. */
  ghost function Choose(snap: Snapshot, app: Application): Selection
    requires WellKeyed(snap)
  {
    Cascade(snap.replicas, Queue(snap, app, 2), Queue(snap, app, 1), app.gpusPerReplica, app.priority == 0)
  }

  function ToDecision(c: Candidate, grace: int): PreemptionDecision {
    PreemptionDecision(c.replica.replicaID, c.app.appID, c.replica.nodeID, c.replica.clusterID, grace)
  }

  function ToDecisions(cs: seq<Candidate>, grace: int): seq<PreemptionDecision> {
    seq(|cs|, i requires 0 <= i < |cs| => ToDecision(cs[i], grace))
  }

  function PlanOf(sel: Selection, app: Application, grace: int): Option<PreemptionPlan> {
    if sel.freed < app.gpusPerReplica then None
    else Some(PreemptionPlan(ToDecisions(sel.victims, grace), sel.target,
                             SchedulingConstraints(app.gpusPerReplica, [], app.modelID)))
  }

  /** The engine's answer, read off the snapshot's maps alone: no order in which a
      map may be iterated enters into it. */
  ghost function PlanFor(snap: Snapshot, app: Application, grace: int): Option<PreemptionPlan>
    requires WellKeyed(snap)
  {
    if app.priority == 2 then None else PlanOf(Choose(snap, app), app, grace)
  }

  // ---------- The engine ----------

  /** Collects the active replicas of one victim application. */
  method AppCandidates(snap: Snapshot, victimApp: Application) returns (q: seq<Candidate>)
    requires WellKeyed(snap)
    ensures Enumerates(q, CandidatesOf(snap, victimApp))
  {
    q := [];
    var bucket := ReplicasForApp(snap, victimApp.appID);
    ghost var found: set<Candidate> := {};
    for i := 0 to |bucket|
      invariant Enumerates(q, found)
      invariant forall c :: c in found <==> c.app == victimApp && c.replica in bucket[..i] && c.replica.IsActive()
    {
      var r := bucket[i];
      assert bucket[..i + 1] == bucket[..i] + [r];
      if r.IsActive() {
        EnumeratesAppend(q, found, Candidate(r, victimApp));
        q := q + [Candidate(r, victimApp)];
        found := found + {Candidate(r, victimApp)};
      }
    }
    assert bucket[..|bucket|] == bucket;
    assert found == CandidatesOf(snap, victimApp);
  }

  ghost function CandidatesOf(snap: Snapshot, victimApp: Application): set<Candidate> {
    set r | r in AppReplicas(snap.replicas, victimApp.appID) && r.IsActive() :: Candidate(r, victimApp)
  }

  /** The part of a pool owned by some of the applications. */
  ghost function PoolWithin(snap: Snapshot, app: Application, tier: int, owners: set<AppID>): set<Candidate> {
    set c | c in Pool(snap, app, tier) && c.app.appID in owners
  }

  lemma PoolWithinGrows(snap: Snapshot, app: Application, tier: int, owners: set<AppID>, aid: AppID)
    requires WellKeyed(snap) && aid in snap.applications && aid !in owners
    ensures var a := snap.applications[aid];
            PoolWithin(snap, app, tier, owners + {aid}) ==
            PoolWithin(snap, app, tier, owners)
            + if aid != app.appID && a.priority > app.priority && a.priority == tier then CandidatesOf(snap, a) else {}
  {
    var a := snap.applications[aid];
    forall c | c in CandidatesOf(snap, a) && aid != app.appID && a.priority > app.priority && a.priority == tier
      ensures c in Pool(snap, app, tier)
    {
      assert IsCandidate(snap, app, tier, aid, c.replica.replicaID);
    }
    forall c | c in Pool(snap, app, tier) && c.app.appID == aid
      ensures c in CandidatesOf(snap, a) && aid != app.appID && a.priority > app.priority && a.priority == tier
    {
      assert c.replica in AppReplicas(snap.replicas, aid);
    }
  }

  /** Both candidate pools, collected application by application in map order. */
  method CollectCandidates(snap: Snapshot, app: Application) returns (p2: seq<Candidate>, p1: seq<Candidate>)
    requires WellKeyed(snap)
    ensures Enumerates(p2, Pool(snap, app, 2)) && Enumerates(p1, Pool(snap, app, 1))
  {
    p2, p1 := [], [];
    var todo := snap.applications.Keys;
    ghost var done: set<AppID> := {};
    while todo != {}
      invariant todo <= snap.applications.Keys && done == snap.applications.Keys - todo
      invariant Enumerates(p2, PoolWithin(snap, app, 2, done))
      invariant Enumerates(p1, PoolWithin(snap, app, 1, done))
    {
      var aid :| aid in todo;
      todo := todo - {aid};
      var victimApp := snap.applications[aid];
      PoolWithinGrows(snap, app, 2, done, aid);
      PoolWithinGrows(snap, app, 1, done, aid);
      if aid != app.appID && victimApp.priority > app.priority {
        var q := AppCandidates(snap, victimApp);
        if victimApp.priority == 2 {
          EnumeratesConcat(p2, PoolWithin(snap, app, 2, done), q, CandidatesOf(snap, victimApp));
          p2 := p2 + q;
        } else if victimApp.priority == 1 {
          EnumeratesConcat(p1, PoolWithin(snap, app, 1, done), q, CandidatesOf(snap, victimApp));
          p1 := p1 + q;
        }
      }
      done := done + {aid};
    }
    assert PoolWithin(snap, app, 2, done) == Pool(snap, app, 2);
    assert PoolWithin(snap, app, 1, done) == Pool(snap, app, 1);
  }

  lemma ClusterTotalGrows(s: set<Candidate>, c: Candidate, k: ClusterID)
    requires c !in s
    ensures ClusterTotal(s + {c}, k) == ClusterTotal(s, k) + if c.replica.clusterID == k then c.replica.gpus else 0
  {
    var m, m' := map x | x in s :: x, map x | x in s + {c} :: x;
    assert m' == m[c := c];
    MapSumPut(m, GpusIn(k), c, c);
  }

  lemma ClusterTotalUntouched(s: set<Candidate>, k: ClusterID)
    requires k !in ClustersOf(s)
    ensures ClusterTotal(s, k) == 0
  {
    var m := map x | x in s :: x;
    forall x | x in m ensures GpusIn(k)(m[x]) == 0 {
      assert x.replica.clusterID in ClustersOf(s);
    }
    MapSumZero(m, GpusIn(k));
  }

  lemma ClustersGrow(s: set<Candidate>, c: Candidate)
    ensures ClustersOf(s + {c}) == ClustersOf(s) + {c.replica.clusterID}
  {
    forall k | k in ClustersOf(s) ensures k in ClustersOf(s + {c}) {
      var x :| x in s && x.replica.clusterID == k;
      assert x in s + {c};
    }
    assert c in s + {c};
  }

  /** The running totals are those of the candidates seen. */
  ghost predicate Totals(m: map<ClusterID, int>, s: set<Candidate>) {
    m.Keys == ClustersOf(s) && forall k | k in m :: m[k] == ClusterTotal(s, k)
  }

  lemma TotalsAre(m: map<ClusterID, int>, s: set<Candidate>)
    requires Totals(m, s)
    ensures m == ClusterTotals(s)
  {
  }

  lemma TotalsGrow(m: map<ClusterID, int>, s: set<Candidate>, c: Candidate)
    requires Totals(m, s) && c !in s
    ensures var k := c.replica.clusterID; Totals(m[k := TotalIn(m, k) + c.replica.gpus], s + {c})
  {
    var k := c.replica.clusterID;
    ClustersGrow(s, c);
    forall j | j in m || j == k ensures m[k := TotalIn(m, k) + c.replica.gpus][j] == ClusterTotal(s + {c}, j) {
      ClusterTotalGrows(s, c, j);
      if j !in m {
        ClusterTotalUntouched(s, j);
      }
    }
  }

  ghost function Elements(q: seq<Candidate>): set<Candidate> {
    set c | c in q
  }

  lemma ElementsStep(q: seq<Candidate>, i: nat)
    requires NoDuplicates(q) && i < |q|
    ensures Elements(q[..i + 1]) == Elements(q[..i]) + {q[i]} && q[i] !in Elements(q[..i])
  {
    assert q[..i + 1] == q[..i] + [q[i]];
  }

  method TotalPerCluster(cands: seq<Candidate>) returns (clusterGPUs: map<ClusterID, int>)
    requires NoDuplicates(cands)
    ensures clusterGPUs == ClusterTotals(Elements(cands))
  {
    clusterGPUs := map[];
    ghost var seen: set<Candidate> := {};
    for i := 0 to |cands|
      invariant seen == Elements(cands[..i]) && Totals(clusterGPUs, seen)
    {
      var c := cands[i];
      ElementsStep(cands, i);
      TotalsGrow(clusterGPUs, seen, c);
      clusterGPUs := clusterGPUs[c.replica.clusterID := TotalIn(clusterGPUs, c.replica.clusterID) + c.replica.gpus];
      seen := seen + {c};
    }
    assert cands[..|cands|] == cands;
    TotalsAre(clusterGPUs, seen);
  }

  /** Totals the freeable GPUs per cluster, then sorts. */
  method SortCandidates(cands: seq<Candidate>, snap: Snapshot, app: Application, ghost tier: int)
    returns (sorted: seq<Candidate>)
    requires WellKeyed(snap) && Enumerates(cands, Pool(snap, app, tier))
    ensures sorted == Queue(snap, app, tier)
  {
    ghost var pool := Pool(snap, app, tier);
    PoolIsDistinct(snap, app, tier);
    var clusterGPUs := TotalPerCluster(cands);
    assert Elements(cands) == pool;
    PreferenceIsStrictTotal(snap.replicas, app.gpusPerReplica, clusterGPUs, pool);
    sorted := SortBy(cands, pool, Preference(snap.replicas, app.gpusPerReplica, clusterGPUs));
  }

  lemma SelectStep(replicas: map<ReplicaID, Replica>, cands: seq<Candidate>, need: int, prefer: ClusterID, i: nat)
    requires i < |cands|
    ensures Select(replicas, cands[..i + 1], need, prefer) ==
            Consider(replicas, need, Select(replicas, cands[..i], need, prefer), cands[i])
  {
    assert cands[..i + 1][..i] == cands[..i];
  }

  ghost predicate Tallies(m: map<AppID, int>, victims: seq<Candidate>) {
    forall a :: CountAt(m, a) == Taken(victims, a)
  }

  lemma TalliesAppend(m: map<AppID, int>, victims: seq<Candidate>, c: Candidate)
    requires Tallies(m, victims)
    ensures Tallies(m[c.app.appID := CountAt(m, c.app.appID) + 1], victims + [c])
  {
    var m' := m[c.app.appID := CountAt(m, c.app.appID) + 1];
    forall a ensures CountAt(m', a) == Taken(victims + [c], a) {
      TakenAppend(victims, c, a);
      assert CountAt(m, a) == Taken(victims, a);
    }
  }

  method SelectVictims(candidates: seq<Candidate>, requiredGPUs: int, snap: Snapshot, preferCluster: ClusterID)
    returns (victims: seq<Candidate>, freed: int, targetCluster: ClusterID)
    requires WellKeyed(snap)
    ensures Selection(victims, freed, targetCluster) == Select(snap.replicas, candidates, requiredGPUs, preferCluster)
  {
    victims, freed, targetCluster := [], 0, preferCluster;
    var preemptingPerApp: map<AppID, int> := map[];
    for i := 0 to |candidates|
      invariant Selection(victims, freed, targetCluster) ==
                Select(snap.replicas, candidates[..i], requiredGPUs, preferCluster)
      invariant Tallies(preemptingPerApp, victims)
    {
      if freed >= requiredGPUs {
        SelectStops(snap.replicas, candidates, requiredGPUs, preferCluster, i);
        return;
      }
      var c := candidates[i];
      SelectStep(snap.replicas, candidates, requiredGPUs, preferCluster, i);
      if targetCluster != "" && c.replica.clusterID != targetCluster {
        continue;
      }
      var activeCount := CountActiveReplicas(snap, c.app.appID);
      assert CountAt(preemptingPerApp, c.app.appID) == Taken(victims, c.app.appID);
      if activeCount - CountAt(preemptingPerApp, c.app.appID) <= c.app.minReplicas {
        continue;
      }
      if targetCluster == "" {
        targetCluster := c.replica.clusterID;
      }
      TalliesAppend(preemptingPerApp, victims, c);
      preemptingPerApp := preemptingPerApp[c.app.appID := CountAt(preemptingPerApp, c.app.appID) + 1];
      victims := victims + [c];
      freed := freed + c.replica.gpus;
    }
    assert candidates[..|candidates|] == candidates;
  }

  function CountAt(m: map<AppID, int>, a: AppID): int {
    if a in m then m[a] else 0
  }

  /** The engine computes PlanFor, whatever order its maps are iterated in. */
  method FindPreemptionOpportunity(app: Application, snap: Snapshot, grace: int)
    returns (plan: Option<PreemptionPlan>)
    requires WellKeyed(snap)
    ensures plan == PlanFor(snap, app, grace)
  {
    if app.priority == 2 {
      return None;
    }
    var p2, p1 := CollectCandidates(snap, app);
    p2 := SortCandidates(p2, snap, app, 2);
    p1 := SortCandidates(p1, snap, app, 1);
    var sel := RunCascade(p2, p1, app, snap);
    return PlanOf(sel, app, grace);
  }

  method RunCascade(p2: seq<Candidate>, p1: seq<Candidate>, app: Application, snap: Snapshot) returns (sel: Selection)
    requires WellKeyed(snap)
    ensures sel == Cascade(snap.replicas, p2, p1, app.gpusPerReplica, app.priority == 0)
  {
    var gpusNeeded := app.gpusPerReplica;
    var victims, freed, targetCluster := SelectVictims(p2, gpusNeeded, snap, "");
    if freed < gpusNeeded && app.priority == 0 {
      var remaining := gpusNeeded - freed;
      var p1Victims, p1Freed, tc := SelectVictims(p1, remaining, snap, targetCluster);
      victims := victims + p1Victims;
      freed := freed + p1Freed;
      if targetCluster == "" {
        targetCluster := tc;
      }
    }
    return Selection(victims, freed, targetCluster);
  }

  // ---------- Guarantees of the whole decision ----------

  lemma {:induction false} TakenConcat(xs: seq<Candidate>, ys: seq<Candidate>, app: AppID)
    ensures Taken(xs + ys, app) == Taken(xs, app) + Taken(ys, app)
  {
    if ys == [] {
      assert xs + ys == xs;
    } else {
      assert (xs + ys)[..|xs + ys| - 1] == xs + ys[..|ys| - 1];
      TakenConcat(xs, ys[..|ys| - 1], app);
    }
  }

  lemma {:induction false} FreedByConcat(xs: seq<Candidate>, ys: seq<Candidate>)
    ensures FreedBy(xs + ys) == FreedBy(xs) + FreedBy(ys)
  {
    if ys == [] {
      assert xs + ys == xs;
    } else {
      assert (xs + ys)[..|xs + ys| - 1] == xs + ys[..|ys| - 1];
      FreedByConcat(xs, ys[..|ys| - 1]);
    }
  }

  lemma {:induction false} TakenAbsent(xs: seq<Candidate>, app: AppID)
    requires forall c | c in xs :: c.app.appID != app
    ensures Taken(xs, app) == 0
  {
    if xs != [] {
      TakenAbsent(xs[..|xs| - 1], app);
    }
  }

  /** What the two queues of a cascade have in common: distinct candidates, real
      clusters, and no application in both tiers, so the per-application counters
      that restart for the second queue lose nothing. */
  ghost predicate Queues(q2: seq<Candidate>, q1: seq<Candidate>) {
    && NoDuplicates(q2) && ConsistentApps(q2) && HaveClusters(q2)
    && NoDuplicates(q1) && ConsistentApps(q1) && HaveClusters(q1)
    && SeparateApps(q2, q1)
  }

  ghost predicate HaveClusters(q: seq<Candidate>) {
    forall c | c in q :: c.replica.clusterID != ""
  }

  ghost predicate SeparateApps(q2: seq<Candidate>, q1: seq<Candidate>) {
    forall a, b | a in q2 && b in q1 :: a.app.appID != b.app.appID
  }

  lemma NoDuplicatesConcat(xs: seq<Candidate>, ys: seq<Candidate>)
    requires NoDuplicates(xs) && NoDuplicates(ys) && SeparateApps(xs, ys)
    ensures NoDuplicates(xs + ys)
  {
    forall i, j | 0 <= i < j < |xs + ys| ensures (xs + ys)[i] != (xs + ys)[j] {
      if i < |xs| <= j {
        assert xs[i] in xs && ys[j - |xs|] in ys;
      }
    }
  }

  lemma JoinIsTight(q2: seq<Candidate>, q1: seq<Candidate>, need: int, low: Selection, high: Selection)
    requires Tight(q2, need, "", low) && low.freed < need
    requires Tight(q1, need - low.freed, low.target, high)
    requires SeparateApps(q2, q1)
    ensures Tight(q2 + q1, need, "", Join(low, high))
  {
    DrawnJoins(q2, q1, low.victims, high.victims);
    LastOfJoin(need, low.victims, high.victims);
    FreedByConcat(low.victims, high.victims);
    if high.victims == [] {
      assert low.victims + high.victims == low.victims;
    }
  }

  lemma DrawnJoins(q2: seq<Candidate>, q1: seq<Candidate>, low: seq<Candidate>, high: seq<Candidate>)
    requires Drawn(q2, low) && Drawn(q1, high) && SeparateApps(q2, q1)
    ensures Drawn(q2 + q1, low + high)
  {
    NoDuplicatesConcat(low, high);
  }

  lemma LastOfJoin(need: int, low: seq<Candidate>, high: seq<Candidate>)
    requires LastNeeded(need, low) && LastNeeded(need - FreedBy(low), high)
    ensures LastNeeded(need, low + high)
  {
    if high != [] {
      var front := high[..|high| - 1];
      assert (low + high)[..|low + high| - 1] == low + front;
      FreedByConcat(low, front);
    } else {
      assert low + high == low;
    }
  }

  lemma TightWidens(q2: seq<Candidate>, q1: seq<Candidate>, need: int, sel: Selection)
    requires Tight(q2, need, "", sel)
    ensures Tight(q2 + q1, need, "", sel)
  {
  }

  lemma CascadeIsTight(replicas: map<ReplicaID, Replica>, q2: seq<Candidate>, q1: seq<Candidate>, need: int,
                       escalate: bool)
    requires Queues(q2, q1)
    ensures Tight(if escalate then q2 + q1 else q2, need, "", Cascade(replicas, q2, q1, need, escalate))
  {
    var low := Select(replicas, q2, need, "");
    var high := Select(replicas, q1, need - low.freed, low.target);
    assert Cascade(replicas, q2, q1, need, escalate) == if low.freed < need && escalate then Join(low, high) else low;
    assert Tight(q2, need, "", low) by {
      SelectIsTight(replicas, q2, need, "");
    }
    assert Tight(q1, need - low.freed, low.target, high) by {
      SelectIsTight(replicas, q1, need - low.freed, low.target);
    }
    CombinationIsTight(q2, q1, need, escalate, low, high);
  }

  lemma CombinationIsTight(q2: seq<Candidate>, q1: seq<Candidate>, need: int, escalate: bool, low: Selection,
                           high: Selection)
    requires Tight(q2, need, "", low) && Tight(q1, need - low.freed, low.target, high) && SeparateApps(q2, q1)
    ensures Tight(if escalate then q2 + q1 else q2, need, "",
                  if low.freed < need && escalate then Join(low, high) else low)
  {
    if low.freed < need && escalate {
      JoinIsTight(q2, q1, need, low, high);
    } else {
      TightWidens(q2, q1, need, low);
    }
  }

  lemma JoinKeepsMinimum(replicas: map<ReplicaID, Replica>, low: seq<Candidate>, high: seq<Candidate>)
    requires KeepsMinimum(replicas, low) && KeepsMinimum(replicas, high) && SeparateApps(low, high)
    ensures KeepsMinimum(replicas, low + high)
  {
    forall c | c in low + high
      ensures ActiveCount(replicas, c.app.appID) - Taken(low + high, c.app.appID) >= c.app.minReplicas
    {
      TakenConcat(low, high, c.app.appID);
      if c in low {
        TakenAbsent(high, c.app.appID);
      } else {
        TakenAbsent(low, c.app.appID);
      }
    }
  }

  lemma CascadeKeepsMinimum(replicas: map<ReplicaID, Replica>, q2: seq<Candidate>, q1: seq<Candidate>, need: int,
                            escalate: bool)
    requires ConsistentApps(q2) && ConsistentApps(q1) && SeparateApps(q2, q1)
    ensures KeepsMinimum(replicas, Cascade(replicas, q2, q1, need, escalate).victims)
  {
    var low := Select(replicas, q2, need, "");
    var all := Cascade(replicas, q2, q1, need, escalate);
    assert KeepsMinimum(replicas, low.victims) && forall c | c in low.victims :: c in q2 by {
      SelectKeepsMinimum(replicas, q2, need, "");
    }
    if low.freed < need && escalate {
      var high := Select(replicas, q1, need - low.freed, low.target);
      assert KeepsMinimum(replicas, high.victims) && forall c | c in high.victims :: c in q1 by {
        SelectKeepsMinimum(replicas, q1, need - low.freed, low.target);
      }
      assert SeparateApps(low.victims, high.victims);
      JoinKeepsMinimum(replicas, low.victims, high.victims);
      assert all.victims == low.victims + high.victims;
    } else {
      assert all == low;
    }
  }

  lemma CascadeExhausts(replicas: map<ReplicaID, Replica>, q2: seq<Candidate>, q1: seq<Candidate>, need: int,
                        escalate: bool)
    requires Queues(q2, q1)
    requires Cascade(replicas, q2, q1, need, escalate).freed < need
    ensures Exhausted(replicas, if escalate then q2 + q1 else q2, Cascade(replicas, q2, q1, need, escalate))
  {
    var low := Select(replicas, q2, need, "");
    SelectExhausts(replicas, q2, need, "");
    if escalate {
      var high := Select(replicas, q1, need - low.freed, low.target);
      SelectExhausts(replicas, q1, need - low.freed, low.target);
      SelectIsTight(replicas, q1, need - low.freed, low.target);
      SelectIsTight(replicas, q2, need, "");
      JoinExhausts(replicas, q2, q1, low, high);
    }
  }

  lemma JoinExhausts(replicas: map<ReplicaID, Replica>, q2: seq<Candidate>, q1: seq<Candidate>,
                     low: Selection, high: Selection)
    requires SeparateApps(q2, q1)
    requires Exhausted(replicas, q2, low) && Exhausted(replicas, q1, high)
    requires Drawn(q2, low.victims) && Drawn(q1, high.victims) && Pinned(low.target, high)
    ensures Exhausted(replicas, q2 + q1, Join(low, high))
  {
    var sel := Join(low, high);
    forall c | c in q2 + q1 && c !in sel.victims && InTarget(sel.target, c)
      ensures !CanSpare(replicas, sel.victims, c.app)
    {
      TakenConcat(low.victims, high.victims, c.app.appID);
      if c in q2 {
        assert InTarget(low.target, c) && !CanSpare(replicas, low.victims, c.app);
      } else {
        assert InTarget(high.target, c) && !CanSpare(replicas, high.victims, c.app);
      }
    }
  }

  lemma QueueListsPool(snap: Snapshot, app: Application, tier: int)
    requires WellKeyed(snap)
    ensures Enumerates(Queue(snap, app, tier), Pool(snap, app, tier))
  {
    var pool := Pool(snap, app, tier);
    PoolIsDistinct(snap, app, tier);
    PreferenceIsStrictTotal(snap.replicas, app.gpusPerReplica, ClusterTotals(pool), pool);
    RankedAscends(pool, Preference(snap.replicas, app.gpusPerReplica, ClusterTotals(pool)));
  }

  lemma PoolMembers(snap: Snapshot, app: Application, tier: int, c: Candidate)
    requires WellKeyed(snap) && c in Pool(snap, app, tier)
    ensures c.replica.replicaID in snap.replicas && c.replica == snap.replicas[c.replica.replicaID]
    ensures c.app.appID in snap.applications && c.app == snap.applications[c.app.appID]
    ensures c.replica.appID == c.app.appID && c.replica.IsActive() && c.replica.clusterID != ""
    ensures c.app.priority == tier > app.priority
  {
  }

  lemma QueuesOfSnapshot(snap: Snapshot, app: Application)
    requires WellKeyed(snap)
    ensures Queues(Queue(snap, app, 2), Queue(snap, app, 1))
  {
    var q2, q1 := Queue(snap, app, 2), Queue(snap, app, 1);
    QueueListsPool(snap, app, 2);
    QueueListsPool(snap, app, 1);
    forall c | c in q2 ensures c.replica.clusterID != "" && c.app.priority == 2 && c.app.appID in snap.applications
                               && c.app == snap.applications[c.app.appID] {
      PoolMembers(snap, app, 2, c);
    }
    forall c | c in q1 ensures c.replica.clusterID != "" && c.app.priority == 1 && c.app.appID in snap.applications
                               && c.app == snap.applications[c.app.appID] {
      PoolMembers(snap, app, 1, c);
    }
  }

  /** Everything the cascade may look at for this requester. */
  ghost function Candidates(snap: Snapshot, app: Application): seq<Candidate>
    requires WellKeyed(snap)
  {
    if app.priority == 0 then Queue(snap, app, 2) + Queue(snap, app, 1) else Queue(snap, app, 2)
  }

  lemma CandidateFacts(snap: Snapshot, app: Application, c: Candidate)
    requires WellKeyed(snap) && c in Candidates(snap, app)
    ensures Mirrors(snap, c) && c.app.priority > app.priority
  {
    QueueListsPool(snap, app, 2);
    QueueListsPool(snap, app, 1);
    if c in Pool(snap, app, 2) {
      PoolMembers(snap, app, 2, c);
    } else {
      PoolMembers(snap, app, 1, c);
    }
  }

  /** The candidate is an active replica of the snapshot with its application. */
  ghost predicate Mirrors(snap: Snapshot, c: Candidate) {
    && c.replica.replicaID in snap.replicas && c.replica == snap.replicas[c.replica.replicaID]
    && c.app.appID in snap.applications && c.app == snap.applications[c.app.appID]
    && c.replica.appID == c.app.appID && c.replica.IsActive()
  }

  /** The replicas a plan evicts from one application. */
  ghost function Evicted(victims: seq<PreemptionDecision>, app: AppID): set<ReplicaID> {
    set v | v in victims && v.victimAppID == app :: v.victimReplicaID
  }

  function GpusOf(replicas: map<ReplicaID, Replica>, id: ReplicaID): int {
    if id in replicas then replicas[id].gpus else 0
  }

  function EvictedGPUs(replicas: map<ReplicaID, Replica>, victims: seq<PreemptionDecision>): int {
    if victims == [] then 0
    else
      EvictedGPUs(replicas, victims[..|victims| - 1]) + GpusOf(replicas, victims[|victims| - 1].victimReplicaID)
  }

  /** A victim is an active replica of a strictly lower-priority application, in
      the target cluster. */
  ghost predicate FairVictim(snap: Snapshot, app: Application, target: ClusterID, v: PreemptionDecision) {
    && v.victimReplicaID in snap.replicas && v.victimAppID in snap.applications
    && snap.replicas[v.victimReplicaID].IsActive()
    && snap.replicas[v.victimReplicaID].appID == v.victimAppID
    && snap.replicas[v.victimReplicaID].clusterID == v.clusterID == target
    && snap.applications[v.victimAppID].priority > app.priority
  }

  ghost predicate EvictsFairly(snap: Snapshot, app: Application, plan: PreemptionPlan) {
    && (forall i, j | 0 <= i < j < |plan.victims| ::
          plan.victims[i].victimReplicaID != plan.victims[j].victimReplicaID)
    && (forall v | v in plan.victims :: FairVictim(snap, app, plan.targetCluster, v))
  }

  /** After eviction every victim application still has its minimum running or
      pending. */
  ghost predicate LeavesMinimum(snap: Snapshot, plan: PreemptionPlan) {
    forall v | v in plan.victims && v.victimAppID in snap.applications ::
      |ActiveIds(snap.replicas, v.victimAppID) - Evicted(plan.victims, v.victimAppID)|
      >= snap.applications[v.victimAppID].minReplicas
  }

  ghost predicate DistinctIdsIn(cs: seq<Candidate>) {
    forall i, j | 0 <= i < j < |cs| :: cs[i].replica.replicaID != cs[j].replica.replicaID
  }

  lemma MirrorsAreDistinct(snap: Snapshot, cs: seq<Candidate>)
    requires NoDuplicates(cs) && forall c | c in cs :: Mirrors(snap, c)
    ensures DistinctIdsIn(cs)
  {
    forall i, j | 0 <= i < j < |cs| ensures cs[i].replica.replicaID != cs[j].replica.replicaID {
      assert Mirrors(snap, cs[i]) && Mirrors(snap, cs[j]);
    }
  }

  lemma ToDecisionsStep(cs: seq<Candidate>, grace: int)
    requires cs != []
    ensures ToDecisions(cs, grace)[..|cs| - 1] == ToDecisions(cs[..|cs| - 1], grace)
    ensures ToDecisions(cs, grace) == ToDecisions(cs[..|cs| - 1], grace) + [ToDecision(cs[|cs| - 1], grace)]
  {
  }

  lemma {:induction false} DecisionsFree(snap: Snapshot, cs: seq<Candidate>, grace: int)
    requires forall c | c in cs :: Mirrors(snap, c)
    ensures EvictedGPUs(snap.replicas, ToDecisions(cs, grace)) == FreedBy(cs)
  {
    if cs != [] {
      ToDecisionsStep(cs, grace);
      assert Mirrors(snap, cs[|cs| - 1]);
      DecisionsFree(snap, cs[..|cs| - 1], grace);
    }
  }

  lemma {:induction false} DecisionsTake(cs: seq<Candidate>, grace: int, a: AppID)
    requires DistinctIdsIn(cs)
    ensures |Evicted(ToDecisions(cs, grace), a)| == Taken(cs, a)
  {
    if cs != [] {
      var front, last := cs[..|cs| - 1], cs[|cs| - 1];
      var ds := ToDecisions(front, grace);
      ToDecisionsStep(cs, grace);
      DecisionsTake(front, grace, a);
      var more := if last.app.appID == a then {last.replica.replicaID} else {};
      assert Evicted(ds + [ToDecision(last, grace)], a) == Evicted(ds, a) + more by {
        EvictedAppend(ds, ToDecision(last, grace), a);
      }
      assert last.replica.replicaID !in Evicted(ds, a);
    }
  }

  lemma EvictedAppend(ds: seq<PreemptionDecision>, d: PreemptionDecision, a: AppID)
    ensures Evicted(ds + [d], a) == Evicted(ds, a) + if d.victimAppID == a then {d.victimReplicaID} else {}
  {
    assert forall v :: v in ds + [d] <==> v in ds || v == d;
  }

  lemma PlanEvictsFairly(snap: Snapshot, app: Application, grace: int)
    requires WellKeyed(snap) && PlanFor(snap, app, grace).Some?
    ensures EvictsFairly(snap, app, PlanFor(snap, app, grace).value)
    ensures forall c | c in Choose(snap, app).victims :: Mirrors(snap, c)
    ensures DistinctIdsIn(Choose(snap, app).victims)
  {
    var sel := Choose(snap, app);
    QueuesOfSnapshot(snap, app);
    CascadeIsTight(snap.replicas, Queue(snap, app, 2), Queue(snap, app, 1), app.gpusPerReplica, app.priority == 0);
    forall c | c in sel.victims ensures Mirrors(snap, c) && FairVictim(snap, app, sel.target, ToDecision(c, grace)) {
      CandidateFacts(snap, app, c);
    }
    MirrorsAreDistinct(snap, sel.victims);
  }

  lemma PlanLeavesMinimum(snap: Snapshot, app: Application, grace: int)
    requires WellKeyed(snap) && PlanFor(snap, app, grace).Some?
    ensures LeavesMinimum(snap, PlanFor(snap, app, grace).value)
  {
    var plan, sel := PlanFor(snap, app, grace).value, Choose(snap, app);
    PlanEvictsFairly(snap, app, grace);
    QueuesOfSnapshot(snap, app);
    CascadeKeepsMinimum(snap.replicas, Queue(snap, app, 2), Queue(snap, app, 1), app.gpusPerReplica, app.priority == 0);
    forall v | v in plan.victims
      ensures |ActiveIds(snap.replicas, v.victimAppID) - Evicted(plan.victims, v.victimAppID)|
              >= snap.applications[v.victimAppID].minReplicas
    {
      var a := v.victimAppID;
      var i :| 0 <= i < |plan.victims| && plan.victims[i] == v;
      assert sel.victims[i] in sel.victims && Mirrors(snap, sel.victims[i]);
      DecisionsTake(sel.victims, grace, a);
      var gone := Evicted(plan.victims, a);
      assert gone <= ActiveIds(snap.replicas, a) by {
        assert forall w | w in plan.victims :: FairVictim(snap, app, plan.targetCluster, w);
      }
    }
  }

  lemma ChosenVictimsFree(snap: Snapshot, app: Application, sel: Selection, grace: int)
    requires WellKeyed(snap) && Tight(Candidates(snap, app), app.gpusPerReplica, "", sel)
    requires sel.freed >= app.gpusPerReplica && forall c | c in sel.victims :: Mirrors(snap, c)
    ensures var victims := ToDecisions(sel.victims, grace);
            && EvictedGPUs(snap.replicas, victims) >= app.gpusPerReplica
            && (victims != [] ==> EvictedGPUs(snap.replicas, victims[..|victims| - 1]) < app.gpusPerReplica)
  {
    DecisionsFree(snap, sel.victims, grace);
    if sel.victims != [] {
      ToDecisionsStep(sel.victims, grace);
      DecisionsFree(snap, sel.victims[..|sel.victims| - 1], grace);
    }
  }

  /** Every plan the engine returns is safe, frees enough, and would not free
      enough without its last victim. */
  lemma PlanIsSafeAndTight(snap: Snapshot, app: Application, grace: int)
    requires WellKeyed(snap) && PlanFor(snap, app, grace).Some?
    ensures var plan := PlanFor(snap, app, grace).value;
            && EvictsFairly(snap, app, plan)
            && LeavesMinimum(snap, plan)
            && EvictedGPUs(snap.replicas, plan.victims) >= app.gpusPerReplica
            && (plan.victims != [] ==>
                  EvictedGPUs(snap.replicas, plan.victims[..|plan.victims| - 1]) < app.gpusPerReplica)
  {
    var sel := Choose(snap, app);
    PlanEvictsFairly(snap, app, grace);
    PlanLeavesMinimum(snap, app, grace);
    assert Tight(Candidates(snap, app), app.gpusPerReplica, "", sel) by {
      QueuesOfSnapshot(snap, app);
      CascadeIsTight(snap.replicas, Queue(snap, app, 2), Queue(snap, app, 1), app.gpusPerReplica, app.priority == 0);
    }
    ChosenVictimsFree(snap, app, sel, grace);
  }

  /** The engine gives up only when nothing usable is left: whatever it did not
      pick in the pinned cluster (anywhere, if it picked nothing) belongs to an
      application already at its minimum once the picked victims are gone. */
  lemma GivesUpOnlyWhenExhausted(snap: Snapshot, app: Application, grace: int)
    requires WellKeyed(snap) && app.priority != 2 && PlanFor(snap, app, grace).None?
    ensures Choose(snap, app).freed < app.gpusPerReplica
    ensures Exhausted(snap.replicas, Candidates(snap, app), Choose(snap, app))
    ensures forall c :: c in Candidates(snap, app) <==>
              c in Pool(snap, app, 2) || (app.priority == 0 && c in Pool(snap, app, 1))
  {
    QueueListsPool(snap, app, 2);
    QueueListsPool(snap, app, 1);
    QueuesOfSnapshot(snap, app);
    CascadeExhausts(snap.replicas, Queue(snap, app, 2), Queue(snap, app, 1), app.gpusPerReplica, app.priority == 0);
  }
}
