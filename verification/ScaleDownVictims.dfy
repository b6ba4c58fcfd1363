/** Which replicas a scale-down removes. */
module ScaleDownVictims {
  import opened Model
  import opened Collections
  import opened Snapshots
  import opened PlacementScoring

  /** What makes a replica a good one to remove. */
  datatype Removable = Removable(replicaID: ReplicaID, utilization: real, cached: bool, clusterCount: int)

  /** Emptier node first, then not cached, then the more crowded cluster. */
  predicate RemovedBefore(a: Removable, b: Removable) {
    if a.utilization != b.utilization then a.utilization < b.utilization
    else if a.cached != b.cached then !a.cached
    else a.clusterCount > b.clusterCount
  }

  function RemovalOrder(): (Removable, Removable) -> bool {
    (a: Removable, b: Removable) => RemovedBefore(a, b)
  }

  lemma RemovalOrderIsWeak()
    ensures StrictWeakOrder(RemovalOrder())
  {
    var less := RemovalOrder();
    forall x, y, z | NotAfter(less, x, y) && NotAfter(less, y, z) ensures NotAfter(less, x, z) {
    }
    forall x, y | less(x, y) ensures NotAfter(less, x, y) {
    }
  }

  function NodeUtilization(clusters: map<ClusterID, Cluster>, r: Replica): real {
    if r.clusterID in clusters && r.nodeID in clusters[r.clusterID].nodes then
      var n := clusters[r.clusterID].nodes[r.nodeID];
      if n.totalGPUs > 0 then 1.0 - n.freeGPUs as real / n.totalGPUs as real else 0.0
    else 0.0
  }

  predicate CachedAt(locs: seq<CacheLocation>, r: Replica) {
    exists i :: 0 <= i < |locs| && locs[i].clusterID == r.clusterID && locs[i].nodeID == r.nodeID
  }

  function ModelOf(snap: Snapshot, app: AppID): ModelID {
    if app in snap.applications then snap.applications[app].modelID else ""
  }

  function Appraise(snap: Snapshot, app: AppID, r: Replica): Removable {
    Removable(r.replicaID, NodeUtilization(snap.clusters, r), CachedAt(LocationsOf(snap, ModelOf(snap, app)), r),
              ActiveCountIn(snap.replicas, app, r.clusterID))
  }

  method IsCached(locs: seq<CacheLocation>, r: Replica) returns (cached: bool)
    ensures cached == CachedAt(locs, r)
  {
    for i := 0 to |locs|
      invariant forall j | 0 <= j < i :: !(locs[j].clusterID == r.clusterID && locs[j].nodeID == r.nodeID)
    {
      if locs[i].clusterID == r.clusterID && locs[i].nodeID == r.nodeID {
        return true;
      }
    }
    return false;
  }

  /** Every active replica of the application, appraised once. */
  ghost predicate Appraises(snap: Snapshot, app: AppID, q: seq<Removable>) {
    && NoDuplicates(q)
    && (forall x | x in q ::
         x.replicaID in ActiveIds(snap.replicas, app) && x == Appraise(snap, app, snap.replicas[x.replicaID]))
    && (forall id | id in ActiveIds(snap.replicas, app) :: Appraise(snap, app, snap.replicas[id]) in q)
  }

  method AppraiseAll(snap: Snapshot, app: AppID) returns (q: seq<Removable>)
    requires WellKeyed(snap)
    ensures Appraises(snap, app, q)
  {
    q := [];
    var bucket := ReplicasForApp(snap, app);
    for i := 0 to |bucket|
      invariant NoDuplicates(q)
      invariant forall x | x in q :: x.replicaID in ActiveIds(snap.replicas, app) &&
                                     snap.replicas[x.replicaID] in bucket[..i] &&
                                     x == Appraise(snap, app, snap.replicas[x.replicaID])
      invariant forall r | r in bucket[..i] && r.IsActive() :: Appraise(snap, app, r) in q
    {
      var r := bucket[i];
      assert r in AppReplicas(snap.replicas, app);
      assert bucket[..i + 1] == bucket[..i] + [r];
      if r.IsActive() {
        var cached := IsCached(LocationsOf(snap, ModelOf(snap, app)), r);
        var count := |ActiveIdsIn(snap.replicas, app, r.clusterID)|;
        var x := Removable(r.replicaID, NodeUtilization(snap.clusters, r), cached, count);
        assert r !in bucket[..i];
        assert x !in q;
        NoDuplicatesAppend(q, x);
        q := q + [x];
      }
    }
    assert bucket[..|bucket|] == bucket;
    forall id | id in ActiveIds(snap.replicas, app) ensures Appraise(snap, app, snap.replicas[id]) in q {
      assert snap.replicas[id] in AppReplicas(snap.replicas, app);
    }
  }

  /** The ids chosen for removal: as many as asked for, or all there are; distinct;
      and no replica kept would have been the better one to remove. */
  ghost predicate ChosenForRemoval(snap: Snapshot, app: AppID, count: nat, ids: seq<ReplicaID>) {
    && NoDuplicates(ids)
    && |ids| == (if count < ActiveCount(snap.replicas, app) then count else ActiveCount(snap.replicas, app))
    && (forall id | id in ids :: id in ActiveIds(snap.replicas, app))
    && (forall v, w | v in ids && w in ActiveIds(snap.replicas, app) && w !in ids && v in snap.replicas ::
          !RemovedBefore(Appraise(snap, app, snap.replicas[w]), Appraise(snap, app, snap.replicas[v])))
  }

  method SelectScaleDownVictims(app: AppID, count: nat, snap: Snapshot) returns (result: seq<ReplicaID>)
    requires WellKeyed(snap)
    ensures ChosenForRemoval(snap, app, count, result)
  {
    var candidates := AppraiseAll(snap, app);
    RemovalOrderIsWeak();
    var sorted := SortWeakly(candidates, RemovalOrder());
    AppraisesPermutes(snap, app, candidates, sorted);
    AppraisesSize(snap, app, sorted);
    var n := if count > |sorted| then |sorted| else count;
    result := seq(n, i requires 0 <= i < n <= |sorted| => sorted[i].replicaID);
    TakenFromFront(snap, app, sorted, n, result);
  }

  lemma SameMultisetNoDuplicates<T>(p: seq<T>, q: seq<T>)
    requires multiset(p) == multiset(q) && NoDuplicates(p)
    ensures NoDuplicates(q) && (forall x | x in p :: x in q) && (forall x | x in q :: x in p)
  {
    forall x | x in p ensures x in q {
      assert x in multiset(p);
    }
    forall x | x in q ensures x in p {
      assert x in multiset(q);
    }
    forall i, j | 0 <= i < j < |q| ensures q[i] != q[j] {
      if q[i] == q[j] {
        assert q == q[..i] + [q[i]] + q[i + 1..j] + [q[j]] + q[j + 1..];
        assert multiset(q)[q[i]] >= 2;
        OncePerElement(p, q[i]);
        assert false;
      }
    }
  }

  lemma {:induction false} OncePerElement<T>(p: seq<T>, x: T)
    requires NoDuplicates(p)
    ensures multiset(p)[x] <= 1
  {
    if p != [] {
      var front, last := p[..|p| - 1], p[|p| - 1];
      assert p == front + [last];
      OncePerElement(front, x);
      if x == last {
        assert x !in front;
        assert multiset(front)[x] == 0;
      }
    }
  }

  lemma AppraisesPermutes(snap: Snapshot, app: AppID, p: seq<Removable>, q: seq<Removable>)
    requires Appraises(snap, app, p) && multiset(p) == multiset(q)
    ensures Appraises(snap, app, q)
  {
    SameMultisetNoDuplicates(p, q);
  }

  lemma AppraisesSize(snap: Snapshot, app: AppID, q: seq<Removable>)
    requires WellKeyed(snap) && Appraises(snap, app, q)
    ensures |q| == ActiveCount(snap.replicas, app)
  {
    var ids := seq(|q|, i requires 0 <= i < |q| => q[i].replicaID);
    assert forall i | 0 <= i < |q| :: q[i] in q;
    assert Enumerates(ids, ActiveIds(snap.replicas, app)) by {
      forall id | id in ActiveIds(snap.replicas, app) ensures id in ids {
        var i :| 0 <= i < |q| && q[i] == Appraise(snap, app, snap.replicas[id]);
        assert ids[i] == id;
      }
    }
    EnumerationSize(ids, ActiveIds(snap.replicas, app));
  }

  lemma TakenFromFront(snap: Snapshot, app: AppID, q: seq<Removable>, n: nat, ids: seq<ReplicaID>)
    requires WellKeyed(snap) && Appraises(snap, app, q) && InOrder(q, RemovalOrder())
    requires n <= |q| && |ids| == n && forall i | 0 <= i < n :: ids[i] == q[i].replicaID
    ensures NoDuplicates(ids)
    ensures forall id | id in ids :: id in ActiveIds(snap.replicas, app)
    ensures forall v, w | v in ids && w in ActiveIds(snap.replicas, app) && w !in ids && v in snap.replicas ::
              !RemovedBefore(Appraise(snap, app, snap.replicas[w]), Appraise(snap, app, snap.replicas[v]))
  {
    assert forall i | 0 <= i < |q| :: q[i] in q;
    forall v, w | v in ids && w in ActiveIds(snap.replicas, app) && w !in ids && v in snap.replicas
      ensures !RemovedBefore(Appraise(snap, app, snap.replicas[w]), Appraise(snap, app, snap.replicas[v]))
    {
      var i :| 0 <= i < n && ids[i] == v;
      var j :| 0 <= j < |q| && q[j] == Appraise(snap, app, snap.replicas[w]);
      assert forall k | 0 <= k < n :: ids[k] in ids;
      assert j >= n;
      assert NotAfter(RemovalOrder(), q[i], q[j]);
    }
  }

  // ---------- What is removed first ----------

  ghost predicate OnNode(snap: Snapshot, r: Replica) {
    && r.clusterID in snap.clusters && r.nodeID in snap.clusters[r.clusterID].nodes
    && snap.clusters[r.clusterID].nodes[r.nodeID].totalGPUs > 0
  }

  ghost function NodeOf(snap: Snapshot, r: Replica): Node
    requires OnNode(snap, r)
  {
    snap.clusters[r.clusterID].nodes[r.nodeID]
  }

  /** The first node has the smaller share of its GPUs free, counted in GPUs. */
  ghost predicate Fuller(a: Node, b: Node) {
    a.freeGPUs * b.totalGPUs < b.freeGPUs * a.totalGPUs
  }

  ghost predicate ModelIsOn(snap: Snapshot, r: Replica) {
    && r.appID in snap.applications && snap.applications[r.appID].modelID in snap.cacheLocations
    && exists l :: && l in snap.cacheLocations[snap.applications[r.appID].modelID]
                   && l.clusterID == r.clusterID && l.nodeID == r.nodeID
  }

  /** Active replicas of the same application in the same cluster. */
  ghost function Crowd(snap: Snapshot, r: Replica): nat {
    |set id | id in snap.replicas && snap.replicas[id].appID == r.appID
       && snap.replicas[id].clusterID == r.clusterID
       && (snap.replicas[id].status == Running || snap.replicas[id].status == Pending)|
  }

  lemma FullerIsMoreUtilized(a: Node, b: Node)
    requires a.totalGPUs > 0 && b.totalGPUs > 0
    ensures Fuller(a, b) <==> 1.0 - b.freeGPUs as real / b.totalGPUs as real
                              < 1.0 - a.freeGPUs as real / a.totalGPUs as real
  {
    var x, y := a.freeGPUs as real / a.totalGPUs as real, b.freeGPUs as real / b.totalGPUs as real;
    CrossMultiply(x, y, a.totalGPUs as real, b.totalGPUs as real);
    assert x * a.totalGPUs as real == a.freeGPUs as real && y * b.totalGPUs as real == b.freeGPUs as real;
    assert a.freeGPUs as real * b.totalGPUs as real == (a.freeGPUs * b.totalGPUs) as real;
    assert b.freeGPUs as real * a.totalGPUs as real == (b.freeGPUs * a.totalGPUs) as real;
  }

  lemma CrossMultiply(x: real, y: real, s: real, t: real)
    requires s > 0.0 && t > 0.0
    ensures x < y <==> x * s * t < y * t * s
  {
    assert y * t * s - x * s * t == (y - x) * (s * t);
    assert s * t > 0.0;
  }

  lemma CachedMeans(snap: Snapshot, r: Replica)
    ensures CachedAt(LocationsOf(snap, ModelOf(snap, r.appID)), r) ==>
              ModelIsOn(snap, r) || r.appID !in snap.applications
    ensures ModelIsOn(snap, r) ==> CachedAt(LocationsOf(snap, ModelOf(snap, r.appID)), r)
  {
  }

  lemma CrowdIsCount(snap: Snapshot, r: Replica)
    ensures ActiveCountIn(snap.replicas, r.appID, r.clusterID) == Crowd(snap, r)
  {
    assert ActiveIdsIn(snap.replicas, r.appID, r.clusterID) ==
           set id | id in snap.replicas && snap.replicas[id].appID == r.appID
             && snap.replicas[id].clusterID == r.clusterID
             && (snap.replicas[id].status == Running || snap.replicas[id].status == Pending);
  }

  /** No replica goes while one on an emptier node stays; on equally used nodes none goes
      from where its model is cached while one stays where it is not; and with that equal
      too, none goes while one stays in a cluster with more of them. */
  lemma RemovedInOrder(snap: Snapshot, app: AppID, count: nat, ids: seq<ReplicaID>, v: ReplicaID, w: ReplicaID)
    requires ChosenForRemoval(snap, app, count, ids) && v in ids && w !in ids && app in snap.applications
    requires w in snap.replicas && snap.replicas[w].appID == app
    requires snap.replicas[w].status == Running || snap.replicas[w].status == Pending
    requires v in snap.replicas && OnNode(snap, snap.replicas[v]) && OnNode(snap, snap.replicas[w])
    ensures var rv, rw := snap.replicas[v], snap.replicas[w];
            var nv, nw := NodeOf(snap, rv), NodeOf(snap, rw);
            && rv.appID == app && !Fuller(nv, nw)
            && (!Fuller(nw, nv) ==>
                  && (ModelIsOn(snap, rv) ==> ModelIsOn(snap, rw))
                  && (ModelIsOn(snap, rv) == ModelIsOn(snap, rw) ==> Crowd(snap, rv) >= Crowd(snap, rw)))
  {
    var rv, rw := snap.replicas[v], snap.replicas[w];
    assert v in ActiveIds(snap.replicas, app) && w in ActiveIds(snap.replicas, app);
    FullerIsMoreUtilized(NodeOf(snap, rv), NodeOf(snap, rw));
    FullerIsMoreUtilized(NodeOf(snap, rw), NodeOf(snap, rv));
    CachedMeans(snap, rv);
    CachedMeans(snap, rw);
    CrowdIsCount(snap, rv);
    CrowdIsCount(snap, rw);
    assert !RemovedBefore(Appraise(snap, app, rw), Appraise(snap, app, rv));
  }
}
