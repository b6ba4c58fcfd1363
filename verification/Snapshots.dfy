/** The immutable view of the world every engine decides on, its index of
    replicas by application, and the counts read from it. */
module Snapshots {
  import opened Model
  import opened Collections

  datatype Snapshot = Snapshot(
    clusters: map<ClusterID, Cluster>,
    applications: map<AppID, Application>,
    replicas: map<ReplicaID, Replica>,
    replicasByApp: Option<map<AppID, seq<Replica>>>,
    cacheLocations: map<ModelID, seq<CacheLocation>>,
    performanceProfiles: map<AppID, PerformanceProfile>,
    vllmMetrics: map<AppID, VLLMMetrics>,
    reservations: map<ReservationID, GPUReservation>,
    scalingHistory: map<AppID, ScalingHistory>,
    takenAt: nat)

  /** Map keys agree with the ids stored in the values, and cluster ids are not
      empty (the empty id means "no cluster yet" to the preemption engine). */
  ghost predicate WellKeyed(snap: Snapshot) {
    && (forall id | id in snap.replicas :: snap.replicas[id].replicaID == id && snap.replicas[id].clusterID != "")
    && (forall id | id in snap.applications :: snap.applications[id].appID == id)
    && (forall id | id in snap.clusters :: snap.clusters[id].clusterID == id && id != "")
    && (forall id, n | id in snap.clusters && n in snap.clusters[id].nodes ::
          snap.clusters[id].nodes[n].nodeID == n && snap.clusters[id].nodes[n].clusterID == id)
    && (snap.replicasByApp.Some? ==> Indexes(snap.replicas, snap.replicasByApp.value))
  }

  ghost function AppReplicas(replicas: map<ReplicaID, Replica>, app: AppID): set<Replica> {
    set id | id in replicas && replicas[id].appID == app :: replicas[id]
  }

  function Bucket(index: map<AppID, seq<Replica>>, app: AppID): seq<Replica> {
    if app in index then index[app] else []
  }

  /** Each bucket is a permutation of what a full scan would find. */
  ghost predicate Indexes(replicas: map<ReplicaID, Replica>, index: map<AppID, seq<Replica>>) {
    forall app :: Enumerates(Bucket(index, app), AppReplicas(replicas, app))
  }

  /** Replicas by application, in map order. */
  method BuildReplicasByApp(replicas: map<ReplicaID, Replica>) returns (index: map<AppID, seq<Replica>>)
    requires forall id | id in replicas :: replicas[id].replicaID == id
    ensures Indexes(replicas, index)
  {
    index := map[];
    var todo := replicas.Keys;
    ghost var done: map<ReplicaID, Replica> := map[];
    while todo != {}
      invariant todo <= replicas.Keys
      invariant done == map id | id in replicas && id !in todo :: replicas[id]
      invariant Indexes(done, index)
    {
      var id :| id in todo;
      var r := replicas[id];
      IndexExtends(done, index, id, r);
      index := index[r.appID := Bucket(index, r.appID) + [r]];
      done := done[id := r];
      todo := todo - {id};
    }
    assert done == replicas;
  }

  lemma AppReplicasPut(replicas: map<ReplicaID, Replica>, id: ReplicaID, r: Replica, app: AppID)
    requires id !in replicas
    ensures AppReplicas(replicas[id := r], app) == AppReplicas(replicas, app) + if r.appID == app then {r} else {}
  {
    var replicas' := replicas[id := r];
    forall x | x in AppReplicas(replicas, app) ensures x in AppReplicas(replicas', app) {
      var k :| k in replicas && replicas[k].appID == app && replicas[k] == x;
      assert replicas'[k] == x;
    }
    if r.appID == app {
      assert replicas'[id] == r;
    }
  }

  lemma IndexExtends(replicas: map<ReplicaID, Replica>, index: map<AppID, seq<Replica>>, id: ReplicaID, r: Replica)
    requires Indexes(replicas, index) && id !in replicas
    requires r.replicaID == id && forall x | x in replicas :: replicas[x].replicaID == x
    ensures Indexes(replicas[id := r], index[r.appID := Bucket(index, r.appID) + [r]])
  {
    var index' := index[r.appID := Bucket(index, r.appID) + [r]];
    forall app ensures Enumerates(Bucket(index', app), AppReplicas(replicas[id := r], app)) {
      assert Enumerates(Bucket(index, app), AppReplicas(replicas, app));
      if app == r.appID {
        EnumeratesAppend(Bucket(index, app), AppReplicas(replicas, app), r);
      }
      AppReplicasPut(replicas, id, r, app);
    }
  }

  /** All replicas of an application: the bucket, or a scan when there is no
      index. */
  method ReplicasForApp(snap: Snapshot, app: AppID) returns (q: seq<Replica>)
    requires WellKeyed(snap)
    ensures Enumerates(q, AppReplicas(snap.replicas, app))
  {
    if snap.replicasByApp.Some? {
      return Bucket(snap.replicasByApp.value, app);
    }
    q := [];
    var todo := snap.replicas.Keys;
    ghost var found: set<Replica> := {};
    while todo != {}
      invariant todo <= snap.replicas.Keys
      invariant found == set id | id in snap.replicas && id !in todo && snap.replicas[id].appID == app ::
                  snap.replicas[id]
      invariant Enumerates(q, found)
    {
      var id :| id in todo;
      var r := snap.replicas[id];
      if r.appID == app {
        EnumeratesAppend(q, found, r);
        q := q + [r];
        found := found + {r};
      }
      todo := todo - {id};
    }
    assert found == AppReplicas(snap.replicas, app);
  }

  // ---------- Counting active replicas ----------

  function ActiveIds(replicas: map<ReplicaID, Replica>, app: AppID): set<ReplicaID> {
    set id | id in replicas && replicas[id].appID == app && replicas[id].IsActive()
  }

  /** How many replicas of an application are running or pending. */
  function ActiveCount(replicas: map<ReplicaID, Replica>, app: AppID): nat {
    |ActiveIds(replicas, app)|
  }

  function ActiveIdsIn(replicas: map<ReplicaID, Replica>, app: AppID, cluster: ClusterID): set<ReplicaID> {
    set id | id in ActiveIds(replicas, app) && replicas[id].clusterID == cluster
  }

  function ActiveCountIn(replicas: map<ReplicaID, Replica>, app: AppID, cluster: ClusterID): nat {
    |ActiveIdsIn(replicas, app, cluster)|
  }

  /** The counting loop over an application's replicas, shared by every counter
      of the engines: how many satisfy a test. */
  method CountMatching(snap: Snapshot, app: AppID, test: Replica -> bool) returns (count: nat)
    requires WellKeyed(snap)
    ensures count == |set id | id in snap.replicas && snap.replicas[id].appID == app && test(snap.replicas[id])|
  {
    count := 0;
    var q := ReplicasForApp(snap, app);
    for i := 0 to |q|
      invariant count == |MatchingIds(q, i, test)|
    {
      MatchingStep(snap, app, q, i, test);
      if test(q[i]) {
        count := count + 1;
      }
    }
    MatchingAll(snap, app, q, test);
  }

  /** The ids of the first n replicas that satisfy a test. */
  ghost function MatchingIds(q: seq<Replica>, n: nat, test: Replica -> bool): set<ReplicaID>
    requires n <= |q|
  {
    set i: nat | i < n && test(q[i]) :: q[i].replicaID
  }

  lemma MatchingStep(snap: Snapshot, app: AppID, q: seq<Replica>, n: nat, test: Replica -> bool)
    requires WellKeyed(snap) && Enumerates(q, AppReplicas(snap.replicas, app)) && n < |q|
    ensures |MatchingIds(q, n + 1, test)| == |MatchingIds(q, n, test)| + if test(q[n]) then 1 else 0
  {
    if test(q[n]) {
      forall i: nat | i < n ensures q[i].replicaID != q[n].replicaID {
        assert q[i] in AppReplicas(snap.replicas, app) && q[n] in AppReplicas(snap.replicas, app);
      }
      assert MatchingIds(q, n + 1, test) == MatchingIds(q, n, test) + {q[n].replicaID};
    } else {
      assert MatchingIds(q, n + 1, test) == MatchingIds(q, n, test);
    }
  }

  lemma MatchingAll(snap: Snapshot, app: AppID, q: seq<Replica>, test: Replica -> bool)
    requires WellKeyed(snap) && Enumerates(q, AppReplicas(snap.replicas, app))
    ensures MatchingIds(q, |q|, test) ==
            set id | id in snap.replicas && snap.replicas[id].appID == app && test(snap.replicas[id])
  {
    forall id | id in snap.replicas && snap.replicas[id].appID == app && test(snap.replicas[id])
      ensures id in MatchingIds(q, |q|, test)
    {
      assert snap.replicas[id] in AppReplicas(snap.replicas, app);
      var i :| 0 <= i < |q| && q[i] == snap.replicas[id];
    }
    forall i: nat | i < |q| && test(q[i])
      ensures q[i].replicaID in snap.replicas && snap.replicas[q[i].replicaID] == q[i] && q[i].appID == app
    {
      assert q[i] in AppReplicas(snap.replicas, app);
    }
  }

  /** The indexed form and the scan form agree: the count depends on the replicas
      alone. */
  method CountActiveReplicas(snap: Snapshot, app: AppID) returns (count: nat)
    requires WellKeyed(snap)
    ensures count == ActiveCount(snap.replicas, app)
  {
    count := CountMatching(snap, app, (r: Replica) => r.IsActive());
    assert ActiveIds(snap.replicas, app) ==
           set id | id in snap.replicas && snap.replicas[id].appID == app
             && ((r: Replica) => r.IsActive())(snap.replicas[id]);
  }

  // ---------- Free and reserved GPUs ----------

  function ReadyFree(): Node -> int {
    (n: Node) => if n.status == Ready then n.freeGPUs else 0
  }

  function HeldIn(cluster: ClusterID): GPUReservation -> int {
    (r: GPUReservation) => if r.clusterID == cluster && r.status == Active then r.gpus else 0
  }

  /** Free GPUs on ready nodes less what active reservations hold; may be negative. */
  ghost function Headroom(clusters: map<ClusterID, Cluster>, reservations: map<ReservationID, GPUReservation>,
                          cluster: ClusterID): int
    requires cluster in clusters
  {
    MapSum(clusters[cluster].nodes, ReadyFree()) - MapSum(reservations, HeldIn(cluster))
  }

  function Max0(x: int): nat {
    if x < 0 then 0 else x
  }

  /** Sums a weight over a map, in map order. */
  method SumMap<K, V>(m: map<K, V>, w: V -> int) returns (total: int)
    ensures total == MapSum(m, w)
  {
    total := 0;
    var rest := m;
    while rest != map[]
      invariant total + MapSum(rest, w) == MapSum(m, w)
      decreases |rest|
    {
      var k :| k in rest;
      MapSumTake(rest, w, k);
      assert (rest - {k}).Keys == rest.Keys - {k};
      total := total + w(rest[k]);
      rest := rest - {k};
    }
  }
}
