/** What reservations hold of a cluster's free GPUs, what the mutations of the world
    do to that, and how long a reservation lasts. */
module Reservations {
  import opened Model
  import opened Collections
  import opened Snapshots
  import opened World
  import opened PlacementScoring
  import opened PlacementCycle
  import opened Placement

  // ---------- Headroom under mutations ----------

  /** Free GPUs on ready nodes less what active reservations hold. */
  ghost function Room(w: World, c: ClusterID): int
    requires c in w.clusters
  {
    Headroom(w.clusters, w.reservations, c)
  }

  /** What a node contributes. */
  function Offers(n: Node): int {
    if n.status == Ready then n.freeGPUs else 0
  }

  function Holds(r: GPUReservation, c: ClusterID): int {
    if r.status == Active && r.clusterID == c then r.gpus else 0
  }

  /** The mutation changes the room of one cluster by so much, and of no other. */
  ghost predicate RoomMoves(w: World, w': World, c: ClusterID, gpus: int) {
    && w'.clusters.Keys == w.clusters.Keys
    && forall k | k in w.clusters :: Room(w', k) == Room(w, k) + if k == c then gpus else 0
  }

  /** A node counts with its free GPUs, if it is ready, from the moment it is stored. */
  lemma StoringNodeMoves(w: World, n: Node)
    requires n.clusterID in w.clusters
    ensures var nodes := w.clusters[n.clusterID].nodes;
            var before := if n.nodeID in nodes then Offers(nodes[n.nodeID]) else 0;
            RoomMoves(w, UpsertNode(w, n), n.clusterID, Offers(n) - before)
  {
    MapSumPut(w.clusters[n.clusterID].nodes, ReadyFree(), n.nodeID, n);
  }

  lemma RemovingNodeMoves(w: World, c: ClusterID, n: NodeID)
    requires c in w.clusters && n in w.clusters[c].nodes
    ensures RoomMoves(w, RemoveNode(w, c, n), c, -Offers(w.clusters[c].nodes[n]))
  {
    MapSumTake(w.clusters[c].nodes, ReadyFree(), n);
  }

  lemma PlacingTouchesOneNode(w: World, r: Replica, c: ClusterID)
    requires r.replicaID !in w.replicas && c in w.clusters
    requires r.clusterID == c ==> r.nodeID in w.clusters[c].nodes
    ensures var nodes, nodes' := w.clusters[c].nodes, UpsertReplica(w, r).clusters[c].nodes;
            nodes' == if r.clusterID == c then nodes[r.nodeID := Occupy(nodes[r.nodeID], r)] else nodes
  {
  }

  /** A new replica on a ready node takes its GPUs. */
  lemma PlacingTakes(w: World, r: Replica)
    requires r.replicaID !in w.replicas && r.clusterID in w.clusters && r.nodeID in w.clusters[r.clusterID].nodes
    requires w.clusters[r.clusterID].nodes[r.nodeID].status == Ready
    ensures RoomMoves(w, UpsertReplica(w, r), r.clusterID, -r.gpus)
  {
    forall c | c in w.clusters
      ensures Room(UpsertReplica(w, r), c) == Room(w, c) - if c == r.clusterID then r.gpus else 0
    {
      PlacingTouchesOneNode(w, r, c);
      if c == r.clusterID {
        var nodes := w.clusters[c].nodes;
        MapSumPut(nodes, ReadyFree(), r.nodeID, Occupy(nodes[r.nodeID], r));
      }
    }
  }

  lemma DeletingTouchesOneNode(w: World, id: ReplicaID, c: ClusterID)
    requires id in w.replicas && c in w.clusters
    ensures var r, nodes, nodes' := w.replicas[id], w.clusters[c].nodes, DeleteReplica(w, id).clusters[c].nodes;
            nodes' == if r.clusterID == c && r.nodeID in nodes then nodes[r.nodeID := Vacate(nodes[r.nodeID], r)]
                      else nodes
  {
  }

  /** Deleting a replica gives its GPUs back, if its node is ready. */
  lemma DeletingGivesBack(w: World, id: ReplicaID)
    requires id in w.replicas && w.replicas[id].clusterID in w.clusters
    requires w.replicas[id].nodeID in w.clusters[w.replicas[id].clusterID].nodes
    ensures var r := w.replicas[id];
            RoomMoves(w, DeleteReplica(w, id), r.clusterID,
                      if w.clusters[r.clusterID].nodes[r.nodeID].status == Ready then r.gpus else 0)
  {
    var r := w.replicas[id];
    forall c | c in w.clusters
      ensures Room(DeleteReplica(w, id), c) == Room(w, c) +
              if c == r.clusterID && w.clusters[r.clusterID].nodes[r.nodeID].status == Ready then r.gpus else 0
    {
      DeletingTouchesOneNode(w, id, c);
      if c == r.clusterID {
        var nodes := w.clusters[c].nodes;
        MapSumPut(nodes, ReadyFree(), r.nodeID, Vacate(nodes[r.nodeID], r));
      }
    }
  }

  /** A new reservation takes what it asks for in its cluster, if it is active. */
  lemma ReservingTakes(w: World, r: GPUReservation)
    requires r.reservationID !in w.reservations
    ensures RoomMoves(w, CreateReservation(w, r), r.clusterID, -Holds(r, r.clusterID))
  {
    forall c | c in w.clusters ensures Room(CreateReservation(w, r), c) == Room(w, c) - Holds(r, c) {
      MapSumPut(w.reservations, HeldIn(c), r.reservationID, r);
    }
  }

  /** Fulfilling or expiring an active reservation gives that back. */
  lemma ClosingGivesBack(w: World, id: ReservationID, st: ReservationStatus)
    requires id in w.reservations && w.reservations[id].status == Active && st != Active
    ensures RoomMoves(w, CloseReservation(w, id, st), w.reservations[id].clusterID, w.reservations[id].gpus)
  {
    var r := w.reservations[id];
    forall c | c in w.clusters
      ensures Room(CloseReservation(w, id, st), c) == Room(w, c) + if c == r.clusterID then r.gpus else 0
    {
      MapSumPut(w.reservations, HeldIn(c), id, r.(status := st));
    }
  }

  /** A replica that lands where its reservation was made, and fulfils it, leaves the
      room of every cluster as it was. */
  lemma FulfilmentKeepsRoom(w: World, r: Replica, id: ReservationID)
    requires r.replicaID !in w.replicas && r.clusterID in w.clusters && r.nodeID in w.clusters[r.clusterID].nodes
    requires w.clusters[r.clusterID].nodes[r.nodeID].status == Ready
    requires id in w.reservations && w.reservations[id].status == Active
    requires w.reservations[id].clusterID == r.clusterID && w.reservations[id].gpus == r.gpus
    ensures RoomMoves(w, CloseReservation(UpsertReplica(w, r), id, Fulfilled), r.clusterID, 0)
  {
    var w1 := UpsertReplica(w, r);
    PlacingTakes(w, r);
    ClosingGivesBack(w1, id, Fulfilled);
    forall c | c in w.clusters ensures Room(CloseReservation(w1, id, Fulfilled), c) == Room(w, c) {
      assert Room(w1, c) == Room(w, c) - if c == r.clusterID then r.gpus else 0;
    }
  }

  // ---------- Expiry ----------

  /** The sweep expires exactly the active reservations whose time has run out. */
  lemma SweepMeans(w: World, now: nat, id: ReservationID)
    requires id in w.reservations
    ensures ExpireStaleReservations(w, now).reservations.Keys == w.reservations.Keys
    ensures var r := w.reservations[id];
            ExpireStaleReservations(w, now).reservations[id] ==
            if r.status == Active && now >= r.createdAt + r.ttlSeconds * SECOND then r.(status := Expired) else r
  {
  }

  lemma LaterSweepFinds(w: World, now: nat, later: nat)
    requires now <= later
    ensures StaleReservations(w.reservations, later) ==
            StaleReservations(w.reservations, now)
            + StaleReservations(ExpireStaleReservations(w, now).reservations, later)
    ensures StaleReservations(w.reservations, now)
            !! StaleReservations(ExpireStaleReservations(w, now).reservations, later)
  {
  }

  /** How often the sweep ran before makes no difference to what a later one leaves. */
  lemma SweepsCompose(w: World, now: nat, later: nat)
    requires now <= later
    ensures ExpireStaleReservations(ExpireStaleReservations(w, now), later) == ExpireStaleReservations(w, later)
  {
    LaterSweepFinds(w, now, later);
    assert ExpireStaleReservations(ExpireStaleReservations(w, now), later).reservations ==
           ExpireStaleReservations(w, later).reservations;
  }

  // ---------- The reservations of a placement cycle ----------

  predicate KnownColdStart(snap: Snapshot, app: AppID) {
    app in snap.performanceProfiles && snap.performanceProfiles[app].coldStartSeconds > 0.0
  }

  /** A reservation holds what was placed, where it was placed, and lapses after the
      configured multiple of the whole seconds of the cold start, or after the default
      time where none is known. */
  lemma ReservationLapses(cfg: PlacementConfig, snap: Snapshot, ids: ReservationIds, log: Log, d: PlacementDecisions,
                          i: nat, now: nat)
    requires Corresponds(cfg, snap, ids, log, d) && i < |log|
    ensures var app, r := log[i].appID, d.reservations[i];
            && Holds(r, log[i].clusterID) == log[i].gpus && r.forAppID == app
            && r.reservationID == d.scaleUps[i].reservationID == ids(i)
            && (KnownColdStart(snap, app) ==>
                  var whole := snap.performanceProfiles[app].coldStartSeconds.Floor;
                  IsStale(r, now) <==> now >= snap.takenAt + cfg.reservationTTLMultiplier * whole * SECOND)
            && (!KnownColdStart(snap, app) ==>
                  (IsStale(r, now) <==> now >= snap.takenAt + cfg.defaultReservationTTLSeconds * SECOND))
  {
    assert d.reservations[i] == ReservationFor(cfg, snap, ids(i), log[i]);
  }

  /** The reservation is active for as long as the replica needs to start. */
  ghost predicate LastsThroughStart(snap: Snapshot, app: AppID, r: GPUReservation)
    requires KnownColdStart(snap, app)
  {
    forall now: nat | now >= snap.takenAt
        && (now - snap.takenAt) as real <= snap.performanceProfiles[app].coldStartSeconds * SECOND as real ::
      !IsStale(r, now)
  }

  /** With a multiple of 2 or more a reservation outlives the cold start it is for
      exactly when that is a second or longer: a shorter one is cut to 0. */
  lemma OutlivesColdStartIff(cfg: PlacementConfig, snap: Snapshot, ids: ReservationIds, log: Log,
                             d: PlacementDecisions, i: nat)
    requires Corresponds(cfg, snap, ids, log, d) && i < |log| && KnownColdStart(snap, log[i].appID)
    requires cfg.reservationTTLMultiplier >= 2
    ensures LastsThroughStart(snap, log[i].appID, d.reservations[i]) <==>
            snap.performanceProfiles[log[i].appID].coldStartSeconds >= 1.0
  {
    var app, r := log[i].appID, d.reservations[i];
    var start := snap.performanceProfiles[app].coldStartSeconds;
    if start >= 1.0 {
      forall now: nat | now >= snap.takenAt && (now - snap.takenAt) as real <= start * SECOND as real
        ensures !IsStale(r, now)
      {
        ReservationLapses(cfg, snap, ids, log, d, i, now);
        MultipleExceeds(cfg.reservationTTLMultiplier, start);
      }
    } else {
      ReservationLapses(cfg, snap, ids, log, d, i, snap.takenAt);
      assert start.Floor == 0;
      assert IsStale(r, snap.takenAt);
    }
  }

  lemma MultipleExceeds(multiplier: int, start: real)
    requires multiplier >= 2 && start >= 1.0
    ensures (multiplier * start.Floor) as real > start
  {
    var whole := start.Floor;
    assert multiplier * whole - 2 * whole == (multiplier - 2) * whole;
  }
}
