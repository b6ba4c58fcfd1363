/** What cluster events say about pods and nodes: for every stream, the last event
    naming a pod or a node decides whether it is tracked, and how. */
module EventMeaning {
  import opened Model
  import opened World
  import opened Events
  import Collections

  // ---------- Pods ----------

  ghost predicate NamesPod(e: Event, id: ReplicaID) {
    && e.kind == ClusterChange && e.clusterEvent.Some? && e.clusterEvent.value.replicaID == id
    && (e.clusterEvent.value.kind == PodRunning || e.clusterEvent.value.kind == PodTerminated)
  }

  /** The last pod event naming a replica. */
  ghost function LastPodEvent(es: seq<Event>, id: ReplicaID): Option<ClusterEvent> {
    if es == [] then None
    else if NamesPod(es[|es| - 1], id) then es[|es| - 1].clusterEvent
    else LastPodEvent(es[..|es| - 1], id)
  }

  ghost predicate SameEntry(w: World, w': World, id: ReplicaID) {
    (id in w'.replicas <==> id in w.replicas) && (id in w.replicas ==> w'.replicas[id] == w.replicas[id])
  }

  /** The replica runs where and as the event says. */
  ghost predicate RunsAsSaid(w: World, id: ReplicaID, ce: ClusterEvent) {
    && id in w.replicas
    && w.replicas[id].replicaID == id && w.replicas[id].appID == ce.appID
    && w.replicas[id].clusterID == ce.clusterID && w.replicas[id].nodeID == ce.nodeID
    && w.replicas[id].gpus == ce.gpus && w.replicas[id].status == Running && w.replicas[id].createdAt == ce.timestamp
  }

  /** What one event does to a pod's entry. */
  lemma PodAfter(w: World, e: Event, id: ReplicaID)
    ensures if NamesPod(e, id) && id != "" then
              if e.clusterEvent.value.kind == PodRunning then RunsAsSaid(Apply(w, e), id, e.clusterEvent.value)
              else id !in Apply(w, e).replicas
            else SameEntry(w, Apply(w, e), id)
  {
    if e.kind == ClusterChange {
      if e.clusterEvent.Some? {
        PodAfterClusterEvent(w, e.clusterEvent.value, id);
      }
    } else {
      UpdatesTables(w, e);
    }
  }

  lemma PodAfterClusterEvent(w: World, ce: ClusterEvent, id: ReplicaID)
    ensures var w' := ApplyClusterEvent(w, ce);
            if ce.replicaID == id != "" && ce.kind == PodRunning then RunsAsSaid(w', id, ce)
            else if ce.replicaID == id != "" && ce.kind == PodTerminated then id !in w'.replicas
            else SameEntry(w, w', id)
  {
    match ce.kind
    case NodeUp => NodesKeepEntries(w, AnnouncedNode(ce), ce.clusterID, ce.nodeID);
    case NodeDown => NodesKeepEntries(w, AnnouncedNode(ce), ce.clusterID, ce.nodeID);
    case PodRunning => UpsertEntry(w, ObservedReplica(ce));
    case PodTerminated => DeleteEntry(w, ce.replicaID);
  }

  lemma NodesKeepEntries(w: World, n: Node, c: ClusterID, id: NodeID)
    ensures UpsertNode(w, n).replicas == w.replicas && RemoveNode(w, c, id).replicas == w.replicas
  {
  }

  lemma UpsertEntry(w: World, r: Replica)
    ensures UpsertReplica(w, r).replicas == w.replicas[r.replicaID := r]
  {
  }

  lemma DeleteEntry(w: World, id: ReplicaID)
    ensures DeleteReplica(w, id).replicas == w.replicas - {id}
  {
  }

  /** For every stream and world: a replica is tracked afterwards exactly when the last
      pod event naming it says it runs, or there is none and it was tracked before; its
      entry is what that event says, or what it was. */
  lemma {:induction false} PodDecidedByLast(w: World, es: seq<Event>, id: ReplicaID)
    requires id != ""
    ensures match LastPodEvent(es, id)
            case None => SameEntry(w, ApplyAll(w, es), id)
            case Some(ce) =>
              if ce.kind == PodRunning then RunsAsSaid(ApplyAll(w, es), id, ce) else id !in ApplyAll(w, es).replicas
  {
    if es != [] {
      PodDecidedByLast(w, es[..|es| - 1], id);
      PodAfter(ApplyAll(w, es[..|es| - 1]), es[|es| - 1], id);
    }
  }

  /** Pod events without a replica id do nothing to any entry. */
  lemma {:induction false} NamelessPodStays(w: World, es: seq<Event>)
    ensures SameEntry(w, ApplyAll(w, es), "")
  {
    if es != [] {
      NamelessPodStays(w, es[..|es| - 1]);
      PodAfter(ApplyAll(w, es[..|es| - 1]), es[|es| - 1], "");
    }
  }

  // ---------- Nodes ----------

  ghost predicate NamesNode(e: Event, c: ClusterID, n: NodeID) {
    && e.kind == ClusterChange && e.clusterEvent.Some?
    && e.clusterEvent.value.clusterID == c && e.clusterEvent.value.nodeID == n
    && (e.clusterEvent.value.kind == NodeUp || e.clusterEvent.value.kind == NodeDown)
  }

  /** The last event announcing or withdrawing a node. */
  ghost function LastNodeEvent(es: seq<Event>, c: ClusterID, n: NodeID): Option<ClusterEvent> {
    if es == [] then None
    else if NamesNode(es[|es| - 1], c, n) then es[|es| - 1].clusterEvent
    else LastNodeEvent(es[..|es| - 1], c, n)
  }

  ghost predicate HasNode(w: World, c: ClusterID, n: NodeID) {
    c in w.clusters && n in w.clusters[c].nodes
  }

  /** The node is there or not as before, of the same size and status. */
  ghost predicate SameNode(w: World, w': World, c: ClusterID, n: NodeID) {
    && (HasNode(w', c, n) <==> HasNode(w, c, n))
    && (HasNode(w, c, n) ==>
          && w'.clusters[c].nodes[n].totalGPUs == w.clusters[c].nodes[n].totalGPUs
          && w'.clusters[c].nodes[n].status == w.clusters[c].nodes[n].status)
  }

  ghost predicate IsEmptyNode(w: World, c: ClusterID, n: NodeID, total: int) {
    && HasNode(w, c, n)
    && w.clusters[c].nodes[n] == Node(n, c, total, 0, total, [], Ready)
  }

  ghost predicate ReadyOfSize(w: World, c: ClusterID, n: NodeID, total: int) {
    HasNode(w, c, n) && w.clusters[c].nodes[n].totalGPUs == total && w.clusters[c].nodes[n].status == Ready
  }

  /** What one event does to a node: an announced node is ready and empty. */
  lemma NodeAfter(w: World, e: Event, c: ClusterID, n: NodeID)
    ensures if NamesNode(e, c, n) then
              if e.clusterEvent.value.kind == NodeUp then IsEmptyNode(Apply(w, e), c, n, e.clusterEvent.value.totalGPUs)
              else !HasNode(Apply(w, e), c, n)
            else SameNode(w, Apply(w, e), c, n)
  {
    if e.kind == ClusterChange {
      if e.clusterEvent.Some? {
        NodeAfterClusterEvent(w, e.clusterEvent.value, c, n);
      }
    } else {
      UpdatesTables(w, e);
    }
  }

  lemma NodeAfterClusterEvent(w: World, ce: ClusterEvent, c: ClusterID, n: NodeID)
    ensures var w' := ApplyClusterEvent(w, ce);
            if ce.clusterID == c && ce.nodeID == n && ce.kind == NodeUp then IsEmptyNode(w', c, n, ce.totalGPUs)
            else if ce.clusterID == c && ce.nodeID == n && ce.kind == NodeDown then !HasNode(w', c, n)
            else SameNode(w, w', c, n)
  {
    match ce.kind
    case NodeUp => UpsertNodePlaces(w, AnnouncedNode(ce), c, n);
    case NodeDown => RemoveNodeTakes(w, ce.clusterID, ce.nodeID, c, n);
    case PodRunning => UpsertKeepsNode(w, ObservedReplica(ce), c, n);
    case PodTerminated => DeleteKeepsNode(w, ce.replicaID, c, n);
  }

  lemma UpsertNodePlaces(w: World, node: Node, c: ClusterID, n: NodeID)
    ensures if node.clusterID == c && node.nodeID == n then
              HasNode(UpsertNode(w, node), c, n) && UpsertNode(w, node).clusters[c].nodes[n] == node
            else SameNode(w, UpsertNode(w, node), c, n)
  {
  }

  lemma RemoveNodeTakes(w: World, k: ClusterID, id: NodeID, c: ClusterID, n: NodeID)
    ensures if k == c && id == n then !HasNode(RemoveNode(w, k, id), c, n) else SameNode(w, RemoveNode(w, k, id), c, n)
  {
    if k in w.clusters {
      var w' := RemoveNode(w, k, id);
      assert w'.clusters[k].nodes == w.clusters[k].nodes - {id};
      assert c != k && c in w.clusters ==> w'.clusters[c] == w.clusters[c];
      assert w'.clusters.Keys == w.clusters.Keys;
    }
  }

  lemma UpsertKeepsNode(w: World, r: Replica, c: ClusterID, n: NodeID)
    ensures SameNode(w, UpsertReplica(w, r), c, n)
  {
  }

  lemma DeleteKeepsNode(w: World, id: ReplicaID, c: ClusterID, n: NodeID)
    ensures SameNode(w, DeleteReplica(w, id), c, n)
  {
  }

  /** For every stream and world: a node is there afterwards exactly when the last event
      announcing or withdrawing it announces it, or there is none and it was there
      before; announced, it is ready and of the size announced. */
  lemma {:induction false} NodeDecidedByLast(w: World, es: seq<Event>, c: ClusterID, n: NodeID)
    ensures match LastNodeEvent(es, c, n)
            case None => SameNode(w, ApplyAll(w, es), c, n)
            case Some(ce) =>
              if ce.kind == NodeUp then ReadyOfSize(ApplyAll(w, es), c, n, ce.totalGPUs)
              else !HasNode(ApplyAll(w, es), c, n)
  {
    if es != [] {
      NodeDecidedByLast(w, es[..|es| - 1], c, n);
      NodeAfter(ApplyAll(w, es[..|es| - 1]), es[|es| - 1], c, n);
    }
  }

  // ---------- The GPUs that follow ----------

  /** After a stream that kept the accounting, a node's free GPUs are its size less the
      GPUs of the replicas the stream left on it. */
  lemma FreeAfterStream(w: World, es: seq<Event>, c: ClusterID, n: NodeID)
    requires Accounted(w) && (forall i: nat | i < |es| :: CleanAt(w, es, i)) && HasNode(ApplyAll(w, es), c, n)
    ensures var w' := ApplyAll(w, es);
            w'.clusters[c].nodes[n].freeGPUs ==
            w'.clusters[c].nodes[n].totalGPUs - Collections.MapSum(w'.replicas, GpusAt(c, n))
  {
    StreamKeepsAccountingIff(w, es);
    assert AccountedAfter(w, es, |es|) && es[..|es|] == es;
    assert NodeAccounted(ApplyAll(w, es).replicas, c, n, ApplyAll(w, es).clusters[c].nodes[n]);
  }
}
