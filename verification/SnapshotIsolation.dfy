/** Snapshots and shared memory: pod lists are windows onto arrays that the
    mutators shift and extend in place, so a snapshot stays as it was only because
    it copied them. */
module SnapshotIsolation {
  import opened Model
  import opened Collections
  import W = World

  /** The first len elements of a backing array. */
  datatype Slice = Slice(arr: array<ReplicaID>, len: nat)
  {
    ghost predicate InBounds() {
      len <= arr.Length
    }

    ghost function Elements(): seq<ReplicaID>
      requires InBounds()
      reads arr
    {
      arr[..len]
    }
  }

  method CloneSlice(s: Slice) returns (t: Slice)
    requires s.InBounds()
    ensures fresh(t.arr) && t.InBounds() && t.Elements() == s.Elements()
  {
    var arr := new ReplicaID[s.len](i requires 0 <= i < s.len reads s.arr => s.arr[i]);
    t := Slice(arr, s.len);
  }

  /** Writes into spare capacity when there is any; otherwise copies to a larger
      array. */
  method Append(s: Slice, x: ReplicaID) returns (t: Slice)
    requires s.InBounds()
    modifies s.arr
    ensures t.InBounds() && t.Elements() == old(s.Elements()) + [x]
    ensures t.arr == s.arr || fresh(t.arr)
  {
    if s.len < s.arr.Length {
      s.arr[s.len] := x;
      return Slice(s.arr, s.len + 1);
    }
    var capacity :| capacity > s.len;
    var arr := new ReplicaID[capacity](i requires 0 <= i reads s.arr => if i < s.len then s.arr[i] else x);
    return Slice(arr, s.len + 1);
  }

  lemma {:induction false} RemoveFirstAt(q: seq<ReplicaID>, x: ReplicaID, i: nat)
    requires i < |q| && q[i] == x && x !in q[..i]
    ensures W.RemoveFirst(q, x) == q[..i] + q[i + 1..]
  {
    if i > 0 {
      assert q[0] in q[..i];
      assert q[1..][..i - 1] == q[1..i] && forall y | y in q[1..i] :: y in q[..i];
      RemoveFirstAt(q[1..], x, i - 1);
    }
  }

  lemma {:induction false} RemoveFirstAbsent(q: seq<ReplicaID>, x: ReplicaID)
    requires x !in q
    ensures W.RemoveFirst(q, x) == q
  {
    if q != [] {
      RemoveFirstAbsent(q[1..], x);
    }
  }

  /** Overwrites the element at i by moving those after it down by one. */
  method ShiftDown(arr: array<ReplicaID>, i: nat, len: nat)
    requires i < len <= arr.Length
    modifies arr
    ensures arr[..len - 1] == old(arr[..i] + arr[i + 1..len])
  {
    for j := i + 1 to len
      invariant forall k | i <= k < j - 1 :: arr[k] == old(arr[k + 1])
      invariant forall k | 0 <= k < i || j - 1 <= k < arr.Length :: arr[k] == old(arr[k])
    {
      arr[j - 1] := arr[j];
    }
  }

  /** Removes the first occurrence by shifting the rest down in the same array. */
  method RemoveFromSlice(s: Slice, val: ReplicaID) returns (t: Slice)
    requires s.InBounds()
    modifies s.arr
    ensures t.arr == s.arr && t.InBounds() && t.Elements() == W.RemoveFirst(old(s.Elements()), val)
  {
    ghost var q := s.Elements();
    for i := 0 to s.len
      invariant val !in q[..i] && s.Elements() == q
    {
      if s.arr[i] == val {
        RemoveFirstAt(q, val, i);
        ShiftDown(s.arr, i, s.len);
        return Slice(s.arr, s.len - 1);
      }
    }
    RemoveFirstAbsent(q, val);
    return s;
  }

  // ---------- Nodes ----------

  /** A node whose pod list is a slice; base.pods is not used. */
  datatype HeapNode = HeapNode(base: Node, pods: Slice)
  {
    function Place(): Place {
      (base.clusterID, base.nodeID)
    }

    ghost function Seen(): Node
      requires pods.InBounds()
      reads pods.arr
    {
      base.(pods := pods.Elements())
    }
  }

  type Place = (ClusterID, NodeID)

  ghost predicate WellFormed(nodes: map<Place, HeapNode>) {
    && (forall k | k in nodes :: nodes[k].pods.InBounds())
    && (forall j, k | j in nodes && k in nodes && j != k :: nodes[j].pods.arr != nodes[k].pods.arr)
  }

  ghost function Arrays(nodes: map<Place, HeapNode>): set<array<ReplicaID>> {
    set k | k in nodes :: nodes[k].pods.arr
  }

  /** What a reader sees. */
  ghost function View(nodes: map<Place, HeapNode>): map<Place, Node>
    requires WellFormed(nodes)
    reads Arrays(nodes)
  {
    map k | k in nodes :: nodes[k].Seen()
  }

  lemma OneReplaced(nodes: map<Place, HeapNode>, nodes': map<Place, HeapNode>, k: Place)
    requires WellFormed(nodes) && k in nodes && nodes'.Keys == nodes.Keys && nodes'[k].pods.InBounds()
    requires forall j | j in nodes && j != k :: nodes'[j] == nodes[j]
    requires nodes'[k].pods.arr == nodes[k].pods.arr || nodes'[k].pods.arr !in Arrays(nodes)
    ensures WellFormed(nodes') && Arrays(nodes') <= Arrays(nodes) + {nodes'[k].pods.arr}
    ensures nodes'[k].pods.arr == nodes[k].pods.arr ==> Arrays(nodes') == Arrays(nodes)
  {
    forall j | j in nodes && j != k ensures nodes'[j].pods.arr != nodes'[k].pods.arr {
      assert nodes[j].pods.arr in Arrays(nodes);
    }
    forall a | a in Arrays(nodes) && nodes'[k].pods.arr == nodes[k].pods.arr ensures a in Arrays(nodes') {
      var j :| j in nodes && nodes[j].pods.arr == a;
      assert nodes'[j].pods.arr == a;
    }
  }

  lemma ArraysPut(nodes: map<Place, HeapNode>, k: Place, h: HeapNode)
    requires k !in nodes
    ensures Arrays(nodes[k := h]) == Arrays(nodes) + {h.pods.arr}
  {
    var nodes' := nodes[k := h];
    forall a | a in Arrays(nodes) + {h.pods.arr} ensures a in Arrays(nodes') {
      if a == h.pods.arr {
        assert nodes'[k].pods.arr == a;
      } else {
        var j :| j in nodes && nodes[j].pods.arr == a;
        assert nodes'[j].pods.arr == a;
      }
    }
  }

  lemma StoreKeepsSlicesApart(nodes: map<Place, HeapNode>, n: HeapNode)
    requires WellFormed(nodes) && n.pods.InBounds() && n.pods.arr !in Arrays(nodes - {n.Place()})
    ensures WellFormed(nodes[n.Place() := n])
    ensures Arrays(nodes[n.Place() := n]) == Arrays(nodes - {n.Place()}) + {n.pods.arr}
  {
    var k := n.Place();
    var others := nodes - {k};
    assert nodes[k := n] == others[k := n];
    ArraysPut(others, k, n);
    forall j | j in nodes && j != k ensures nodes[j].pods.arr != n.pods.arr {
      assert j in others && others[j].pods.arr in Arrays(others);
    }
  }

  ghost function VacatedView(view: map<Place, Node>, r: Replica): map<Place, Node> {
    var k := (r.clusterID, r.nodeID);
    if k in view then view[k := W.Vacate(view[k], r)] else view
  }

  ghost function OccupiedView(view: map<Place, Node>, r: Replica): map<Place, Node> {
    var k := (r.clusterID, r.nodeID);
    if k in view then view[k := W.Occupy(view[k], r)] else view
  }

  /** No array is shared. */
  ghost predicate Isolated(live: map<Place, HeapNode>, snap: map<Place, HeapNode>) {
    Arrays(live) !! Arrays(snap)
  }

  /** A mutation of the live nodes. A node is announced with a pod list of its own. */
  datatype Step = Restore(r: Replica) | Allocate(r: Replica) | Announce(node: Node) | Remove(place: Place)

  ghost function StepView(view: map<Place, Node>, step: Step): map<Place, Node> {
    match step
    case Restore(r) => VacatedView(view, r)
    case Allocate(r) => OccupiedView(view, r)
    case Announce(node) => view[(node.clusterID, node.nodeID) := node]
    case Remove(k) => view - {k}
  }

  ghost function StepsView(view: map<Place, Node>, steps: seq<Step>): map<Place, Node> {
    if steps == [] then view else StepView(StepsView(view, steps[..|steps| - 1]), steps[|steps| - 1])
  }

  class LiveNodes {
    var nodes: map<Place, HeapNode>

    constructor ()
      ensures WellFormed(nodes) && nodes == map[]
    {
      nodes := map[];
    }

    method RestoreNodeGPUs(r: Replica)
      requires WellFormed(nodes)
      modifies this, Arrays(nodes)
      ensures WellFormed(nodes) && View(nodes) == VacatedView(old(View(nodes)), r)
      ensures Arrays(nodes) == old(Arrays(nodes))
    {
      if (r.clusterID, r.nodeID) in nodes {
        ghost var before := nodes;
        ShiftPods((r.clusterID, r.nodeID), r);
        OneReplaced(before, nodes, (r.clusterID, r.nodeID));
      }
    }

    /** The node's list loses the replica in its own array. */
    method ShiftPods(k: Place, r: Replica)
      requires WellFormed(nodes) && k in nodes
      modifies this, nodes[k].pods.arr
      ensures nodes.Keys == old(nodes.Keys) && nodes[k].pods.arr == old(nodes[k].pods.arr)
      ensures nodes[k].pods.InBounds() && nodes[k].Seen() == W.Vacate(old(nodes[k].Seen()), r)
      ensures forall j | j in nodes && j != k :: nodes[j] == old(nodes)[j]
    {
      var n := nodes[k];
      var pods := RemoveFromSlice(n.pods, r.replicaID);
      nodes := nodes[k := HeapNode(n.base.(allocatedGPUs := n.base.allocatedGPUs - r.gpus,
                                           freeGPUs := n.base.freeGPUs + r.gpus), pods)];
    }

    method AllocateNodeGPUs(r: Replica)
      requires WellFormed(nodes)
      modifies this, Arrays(nodes)
      ensures WellFormed(nodes) && View(nodes) == OccupiedView(old(View(nodes)), r)
      ensures fresh(Arrays(nodes) - old(Arrays(nodes)))
    {
      if (r.clusterID, r.nodeID) in nodes {
        ghost var before := nodes;
        ExtendPods((r.clusterID, r.nodeID), r);
        OneReplaced(before, nodes, (r.clusterID, r.nodeID));
      }
    }

    /** The node's list gains the replica, in its own array or in a new one. */
    method ExtendPods(k: Place, r: Replica)
      requires WellFormed(nodes) && k in nodes
      modifies this, nodes[k].pods.arr
      ensures nodes.Keys == old(nodes.Keys)
      ensures nodes[k].pods.arr == old(nodes[k].pods.arr) || fresh(nodes[k].pods.arr)
      ensures nodes[k].pods.InBounds() && nodes[k].Seen() == W.Occupy(old(nodes[k].Seen()), r)
      ensures forall j | j in nodes && j != k :: nodes[j] == old(nodes)[j]
    {
      var n := nodes[k];
      var pods := Append(n.pods, r.replicaID);
      nodes := nodes[k := HeapNode(n.base.(allocatedGPUs := n.base.allocatedGPUs + r.gpus,
                                           freeGPUs := n.base.freeGPUs - r.gpus), pods)];
    }

    /** Stores the node given, slice and all: whatever shares its array is from now
        on shared with the live state. The array may already back this very node, as
        when the same node is written back twice, but no other one. */
    method UpsertNode(n: HeapNode, ghost snap: map<Place, HeapNode>)
      requires WellFormed(nodes) && n.pods.InBounds() && n.pods.arr !in Arrays(nodes - {n.Place()})
      modifies this
      ensures WellFormed(nodes) && nodes == old(nodes)[n.Place() := n]
      ensures View(nodes) == old(View(nodes))[n.Place() := n.Seen()]
      ensures Arrays(nodes) == old(Arrays(nodes - {n.Place()})) + {n.pods.arr}
      ensures Isolated(nodes, snap) <==> n.pods.arr !in Arrays(snap) && Isolated(old(nodes) - {n.Place()}, snap)
    {
      StoreKeepsSlicesApart(nodes, n);
      nodes := nodes[n.Place() := n];
    }

    /** A deep copy. */
    method TakeSnapshot() returns (snap: map<Place, HeapNode>)
      requires WellFormed(nodes)
      ensures WellFormed(snap) && View(snap) == View(nodes)
      ensures fresh(Arrays(snap))
    {
      snap := map[];
      var todo := nodes.Keys;
      while todo != {}
        invariant todo <= nodes.Keys && snap.Keys == nodes.Keys - todo
        invariant WellFormed(snap) && fresh(Arrays(snap))
        invariant forall k | k in snap :: snap[k].Seen() == nodes[k].Seen()
      {
        var k :| k in todo;
        var pods := CloneSlice(nodes[k].pods);
        ArraysPut(snap, k, HeapNode(nodes[k].base, pods));
        snap := snap[k := HeapNode(nodes[k].base, pods)];
        todo := todo - {k};
      }
    }

    method AnnounceNode(node: Node)
      requires WellFormed(nodes)
      modifies this
      ensures WellFormed(nodes) && View(nodes) == old(View(nodes))[(node.clusterID, node.nodeID) := node]
      ensures fresh(Arrays(nodes) - old(Arrays(nodes)))
    {
      var arr := new ReplicaID[|node.pods|](i requires 0 <= i < |node.pods| => node.pods[i]);
      var n := HeapNode(node, Slice(arr, |node.pods|));
      assert n.pods.Elements() == node.pods;
      UpsertNode(n, map[]);
    }

    method RemoveNode(k: Place)
      requires WellFormed(nodes)
      modifies this
      ensures WellFormed(nodes) && View(nodes) == old(View(nodes)) - {k}
      ensures Arrays(nodes) <= old(Arrays(nodes))
    {
      nodes := nodes - {k};
    }

    method ApplyStep(step: Step)
      requires WellFormed(nodes)
      modifies this, Arrays(nodes)
      ensures WellFormed(nodes) && View(nodes) == StepView(old(View(nodes)), step)
      ensures fresh(Arrays(nodes) - old(Arrays(nodes)))
    {
      match step {
        case Restore(r) => RestoreNodeGPUs(r);
        case Allocate(r) => AllocateNodeGPUs(r);
        case Announce(node) =>
          AnnounceNode(node);
        case Remove(k) =>
          RemoveNode(k);
      }
    }

    /** No sequence of mutations changes what a reader of an isolated snapshot sees,
        and it does to the live nodes what it should. */
    method ApplySteps(steps: seq<Step>, snap: map<Place, HeapNode>)
      requires WellFormed(nodes) && WellFormed(snap) && Isolated(nodes, snap)
      modifies this, Arrays(nodes)
      ensures WellFormed(nodes) && Isolated(nodes, snap)
      ensures View(snap) == old(View(snap))
      ensures View(nodes) == StepsView(old(View(nodes)), steps)
    {
      for i := 0 to |steps|
        invariant WellFormed(nodes) && fresh(Arrays(nodes) - old(Arrays(nodes)))
        invariant View(snap) == old(View(snap))
        invariant View(nodes) == StepsView(old(View(nodes)), steps[..i])
      {
        assert steps[..i + 1][..i] == steps[..i];
        ApplyStep(steps[i]);
      }
      assert steps[..|steps|] == steps;
    }

    /** A snapshot taken now is isolated, so it stays as it is through everything
        that follows. */
    method SnapshotThenApply(steps: seq<Step>) returns (snap: map<Place, HeapNode>)
      requires WellFormed(nodes)
      modifies this, Arrays(nodes)
      ensures WellFormed(snap) && View(snap) == old(View(nodes))
      ensures WellFormed(nodes) && View(nodes) == StepsView(old(View(nodes)), steps)
    {
      snap := TakeSnapshot();
      ApplySteps(steps, snap);
    }
  }

  lemma RemoveFirstDisplaces(q: seq<ReplicaID>, x: ReplicaID, p: seq<ReplicaID>)
    requires NoDuplicates(q) && x in q && q[|q| - 1] != x && W.RemoveFirst(q, x) <= p
    ensures p != q
  {
    var i :| 0 <= i < |q| && q[i] == x;
    RemoveFirstAt(q, x, i);
    assert W.RemoveFirst(q, x)[i] == q[i + 1] && p[i] == W.RemoveFirst(q, x)[i];
  }

  /** Isolation ends when a node of the snapshot is written back: from then on a
      removal shifts the snapshot's list too, visibly so unless the replica removed
      was its last. The writer must drop its snapshot. */
  method WriteBackThenRestore(live: LiveNodes, snap: map<Place, HeapNode>, k: Place, r: Replica)
    requires WellFormed(live.nodes) && WellFormed(snap) && Isolated(live.nodes, snap)
    requires k in snap && k == (snap[k].base.clusterID, snap[k].base.nodeID) == (r.clusterID, r.nodeID)
    requires var q := snap[k].pods.Elements();
             NoDuplicates(q) && r.replicaID in q && q[|q| - 1] != r.replicaID
    modifies live, Arrays(live.nodes), Arrays(snap)
    ensures snap[k].pods.Elements() != old(snap[k].pods.Elements())
  {
    assert snap[k].pods.arr in Arrays(snap);
    live.UpsertNode(snap[k], map[]);
    ghost var q := snap[k].pods.Elements();
    assert live.nodes[k] == snap[k];
    live.ShiftPods(k, r);
    RemoveFirstShorter(q, r.replicaID);
    assert W.RemoveFirst(q, r.replicaID) <= snap[k].pods.Elements();
    RemoveFirstDisplaces(q, r.replicaID, snap[k].pods.Elements());
  }

  lemma RemoveFirstShorter(q: seq<ReplicaID>, x: ReplicaID)
    ensures |W.RemoveFirst(q, x)| <= |q|
  {
  }
}
