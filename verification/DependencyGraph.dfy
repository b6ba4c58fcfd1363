/** What the dependency edges of a plan mean, independently of how a plan is
    run: transitive dependencies as chains of edges, and the fate every
    operation deserves given which operations fail. */
module DependencyGraph {
  import opened Model

  /** Each operation with its direct dependencies. A dependency need not itself
      be an operation. */
  type Graph = map<OperationID, set<OperationID>>

  ghost function Deps(g: Graph, id: OperationID): set<OperationID> {
    if id in g then g[id] else {}
  }

  ghost predicate IsChain(g: Graph, p: seq<OperationID>) {
    forall i :: 0 <= i < |p| - 1 ==> p[i + 1] in Deps(g, p[i])
  }

  ghost predicate ConnectedBy(g: Graph, a: OperationID, b: OperationID, p: seq<OperationID>) {
    |p| >= 2 && p[0] == a && p[|p| - 1] == b && IsChain(g, p)
  }

  /** b is a direct or transitive dependency of a. */
  ghost predicate DependsOn(g: Graph, a: OperationID, b: OperationID) {
    exists p :: ConnectedBy(g, a, b, p)
  }

  ghost predicate Acyclic(g: Graph) {
    forall a :: !DependsOn(g, a, a)
  }

  ghost predicate Closed(g: Graph) {
    forall a | a in g :: g[a] <= g.Keys
  }

  lemma DirectDependency(g: Graph, a: OperationID, b: OperationID)
    requires b in Deps(g, a)
    ensures DependsOn(g, a, b)
  {
    assert ConnectedBy(g, a, b, [a, b]);
  }

  lemma Transitive(g: Graph, a: OperationID, b: OperationID, c: OperationID)
    requires DependsOn(g, a, b) && DependsOn(g, b, c)
    ensures DependsOn(g, a, c)
  {
    var p :| ConnectedBy(g, a, b, p);
    var q :| ConnectedBy(g, b, c, q);
    var r := p + q[1..];
    forall i | 0 <= i < |r| - 1 ensures r[i + 1] in Deps(g, r[i]) {
      if i >= |p| - 1 {
        assert r[i + 1] == q[i - |p| + 2] && r[i] == q[i - |p| + 1];
      }
    }
    assert ConnectedBy(g, a, c, r);
  }

  /** The first step of a chain. */
  lemma FirstStep(g: Graph, a: OperationID, b: OperationID) returns (d: OperationID)
    requires DependsOn(g, a, b)
    ensures d in Deps(g, a) && (d == b || DependsOn(g, d, b))
  {
    var p :| ConnectedBy(g, a, b, p);
    d := p[1];
    if |p| > 2 {
      assert ConnectedBy(g, d, b, p[1..]);
    }
  }

  /** A set holding every direct dependency of its members holds all their
      transitive dependencies. */
  lemma DependenciesStayIn(g: Graph, s: set<OperationID>, a: OperationID, b: OperationID)
    requires forall x | x in s :: Deps(g, x) <= s
    requires a in s && DependsOn(g, a, b)
    ensures b in s
  {
    var p :| ConnectedBy(g, a, b, p);
    for i := 0 to |p| - 1
      invariant p[i] in s
    {
    }
  }

  /** A set holding every direct dependent of its members, or of b, holds every
      operation that depends on b. */
  lemma DependentsStayIn(g: Graph, s: set<OperationID>, a: OperationID, b: OperationID)
    requires forall x, y | y in g && x in g[y] && (x in s || x == b) :: y in s
    requires DependsOn(g, a, b)
    ensures a in s
  {
    var p :| ConnectedBy(g, a, b, p);
    var i := |p| - 1;
    while i > 0
      invariant 0 <= i < |p|
      invariant i < |p| - 1 ==> p[i] in s
    {
      i := i - 1;
      assert p[i + 1] in Deps(g, p[i]);
      assert p[i] in g && p[i + 1] in g[p[i]];
    }
  }

  ghost predicate StepsInto(g: Graph, x: OperationID, s: set<OperationID>) {
    exists d :: d in Deps(g, x) && d in s
  }

  /** No member of s is without a dependency in s. */
  ghost predicate HasNoSink(g: Graph, s: set<OperationID>) {
    forall x {:trigger StepsInto(g, x, s)} | x in s :: StepsInto(g, x, s)
  }

  lemma Below(g: Graph, s: set<OperationID>, x: OperationID) returns (below: set<OperationID>)
    requires HasNoSink(g, s) && x in s && !DependsOn(g, x, x)
    ensures below < s && below != {} && HasNoSink(g, below)
  {
    below := set y | y in s && DependsOn(g, x, y);
    assert StepsInto(g, x, s);
    var d :| d in Deps(g, x) && d in s;
    DirectDependency(g, x, d);
    assert d in below;
    forall y | y in below ensures StepsInto(g, y, below) {
      assert StepsInto(g, y, s);
      var e :| e in Deps(g, y) && e in s;
      DirectDependency(g, y, e);
      Transitive(g, x, y, e);
    }
  }

  /** Pigeonhole: following dependencies inside a finite set forever must come
      round a cycle. */
  lemma {:induction false} NoSinkMeansCycle(g: Graph, s: set<OperationID>) returns (x: OperationID)
    requires s != {} && HasNoSink(g, s)
    ensures x in s && DependsOn(g, x, x)
    decreases s
  {
    x :| x in s;
    if !DependsOn(g, x, x) {
      var below := Below(g, s, x);
      x := NoSinkMeansCycle(g, below);
    }
  }

  // ---------- The fate of an operation ----------

  /** Outcomes: the error each operation returns if it is dispatched. */
  type Outcomes = OperationID -> Option<string>

  /** The dependencies of id can all be dispatched in some order: none is
      missing from the plan and none lies on a cycle. */
  ghost predicate Settles(g: Graph, id: OperationID) {
    && id in g && !DependsOn(g, id, id)
    && forall d | DependsOn(g, id, d) :: d in g && !DependsOn(g, d, d)
  }

  ghost predicate DependenciesSucceed(g: Graph, err: Outcomes, id: OperationID) {
    forall d | DependsOn(g, id, d) :: err(d).None?
  }

  ghost predicate MustComplete(g: Graph, err: Outcomes, id: OperationID) {
    Settles(g, id) && err(id).None? && DependenciesSucceed(g, err, id)
  }

  ghost predicate MustFail(g: Graph, err: Outcomes, id: OperationID) {
    Settles(g, id) && err(id).Some? && DependenciesSucceed(g, err, id)
  }

  ghost predicate MustAbort(g: Graph, err: Outcomes, id: OperationID) {
    id in g && exists d :: DependsOn(g, id, d) && MustFail(g, err, d)
  }

  lemma SettlesDownward(g: Graph, id: OperationID, d: OperationID)
    requires Settles(g, id) && DependsOn(g, id, d)
    ensures Settles(g, d)
  {
    forall e | DependsOn(g, d, e) ensures e in g && !DependsOn(g, e, e) {
      Transitive(g, id, d, e);
    }
  }

  lemma SettlesUpward(g: Graph, id: OperationID)
    requires id in g && forall d | d in g[id] :: Settles(g, d)
    ensures Settles(g, id)
  {
    forall d | DependsOn(g, id, d) ensures d in g && !DependsOn(g, d, d) {
      var s := FirstStep(g, id, d);
    }
    if DependsOn(g, id, id) {
      var s := FirstStep(g, id, id);
      if s != id {
        DirectDependency(g, id, s);
        Transitive(g, s, id, s);
      }
      assert false;
    }
  }

  lemma FatesExclude(g: Graph, err: Outcomes, id: OperationID)
    ensures !(MustComplete(g, err, id) && MustFail(g, err, id))
    ensures !(MustComplete(g, err, id) && MustAbort(g, err, id))
    ensures !(MustFail(g, err, id) && MustAbort(g, err, id))
  {
  }

  ghost predicate IsDeepest(g: Graph, s: set<OperationID>, m: OperationID) {
    m in s && forall d | d in s :: !DependsOn(g, m, d)
  }

  /** The transitive dependency relation inside s, as a graph of its own. */
  ghost function Within(g: Graph, s: set<OperationID>): Graph {
    map x | x in s :: set d | d in s && DependsOn(g, x, d)
  }

  lemma WithinLifts(g: Graph, s: set<OperationID>, a: OperationID, b: OperationID)
    requires DependsOn(Within(g, s), a, b)
    ensures DependsOn(g, a, b)
  {
    var p :| ConnectedBy(Within(g, s), a, b, p);
    assert p[1] in Deps(Within(g, s), p[0]);
    for i := 1 to |p| - 1
      invariant DependsOn(g, a, p[i])
    {
      assert p[i + 1] in Deps(Within(g, s), p[i]);
      Transitive(g, a, p[i], p[i + 1]);
    }
  }

  lemma WithinStep(g: Graph, s: set<OperationID>, x: OperationID)
    requires x in s && !IsDeepest(g, s, x)
    ensures StepsInto(Within(g, s), x, s)
  {
    var d :| d in s && DependsOn(g, x, d);
    assert d in Deps(Within(g, s), x);
  }

  lemma NoDeepestMeansCycle(g: Graph, s: set<OperationID>) returns (x: OperationID)
    requires s != {} && forall x {:trigger IsDeepest(g, s, x)} | x in s :: !IsDeepest(g, s, x)
    ensures x in s && DependsOn(g, x, x)
  {
    forall y | y in s ensures StepsInto(Within(g, s), y, s) {
      WithinStep(g, s, y);
    }
    x := NoSinkMeansCycle(Within(g, s), s);
    WithinLifts(g, s, x, x);
  }

  /** A nonempty set of dependencies of a settled operation has a member that
      depends on no other member. */
  lemma DeepestMember(g: Graph, id: OperationID, s: set<OperationID>) returns (m: OperationID)
    requires Settles(g, id) && s != {}
    requires forall x | x in s :: DependsOn(g, id, x)
    ensures IsDeepest(g, s, m)
  {
    if !exists x {:trigger IsDeepest(g, s, x)} :: x in s && IsDeepest(g, s, x) {
      var x := NoDeepestMeansCycle(g, s);
      assert false;
    }
    m :| m in s && IsDeepest(g, s, m);
  }

  /** Every settled operation completes, fails, or waits on one that fails. */
  lemma SettledOperationHasFate(g: Graph, err: Outcomes, id: OperationID)
    requires Settles(g, id)
    ensures HasFate(g, err, id)
  {
    var bad := set d | d in g && err(d).Some? && DependsOn(g, id, d);
    if bad == {} {
      forall d | DependsOn(g, id, d) ensures err(d).None? {
        assert d !in bad;
      }
    } else {
      var f := DeepestMember(g, id, bad);
      SettlesDownward(g, id, f);
      forall d | DependsOn(g, f, d) ensures err(d).None? {
        Transitive(g, id, f, d);
        assert d !in bad;
      }
      assert MustFail(g, err, f) && DependsOn(g, id, f);
    }
  }

  ghost predicate HasFate(g: Graph, err: Outcomes, id: OperationID) {
    MustComplete(g, err, id) || MustFail(g, err, id) || MustAbort(g, err, id)
  }

  /** Whatever fails, every operation gets a fate, exactly when the plan is
      closed and acyclic. */
  lemma EveryOperationHasFateIff(g: Graph)
    ensures (forall err: Outcomes, id | id in g :: HasFate(g, err, id)) <==> Closed(g) && Acyclic(g)
  {
    if Closed(g) && Acyclic(g) {
      forall err: Outcomes, id | id in g ensures HasFate(g, err, id) {
        forall d | DependsOn(g, id, d) ensures d in g {
          DependenciesStayIn(g, g.Keys, id, d);
        }
        SettledOperationHasFate(g, err, id);
      }
    }
    if forall err: Outcomes, id | id in g :: HasFate(g, err, id) {
      var ok: Outcomes := id => None;
      forall id | id in g ensures Settles(g, id) {
        assert HasFate(g, ok, id);
      }
      forall a | a in g ensures g[a] <= g.Keys {
        forall d | d in g[a] ensures d in g {
          DirectDependency(g, a, d);
        }
      }
      forall a ensures !DependsOn(g, a, a) {
        if DependsOn(g, a, a) {
          var d := FirstStep(g, a, a);
        }
      }
    }
  }
}
