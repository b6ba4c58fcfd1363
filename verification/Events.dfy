/** Ingested events, their coalescing key, and what applying them does to the
    world state. */
module Events {
  import opened Model
  import opened World

  datatype EventKind = MetricsUpdate | ClusterChange | SLABreach | PeriodicEval | AppConfigUpdate

  datatype ClusterEventKind = NodeDown | NodeUp | PodTerminated | PodRunning

  datatype ClusterEvent = ClusterEvent(
    kind: ClusterEventKind,
    clusterID: ClusterID,
    nodeID: NodeID,
    replicaID: ReplicaID,
    appID: AppID,
    gpus: int,
    totalGPUs: int,
    timestamp: nat)

  datatype Event = Event(
    kind: EventKind,
    appID: AppID,
    vllmMetrics: Option<VLLMMetrics>,
    clusterEvent: Option<ClusterEvent>,
    application: Option<Application>)
  {
    /** Cluster events are distinct state changes and are never merged. */
    predicate IsMergeable() {
      kind != ClusterChange
    }

    function MergeKey(): string {
      if !IsMergeable() then "" else KeyFor(kind, appID)
    }
  }

  function KindName(kind: EventKind): string {
    match kind
    case MetricsUpdate => "MetricsUpdate"
    case ClusterChange => "ClusterEvent"
    case SLABreach => "SLABreach"
    case PeriodicEval => "PeriodicEval"
    case AppConfigUpdate => "AppConfigUpdate"
  }

  function KeyFor(kind: EventKind, app: AppID): string {
    KindName(kind) + ":" + app
  }

  /** The textual key tells kind and application apart, whatever characters the
      application id contains. */
  lemma KeyIsInjective(k: EventKind, a: AppID, k': EventKind, a': AppID)
    requires KeyFor(k, a) == KeyFor(k', a')
    ensures k == k' && a == a'
  {
    assert KeyFor(k, a)[0] == KindName(k)[0] && KeyFor(k', a')[0] == KindName(k')[0];
    assert a == KeyFor(k, a)[|KindName(k)| + 1..];
    assert a' == KeyFor(k', a')[|KindName(k')| + 1..];
  }

  // ---------- Effect on the world ----------

  /** The node a NodeUp event announces: empty and ready. */
  function AnnouncedNode(ce: ClusterEvent): Node {
    Node(ce.nodeID, ce.clusterID, ce.totalGPUs, 0, ce.totalGPUs, [], Ready)
  }

  function ObservedReplica(ce: ClusterEvent): Replica {
    Replica(ce.replicaID, ce.appID, ce.clusterID, ce.nodeID, ce.gpus, Running, ce.timestamp)
  }

  ghost function ApplyClusterEvent(w: World, ce: ClusterEvent): World {
    match ce.kind
    case NodeUp => UpsertNode(w, AnnouncedNode(ce))
    case NodeDown => RemoveNode(w, ce.clusterID, ce.nodeID)
    case PodRunning => if ce.replicaID != "" then UpsertReplica(w, ObservedReplica(ce)) else w
    case PodTerminated => if ce.replicaID != "" then DeleteReplica(w, ce.replicaID) else w
  }

  ghost function Apply(w: World, e: Event): World {
    match e.kind
    case MetricsUpdate => if e.vllmMetrics.Some? then UpdateVLLMMetrics(w, e.vllmMetrics.value) else w
    case ClusterChange => if e.clusterEvent.Some? then ApplyClusterEvent(w, e.clusterEvent.value) else w
    case AppConfigUpdate => if e.application.Some? then UpsertApplication(w, e.application.value) else w
    case SLABreach => w
    case PeriodicEval => w
  }

  ghost function ApplyAll(w: World, es: seq<Event>): World {
    if es == [] then w else Apply(ApplyAll(w, es[..|es| - 1]), es[|es| - 1])
  }

  lemma {:induction false} ApplyAllConcat(w: World, xs: seq<Event>, ys: seq<Event>)
    ensures ApplyAll(w, xs + ys) == ApplyAll(ApplyAll(w, xs), ys)
  {
    if ys == [] {
      assert xs + ys == xs;
    } else {
      assert (xs + ys)[..|xs + ys| - 1] == xs + ys[..|ys| - 1];
      ApplyAllConcat(w, xs, ys[..|ys| - 1]);
    }
  }

  // ---------- Two updates taken by themselves ----------

  const EMPTY_WORLD := World(map[], map[], map[], map[], map[], map[], map[], map[], map[], 0)

  /** The application whose entry a table update replaces, if it replaces any. */
  function Target(e: Event): Option<AppID> {
    match e.kind
    case MetricsUpdate => if e.vllmMetrics.Some? then Some(e.vllmMetrics.value.appID) else None
    case AppConfigUpdate => if e.application.Some? then Some(e.application.value.appID) else None
    case _ => None
  }

  /** Keeping only the later of two events of a kind is harmless in every world
      exactly when the earlier one replaces nothing, or the same entry. */
  lemma CoalescingIsHarmlessIff(a: Event, b: Event)
    requires a.kind == b.kind && a.IsMergeable()
    ensures (forall w :: Apply(Apply(w, a), b) == Apply(w, b)) <==> (Target(a).None? || Target(a) == Target(b))
  {
    if Target(a).None? || Target(a) == Target(b) {
      forall w ensures Apply(Apply(w, a), b) == Apply(w, b) {
        if Target(a).Some? {
          OverwriteSame(w.vllmMetrics, w.applications, a, b);
        }
      }
    } else {
      var both, last := Apply(Apply(EMPTY_WORLD, a), b), Apply(EMPTY_WORLD, b);
      assert Target(a).value in both.vllmMetrics || Target(a).value in both.applications;
      assert Target(a).value !in last.vllmMetrics && Target(a).value !in last.applications;
    }
  }

  /** Two updates replace the same entry with different contents. */
  predicate Conflict(a: Event, b: Event) {
    && a.kind == b.kind && Target(a).Some? && Target(a) == Target(b)
    && if a.kind == MetricsUpdate then a.vllmMetrics != b.vllmMetrics else a.application != b.application
  }

  /** Merged events come out in any order, which is harmless in every world exactly
      when no two of them conflict. */
  lemma OrderIsHarmlessIff(a: Event, b: Event)
    requires a.IsMergeable() && b.IsMergeable()
    ensures (forall w :: Apply(Apply(w, a), b) == Apply(Apply(w, b), a)) <==> !Conflict(a, b)
  {
    if Conflict(a, b) {
      var ab, ba := Apply(Apply(EMPTY_WORLD, a), b), Apply(Apply(EMPTY_WORLD, b), a);
      var app := Target(a).value;
      assert if a.kind == MetricsUpdate then ab.vllmMetrics[app] != ba.vllmMetrics[app]
             else ab.applications[app] != ba.applications[app];
    } else {
      forall w ensures Apply(Apply(w, a), b) == Apply(Apply(w, b), a) {
        SwapUpdates(w, a, b);
      }
    }
  }

  function MetricsWith(ms: map<AppID, VLLMMetrics>, e: Event): map<AppID, VLLMMetrics> {
    if e.kind == MetricsUpdate && e.vllmMetrics.Some? then ms[e.vllmMetrics.value.appID := e.vllmMetrics.value] else ms
  }

  function ApplicationsWith(apps: map<AppID, Application>, e: Event): map<AppID, Application> {
    if e.kind == AppConfigUpdate && e.application.Some? then
      apps[e.application.value.appID := e.application.value]
    else apps
  }

  lemma UpdatesTables(w: World, e: Event)
    requires e.IsMergeable()
    ensures Apply(w, e) == w.(vllmMetrics := MetricsWith(w.vllmMetrics, e),
                              applications := ApplicationsWith(w.applications, e))
  {
  }

  lemma SwapUpdates(w: World, a: Event, b: Event)
    requires a.IsMergeable() && b.IsMergeable() && !Conflict(a, b)
    ensures Apply(Apply(w, a), b) == Apply(Apply(w, b), a)
  {
    UpdatesTables(w, a);
    UpdatesTables(w, b);
    UpdatesTables(Apply(w, a), b);
    UpdatesTables(Apply(w, b), a);
    SwapTables(w.vllmMetrics, w.applications, a, b);
  }

  lemma SwapTables(ms: map<AppID, VLLMMetrics>, apps: map<AppID, Application>, a: Event, b: Event)
    requires !Conflict(a, b)
    ensures MetricsWith(MetricsWith(ms, a), b) == MetricsWith(MetricsWith(ms, b), a)
    ensures ApplicationsWith(ApplicationsWith(apps, a), b) == ApplicationsWith(ApplicationsWith(apps, b), a)
  {
    if a.kind == b.kind == MetricsUpdate && Target(a).Some? && Target(b).Some? {
      SwapPuts(ms, Target(a).value, a.vllmMetrics.value, Target(b).value, b.vllmMetrics.value);
    }
    if a.kind == b.kind == AppConfigUpdate && Target(a).Some? && Target(b).Some? {
      SwapPuts(apps, Target(a).value, a.application.value, Target(b).value, b.application.value);
    }
  }

  lemma SwapPuts<V>(m: map<AppID, V>, k: AppID, v: V, j: AppID, u: V)
    requires k != j || v == u
    ensures m[k := v][j := u] == m[j := u][k := v]
  {
  }

  lemma OverwriteSame(ms: map<AppID, VLLMMetrics>, apps: map<AppID, Application>, a: Event, b: Event)
    requires Target(a).Some? && Target(a) == Target(b) && a.kind == b.kind
    ensures a.kind == MetricsUpdate ==>
              ms[Target(a).value := a.vllmMetrics.value][Target(a).value := b.vllmMetrics.value] ==
              ms[Target(a).value := b.vllmMetrics.value]
    ensures a.kind == AppConfigUpdate ==>
              apps[Target(a).value := a.application.value][Target(a).value := b.application.value] ==
              apps[Target(a).value := b.application.value]
  {
  }

  // ---------- Which event decides what ----------

  /** A table entry. */
  datatype Row = MetricsRow(metrics: VLLMMetrics) | ApplicationRow(application: Application)

  /** The event replaces the entry of this kind for this application. */
  predicate Writes(e: Event, kind: EventKind, app: AppID) {
    e.kind == kind && Target(e) == Some(app)
  }

  function Written(e: Event): Row
    requires Target(e).Some?
  {
    if e.kind == MetricsUpdate then MetricsRow(e.vllmMetrics.value) else ApplicationRow(e.application.value)
  }

  /** What the last event of a stream that replaces an entry puts there. */
  ghost function LastWritten(es: seq<Event>, kind: EventKind, app: AppID): Option<Row> {
    if es == [] then None
    else if Writes(es[|es| - 1], kind, app) then Some(Written(es[|es| - 1]))
    else LastWritten(es[..|es| - 1], kind, app)
  }

  ghost function RowIn(w: World, kind: EventKind, app: AppID): Option<Row> {
    match kind
    case MetricsUpdate => if app in w.vllmMetrics then Some(MetricsRow(w.vllmMetrics[app])) else None
    case AppConfigUpdate => if app in w.applications then Some(ApplicationRow(w.applications[app])) else None
    case _ => None
  }

  ghost function ClusterOnly(es: seq<Event>): seq<Event> {
    if es == [] then []
    else
      var last := es[|es| - 1];
      ClusterOnly(es[..|es| - 1]) + if last.kind == ClusterChange then [last] else []
  }

  ghost predicate SameTables(w: World, w': World) {
    w'.vllmMetrics == w.vllmMetrics && w'.applications == w.applications
  }

  lemma UpsertKeepsTables(w: World, r: Replica)
    ensures SameTables(w, UpsertReplica(w, r))
  {
  }

  lemma DeleteKeepsTables(w: World, id: ReplicaID)
    ensures SameTables(w, DeleteReplica(w, id))
  {
  }

  lemma NodesKeepTables(w: World, n: Node, c: ClusterID, id: NodeID)
    ensures SameTables(w, UpsertNode(w, n)) && SameTables(w, RemoveNode(w, c, id))
  {
  }

  lemma ClusterEventKeepsTables(w: World, ce: ClusterEvent)
    ensures SameTables(w, ApplyClusterEvent(w, ce))
  {
    UpsertKeepsTables(w, ObservedReplica(ce));
    DeleteKeepsTables(w, ce.replicaID);
    NodesKeepTables(w, AnnouncedNode(ce), ce.clusterID, ce.nodeID);
  }

  /** The only way an event reaches the tables. */
  lemma RowAfter(w: World, e: Event, kind: EventKind, app: AppID)
    ensures RowIn(Apply(w, e), kind, app) == if Writes(e, kind, app) then Some(Written(e)) else RowIn(w, kind, app)
  {
    if e.kind == ClusterChange {
      if e.clusterEvent.Some? {
        ClusterEventKeepsTables(w, e.clusterEvent.value);
      }
    } else {
      UpdatesTables(w, e);
    }
  }

  /** Whatever the events look like, an entry is what the last event that replaces it
      says, or what it was. */
  lemma {:induction false} RowDecidedByLast(w: World, es: seq<Event>, kind: EventKind, app: AppID)
    ensures RowIn(ApplyAll(w, es), kind, app) ==
            if LastWritten(es, kind, app).Some? then LastWritten(es, kind, app) else RowIn(w, kind, app)
  {
    if es != [] {
      RowDecidedByLast(w, es[..|es| - 1], kind, app);
      RowAfter(ApplyAll(w, es[..|es| - 1]), es[|es| - 1], kind, app);
    }
  }

  /** The world with metrics and applications taken from elsewhere. */
  ghost function WithTables(w: World, from: World): World {
    w.(vllmMetrics := from.vllmMetrics, applications := from.applications)
  }

  lemma UpsertIgnoresTables(w: World, from: World, r: Replica)
    ensures UpsertReplica(WithTables(w, from), r) == WithTables(UpsertReplica(w, r), from)
  {
    assert UpsertReplica(WithTables(w, from), r).clusters == UpsertReplica(w, r).clusters;
  }

  lemma DeleteIgnoresTables(w: World, from: World, id: ReplicaID)
    ensures DeleteReplica(WithTables(w, from), id) == WithTables(DeleteReplica(w, id), from)
  {
    assert DeleteReplica(WithTables(w, from), id).clusters == DeleteReplica(w, id).clusters;
  }

  lemma NodesIgnoreTables(w: World, from: World, n: Node, c: ClusterID, id: NodeID)
    ensures UpsertNode(WithTables(w, from), n) == WithTables(UpsertNode(w, n), from)
    ensures RemoveNode(WithTables(w, from), c, id) == WithTables(RemoveNode(w, c, id), from)
  {
  }

  lemma ClusterEventsIgnoreTables(w: World, from: World, e: Event)
    requires e.kind == ClusterChange
    ensures Apply(WithTables(w, from), e) == WithTables(Apply(w, e), from)
  {
    if e.clusterEvent.Some? {
      var ce := e.clusterEvent.value;
      match ce.kind
      case NodeUp => NodesIgnoreTables(w, from, AnnouncedNode(ce), ce.clusterID, ce.nodeID);
      case NodeDown => NodesIgnoreTables(w, from, AnnouncedNode(ce), ce.clusterID, ce.nodeID);
      case PodRunning => UpsertIgnoresTables(w, from, ObservedReplica(ce));
      case PodTerminated => DeleteIgnoresTables(w, from, ce.replicaID);
    }
  }

  lemma TableEventsChangeTablesOnly(w: World, e: Event)
    requires e.kind != ClusterChange
    ensures WithTables(Apply(w, e), w) == w
  {
    UpdatesTables(w, e);
  }

  /** Everything but metrics and applications is decided by the cluster events, in
      their order. */
  lemma {:induction false} RestDecidedByClusterEvents(w: World, es: seq<Event>)
    ensures WithTables(ApplyAll(w, es), w) == ApplyAll(w, ClusterOnly(es))
  {
    if es != [] {
      var front, last := es[..|es| - 1], es[|es| - 1];
      RestDecidedByClusterEvents(w, front);
      if last.kind == ClusterChange {
        ClusterEventsIgnoreTables(ApplyAll(w, front), w, last);
        assert ClusterOnly(es)[..|ClusterOnly(es)| - 1] == ClusterOnly(front);
      } else {
        TableEventsChangeTablesOnly(ApplyAll(w, front), last);
        assert ClusterOnly(es) == ClusterOnly(front);
      }
    }
  }

  ghost predicate SameEffect(xs: seq<Event>, ys: seq<Event>) {
    forall w :: ApplyAll(w, xs) == ApplyAll(w, ys)
  }

  ghost predicate SameLast(xs: seq<Event>, ys: seq<Event>) {
    forall kind, app :: LastWritten(xs, kind, app) == LastWritten(ys, kind, app)
  }

  /** Two streams with the same cluster events in the same order do the same to every
      world exactly when they leave the same in every entry they replace. */
  lemma SameEffectIff(xs: seq<Event>, ys: seq<Event>)
    requires ClusterOnly(xs) == ClusterOnly(ys)
    ensures SameEffect(xs, ys) <==> SameLast(xs, ys)
  {
    if SameLast(xs, ys) {
      forall w ensures ApplyAll(w, xs) == ApplyAll(w, ys) {
        SameLastSameWorld(w, xs, ys);
      }
    }
    if SameEffect(xs, ys) {
      assert ApplyAll(EMPTY_WORLD, xs) == ApplyAll(EMPTY_WORLD, ys);
      forall kind, app ensures LastWritten(xs, kind, app) == LastWritten(ys, kind, app) {
        RowDecidedByLast(EMPTY_WORLD, xs, kind, app);
        RowDecidedByLast(EMPTY_WORLD, ys, kind, app);
      }
    }
  }

  lemma SameLastSameWorld(w: World, xs: seq<Event>, ys: seq<Event>)
    requires ClusterOnly(xs) == ClusterOnly(ys) && SameLast(xs, ys)
    ensures ApplyAll(w, xs) == ApplyAll(w, ys)
  {
    RestDecidedByClusterEvents(w, xs);
    RestDecidedByClusterEvents(w, ys);
    forall kind, app ensures RowIn(ApplyAll(w, xs), kind, app) == RowIn(ApplyAll(w, ys), kind, app) {
      RowDecidedByLast(w, xs, kind, app);
      RowDecidedByLast(w, ys, kind, app);
      assert LastWritten(xs, kind, app) == LastWritten(ys, kind, app);
    }
    SameRowsSameTables(ApplyAll(w, xs), ApplyAll(w, ys));
  }

  lemma SameRowsSameTables(w: World, w': World)
    requires forall kind, app :: RowIn(w, kind, app) == RowIn(w', kind, app)
    ensures SameTables(w, w')
  {
    forall app: AppID
      ensures app in w.vllmMetrics <==> app in w'.vllmMetrics
      ensures app in w.vllmMetrics ==> w.vllmMetrics[app] == w'.vllmMetrics[app]
      ensures app in w.applications <==> app in w'.applications
      ensures app in w.applications ==> w.applications[app] == w'.applications[app]
    {
      assert RowIn(w, MetricsUpdate, app) == RowIn(w', MetricsUpdate, app);
      assert RowIn(w, AppConfigUpdate, app) == RowIn(w', AppConfigUpdate, app);
    }
  }

  // ---------- Accounting over event streams ----------

  /** A cluster event that the accounting survives: a node announced empty has no
      replica tracked on it, and a running pod does not change size in place. */
  ghost predicate Clean(w: World, ce: ClusterEvent) {
    match ce.kind
    case NodeUp => IdsAt(w.replicas, ce.clusterID, ce.nodeID) == {}
    case PodRunning => ce.replicaID == "" || !ResizesInPlace(w, ObservedReplica(ce))
    case _ => true
  }

  lemma ClusterEventKeepsAccountingIff(w: World, ce: ClusterEvent)
    requires Accounted(w)
    ensures Accounted(ApplyClusterEvent(w, ce)) <==> Clean(w, ce)
  {
    match ce.kind
    case NodeUp =>
      UpsertNodeKeepsAccountingIff(w, AnnouncedNode(ce));
      EmptyNodeAccountedIff(w.replicas, AnnouncedNode(ce));
    case NodeDown =>
      RemoveNodeKeepsAccounting(w, ce.clusterID, ce.nodeID);
    case PodRunning =>
      UpsertKeepsAccountingIff(w, ObservedReplica(ce));
    case PodTerminated =>
      DeleteKeepsAccounting(w, ce.replicaID);
  }

  ghost predicate CleanEvent(w: World, e: Event) {
    e.kind == ClusterChange && e.clusterEvent.Some? ==> Clean(w, e.clusterEvent.value)
  }

  ghost predicate AccountedAfter(w: World, es: seq<Event>, n: nat)
    requires n <= |es|
  {
    Accounted(ApplyAll(w, es[..n]))
  }

  ghost predicate CleanAt(w: World, es: seq<Event>, n: nat)
    requires n < |es|
  {
    CleanEvent(ApplyAll(w, es[..n]), es[n])
  }

  /** The accounting holds after every prefix of a stream exactly when every cluster
      event is clean where it arrives. */
  lemma {:induction false} StreamKeepsAccountingIff(w: World, es: seq<Event>)
    requires Accounted(w)
    ensures (forall n: nat | n <= |es| :: AccountedAfter(w, es, n)) <==> (forall n: nat | n < |es| :: CleanAt(w, es, n))
  {
    if forall n: nat | n <= |es| :: AccountedAfter(w, es, n) {
      forall n: nat | n < |es| ensures CleanAt(w, es, n) {
        assert AccountedAfter(w, es, n) && AccountedAfter(w, es, n + 1);
        StepKeepsAccountingIff(w, es, n);
      }
    }
    if forall n: nat | n < |es| :: CleanAt(w, es, n) {
      assert es[..0] == [] && AccountedAfter(w, es, 0);
      for n := 0 to |es|
        invariant forall m: nat | m <= n :: AccountedAfter(w, es, m)
      {
        assert AccountedAfter(w, es, n) && CleanAt(w, es, n);
        StepKeepsAccountingIff(w, es, n);
      }
    }
  }

  lemma TableEventKeepsAccounting(w: World, e: Event)
    requires Accounted(w) && !(e.kind == ClusterChange && e.clusterEvent.Some?)
    ensures Accounted(Apply(w, e))
  {
    if e.IsMergeable() {
      UpdatesTables(w, e);
    }
    SameAccounts(w, Apply(w, e));
  }

  lemma SameAccounts(w: World, w': World)
    requires w'.clusters == w.clusters && w'.replicas == w.replicas && w'.replicasGauge == w.replicasGauge
    ensures Accounted(w) ==> Accounted(w')
  {
  }

  lemma StepKeepsAccountingIff(w: World, es: seq<Event>, n: nat)
    requires n < |es| && Accounted(ApplyAll(w, es[..n]))
    ensures Accounted(ApplyAll(w, es[..n + 1])) <==> CleanEvent(ApplyAll(w, es[..n]), es[n])
  {
    var here, e := ApplyAll(w, es[..n]), es[n];
    assert ApplyAll(w, es[..n + 1]) == Apply(here, e) by {
      assert es[..n + 1][..n] == es[..n];
    }
    if e.kind == ClusterChange && e.clusterEvent.Some? {
      ClusterEventKeepsAccountingIff(here, e.clusterEvent.value);
    } else {
      TableEventKeepsAccounting(here, e);
    }
  }
}
