/** The scheduler's shared data model: clusters, nodes, applications, replicas,
    reservations, decisions and plans. Times are naturals counting nanoseconds,
    with 0 standing for the zero time ("never"); floating-point fields are reals. */
module Model {
  const SECOND: nat := 1_000_000_000

  type ClusterID = string
  type NodeID = string
  type AppID = string
  type ReplicaID = string
  type ModelID = string
  type ReservationID = string

  /** Plan-local operation ids are opaque tokens (UUIDs), only ever compared for
      equality. */
  datatype OperationID = OperationID(uuid: string)

  datatype Option<+T> = None | Some(value: T)

  datatype NodeStatus = Ready | Cordoned | NodeDraining | Down

  datatype ReplicaStatus = Pending | Running | Draining | Terminated

  datatype CacheTier = GpuMemory | LocalNVMe | ClusterStorage

  datatype FailureDomainRule = SpreadClusters | NoRule

  datatype ReservationStatus = Active | Fulfilled | Expired

  datatype Node = Node(
    nodeID: NodeID,
    clusterID: ClusterID,
    totalGPUs: int,
    allocatedGPUs: int,
    freeGPUs: int,
    pods: seq<ReplicaID>,
    status: NodeStatus)

  datatype Cluster = Cluster(
    clusterID: ClusterID,
    nodes: map<NodeID, Node>,
    fragmentationScore: real)

  datatype Application = Application(
    appID: AppID,
    modelID: ModelID,
    gpusPerReplica: int,
    priority: int,
    minReplicas: int,
    failureDomainRule: FailureDomainRule,
    maxP99TTFTMs: int)

  datatype Replica = Replica(
    replicaID: ReplicaID,
    appID: AppID,
    clusterID: ClusterID,
    nodeID: NodeID,
    gpus: int,
    status: ReplicaStatus,
    createdAt: nat)
  {
    /** Running or pending: the replicas every engine counts. */
    predicate IsActive() {
      status == Running || status == Pending
    }
  }

  datatype CacheLocation = CacheLocation(clusterID: ClusterID, nodeID: NodeID, tier: CacheTier)

  datatype PerformanceProfile = PerformanceProfile(coldStartSeconds: real)

  datatype VLLMMetrics = VLLMMetrics(
    appID: AppID,
    avgWaitingQueueDepth: real,
    avgBatchUtilization: real,
    avgKVCacheUtilization: real,
    maxKVCacheUtilization: real,
    p99TimeToFirstTokenMs: real)

  datatype GPUReservation = GPUReservation(
    reservationID: ReservationID,
    clusterID: ClusterID,
    gpus: int,
    forAppID: AppID,
    createdAt: nat,
    ttlSeconds: int,
    status: ReservationStatus)

  datatype ScalingHistory = ScalingHistory(
    lastScaleUpAt: nat,
    lastScaleDownAt: nat,
    consecutiveScaleDownSignals: int)

  datatype ScaleDirection = Up | DownDirection | Unchanged

  datatype ScaleSignal = QueueSignal | KVCacheSignal | SLASignal | EfficiencySignal | NoSignal

  datatype ScalingDecision = ScalingDecision(
    appID: AppID,
    currentCount: int,
    runningCount: int,
    pendingCount: int,
    targetCount: int,
    direction: ScaleDirection,
    signal: ScaleSignal,
    slaBreach: bool,
    scaleActionApproved: bool,
    actionAt: nat,
    scaleDownSignalObserved: bool)

  datatype SchedulingConstraints = SchedulingConstraints(
    requiredGPUs: int,
    preferredNodes: seq<NodeID>,
    cacheAffinityModel: ModelID)

  datatype ScaleUpDecision = ScaleUpDecision(
    appID: AppID,
    clusterID: ClusterID,
    reservationID: ReservationID,
    constraints: SchedulingConstraints)

  datatype ScaleDownDecision = ScaleDownDecision(appID: AppID, replicaID: ReplicaID)

  datatype PreemptionDecision = PreemptionDecision(
    victimReplicaID: ReplicaID,
    victimAppID: AppID,
    nodeID: NodeID,
    clusterID: ClusterID,
    gracePeriodSeconds: int)

  datatype PreemptionPlan = PreemptionPlan(
    victims: seq<PreemptionDecision>,
    targetCluster: ClusterID,
    constraints: SchedulingConstraints)

  datatype MigrateDecision = MigrateDecision(
    appID: AppID,
    sourceReplicaID: ReplicaID,
    targetClusterID: ClusterID,
    constraints: SchedulingConstraints)

  datatype PlacementDecisions = PlacementDecisions(
    scaleUps: seq<ScaleUpDecision>,
    scaleDowns: seq<ScaleDownDecision>,
    preemptions: seq<PreemptionDecision>,
    reservations: seq<GPUReservation>)

  /** An operation's payload; its type tag is the constructor. */
  datatype Payload =
    | Preempt(preemption: PreemptionDecision)
    | ScaleDown(scaleDown: ScaleDownDecision)
    | ScaleUp(scaleUp: ScaleUpDecision)

  datatype OperationType = PreemptOp | ScaleDownOp | ScaleUpOp

  function TypeOf(p: Payload): OperationType {
    match p
    case Preempt(_) => PreemptOp
    case ScaleDown(_) => ScaleDownOp
    case ScaleUp(_) => ScaleUpOp
  }

  datatype Operation = Operation(
    id: OperationID,
    payload: Payload,
    dependsOn: seq<OperationID>)
}
