/** The scaling engine's targets, and the cooldown and stabilization machine that
    decides which of them are acted on. */
module Scaling {
  import opened Model
  import opened Snapshots
  import opened World

  datatype ScalingConfig = ScalingConfig(
    queueHighWatermark: real,
    queueTarget: real,
    queueLowWatermark: real,
    kvCacheHighWatermark: real,
    kvCacheTarget: real,
    kvCacheLowWatermark: real,
    batchLowWatermark: real,
    maxScaleDownPerCycle: int,
    maxScaleUpPerCycle: int,
    scaleUpCooldown: nat,
    scaleDownCooldown: nat,
    stabilizationCycles: int)

  const DEFAULT_CONFIG := ScalingConfig(10.0, 5.0, 1.0, 0.85, 0.70, 0.40, 0.30, 2, 10, 1 * SECOND, 3 * SECOND, 3)

  function Max(a: int, b: int): int {
    if a > b then a else b
  }

  function Min(a: int, b: int): int {
    if a < b then a else b
  }

  function MaxReal(a: real, b: real): real {
    if a > b then a else b
  }

  /** The least integer not below x. */
  function Ceil(x: real): (n: int)
    ensures (n - 1) as real < x <= n as real
  {
    if x == x.Floor as real then x.Floor else x.Floor + 1
  }

  // ---------- What the raw target is for ----------

  ghost predicate QueuePressed(cfg: ScalingConfig, m: VLLMMetrics) {
    m.avgWaitingQueueDepth > cfg.queueHighWatermark
  }

  ghost predicate CachePressed(cfg: ScalingConfig, m: VLLMMetrics) {
    m.maxKVCacheUtilization > cfg.kvCacheHighWatermark
  }

  ghost predicate Breached(app: Application, m: VLLMMetrics) {
    app.maxP99TTFTMs > 0 && m.p99TimeToFirstTokenMs > app.maxP99TTFTMs as real
  }

  /** With the load of current replicas spread over n, each has no more than its target. */
  ghost predicate Carries(n: int, target: real, current: int, load: real) {
    n as real * target >= current as real * load
  }

  /** n replicas bring every metric that is over its limit back to its target. */
  ghost predicate Relieves(cfg: ScalingConfig, app: Application, m: VLLMMetrics, current: int, n: int) {
    && (QueuePressed(cfg, m) ==> Carries(n, cfg.queueTarget, current, m.avgWaitingQueueDepth))
    && (CachePressed(cfg, m) ==> Carries(n, cfg.kvCacheTarget, current, m.maxKVCacheUtilization))
    && (Breached(app, m) ==> Carries(n, app.maxP99TTFTMs as real, current, m.p99TimeToFirstTokenMs))
  }

  /** Some limit is exceeded and the current replicas are not enough for it. */
  ghost predicate Strained(cfg: ScalingConfig, app: Application, m: VLLMMetrics, current: int) {
    if current == 0 then QueuePressed(cfg, m) || CachePressed(cfg, m) || Breached(app, m)
    else !Relieves(cfg, app, m, current, current)
  }

  /** n is the least count that relieves, or 1 where there is nothing to multiply. */
  ghost predicate LeastRelieving(cfg: ScalingConfig, app: Application, m: VLLMMetrics, current: int, n: int) {
    if current == 0 then n == 1
    else
      && n > current && Relieves(cfg, app, m, current, n)
      && forall k: int | k < n :: !Relieves(cfg, app, m, current, k)
  }

  /** Everything is low and there is more than the minimum. */
  ghost predicate Idle(cfg: ScalingConfig, app: Application, m: VLLMMetrics, current: int) {
    && m.avgWaitingQueueDepth < cfg.queueLowWatermark && m.avgBatchUtilization < cfg.batchLowWatermark
    && m.avgKVCacheUtilization < cfg.kvCacheLowWatermark && current > app.minReplicas
  }

  /** n replicas, at least the minimum, can take the whole batch, cache and queue load. */
  ghost predicate Suffices(cfg: ScalingConfig, app: Application, m: VLLMMetrics, current: int, n: int) {
    && n >= app.minReplicas
    && n as real >= current as real * m.avgBatchUtilization
    && n as real >= current as real * m.avgKVCacheUtilization
    && Carries(n, cfg.queueTarget, current, m.avgWaitingQueueDepth)
  }

  ghost predicate LeastSufficient(cfg: ScalingConfig, app: Application, m: VLLMMetrics, current: int, n: int) {
    Suffices(cfg, app, m, current, n) && forall k: int | k < n :: !Suffices(cfg, app, m, current, k)
  }

  /** The count wanted before the minimum and the caps: enough under pressure, no more
      than needed when idle, otherwise what there is. */
  ghost predicate IsWanted(cfg: ScalingConfig, app: Application, m: VLLMMetrics, current: int, wanted: int) {
    if Strained(cfg, app, m, current) then LeastRelieving(cfg, app, m, current, wanted)
    else if Idle(cfg, app, m, current) then LeastSufficient(cfg, app, m, current, wanted)
    else wanted == current
  }

  /** One replica less would not do for this metric, which is over its limit. */
  ghost predicate Binds(pressed: bool, target: real, load: real, current: int, n: int) {
    pressed && (current == 0 || !Carries(n - 1, target, current, load))
  }

  /** The signal names the first of queue, cache and latency that the count wanted is
      needed for, or that it is wanted for efficiency. */
  ghost predicate IsSignalFor(cfg: ScalingConfig, app: Application, m: VLLMMetrics, current: int, wanted: int,
                              signal: ScaleSignal)
  {
    var queue := Binds(QueuePressed(cfg, m), cfg.queueTarget, m.avgWaitingQueueDepth, current, wanted);
    var cache := Binds(CachePressed(cfg, m), cfg.kvCacheTarget, m.maxKVCacheUtilization, current, wanted);
    var sla := Binds(Breached(app, m), app.maxP99TTFTMs as real, m.p99TimeToFirstTokenMs, current, wanted);
    if Strained(cfg, app, m, current) then
      && (queue ==> signal == QueueSignal)
      && (!queue && cache ==> signal == KVCacheSignal)
      && (!queue && !cache ==> sla && signal == SLASignal)
    else signal == if wanted < current then EfficiencySignal else NoSignal
  }

  /** The count wanted, raised to the minimum, as far as the caps of one cycle let it go. */
  ghost predicate IsCapped(cfg: ScalingConfig, app: Application, current: int, wanted: int, raw: int) {
    var floored := if wanted < app.minReplicas then app.minReplicas else wanted;
    && current - cfg.maxScaleDownPerCycle <= raw <= current + cfg.maxScaleUpPerCycle
    && (raw < floored ==> raw == current + cfg.maxScaleUpPerCycle)
    && (raw > floored ==> raw == current - cfg.maxScaleDownPerCycle)
  }

  ghost predicate IsRawTarget(cfg: ScalingConfig, app: Application, m: VLLMMetrics, current: int, wanted: int,
                              raw: int, signal: ScaleSignal)
  {
    && IsWanted(cfg, app, m, current, wanted) && IsSignalFor(cfg, app, m, current, wanted, signal)
    && (cfg.maxScaleUpPerCycle >= 0 && cfg.maxScaleDownPerCycle >= 0 ==> IsCapped(cfg, app, current, wanted, raw))
  }

  // ---------- Raw target ----------

  /** Replicas needed to bring a pressed metric back to its target. */
  function Required(current: int, factor: real): int {
    if current == 0 then 1 else Ceil(current as real * factor)
  }

  function ScaleUpTarget(cfg: ScalingConfig, app: Application, m: VLLMMetrics, current: int): (int, ScaleSignal)
    requires cfg.queueTarget > 0.0 && cfg.kvCacheTarget > 0.0
  {
    var queue := if m.avgWaitingQueueDepth > cfg.queueHighWatermark then
                   Required(current, m.avgWaitingQueueDepth / cfg.queueTarget) else current;
    var cache := if m.maxKVCacheUtilization > cfg.kvCacheHighWatermark then
                   Required(current, m.maxKVCacheUtilization / cfg.kvCacheTarget) else current;
    var sla := if app.maxP99TTFTMs > 0 && m.p99TimeToFirstTokenMs > app.maxP99TTFTMs as real then
                 Required(current, m.p99TimeToFirstTokenMs / app.maxP99TTFTMs as real) else current;
    var target := Max(queue, Max(cache, sla));
    (target, if target == queue then QueueSignal else if target == cache then KVCacheSignal else SLASignal)
  }

  /** Replicas needed for the highest of three utilizations. */
  function NeededFor(current: int, batch: real, cache: real, queue: real): int {
    Ceil(current as real * MaxReal(batch, MaxReal(cache, queue)))
  }

  function EfficiencyTarget(cfg: ScalingConfig, app: Application, m: VLLMMetrics, current: int): int
    requires cfg.queueTarget > 0.0
  {
    if m.avgWaitingQueueDepth < cfg.queueLowWatermark && m.avgBatchUtilization < cfg.batchLowWatermark
       && m.avgKVCacheUtilization < cfg.kvCacheLowWatermark && current > app.minReplicas then
      Max(NeededFor(current, m.avgBatchUtilization, m.avgKVCacheUtilization,
                    m.avgWaitingQueueDepth / cfg.queueTarget), app.minReplicas)
    else current
  }

  /** Cap the change per cycle, after raising the target to the minimum. */
  function Dampen(cfg: ScalingConfig, app: Application, wanted: int, current: int): int {
    var floored := Max(wanted, app.minReplicas);
    var capped := if floored < current then Max(floored, current - cfg.maxScaleDownPerCycle) else floored;
    if capped > current then Min(capped, current + cfg.maxScaleUpPerCycle) else capped
  }

  function ComputeTargetReplicas(cfg: ScalingConfig, app: Application, m: VLLMMetrics, current: int): (int, ScaleSignal)
    requires cfg.queueTarget > 0.0 && cfg.kvCacheTarget > 0.0
  {
    var (up, upSignal) := ScaleUpTarget(cfg, app, m, current);
    if up > current then (Dampen(cfg, app, up, current), upSignal)
    else
      var eff := EfficiencyTarget(cfg, app, m, current);
      (Dampen(cfg, app, eff, current), if eff < current then EfficiencySignal else NoSignal)
  }

  /** Multiplying a count by load over target is dividing its load among replicas at
      target. */
  lemma CarriesIff(n: int, target: real, current: int, load: real)
    requires target > 0.0
    ensures Carries(n, target, current, load) <==> n as real >= current as real * (load / target)
  {
    var x, y := current as real * (load / target), n as real;
    assert x * target == current as real * load by {
      ProductQuotient(current as real, load, target);
    }
    ScalingKeepsOrder(y, x, target);
  }

  lemma ProductQuotient(a: real, b: real, t: real)
    requires t > 0.0
    ensures a * (b / t) * t == a * b
  {
    assert b / t * t == b;
    assert a * (b / t) * t == a * (b / t * t);
  }

  lemma ScalingKeepsOrder(y: real, x: real, t: real)
    requires t > 0.0
    ensures y * t >= x * t <==> y >= x
  {
    assert y * t - x * t == (y - x) * t;
  }

  /** What is required for a pressed metric is exactly enough. */
  lemma RequiredIff(n: int, target: real, current: int, load: real)
    requires target > 0.0 && current != 0
    ensures Carries(n, target, current, load) <==> n >= Required(current, load / target)
  {
    CarriesIff(n, target, current, load);
  }

  /** From the current count upwards, enough is what the three requirements allow. */
  lemma RelievesFrom(cfg: ScalingConfig, app: Application, m: VLLMMetrics, current: int, n: int)
    requires cfg.queueTarget > 0.0 && cfg.kvCacheTarget > 0.0 && current > 0 && n >= current
    ensures Relieves(cfg, app, m, current, n) <==> n >= ScaleUpTarget(cfg, app, m, current).0
  {
    RequiredIff(n, cfg.queueTarget, current, m.avgWaitingQueueDepth);
    RequiredIff(n, cfg.kvCacheTarget, current, m.maxKVCacheUtilization);
    if app.maxP99TTFTMs > 0 {
      RequiredIff(n, app.maxP99TTFTMs as real, current, m.p99TimeToFirstTokenMs);
    }
  }

  lemma MoreCarryMore(n: int, n': int, target: real, current: int, load: real)
    requires n <= n' && target > 0.0 && Carries(n, target, current, load)
    ensures Carries(n', target, current, load)
  {
    ScalingKeepsOrder(n' as real, n as real, target);
  }

  lemma MoreRelieveMore(cfg: ScalingConfig, app: Application, m: VLLMMetrics, current: int, n: int, n': int)
    requires cfg.queueTarget > 0.0 && cfg.kvCacheTarget > 0.0 && n <= n' && Relieves(cfg, app, m, current, n)
    ensures Relieves(cfg, app, m, current, n')
  {
    if QueuePressed(cfg, m) {
      MoreCarryMore(n, n', cfg.queueTarget, current, m.avgWaitingQueueDepth);
    }
    if CachePressed(cfg, m) {
      MoreCarryMore(n, n', cfg.kvCacheTarget, current, m.maxKVCacheUtilization);
    }
    if Breached(app, m) {
      MoreCarryMore(n, n', app.maxP99TTFTMs as real, current, m.p99TimeToFirstTokenMs);
    }
  }

  /** Under strain the scale-up target is the least count that relieves it, and without
      strain there is none. */
  lemma ScaleUpTargetRelieves(cfg: ScalingConfig, app: Application, m: VLLMMetrics, current: int)
    requires cfg.queueTarget > 0.0 && cfg.kvCacheTarget > 0.0 && current >= 0
    ensures var up := ScaleUpTarget(cfg, app, m, current).0;
            && (up > current <==> Strained(cfg, app, m, current))
            && (up > current ==> LeastRelieving(cfg, app, m, current, up))
  {
    var up := ScaleUpTarget(cfg, app, m, current).0;
    if current > 0 {
      RelievesFrom(cfg, app, m, current, current);
      if up > current {
        RelievesFrom(cfg, app, m, current, up);
        forall k: int | k < up ensures !Relieves(cfg, app, m, current, k) {
          if Relieves(cfg, app, m, current, k) {
            var k' := if k < current then current else k;
            MoreRelieveMore(cfg, app, m, current, k, k');
            RelievesFrom(cfg, app, m, current, k');
          }
        }
      }
    }
  }

  lemma SignalIsFor(cfg: ScalingConfig, app: Application, m: VLLMMetrics, current: int)
    requires cfg.queueTarget > 0.0 && cfg.kvCacheTarget > 0.0 && current >= 0
    requires ScaleUpTarget(cfg, app, m, current).0 > current
    ensures var (up, signal) := ScaleUpTarget(cfg, app, m, current);
            IsSignalFor(cfg, app, m, current, up, signal)
  {
    var (up, signal) := ScaleUpTarget(cfg, app, m, current);
    ScaleUpTargetRelieves(cfg, app, m, current);
    if current > 0 {
      RequiredIff(up - 1, cfg.queueTarget, current, m.avgWaitingQueueDepth);
      RequiredIff(up - 1, cfg.kvCacheTarget, current, m.maxKVCacheUtilization);
      if app.maxP99TTFTMs > 0 {
        RequiredIff(up - 1, app.maxP99TTFTMs as real, current, m.p99TimeToFirstTokenMs);
      }
    }
  }

  /** Sizing for the highest utilization leaves room for all three. */
  lemma NeededForIff(n: int, current: int, batch: real, cache: real, queue: real)
    requires current >= 0
    ensures n >= NeededFor(current, batch, cache, queue) <==>
            n as real >= current as real * batch && n as real >= current as real * cache
            && n as real >= current as real * queue
  {
    CeilIff(n, current as real * MaxReal(batch, MaxReal(cache, queue)));
    TimesHigherIff(current as real, cache, queue, n as real);
    TimesHigherIff(current as real, batch, MaxReal(cache, queue), n as real);
  }

  lemma CeilIff(n: int, x: real)
    ensures n >= Ceil(x) <==> n as real >= x
  {
  }

  lemma TimesHigherIff(t: real, a: real, b: real, y: real)
    requires t >= 0.0
    ensures y >= t * MaxReal(a, b) <==> y >= t * a && y >= t * b
  {
    if a > b {
      TimesKeepsOrder(t, b, a);
    } else {
      TimesKeepsOrder(t, a, b);
    }
  }

  lemma TimesKeepsOrder(t: real, x: real, y: real)
    requires t >= 0.0 && x <= y
    ensures t * x <= t * y
  {
    assert t * y - t * x == t * (y - x);
  }

  lemma SufficesIff(cfg: ScalingConfig, app: Application, m: VLLMMetrics, current: int, queue: real, n: int)
    requires current >= 0 && n >= app.minReplicas
    requires Carries(n, cfg.queueTarget, current, m.avgWaitingQueueDepth) <==> n as real >= current as real * queue
    ensures Suffices(cfg, app, m, current, n) <==>
            n >= NeededFor(current, m.avgBatchUtilization, m.avgKVCacheUtilization, queue)
  {
    NeededForIff(n, current, m.avgBatchUtilization, m.avgKVCacheUtilization, queue);
  }

  lemma LeastFrom(cfg: ScalingConfig, app: Application, m: VLLMMetrics, current: int, need: int, n: int)
    requires n == Max(need, app.minReplicas)
    requires forall k: int | k >= app.minReplicas :: Suffices(cfg, app, m, current, k) <==> k >= need
    ensures LeastSufficient(cfg, app, m, current, n)
  {
  }

  lemma EfficiencyTargetSuffices(cfg: ScalingConfig, app: Application, m: VLLMMetrics, current: int)
    requires cfg.queueTarget > 0.0 && current >= 0
    ensures var eff := EfficiencyTarget(cfg, app, m, current);
            if Idle(cfg, app, m, current) then LeastSufficient(cfg, app, m, current, eff) else eff == current
  {
    if Idle(cfg, app, m, current) {
      var queue := m.avgWaitingQueueDepth / cfg.queueTarget;
      var need := NeededFor(current, m.avgBatchUtilization, m.avgKVCacheUtilization, queue);
      forall n: int | n >= app.minReplicas ensures Suffices(cfg, app, m, current, n) <==> n >= need {
        CarriesIff(n, cfg.queueTarget, current, m.avgWaitingQueueDepth);
        SufficesIff(cfg, app, m, current, queue, n);
      }
      LeastFrom(cfg, app, m, current, need, EfficiencyTarget(cfg, app, m, current));
    }
  }

  /** The raw target: the least count that relieves every metric over its limit, or when
      idle the least that can take the load, raised to the minimum as far as the caps let
      it go. */
  lemma TargetIsWanted(cfg: ScalingConfig, app: Application, m: VLLMMetrics, current: int)
    requires cfg.queueTarget > 0.0 && cfg.kvCacheTarget > 0.0 && current >= 0
    ensures var (raw, signal) := ComputeTargetReplicas(cfg, app, m, current);
            exists wanted :: IsRawTarget(cfg, app, m, current, wanted, raw, signal)
  {
    var (raw, signal) := ComputeTargetReplicas(cfg, app, m, current);
    ScaleUpTargetRelieves(cfg, app, m, current);
    var up := ScaleUpTarget(cfg, app, m, current).0;
    if up > current {
      SignalIsFor(cfg, app, m, current);
      assert IsRawTarget(cfg, app, m, current, up, raw, signal);
    } else {
      EfficiencyTargetSuffices(cfg, app, m, current);
      assert IsRawTarget(cfg, app, m, current, EfficiencyTarget(cfg, app, m, current), raw, signal);
    }
  }

  /** Metrics, limits and count leave only one count to want, one signal to name it by
      and one target for the cycle. */
  lemma RawTargetIsUnique(cfg: ScalingConfig, app: Application, m: VLLMMetrics, current: int, wanted: int,
                          wanted': int, raw: int, raw': int, signal: ScaleSignal, signal': ScaleSignal)
    requires cfg.maxScaleUpPerCycle >= 0 && cfg.maxScaleDownPerCycle >= 0
    requires IsRawTarget(cfg, app, m, current, wanted, raw, signal)
    requires IsRawTarget(cfg, app, m, current, wanted', raw', signal')
    ensures wanted == wanted' && raw == raw' && signal == signal'
  {
  }

  /** The target is not always at least the minimum, as the floor is applied before
      the cap: it is exactly when one cycle's growth can reach the minimum. */
  lemma TargetReachesMinimumIff(cfg: ScalingConfig, app: Application, m: VLLMMetrics, current: int)
    requires cfg.queueTarget > 0.0 && cfg.kvCacheTarget > 0.0 && cfg.maxScaleUpPerCycle >= 0
    ensures ComputeTargetReplicas(cfg, app, m, current).0 >= app.minReplicas <==>
            app.minReplicas <= current + cfg.maxScaleUpPerCycle
  {
  }

  /** One cycle never moves the target further than the caps allow. */
  lemma TargetMovesWithinCaps(cfg: ScalingConfig, app: Application, m: VLLMMetrics, current: int)
    requires cfg.queueTarget > 0.0 && cfg.kvCacheTarget > 0.0
    requires cfg.maxScaleUpPerCycle >= 0 && cfg.maxScaleDownPerCycle >= 0
    ensures current - cfg.maxScaleDownPerCycle <= ComputeTargetReplicas(cfg, app, m, current).0
            <= current + cfg.maxScaleUpPerCycle
  {
  }

  // ---------- Effective target ----------

  predicate IsSLABreach(app: Application, m: VLLMMetrics) {
    app.maxP99TTFTMs != 0 && m.p99TimeToFirstTokenMs > app.maxP99TTFTMs as real
  }

  /** Pending for longer than twice the cold start. */
  predicate IsStuck(r: Replica, now: nat, coldStartSeconds: real) {
    r.status == Pending && r.createdAt != 0
    && (now - r.createdAt) > (coldStartSeconds * 2.0).Floor * SECOND
  }

  /** The application's stuck replicas, if they are to be replaced: during an SLA
      breach, and if its cold start is known. */
  ghost function StuckIds(app: Application, snap: Snapshot): set<ReplicaID> {
    if app.appID in snap.performanceProfiles && snap.performanceProfiles[app.appID].coldStartSeconds > 0.0
       && app.appID in snap.vllmMetrics && app.maxP99TTFTMs != 0
       && snap.vllmMetrics[app.appID].p99TimeToFirstTokenMs > app.maxP99TTFTMs as real then
      var patience := (2.0 * snap.performanceProfiles[app.appID].coldStartSeconds).Floor * SECOND;
      set id | id in snap.replicas && snap.replicas[id].appID == app.appID && snap.replicas[id].status == Pending
        && snap.replicas[id].createdAt != 0 && snap.takenAt > snap.replicas[id].createdAt + patience
    else {}
  }

  method CountByStatus(app: AppID, snap: Snapshot, status: ReplicaStatus) returns (count: nat)
    requires WellKeyed(snap)
    ensures count ==
            |set id | id in snap.replicas && snap.replicas[id].appID == app && snap.replicas[id].status == status|
  {
    var test := (r: Replica) => r.status == status;
    count := CountMatching(snap, app, test);
    assert (set id | id in snap.replicas && snap.replicas[id].appID == app && snap.replicas[id].status == status) ==
           set id | id in snap.replicas && snap.replicas[id].appID == app && test(snap.replicas[id]);
  }

  /** Running plus pending plus what is still missing, plus replacements for stuck
      replicas during an SLA breach. */
  method ComputeEffectiveTarget(app: Application, rawTarget: int, snap: Snapshot) returns (target: int)
    requires WellKeyed(snap)
    ensures target >= rawTarget + |StuckIds(app, snap)|
    ensures target >= ActiveCount(snap.replicas, app.appID) + |StuckIds(app, snap)|
    ensures target - |StuckIds(app, snap)| in {rawTarget, ActiveCount(snap.replicas, app.appID)}
  {
    var running := CountByStatus(app.appID, snap, Running);
    var pending := CountByStatus(app.appID, snap, Pending);
    ActiveIsRunningPlusPending(snap, app.appID);
    var additionalNeeded := Max(0, rawTarget - running - pending);
    if app.appID in snap.performanceProfiles && snap.performanceProfiles[app.appID].coldStartSeconds > 0.0 {
      var coldStart, now := snap.performanceProfiles[app.appID].coldStartSeconds, snap.takenAt;
      var test := (r: Replica) => IsStuck(r, now, coldStart);
      var stalePending := CountMatching(snap, app.appID, test);
      ghost var stuck := set id | id in snap.replicas && snap.replicas[id].appID == app.appID
        && IsStuck(snap.replicas[id], now, coldStart);
      assert stuck == set id | id in snap.replicas && snap.replicas[id].appID == app.appID && test(snap.replicas[id]);
      StuckMeans(app, snap, coldStart, stuck);
      if stalePending > 0 && app.appID in snap.vllmMetrics && IsSLABreach(app, snap.vllmMetrics[app.appID]) {
        additionalNeeded := additionalNeeded + stalePending;
      }
    }
    return running + pending + additionalNeeded;
  }

  lemma StuckMeans(app: Application, snap: Snapshot, coldStart: real, stuck: set<ReplicaID>)
    requires app.appID in snap.performanceProfiles
    requires coldStart == snap.performanceProfiles[app.appID].coldStartSeconds > 0.0
    requires stuck == set id | id in snap.replicas && snap.replicas[id].appID == app.appID
                        && IsStuck(snap.replicas[id], snap.takenAt, coldStart)
    ensures StuckIds(app, snap) ==
            if app.appID in snap.vllmMetrics && IsSLABreach(app, snap.vllmMetrics[app.appID]) then stuck else {}
  {
    assert coldStart * 2.0 == 2.0 * coldStart;
  }

  lemma ActiveIsRunningPlusPending(snap: Snapshot, app: AppID)
    ensures ActiveCount(snap.replicas, app) ==
            |set id | id in snap.replicas && snap.replicas[id].appID == app && snap.replicas[id].status == Running|
            + |set id | id in snap.replicas && snap.replicas[id].appID == app && snap.replicas[id].status == Pending|
  {
    var running := set id | id in snap.replicas && snap.replicas[id].appID == app
      && snap.replicas[id].status == Running;
    var pending := set id | id in snap.replicas && snap.replicas[id].appID == app
      && snap.replicas[id].status == Pending;
    assert ActiveIds(snap.replicas, app) == running + pending;
  }

  // ---------- Stability controls ----------

  predicate Cooling(now: nat, last: nat, cooldown: nat) {
    last != 0 && now - last < cooldown
  }

  /** Whether a target is acted on now, given the application's history. */
  function ApplyStabilityControls(cfg: ScalingConfig, app: AppID, target: int, current: int, slaBreach: bool,
                                  h: ScalingHistory, now: nat): ScalingDecision
  {
    var base := ScalingDecision(app, current, 0, 0, target, Unchanged, NoSignal, slaBreach, false, 0, false);
    if target > current then
      if !slaBreach && Cooling(now, h.lastScaleUpAt, cfg.scaleUpCooldown) then base.(targetCount := current)
      else base.(direction := Up, scaleActionApproved := true, actionAt := now)
    else if target < current then
      if Cooling(now, h.lastScaleDownAt, cfg.scaleDownCooldown) then
        base.(targetCount := current, signal := EfficiencySignal)
      else
        var observed := base.(signal := EfficiencySignal, scaleDownSignalObserved := true);
        if slaBreach || h.consecutiveScaleDownSignals + 1 >= cfg.stabilizationCycles then
          observed.(direction := DownDirection, scaleActionApproved := true, actionAt := now)
        else observed.(targetCount := current)
    else base
  }

  /** What the whole engine decides on a raw target: what is missing to it and what
      replaces stuck replicas is approved unless the last scale-up is too recent and
      latency is within its limit. */
  ghost predicate ActsOn(cfg: ScalingConfig, app: Application, snap: Snapshot, raw: int, d: ScalingDecision)
    requires app.appID in snap.vllmMetrics
  {
    var current, stuck := ActiveCount(snap.replicas, app.appID), |StuckIds(app, snap)|;
    var missing := stuck + if raw > current then raw - current else 0;
    var p99 := snap.vllmMetrics[app.appID].p99TimeToFirstTokenMs;
    var last := if app.appID in snap.scalingHistory then snap.scalingHistory[app.appID].lastScaleUpAt else 0;
    && (d.slaBreach <==> app.maxP99TTFTMs != 0 && p99 > app.maxP99TTFTMs as real)
    && (d.scaleActionApproved <==>
          missing > 0 && (d.slaBreach || last == 0 || snap.takenAt - last >= cfg.scaleUpCooldown))
    && d.targetCount == (if d.scaleActionApproved then current + missing else current)
    && d.direction == (if d.scaleActionApproved then Up else Unchanged)
    && d.actionAt == (if d.scaleActionApproved then snap.takenAt else 0)
  }

  /** The decision acts on the target that follows from the count wanted, and names what
      it is wanted for. */
  ghost predicate FollowsFrom(cfg: ScalingConfig, app: Application, snap: Snapshot, d: ScalingDecision, wanted: int,
                              raw: int)
    requires app.appID in snap.vllmMetrics
  {
    var m, current := snap.vllmMetrics[app.appID], ActiveCount(snap.replicas, app.appID);
    IsRawTarget(cfg, app, m, current, wanted, raw, d.signal) && ActsOn(cfg, app, snap, raw, d)
  }

  /** The whole engine for one application with metrics. Because the effective
      target counts everything running or pending, it is never below the current
      count, and the engine never decides to scale down. */
  method ComputeTarget(cfg: ScalingConfig, app: Application, snap: Snapshot) returns (d: ScalingDecision)
    requires WellKeyed(snap) && cfg.queueTarget > 0.0 && cfg.kvCacheTarget > 0.0
    requires app.appID in snap.vllmMetrics
    ensures d.direction != DownDirection && !d.scaleDownSignalObserved
    ensures d.targetCount >= d.currentCount == ActiveCount(snap.replicas, app.appID)
    ensures d.scaleActionApproved ==> d.direction == Up && d.targetCount > d.currentCount && d.actionAt == snap.takenAt
    ensures d.appID == app.appID && d.runningCount + d.pendingCount == d.currentCount
    ensures exists wanted, raw :: FollowsFrom(cfg, app, snap, d, wanted, raw)
  {
    var metrics := snap.vllmMetrics[app.appID];
    var running := CountByStatus(app.appID, snap, Running);
    var pending := CountByStatus(app.appID, snap, Pending);
    ActiveIsRunningPlusPending(snap, app.appID);
    var current := running + pending;
    var (rawTarget, signal) := ComputeTargetReplicas(cfg, app, metrics, current);
    var effectiveTarget := ComputeEffectiveTarget(app, rawTarget, snap);
    d := ApplyStabilityControls(cfg, app.appID, effectiveTarget, current, IsSLABreach(app, metrics),
                                HistoryOf(snap.scalingHistory, app.appID), snap.takenAt);
    d := d.(runningCount := running, pendingCount := pending, signal := signal);
    TargetIsWanted(cfg, app, metrics, current);
    ghost var wanted :| IsRawTarget(cfg, app, metrics, current, wanted, rawTarget, signal);
    assert FollowsFrom(cfg, app, snap, d, wanted, rawTarget);
  }

  // ---------- The machine over whole runs, for arbitrary targets ----------

  /** What one cycle asks for one application. */
  datatype Observation = Observation(now: nat, target: int, current: int, slaBreach: bool)

  /** What the control loop makes of a decision. */
  function Advance(h: ScalingHistory, d: ScalingDecision): ScalingHistory {
    if d.scaleActionApproved then AfterScaleEvent(h, d.direction, d.actionAt)
    else if d.scaleDownSignalObserved then AfterSignal(h)
    else h
  }

  function Decide(cfg: ScalingConfig, h: ScalingHistory, o: Observation): ScalingDecision {
    ApplyStabilityControls(cfg, "", o.target, o.current, o.slaBreach, h, o.now)
  }

  /** The application's history after a run of cycles. */
  ghost function HistoryAfter(cfg: ScalingConfig, run: seq<Observation>): ScalingHistory {
    if run == [] then ScalingHistory(0, 0, 0)
    else
      var h := HistoryAfter(cfg, run[..|run| - 1]);
      Advance(h, Decide(cfg, h, run[|run| - 1]))
  }

  ghost function DecisionAt(cfg: ScalingConfig, run: seq<Observation>, i: nat): ScalingDecision
    requires i < |run|
  {
    Decide(cfg, HistoryAfter(cfg, run[..i]), run[i])
  }

  ghost predicate ApprovedUp(cfg: ScalingConfig, run: seq<Observation>, i: nat)
    requires i < |run|
  {
    DecisionAt(cfg, run, i).scaleActionApproved && DecisionAt(cfg, run, i).direction == Up
  }

  ghost predicate ApprovedDown(cfg: ScalingConfig, run: seq<Observation>, i: nat)
    requires i < |run|
  {
    DecisionAt(cfg, run, i).scaleActionApproved && DecisionAt(cfg, run, i).direction == DownDirection
  }

  /** The clock is set and never runs backwards. */
  ghost predicate Chronological(run: seq<Observation>) {
    && (forall i | 0 <= i < |run| :: run[i].now > 0)
    && (forall i, j | 0 <= i < j < |run| :: run[i].now <= run[j].now)
  }

  /** Scale-down signals observed since the last approved scale-up. */
  ghost function SignalsSinceUp(cfg: ScalingConfig, run: seq<Observation>): nat {
    if run == [] then 0
    else
      var i := |run| - 1;
      if ApprovedUp(cfg, run, i) then 0
      else SignalsSinceUp(cfg, run[..i]) + if DecisionAt(cfg, run, i).scaleDownSignalObserved then 1 else 0
  }

  /** The stored counter is the number of observed signals since the last approved
      scale-up, whatever the run. */
  lemma {:induction false} CounterCountsSignals(cfg: ScalingConfig, run: seq<Observation>)
    ensures HistoryAfter(cfg, run).consecutiveScaleDownSignals == SignalsSinceUp(cfg, run)
  {
    if run != [] {
      CounterCountsSignals(cfg, run[..|run| - 1]);
    }
  }

  /** An approved scale-down outside an SLA breach has at least the configured number
      of signals behind it, its own included. */
  lemma ScaleDownIsStabilized(cfg: ScalingConfig, run: seq<Observation>, i: nat)
    requires i < |run| && ApprovedDown(cfg, run, i) && !run[i].slaBreach
    ensures SignalsSinceUp(cfg, run[..i + 1]) >= cfg.stabilizationCycles
  {
    assert run[..i + 1][..i] == run[..i];
    CounterCountsSignals(cfg, run[..i]);
  }

  lemma DecisionOfPrefix(cfg: ScalingConfig, run: seq<Observation>, n: nat, i: nat)
    requires i < n <= |run|
    ensures DecisionAt(cfg, run[..n], i) == DecisionAt(cfg, run, i)
  {
    assert run[..n][..i] == run[..i];
  }

  /** How a cycle changes the recorded times. */
  lemma AdvanceTimes(cfg: ScalingConfig, h: ScalingHistory, o: Observation)
    ensures var d, h' := Decide(cfg, h, o), Advance(h, Decide(cfg, h, o));
            && h'.lastScaleUpAt == (if d.scaleActionApproved && d.direction == Up then o.now else h.lastScaleUpAt)
            && h'.lastScaleDownAt ==
               (if d.scaleActionApproved && d.direction == DownDirection then o.now else h.lastScaleDownAt)
  {
  }

  lemma {:induction false} RecordedTimesBounded(cfg: ScalingConfig, run: seq<Observation>, now: nat)
    requires forall i | 0 <= i < |run| :: run[i].now <= now
    ensures HistoryAfter(cfg, run).lastScaleUpAt <= now && HistoryAfter(cfg, run).lastScaleDownAt <= now
  {
    if run != [] {
      var front := run[..|run| - 1];
      RecordedTimesBounded(cfg, front, now);
      AdvanceTimes(cfg, HistoryAfter(cfg, front), run[|run| - 1]);
    }
  }

  /** The recorded times are not older than any approved action. */
  lemma {:induction false} LatestActionsRecorded(cfg: ScalingConfig, run: seq<Observation>, i: nat)
    requires Chronological(run) && i < |run|
    ensures ApprovedUp(cfg, run, i) ==> HistoryAfter(cfg, run).lastScaleUpAt >= run[i].now
    ensures ApprovedDown(cfg, run, i) ==> HistoryAfter(cfg, run).lastScaleDownAt >= run[i].now
  {
    var front := run[..|run| - 1];
    var h := HistoryAfter(cfg, front);
    AdvanceTimes(cfg, h, run[|run| - 1]);
    if i < |front| {
      assert Chronological(front);
      LatestActionsRecorded(cfg, front, i);
      DecisionOfPrefix(cfg, run, |front|, i);
    } else {
      assert run[..i] == front;
    }
  }

  /** Approved scale-downs are at least a cooldown apart. */
  lemma ScaleDownsAreApart(cfg: ScalingConfig, run: seq<Observation>, i: nat, j: nat)
    requires Chronological(run) && i < j < |run|
    requires ApprovedDown(cfg, run, i) && ApprovedDown(cfg, run, j)
    ensures run[j].now - run[i].now >= cfg.scaleDownCooldown
  {
    DecisionOfPrefix(cfg, run, j, i);
    LatestActionsRecorded(cfg, run[..j], i);
    RecordedTimesBounded(cfg, run[..j], run[j].now);
  }

  /** Approved scale-ups closer together than the cooldown happen only under an SLA
      breach. */
  lemma CloseScaleUpsNeedBreach(cfg: ScalingConfig, run: seq<Observation>, i: nat, j: nat)
    requires Chronological(run) && i < j < |run|
    requires ApprovedUp(cfg, run, i) && ApprovedUp(cfg, run, j)
    ensures run[j].slaBreach || run[j].now - run[i].now >= cfg.scaleUpCooldown
  {
    DecisionOfPrefix(cfg, run, j, i);
    LatestActionsRecorded(cfg, run[..j], i);
    RecordedTimesBounded(cfg, run[..j], run[j].now);
  }

  /** No approved action of this kind in the cooldown before cycle i. */
  ghost predicate RestedDown(cfg: ScalingConfig, run: seq<Observation>, i: nat)
    requires i < |run|
  {
    forall k: nat | k < i && ApprovedDown(cfg, run, k) :: run[i].now - run[k].now >= cfg.scaleDownCooldown
  }

  ghost predicate RestedUp(cfg: ScalingConfig, run: seq<Observation>, i: nat)
    requires i < |run|
  {
    forall k: nat | k < i && ApprovedUp(cfg, run, k) :: run[i].now - run[k].now >= cfg.scaleUpCooldown
  }

  /** A recorded time is that of some approved action. */
  lemma {:induction false} RecordedTimesAreOfActions(cfg: ScalingConfig, run: seq<Observation>)
    ensures var h := HistoryAfter(cfg, run);
            && (h.lastScaleUpAt != 0 ==>
                  exists k: nat :: k < |run| && ApprovedUp(cfg, run, k) && run[k].now == h.lastScaleUpAt)
            && (h.lastScaleDownAt != 0 ==>
                  exists k: nat :: k < |run| && ApprovedDown(cfg, run, k) && run[k].now == h.lastScaleDownAt)
  {
    if run != [] {
      var front := run[..|run| - 1];
      RecordedTimesAreOfActions(cfg, front);
      AdvanceTimes(cfg, HistoryAfter(cfg, front), run[|run| - 1]);
      forall k: nat | k < |front|
        ensures ApprovedUp(cfg, front, k) == ApprovedUp(cfg, run, k)
        ensures ApprovedDown(cfg, front, k) == ApprovedDown(cfg, run, k)
      {
        DecisionOfPrefix(cfg, run, |front|, k);
      }
    }
  }

  lemma RestedUpIff(cfg: ScalingConfig, run: seq<Observation>, i: nat)
    requires Chronological(run) && i < |run|
    ensures RestedUp(cfg, run, i) <==>
            !Cooling(run[i].now, HistoryAfter(cfg, run[..i]).lastScaleUpAt, cfg.scaleUpCooldown)
  {
    var last := HistoryAfter(cfg, run[..i]).lastScaleUpAt;
    if Cooling(run[i].now, last, cfg.scaleUpCooldown) {
      RecordedTimesAreOfActions(cfg, run[..i]);
      var k: nat :| k < i && ApprovedUp(cfg, run[..i], k) && run[k].now == last;
      DecisionOfPrefix(cfg, run, i, k);
    } else {
      forall k: nat | k < i && ApprovedUp(cfg, run, k) ensures run[i].now - run[k].now >= cfg.scaleUpCooldown {
        DecisionOfPrefix(cfg, run, i, k);
        LatestActionsRecorded(cfg, run[..i], k);
      }
    }
  }

  lemma RestedDownIff(cfg: ScalingConfig, run: seq<Observation>, i: nat)
    requires Chronological(run) && i < |run|
    ensures RestedDown(cfg, run, i) <==>
            !Cooling(run[i].now, HistoryAfter(cfg, run[..i]).lastScaleDownAt, cfg.scaleDownCooldown)
  {
    var last := HistoryAfter(cfg, run[..i]).lastScaleDownAt;
    if Cooling(run[i].now, last, cfg.scaleDownCooldown) {
      RecordedTimesAreOfActions(cfg, run[..i]);
      var k: nat :| k < i && ApprovedDown(cfg, run[..i], k) && run[k].now == last;
      DecisionOfPrefix(cfg, run, i, k);
    } else {
      forall k: nat | k < i && ApprovedDown(cfg, run, k) ensures run[i].now - run[k].now >= cfg.scaleDownCooldown {
        DecisionOfPrefix(cfg, run, i, k);
        LatestActionsRecorded(cfg, run[..i], k);
      }
    }
  }

  /** Going up is approved exactly when the target asks for it and latency is broken or
      the last approved scale-up is a cooldown ago. */
  lemma UpIsApprovedIff(cfg: ScalingConfig, run: seq<Observation>, i: nat)
    requires Chronological(run) && i < |run|
    ensures ApprovedUp(cfg, run, i) <==>
            run[i].target > run[i].current && (run[i].slaBreach || RestedUp(cfg, run, i))
  {
    RestedUpIff(cfg, run, i);
  }

  /** A signal to go down is observed exactly when the target asks for it and the last
      approved scale-down is a cooldown ago; it is acted on exactly when latency is broken
      or enough signals were observed since the last approved scale-up, this one included. */
  lemma DownIsApprovedIff(cfg: ScalingConfig, run: seq<Observation>, i: nat)
    requires Chronological(run) && i < |run|
    ensures DecisionAt(cfg, run, i).scaleDownSignalObserved <==>
            run[i].target < run[i].current && RestedDown(cfg, run, i)
    ensures ApprovedDown(cfg, run, i) <==>
            && run[i].target < run[i].current && RestedDown(cfg, run, i)
            && (run[i].slaBreach || SignalsSinceUp(cfg, run[..i + 1]) >= cfg.stabilizationCycles)
  {
    RestedDownIff(cfg, run, i);
    if DecisionAt(cfg, run, i).scaleDownSignalObserved {
      SignalsIncluding(cfg, run, i);
    }
  }

  lemma SignalsIncluding(cfg: ScalingConfig, run: seq<Observation>, i: nat)
    requires i < |run| && DecisionAt(cfg, run, i).scaleDownSignalObserved
    ensures SignalsSinceUp(cfg, run[..i + 1]) == HistoryAfter(cfg, run[..i]).consecutiveScaleDownSignals + 1
  {
    assert run[..i + 1][..i] == run[..i];
    CounterCountsSignals(cfg, run[..i]);
  }

  /** The signals counted need not be consecutive: a cycle that wants no change in
      between does not restart the count. */
  lemma SignalsNeedNotBeConsecutive()
    ensures var cfg := DEFAULT_CONFIG.(stabilizationCycles := 2);
            var run := [Observation(1, 1, 2, false), Observation(2, 2, 2, false), Observation(3, 1, 2, false)];
            !DecisionAt(cfg, run, 1).scaleDownSignalObserved && ApprovedDown(cfg, run, 2)
  {
    var cfg := DEFAULT_CONFIG.(stabilizationCycles := 2);
    var run := [Observation(1, 1, 2, false), Observation(2, 2, 2, false), Observation(3, 1, 2, false)];
    assert run[..0] == [];
    assert run[..1] == [run[0]] && run[..1][..0] == [];
    assert run[..2] == [run[0], run[1]] && run[..2][..1] == run[..1];
    assert HistoryAfter(cfg, run[..1]) == ScalingHistory(0, 0, 1);
    assert HistoryAfter(cfg, run[..2]) == ScalingHistory(0, 0, 1);
  }

  // ---------- When the counted signals are consecutive ----------

  ghost predicate Signals(cfg: ScalingConfig, run: seq<Observation>, i: nat)
    requires i < |run|
  {
    DecisionAt(cfg, run, i).scaleDownSignalObserved
  }

  /** The unbroken streak of signalling cycles the run ends with. */
  ghost function Streak(cfg: ScalingConfig, run: seq<Observation>): nat {
    if run == [] || !Signals(cfg, run, |run| - 1) then 0 else 1 + Streak(cfg, run[..|run| - 1])
  }

  ghost predicate UpSince(cfg: ScalingConfig, run: seq<Observation>, i: nat) {
    exists k: nat :: i < k < |run| && ApprovedUp(cfg, run, k)
  }

  /** A signal that the stored counter still counts. */
  ghost predicate Counted(cfg: ScalingConfig, run: seq<Observation>, i: nat) {
    i < |run| && Signals(cfg, run, i) && !UpSince(cfg, run, i)
  }

  /** A cycle without a signal after a counted one. */
  ghost predicate Gap(cfg: ScalingConfig, run: seq<Observation>, i: nat, j: nat) {
    i < j < |run| && Counted(cfg, run, i) && !Signals(cfg, run, j)
  }

  ghost predicate NoGap(cfg: ScalingConfig, run: seq<Observation>) {
    forall i: nat, j: nat :: !Gap(cfg, run, i, j)
  }

  lemma SameBefore(cfg: ScalingConfig, run: seq<Observation>, i: nat)
    requires i < |run| - 1
    ensures Signals(cfg, run[..|run| - 1], i) == Signals(cfg, run, i)
    ensures ApprovedUp(cfg, run[..|run| - 1], i) == ApprovedUp(cfg, run, i)
  {
    DecisionOfPrefix(cfg, run, |run| - 1, i);
  }

  /** What one more cycle does to the signals counted before it. */
  lemma CountedStep(cfg: ScalingConfig, run: seq<Observation>, i: nat)
    requires i < |run| - 1
    ensures Counted(cfg, run, i) <==> Counted(cfg, run[..|run| - 1], i) && !ApprovedUp(cfg, run, |run| - 1)
  {
    SameBefore(cfg, run, i);
    UpSinceStep(cfg, run, i);
  }

  lemma UpSinceStep(cfg: ScalingConfig, run: seq<Observation>, i: nat)
    requires i < |run| - 1
    ensures UpSince(cfg, run, i) <==> UpSince(cfg, run[..|run| - 1], i) || ApprovedUp(cfg, run, |run| - 1)
  {
    var front := run[..|run| - 1];
    if UpSince(cfg, front, i) {
      var k: nat :| i < k < |front| && ApprovedUp(cfg, front, k);
      SameBefore(cfg, run, k);
    } else if UpSince(cfg, run, i) && !ApprovedUp(cfg, run, |run| - 1) {
      var k: nat :| i < k < |run| && ApprovedUp(cfg, run, k);
      SameBefore(cfg, run, k);
    }
  }

  lemma LastIsOneOf(cfg: ScalingConfig, run: seq<Observation>)
    requires run != []
    ensures !(Signals(cfg, run, |run| - 1) && ApprovedUp(cfg, run, |run| - 1))
    ensures Counted(cfg, run, |run| - 1) <==> Signals(cfg, run, |run| - 1)
  {
  }

  lemma SomeStillCounted(cfg: ScalingConfig, run: seq<Observation>, i: nat)
    requires i < |run| - 1 && Counted(cfg, run[..|run| - 1], i) && !ApprovedUp(cfg, run, |run| - 1)
    ensures Counted(cfg, run, i)
  {
    CountedStep(cfg, run, i);
  }

  lemma CountedBefore(cfg: ScalingConfig, run: seq<Observation>, i: nat)
    requires Counted(cfg, run, i) && !Signals(cfg, run, |run| - 1)
    ensures i < |run| - 1 && Counted(cfg, run[..|run| - 1], i) && !ApprovedUp(cfg, run, |run| - 1)
  {
    CountedStep(cfg, run, i);
  }

  lemma SignalsSinceUpStep(cfg: ScalingConfig, run: seq<Observation>)
    requires run != []
    ensures SignalsSinceUp(cfg, run) > 0 <==>
            || Signals(cfg, run, |run| - 1)
            || (!ApprovedUp(cfg, run, |run| - 1) && SignalsSinceUp(cfg, run[..|run| - 1]) > 0)
  {
    LastIsOneOf(cfg, run);
  }

  /** The counter is positive exactly when some signal is still counted. */
  lemma {:induction false} CountsSome(cfg: ScalingConfig, run: seq<Observation>)
    ensures SignalsSinceUp(cfg, run) > 0 <==> exists i: nat :: Counted(cfg, run, i)
  {
    if run != [] {
      var front, last := run[..|run| - 1], |run| - 1;
      CountsSome(cfg, front);
      SignalsSinceUpStep(cfg, run);
      if Signals(cfg, run, last) {
        LastIsOneOf(cfg, run);
      } else if SignalsSinceUp(cfg, run) > 0 {
        var i: nat :| Counted(cfg, front, i);
        SomeStillCounted(cfg, run, i);
      } else if exists i: nat :: Counted(cfg, run, i) {
        var i: nat :| Counted(cfg, run, i);
        CountedBefore(cfg, run, i);
      }
    }
  }

  /** The counter is the length of the current streak exactly when no cycle without a
      signal followed a counted one. */
  lemma {:induction false} CounterIsStreakIff(cfg: ScalingConfig, run: seq<Observation>)
    ensures HistoryAfter(cfg, run).consecutiveScaleDownSignals == Streak(cfg, run) <==> NoGap(cfg, run)
  {
    CounterCountsSignals(cfg, run);
    if run != [] {
      var front, last := run[..|run| - 1], |run| - 1;
      CounterCountsSignals(cfg, front);
      CounterIsStreakIff(cfg, front);
      LastIsOneOf(cfg, run);
      if Signals(cfg, run, last) {
        NoGapAfterSignal(cfg, run);
      } else {
        CountsSome(cfg, run);
        NoGapWithoutSignal(cfg, run);
      }
    }
  }

  lemma NoGapAfterSignal(cfg: ScalingConfig, run: seq<Observation>)
    requires run != [] && Signals(cfg, run, |run| - 1)
    ensures NoGap(cfg, run) <==> NoGap(cfg, run[..|run| - 1])
  {
    var front := run[..|run| - 1];
    LastIsOneOf(cfg, run);
    forall i: nat, j: nat ensures Gap(cfg, run, i, j) <==> Gap(cfg, front, i, j) {
      if i < j < |front| {
        CountedStep(cfg, run, i);
        SameBefore(cfg, run, j);
      }
    }
  }

  lemma NoGapWithoutSignal(cfg: ScalingConfig, run: seq<Observation>)
    requires run != [] && !Signals(cfg, run, |run| - 1)
    ensures NoGap(cfg, run) <==> !exists i: nat :: Counted(cfg, run, i)
  {
    if exists i: nat :: Counted(cfg, run, i) {
      var i: nat :| Counted(cfg, run, i);
      assert Gap(cfg, run, i, |run| - 1);
    }
  }

  // ---------- The same in terms of targets and cooldowns ----------

  /** The target is below the current count and the last scale-down is long enough
      ago. */
  ghost predicate WantsDown(cfg: ScalingConfig, run: seq<Observation>, i: nat)
    requires i < |run|
  {
    && run[i].target < run[i].current
    && !Cooling(run[i].now, HistoryAfter(cfg, run[..i]).lastScaleDownAt, cfg.scaleDownCooldown)
  }

  ghost predicate GoesUp(cfg: ScalingConfig, run: seq<Observation>, i: nat)
    requires i < |run|
  {
    && run[i].target > run[i].current
    && (run[i].slaBreach || !Cooling(run[i].now, HistoryAfter(cfg, run[..i]).lastScaleUpAt, cfg.scaleUpCooldown))
  }

  ghost predicate WentUpSince(cfg: ScalingConfig, run: seq<Observation>, i: nat) {
    exists k: nat :: i < k < |run| && GoesUp(cfg, run, k)
  }

  /** The engine wanted to go down, later did not want to (or was cooling), and has not
      gone up since. */
  ghost predicate Pause(cfg: ScalingConfig, run: seq<Observation>, i: nat, j: nat) {
    i < j < |run| && WantsDown(cfg, run, i) && !WantsDown(cfg, run, j) && !WentUpSince(cfg, run, i)
  }

  lemma SignalsIff(cfg: ScalingConfig, run: seq<Observation>, i: nat)
    requires i < |run|
    ensures Signals(cfg, run, i) <==> WantsDown(cfg, run, i)
    ensures ApprovedUp(cfg, run, i) <==> GoesUp(cfg, run, i)
  {
  }

  lemma GapIsPause(cfg: ScalingConfig, run: seq<Observation>, i: nat, j: nat)
    ensures Gap(cfg, run, i, j) <==> Pause(cfg, run, i, j)
  {
    forall k: nat | k < |run| ensures Signals(cfg, run, k) <==> WantsDown(cfg, run, k)
                              ensures ApprovedUp(cfg, run, k) <==> GoesUp(cfg, run, k)
    {
      SignalsIff(cfg, run, k);
    }
    if UpSince(cfg, run, i) {
      var k: nat :| i < k < |run| && ApprovedUp(cfg, run, k);
      assert GoesUp(cfg, run, k);
    }
    if WentUpSince(cfg, run, i) {
      var k: nat :| i < k < |run| && GoesUp(cfg, run, k);
      assert ApprovedUp(cfg, run, k);
    }
  }

  /** The counter is the length of the current streak exactly when the engine never
      paused between wanting to go down and going up. */
  lemma ConsecutiveIff(cfg: ScalingConfig, run: seq<Observation>)
    ensures HistoryAfter(cfg, run).consecutiveScaleDownSignals == Streak(cfg, run) <==>
            forall i: nat, j: nat :: !Pause(cfg, run, i, j)
  {
    CounterIsStreakIff(cfg, run);
    forall i: nat, j: nat ensures Gap(cfg, run, i, j) <==> Pause(cfg, run, i, j) {
      GapIsPause(cfg, run, i, j);
    }
  }

  /** A cycle inside the cooldown of an approved scale-down is such a pause: from then
      on, until the next scale-up, the counter is not a streak. */
  lemma CooldownBreaksStreak(cfg: ScalingConfig, run: seq<Observation>, i: nat, j: nat)
    requires Chronological(run) && i < j < |run| && ApprovedDown(cfg, run, i)
    requires run[j].now - run[i].now < cfg.scaleDownCooldown && !UpSince(cfg, run, i)
    ensures HistoryAfter(cfg, run).consecutiveScaleDownSignals != Streak(cfg, run)
  {
    DecisionOfPrefix(cfg, run, j, i);
    LatestActionsRecorded(cfg, run[..j], i);
    RecordedTimesBounded(cfg, run[..j], run[j].now);
    SignalsIff(cfg, run, j);
    assert Gap(cfg, run, i, j);
    CounterIsStreakIff(cfg, run);
  }

  /** A streak of n means that each of the last n cycles signalled. */
  lemma {:induction false} StreakIff(cfg: ScalingConfig, run: seq<Observation>, n: nat)
    ensures Streak(cfg, run) >= n <==> n <= |run| && forall i: nat | |run| - n <= i < |run| :: Signals(cfg, run, i)
  {
    if n > 0 && run != [] {
      var front, last := run[..|run| - 1], |run| - 1;
      StreakIff(cfg, front, n - 1);
      forall i: nat | i < last ensures Signals(cfg, front, i) == Signals(cfg, run, i) {
        SameBefore(cfg, run, i);
      }
    }
  }

  /** Without a gap, an approved scale-down outside an SLA breach really has the
      configured number of consecutive signals behind it. */
  lemma ScaleDownIsConsecutive(cfg: ScalingConfig, run: seq<Observation>, i: nat, n: nat)
    requires i < |run| && ApprovedDown(cfg, run, i) && !run[i].slaBreach && NoGap(cfg, run[..i + 1])
    requires n <= cfg.stabilizationCycles
    ensures n <= i + 1 && forall j: nat | i + 1 - n <= j <= i :: Signals(cfg, run, j)
  {
    ScaleDownIsStabilized(cfg, run, i);
    CounterCountsSignals(cfg, run[..i + 1]);
    CounterIsStreakIff(cfg, run[..i + 1]);
    StreakIff(cfg, run[..i + 1], n);
    forall j: nat | i + 1 - n <= j <= i ensures Signals(cfg, run, j) {
      assert Signals(cfg, run[..i + 1], j);
      DecisionOfPrefix(cfg, run, i + 1, j);
    }
  }
}
