/** When replicas start in the simulator: over every run, exactly their cold start
    after they were created. */
module StartTimes {
  import opened Model
  import opened World
  import opened SimulatedWorld
  import opened Simulator

  /** When a replica is due to run. */
  ghost function Due(r: Replica, apps: seq<AppConfig>): nat {
    r.createdAt + ColdStart(apps, r.appID)
  }

  /** At the tick at now a replica runs exactly if it is due and was there before;
      otherwise it is pending, and its start is queued. */
  ghost predicate OnTime(r: Replica, q: seq<SimulationEvent>, apps: seq<AppConfig>, now: nat) {
    && r.createdAt <= now
    && r.status == (if Due(r, apps) <= now && r.createdAt < now then Running else Pending)
    && (r.status == Pending ==> MarkRunning(Due(r, apps), r.replicaID) in q)
  }

  ghost predicate AllOnTime(m: Moment, apps: seq<AppConfig>, now: nat) {
    forall id | id in m.world.replicas :: OnTime(m.world.replicas[id], m.queue, apps, now)
  }

  /** The same before the tick at now. */
  ghost predicate Awaits(r: Replica, q: seq<SimulationEvent>, apps: seq<AppConfig>, now: nat) {
    && r.createdAt < now && (r.status == Running || r.status == Pending)
    && (r.status == Running ==> Due(r, apps) < now)
    && (r.status == Pending ==> MarkRunning(Due(r, apps), r.replicaID) in q)
  }

  ghost predicate AllAwait(m: Moment, apps: seq<AppConfig>, now: nat) {
    forall id | id in m.world.replicas :: Awaits(m.world.replicas[id], m.queue, apps, now)
  }

  /** A start queued for a replica that is there is queued for when it is due. */
  ghost predicate QueuedWhenDue(e: SimulationEvent, replicas: map<ReplicaID, Replica>, apps: seq<AppConfig>) {
    e.MarkRunning? && e.replicaID in replicas ==> e.time == Due(replicas[e.replicaID], apps)
  }

  ghost predicate StartsWhenDue(q: seq<SimulationEvent>, replicas: map<ReplicaID, Replica>, apps: seq<AppConfig>) {
    forall e | e in q :: QueuedWhenDue(e, replicas, apps)
  }

  /** Only replicas created before the tick at now have their start queued. */
  ghost predicate StartsNamed(q: seq<SimulationEvent>, now: nat) {
    forall e | e in q && e.MarkRunning? :: NamedBefore(e.replicaID, now, 0)
  }

  /** What the steps below carry from tick to tick. */
  ghost predicate Ready(m: Moment, apps: seq<AppConfig>, now: nat) {
    && AllAwait(m, apps, now) && StartsWhenDue(m.queue, m.world.replicas, apps) && StartsNamed(m.queue, now)
    && Safe(m.world)
  }

  // ---------- Due events ----------

  lemma {:induction false} LaterKeeps(q: seq<SimulationEvent>, now: nat)
    ensures forall e :: e in Later(q, now) <==> e in q && e.time > now
  {
    if q != [] {
      LaterKeeps(q[..|q| - 1], now);
      assert q == q[..|q| - 1] + [q[|q| - 1]];
    }
  }

  lemma PromotesWhenDue(w: World, q: seq<SimulationEvent>, w': World, apps: seq<AppConfig>, now: nat, id: ReplicaID)
    requires Ready(Moment(w, q), apps, now) && EventsApplied(w, w', q, now) && id in w.replicas
    ensures id in w'.replicas && OnTime(w'.replicas[id], Later(q, now), apps, now)
    ensures w'.replicas[id] == w.replicas[id].(status := w'.replicas[id].status)
  {
    var r := w.replicas[id];
    assert r.replicaID == id;
    assert Awaits(r, q, apps, now);
    LaterKeeps(q, now);
    forall e | e in q && e.MarkRunning? && e.replicaID == id ensures e.time == Due(r, apps) {
      assert QueuedWhenDue(e, w.replicas, apps);
    }
    if r.status == Pending && Due(r, apps) <= now {
      assert MarkRunning(Due(r, apps), id) in q;
      assert id in Started(q, now);
    }
    if r.status == Pending && Due(r, apps) > now {
      assert id !in Started(q, now);
    }
  }

  lemma LaterStaysDue(w: World, q: seq<SimulationEvent>, w': World, apps: seq<AppConfig>, now: nat)
    requires Ready(Moment(w, q), apps, now) && EventsApplied(w, w', q, now)
    ensures StartsWhenDue(Later(q, now), w'.replicas, apps) && StartsNamed(Later(q, now), now)
  {
    LaterKeeps(q, now);
    forall e | e in Later(q, now) ensures QueuedWhenDue(e, w'.replicas, apps) {
      assert QueuedWhenDue(e, w.replicas, apps);
    }
  }

  // ---------- New replicas ----------

  /** A name of this tick is not an earlier one. */
  lemma NamesOfTickAreNew(r: Replica, ups: seq<ScaleUpDecision>, now: nat)
    requires AddedBy(r, ups, |ups|, now)
    ensures !NamedBefore(r.replicaID, now, 0) && NamedBefore(r.replicaID, now, |ups|)
  {
    var i: nat :| i < |ups| && r.replicaID == ReplicaName(ups[i].appID, now, i);
    if NamedBefore(r.replicaID, now, 0) {
      var app, t: nat, j: nat :| r.replicaID == ReplicaName(app, t, j) && t < now;
      ReplicaNameIsInjective(ups[i].appID, now, i, app, t, j);
    }
  }

  lemma AddedIsOnTime(r: Replica, q: seq<SimulationEvent>, n: nat, ups: seq<ScaleUpDecision>, apps: seq<AppConfig>,
                      now: nat)
    requires AddedBy(r, ups, |ups|, now) && n <= |q|
    requires MarkRunning(now + ColdStart(apps, r.appID), r.replicaID) in q[n..]
    ensures OnTime(r, q, apps, now)
  {
    var e := MarkRunning(now + ColdStart(apps, r.appID), r.replicaID);
    assert e in q;
  }

  lemma LongerQueueIsOnTime(r: Replica, q: seq<SimulationEvent>, q': seq<SimulationEvent>, apps: seq<AppConfig>,
                            now: nat)
    requires OnTime(r, q, apps, now) && q <= q'
    ensures OnTime(r, q', apps, now)
  {
    assert forall e | e in q :: e in q';
  }

  lemma GrownIsOnTime(kept: map<ReplicaID, Replica>, grown: map<ReplicaID, Replica>, q: seq<SimulationEvent>,
                      q': seq<SimulationEvent>, ups: seq<ScaleUpDecision>, apps: seq<AppConfig>, now: nat,
                      applications: map<AppID, Application>, id: ReplicaID)
    requires Grown(kept, grown, ups, |ups|, now, applications) && StartsOf(q, q', kept, grown, apps, now)
    requires id in grown && (id in kept ==> OnTime(kept[id], q, apps, now))
    ensures OnTime(grown[id], q', apps, now)
  {
    if id in kept {
      LongerQueueIsOnTime(kept[id], q, q', apps, now);
    } else {
      AddedIsOnTime(grown[id], q', |q|, ups, apps, now);
    }
  }

  /** The starts queued before this tick are those of replicas kept. */
  lemma OldStartIsDue(kept: map<ReplicaID, Replica>, grown: map<ReplicaID, Replica>, ups: seq<ScaleUpDecision>,
                      apps: seq<AppConfig>, now: nat, applications: map<AppID, Application>, e: SimulationEvent)
    requires Grown(kept, grown, ups, |ups|, now, applications) && QueuedWhenDue(e, kept, apps)
    requires e.MarkRunning? ==> NamedBefore(e.replicaID, now, 0)
    ensures QueuedWhenDue(e, grown, apps) && (e.MarkRunning? ==> NamedBefore(e.replicaID, now, |ups|))
  {
    if e.MarkRunning? {
      BeforeStaysBefore(e.replicaID, now, |ups|);
      if e.replicaID in grown && e.replicaID !in kept {
        NamesOfTickAreNew(grown[e.replicaID], ups, now);
      }
    }
  }

  lemma NewStartIsDue(kept: map<ReplicaID, Replica>, grown: map<ReplicaID, Replica>, ups: seq<ScaleUpDecision>,
                      apps: seq<AppConfig>, now: nat, applications: map<AppID, Application>, e: SimulationEvent)
    requires Grown(kept, grown, ups, |ups|, now, applications) && IsStartOf(e, kept, grown, apps, now)
    ensures QueuedWhenDue(e, grown, apps) && NamedBefore(e.replicaID, now, |ups|)
  {
    NamesOfTickAreNew(grown[e.replicaID], ups, now);
  }

  lemma GrownStartsAreDue(kept: map<ReplicaID, Replica>, grown: map<ReplicaID, Replica>, q: seq<SimulationEvent>,
                          q': seq<SimulationEvent>, ups: seq<ScaleUpDecision>, apps: seq<AppConfig>, now: nat,
                          applications: map<AppID, Application>, e: SimulationEvent)
    requires Grown(kept, grown, ups, |ups|, now, applications) && StartsOf(q, q', kept, grown, apps, now)
    requires StartsWhenDue(q, kept, apps) && StartsNamed(q, now) && e in q'
    ensures QueuedWhenDue(e, grown, apps) && (e.MarkRunning? ==> NamedBefore(e.replicaID, now, |ups|))
  {
    var j :| 0 <= j < |q'| && q'[j] == e;
    if j < |q| {
      assert e == q[j] && e in q;
      OldStartIsDue(kept, grown, ups, apps, now, applications, e);
    } else {
      assert IsStartOf(q'[j], kept, grown, apps, now);
      NewStartIsDue(kept, grown, ups, apps, now, applications, e);
    }
  }

  lemma BeforeStaysBefore(id: ReplicaID, now: nat, k: nat)
    requires NamedBefore(id, now, 0)
    ensures NamedBefore(id, now, k)
  {
    var app, t: nat, i: nat :| id == ReplicaName(app, t, i) && t < now;
  }

  // ---------- A tick ----------

  /** The moment after a tick. */
  ghost predicate Left(m: Moment, apps: seq<AppConfig>, now: nat, k: nat) {
    && AllOnTime(m, apps, now) && StartsWhenDue(m.queue, m.world.replicas, apps)
    && (forall e | e in m.queue && e.MarkRunning? :: NamedBefore(e.replicaID, now, k))
  }

  lemma EnactingIsOnTime(w: World, q: seq<SimulationEvent>, m: Moment, d: PlacementDecisions, apps: seq<AppConfig>,
                         now: nat)
    requires Enacted(w, q, m.world, m.queue, d, apps, now)
    requires AllOnTime(Moment(w, q), apps, now) && StartsWhenDue(q, w.replicas, apps) && StartsNamed(q, now)
    ensures Left(m, apps, now, |d.scaleUps|)
  {
    var ms: seq<Moment> :| EnactedVia(w, q, ms, m.world, m.queue, d, apps, now);
    var kept, grown := w.replicas - Victims(d.preemptions), ms[|d.scaleUps|].world.replicas;
    KeptStartsAreDue(w.replicas, q, Victims(d.preemptions), apps);
    forall id | id in m.world.replicas ensures OnTime(m.world.replicas[id], m.queue, apps, now) {
      assert id in kept ==> OnTime(w.replicas[id], q, apps, now);
      GrownIsOnTime(kept, grown, q, m.queue, d.scaleUps, apps, now, w.applications, id);
    }
    forall e | e in m.queue
      ensures QueuedWhenDue(e, m.world.replicas, apps)
      ensures e.MarkRunning? ==> NamedBefore(e.replicaID, now, |d.scaleUps|)
    {
      GrownStartsAreDue(kept, grown, q, m.queue, d.scaleUps, apps, now, w.applications, e);
    }
  }

  lemma KeptStartsAreDue(replicas: map<ReplicaID, Replica>, q: seq<SimulationEvent>, gone: set<ReplicaID>,
                         apps: seq<AppConfig>)
    requires StartsWhenDue(q, replicas, apps)
    ensures StartsWhenDue(q, replicas - gone, apps)
  {
    forall e | e in q ensures QueuedWhenDue(e, replicas - gone, apps) {
      assert QueuedWhenDue(e, replicas, apps);
    }
  }

  lemma TickIsOnTime(m: Moment, m': Moment, d: PlacementDecisions, apps: seq<AppConfig>, now: nat)
    requires Ready(m, apps, now) && Ticked(m.world, m.queue, m'.world, m'.queue, d, apps, now)
    ensures Left(m', apps, now, |d.scaleUps|)
  {
    var w1, w2 :| TickedVia(m.world, m.queue, w1, w2, m'.world, m'.queue, d, apps, now);
    var q := Later(m.queue, now);
    forall id | id in w2.replicas
      ensures OnTime(w2.replicas[id], q, apps, now)
    {
      PromotesWhenDue(m.world, m.queue, w1, apps, now, id);
    }
    LaterStaysDue(m.world, m.queue, w1, apps, now);
    EnactingIsOnTime(w2, q, m', d, apps, now);
  }

  lemma LeftIsReady(m: Moment, apps: seq<AppConfig>, now: nat, k: nat, next: nat)
    requires Left(m, apps, now, k) && Safe(m.world) && now < next
    ensures Ready(m, apps, next)
  {
    forall id | id in m.world.replicas ensures Awaits(m.world.replicas[id], m.queue, apps, next) {
      assert OnTime(m.world.replicas[id], m.queue, apps, now);
    }
    forall e | e in m.queue && e.MarkRunning? ensures NamedBefore(e.replicaID, next, 0) {
      var app, t: nat, i: nat :| e.replicaID == ReplicaName(app, t, i) && (t < now || (t == now && i < k));
    }
  }

  // ---------- A run ----------

  lemma {:induction false} RunIsReady(ms: seq<Moment>, decisions: nat -> PlacementDecisions, apps: seq<AppConfig>,
                                      start: nat, tickInterval: nat, i: nat)
    requires IsRun(ms, decisions, apps, start, tickInterval) && SafeHistory(ms) && tickInterval > 0 && i < |ms|
    requires ms[0].world.replicas == map[] && forall e | e in ms[0].queue :: e.ClusterDown?
    ensures Ready(ms[i], apps, TimeOf(start, tickInterval, i))
    ensures i > 0 ==> AllOnTime(ms[i], apps, TimeOf(start, tickInterval, i - 1))
  {
    if i > 0 {
      RunIsReady(ms, decisions, apps, start, tickInterval, i - 1);
      var m, m', d, now := ms[i - 1], ms[i], decisions(i - 1), TimeOf(start, tickInterval, i - 1);
      assert TickOf(decisions, apps, start, tickInterval)(i - 1, m, m');
      TickIsOnTime(m, m', d, apps, now);
      NextTick(start, i - 1, tickInterval);
      LeftIsReady(m', apps, now, |d.scaleUps|, TimeOf(start, tickInterval, i));
    }
  }

  /** After every tick of a run that starts empty, a replica runs exactly if it was created
      by an earlier tick and its application's cold start has passed since; all others are
      pending. */
  lemma ReplicasStartOnTime(ms: seq<Moment>, decisions: nat -> PlacementDecisions, apps: seq<AppConfig>, start: nat,
                            tickInterval: nat, i: nat, id: ReplicaID)
    requires IsRun(ms, decisions, apps, start, tickInterval) && SafeHistory(ms) && tickInterval > 0 && i + 1 < |ms|
    requires ms[0].world.replicas == map[] && forall e | e in ms[0].queue :: e.ClusterDown?
    requires id in ms[i + 1].world.replicas
    ensures var r, now := ms[i + 1].world.replicas[id], TimeOf(start, tickInterval, i);
            && (r.status == Running || r.status == Pending)
            && (r.status == Running <==> r.createdAt < now && r.createdAt + ColdStart(apps, r.appID) <= now)
  {
    RunIsReady(ms, decisions, apps, start, tickInterval, i + 1);
    assert OnTime(ms[i + 1].world.replicas[id], ms[i + 1].queue, apps, TimeOf(start, tickInterval, i));
  }
}
