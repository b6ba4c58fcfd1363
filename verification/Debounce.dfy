/** The debouncer: within a window it keeps one event per key and every cluster
    event, and hands the loop a batch when the window ends. */
module Debounce {
  import opened Model
  import opened World
  import opened Events

  type Merged = map<string, Event>

  /** The buffers after one more event. */
  function MergedWith(merged: Merged, e: Event): Merged {
    if e.IsMergeable() then merged[e.MergeKey() := e] else merged
  }

  function ListedWith(nonMergeable: seq<Event>, e: Event): seq<Event> {
    if e.IsMergeable() then nonMergeable else nonMergeable + [e]
  }

  /** What a window leaves in the merge buffer. */
  ghost function Buffer(since: seq<Event>): Merged {
    if since == [] then map[] else MergedWith(Buffer(since[..|since| - 1]), since[|since| - 1])
  }

  /** The buffers hold what the window so far leaves in them. */
  ghost predicate Represents(merged: Merged, nonMergeable: seq<Event>, since: seq<Event>) {
    merged == Buffer(since) && nonMergeable == ClusterOnly(since)
  }

  lemma RepresentsReceive(merged: Merged, nonMergeable: seq<Event>, since: seq<Event>, e: Event)
    requires Represents(merged, nonMergeable, since)
    ensures Represents(MergedWith(merged, e), ListedWith(nonMergeable, e), since + [e])
  {
    assert (since + [e])[..|since|] == since;
    assert ClusterOnly(since) + [] == ClusterOnly(since);
  }

  /** The last event of a kind filed under an application. */
  ghost function LastFor(es: seq<Event>, kind: EventKind, app: AppID): Option<Event> {
    if es == [] then None
    else
      var last := es[|es| - 1];
      if last.kind == kind && last.appID == app then Some(last) else LastFor(es[..|es| - 1], kind, app)
  }

  function Lookup<K, V>(m: map<K, V>, k: K): Option<V> {
    if k in m then Some(m[k]) else None
  }

  /** The textual key does its work: the buffer holds, for each kind and application,
      the last event of the window filed there, and nothing else. */
  lemma {:induction false} BufferKeepsLast(since: seq<Event>, kind: EventKind, app: AppID)
    requires kind != ClusterChange
    ensures Lookup(Buffer(since), KeyFor(kind, app)) == LastFor(since, kind, app)
  {
    if since != [] {
      var last := since[|since| - 1];
      BufferKeepsLast(since[..|since| - 1], kind, app);
      if last.IsMergeable() && KeyFor(kind, app) == last.MergeKey() {
        KeyIsInjective(kind, app, last.kind, last.appID);
      }
    }
  }

  lemma {:induction false} BufferIsKeyed(since: seq<Event>)
    ensures forall k | k in Buffer(since) ::
              Buffer(since)[k] in since && Buffer(since)[k].IsMergeable() && Buffer(since)[k].MergeKey() == k
  {
    if since != [] {
      BufferIsKeyed(since[..|since| - 1]);
      assert since == since[..|since| - 1] + [since[|since| - 1]];
    }
  }

  /** The merged events, each once, in some order. */
  ghost predicate Lists(order: seq<Event>, merged: Merged) {
    && (forall e | e in order :: e.MergeKey() in merged && merged[e.MergeKey()] == e)
    && (forall k | k in merged :: merged[k] in order)
    && (forall i, j | 0 <= i < j < |order| :: order[i].MergeKey() != order[j].MergeKey())
  }

  lemma {:induction false} ClusterOnlyConcat(xs: seq<Event>, ys: seq<Event>)
    ensures ClusterOnly(xs + ys) == ClusterOnly(xs) + ClusterOnly(ys)
  {
    if ys == [] {
      assert xs + ys == xs;
    } else {
      assert (xs + ys)[..|xs + ys| - 1] == xs + ys[..|ys| - 1];
      ClusterOnlyConcat(xs, ys[..|ys| - 1]);
    }
  }

  lemma {:induction false} ClusterOnlyKeeps(es: seq<Event>)
    ensures forall e | e in ClusterOnly(es) :: e.kind == ClusterChange && e in es
    ensures (forall e | e in es :: e.kind == ClusterChange) ==> ClusterOnly(es) == es
    ensures (forall e | e in es :: e.kind != ClusterChange) ==> ClusterOnly(es) == []
  {
    if es != [] {
      ClusterOnlyKeeps(es[..|es| - 1]);
      assert es == es[..|es| - 1] + [es[|es| - 1]];
    }
  }

  lemma BatchKeepsClusterEvents(since: seq<Event>, order: seq<Event>)
    requires Lists(order, Buffer(since))
    ensures ClusterOnly(order + ClusterOnly(since)) == ClusterOnly(since)
  {
    BufferIsKeyed(since);
    ClusterOnlyKeeps(since);
    ClusterOnlyKeeps(ClusterOnly(since));
    ClusterOnlyKeeps(order);
    ClusterOnlyConcat(order, ClusterOnly(since));
  }

  // ---------- Exactly when a batch does what its window would have done ----------

  /** An event of the merge buffer that replaces this entry. */
  ghost predicate Survives(since: seq<Event>, k: string, kind: EventKind, app: AppID) {
    k in Buffer(since) && Writes(Buffer(since)[k], kind, app)
  }

  /** If the window replaces this entry, some surviving event does, and every one that
      does says what the last event of the window says. */
  ghost predicate KeepsLast(since: seq<Event>, kind: EventKind, app: AppID) {
    LastWritten(since, kind, app).Some? ==>
      && (exists k :: Survives(since, k, kind, app))
      && (forall k | Survives(since, k, kind, app) ::
            Written(Buffer(since)[k]) == LastWritten(since, kind, app).value)
  }

  ghost predicate KeepsAll(since: seq<Event>) {
    forall kind, app :: KeepsLast(since, kind, app)
  }

  /** In every order the merged events may come out in, the batch does to every world
      what the raw events would have done. */
  ghost predicate Preserved(since: seq<Event>) {
    forall order {:trigger Lists(order, Buffer(since))} | Lists(order, Buffer(since)) ::
      SameEffect(order + ClusterOnly(since), since)
  }

  lemma {:induction false} LastWrittenFound(es: seq<Event>, kind: EventKind, app: AppID)
    ensures match LastWritten(es, kind, app)
            case Some(row) => exists e :: e in es && Writes(e, kind, app) && Written(e) == row
            case None => forall e | e in es :: !Writes(e, kind, app)
  {
    if es != [] {
      LastWrittenFound(es[..|es| - 1], kind, app);
      assert es == es[..|es| - 1] + [es[|es| - 1]];
      assert es[|es| - 1] in es;
    }
  }

  lemma {:induction false} ClusterEventsWriteNothing(xs: seq<Event>, ys: seq<Event>, kind: EventKind, app: AppID)
    requires forall e | e in ys :: e.kind == ClusterChange
    ensures LastWritten(xs + ys, kind, app) == LastWritten(xs, kind, app)
  {
    if ys == [] {
      assert xs + ys == xs;
    } else {
      assert (xs + ys)[..|xs + ys| - 1] == xs + ys[..|ys| - 1];
      ClusterEventsWriteNothing(xs, ys[..|ys| - 1], kind, app);
    }
  }

  /** If the survivors agree with the window, so does every order of them. */
  lemma KeptInAnyOrder(since: seq<Event>, order: seq<Event>, kind: EventKind, app: AppID)
    requires Lists(order, Buffer(since)) && KeepsLast(since, kind, app)
    ensures LastWritten(order, kind, app) == LastWritten(since, kind, app)
  {
    LastWrittenFound(order, kind, app);
    LastWrittenFound(since, kind, app);
    BufferIsKeyed(since);
    if LastWritten(since, kind, app).Some? {
      var k :| Survives(since, k, kind, app);
      assert Buffer(since)[k] in order;
      var e :| e in order && Writes(e, kind, app) && Written(e) == LastWritten(order, kind, app).value;
      assert Survives(since, e.MergeKey(), kind, app);
    } else {
      assert forall e | e in order :: e in since;
    }
  }

  /** Map iteration may come to any survivor last. */
  lemma {:induction false} OrderEndingWith(merged: Merged, k: string) returns (order: seq<Event>)
    requires k in merged && forall x | x in merged :: merged[x].MergeKey() == x
    ensures Lists(order, merged) && order != [] && order[|order| - 1] == merged[k]
    decreases |merged|, 0
  {
    var front := SomeOrder(merged - {k});
    order := front + [merged[k]];
    ListsOneMore(front, merged, k);
  }

  lemma ListsOneMore(front: seq<Event>, merged: Merged, k: string)
    requires k in merged && merged[k].MergeKey() == k && Lists(front, merged - {k})
    ensures Lists(front + [merged[k]], merged)
  {
    var rest, order := merged - {k}, front + [merged[k]];
    forall x | x in merged ensures merged[x] in order {
      assert x != k ==> rest[x] in front;
    }
    forall i, j | 0 <= i < j < |order| ensures order[i].MergeKey() != order[j].MergeKey() {
      assert order[i] == front[i] && front[i] in front;
    }
  }

  lemma {:induction false} SomeOrder(merged: Merged) returns (order: seq<Event>)
    requires forall x | x in merged :: merged[x].MergeKey() == x
    ensures Lists(order, merged)
    decreases |merged|, 1
  {
    if merged == map[] {
      order := [];
    } else {
      var k :| k in merged;
      order := OrderEndingWith(merged, k);
    }
  }

  /** If every order agrees with the window, the survivors do. */
  lemma KeptIfEveryOrderKeeps(since: seq<Event>, kind: EventKind, app: AppID)
    requires forall order | Lists(order, Buffer(since)) ::
               LastWritten(order, kind, app) == LastWritten(since, kind, app)
    ensures KeepsLast(since, kind, app)
  {
    BufferIsKeyed(since);
    if LastWritten(since, kind, app).Some? {
      var some := SomeOrder(Buffer(since));
      LastWrittenFound(some, kind, app);
      var e :| e in some && Writes(e, kind, app);
      assert Survives(since, e.MergeKey(), kind, app);
      forall k | Survives(since, k, kind, app)
        ensures Written(Buffer(since)[k]) == LastWritten(since, kind, app).value
      {
        var order := OrderEndingWith(Buffer(since), k);
        assert LastWritten(order, kind, app) == Some(Written(Buffer(since)[k]));
      }
    }
  }

  lemma BatchLastWritten(since: seq<Event>, order: seq<Event>, kind: EventKind, app: AppID)
    ensures LastWritten(order + ClusterOnly(since), kind, app) == LastWritten(order, kind, app)
  {
    ClusterOnlyKeeps(since);
    ClusterEventsWriteNothing(order, ClusterOnly(since), kind, app);
  }

  /** The exact condition, for any window whatever: its batch preserves its meaning
      exactly when the survivors keep the last word on every entry. */
  lemma WindowPreservedIff(since: seq<Event>)
    ensures Preserved(since) <==> KeepsAll(since)
  {
    if KeepsAll(since) {
      forall order | Lists(order, Buffer(since)) ensures SameEffect(order + ClusterOnly(since), since) {
        BatchPreservesMeaning(since, order);
      }
    }
    if Preserved(since) {
      forall kind, app ensures KeepsLast(since, kind, app) {
        forall order | Lists(order, Buffer(since))
          ensures LastWritten(order, kind, app) == LastWritten(since, kind, app)
        {
          OrderKeeps(since, order, kind, app);
        }
        KeptIfEveryOrderKeeps(since, kind, app);
      }
    }
  }

  lemma OrderKeeps(since: seq<Event>, order: seq<Event>, kind: EventKind, app: AppID)
    requires Preserved(since) && Lists(order, Buffer(since))
    ensures LastWritten(order, kind, app) == LastWritten(since, kind, app)
  {
    BatchKeepsClusterEvents(since, order);
    SameEffectIff(order + ClusterOnly(since), since);
    BatchLastWritten(since, order, kind, app);
  }

  /** A batch of such a window does to every world what the raw events would have done. */
  lemma BatchPreservesMeaning(since: seq<Event>, order: seq<Event>)
    requires Lists(order, Buffer(since)) && KeepsAll(since)
    ensures SameEffect(order + ClusterOnly(since), since)
  {
    forall kind, app ensures LastWritten(order + ClusterOnly(since), kind, app) == LastWritten(since, kind, app) {
      assert KeepsLast(since, kind, app);
      KeptInAnyOrder(since, order, kind, app);
      BatchLastWritten(since, order, kind, app);
    }
    BatchKeepsClusterEvents(since, order);
    SameEffectIff(order + ClusterOnly(since), since);
  }

  /** The event carries its payload, filed under the application it is about. */
  ghost predicate WellFormed(e: Event) {
    && (e.kind == MetricsUpdate ==> e.vllmMetrics.Some? && e.vllmMetrics.value.appID == e.appID)
    && (e.kind == AppConfigUpdate ==> e.application.Some? && e.application.value.appID == e.appID)
  }

  ghost predicate AllWellFormed(es: seq<Event>) {
    forall e | e in es :: WellFormed(e)
  }

  /** Well-formed events meet the condition. */
  lemma WellFormedIsKept(since: seq<Event>)
    requires AllWellFormed(since)
    ensures KeepsAll(since)
  {
    forall kind, app ensures KeepsLast(since, kind, app) {
      if LastWritten(since, kind, app).Some? {
        LastWrittenFound(since, kind, app);
        WellFormedLast(since, kind, app);
        BufferKeepsLast(since, kind, app);
        BufferIsKeyed(since);
        assert Survives(since, KeyFor(kind, app), kind, app);
        forall k | Survives(since, k, kind, app) ensures k == KeyFor(kind, app) {
          FiledWhereItWrites(since, Buffer(since)[k], kind, app);
        }
      }
    }
  }

  lemma FiledWhereItWrites(since: seq<Event>, e: Event, kind: EventKind, app: AppID)
    requires AllWellFormed(since) && e in since && Writes(e, kind, app)
    ensures e.kind == kind && e.appID == app
  {
  }

  lemma {:induction false} WellFormedLast(since: seq<Event>, kind: EventKind, app: AppID)
    requires AllWellFormed(since) && LastWritten(since, kind, app).Some?
    ensures kind != ClusterChange && LastFor(since, kind, app).Some?
    ensures var e := LastFor(since, kind, app).value;
            Writes(e, kind, app) && LastWritten(since, kind, app) == Some(Written(e))
  {
    var last := since[|since| - 1];
    assert WellFormed(last);
    if !Writes(last, kind, app) {
      WellFormedLast(since[..|since| - 1], kind, app);
    }
  }

  /** The merged events in some order, then the cluster events. */
  ghost predicate IsBatch(batch: seq<Event>, merged: Merged, nonMergeable: seq<Event>) {
    && |batch| >= |nonMergeable|
    && batch[|batch| - |nonMergeable|..] == nonMergeable
    && Lists(batch[..|batch| - |nonMergeable|], merged)
  }

  method BuildBatch(merged: Merged, nonMergeable: seq<Event>) returns (batch: seq<Event>)
    requires forall k | k in merged :: merged[k].MergeKey() == k
    ensures IsBatch(batch, merged, nonMergeable)
  {
    batch := [];
    var todo := merged.Keys;
    while todo != {}
      invariant todo <= merged.Keys
      invariant forall e | e in batch :: e.MergeKey() in merged && e.MergeKey() !in todo && merged[e.MergeKey()] == e
      invariant forall k | k in merged && k !in todo :: merged[k] in batch
      invariant forall i, j | 0 <= i < j < |batch| :: batch[i].MergeKey() != batch[j].MergeKey()
    {
      var k :| k in todo;
      assert forall i | 0 <= i < |batch| :: batch[i] in batch;
      batch := batch + [merged[k]];
      todo := todo - {k};
    }
    ghost var order := batch;
    batch := batch + nonMergeable;
    assert batch[..|order|] == order;
  }

  ghost function Flatten(batches: seq<seq<Event>>): seq<Event> {
    if batches == [] then [] else Flatten(batches[..|batches| - 1]) + batches[|batches| - 1]
  }

  // ---------- The loop ----------

  ghost predicate IsBatchOf(batch: seq<Event>, window: seq<Event>) {
    IsBatch(batch, Buffer(window), ClusterOnly(window))
  }

  method BuildWindow(merged: Merged, nonMergeable: seq<Event>, ghost since: seq<Event>) returns (batch: seq<Event>)
    requires Represents(merged, nonMergeable, since)
    ensures IsBatchOf(batch, since)
  {
    BufferIsKeyed(since);
    batch := BuildBatch(merged, nonMergeable);
  }

  ghost predicate NoneEmpty(batches: seq<seq<Event>>) {
    forall i | 0 <= i < |batches| :: batches[i] != []
  }

  /** One batch per window, in order. */
  ghost predicate BatchesOf(batches: seq<seq<Event>>, windows: seq<seq<Event>>) {
    |batches| == |windows| && forall i | 0 <= i < |batches| :: IsBatchOf(batches[i], windows[i])
  }

  ghost predicate AllKept(windows: seq<seq<Event>>) {
    forall window | window in windows :: KeepsAll(window)
  }

  ghost predicate Sent(batches: seq<seq<Event>>, windows: seq<seq<Event>>, read: seq<Event>) {
    BatchesOf(batches, windows) && Flatten(windows) == read
  }

  lemma SentStep(batches: seq<seq<Event>>, windows: seq<seq<Event>>, read: seq<Event>, batch: seq<Event>,
                 window: seq<Event>)
    requires Sent(batches, windows, read) && IsBatchOf(batch, window)
    ensures if batch == [] then Sent(batches, windows, read + window)
            else Sent(batches + [batch], windows + [window], read + window)
  {
    if batch == [] {
      EmptyBatchEmptyWindow(window);
      assert read + window == read;
    } else {
      assert (windows + [window])[..|windows|] == windows;
    }
  }

  lemma BatchesFront(batches: seq<seq<Event>>, windows: seq<seq<Event>>)
    requires BatchesOf(batches, windows) && batches != []
    ensures BatchesOf(batches[..|batches| - 1], windows[..|windows| - 1])
    ensures IsBatchOf(batches[|batches| - 1], windows[|windows| - 1])
    ensures AllKept(windows) ==> AllKept(windows[..|windows| - 1]) && KeepsAll(windows[|windows| - 1])
  {
    assert forall i | 0 <= i < |batches| - 1 :: IsBatchOf(batches[i], windows[i]);
  }

  /** Batches carry the cluster events of their windows in the same order. */
  lemma {:induction false} BatchesKeepClusterEvents(batches: seq<seq<Event>>, windows: seq<seq<Event>>)
    requires BatchesOf(batches, windows)
    ensures ClusterOnly(Flatten(batches)) == ClusterOnly(Flatten(windows))
  {
    if batches != [] {
      var b, x := batches[|batches| - 1], windows[|windows| - 1];
      BatchesFront(batches, windows);
      BatchesKeepClusterEvents(batches[..|batches| - 1], windows[..|windows| - 1]);
      var order := b[..|b| - |ClusterOnly(x)|];
      assert b == order + ClusterOnly(x);
      BatchKeepsClusterEvents(x, order);
      ClusterOnlyConcat(Flatten(batches[..|batches| - 1]), b);
      ClusterOnlyConcat(Flatten(windows[..|windows| - 1]), x);
    }
  }

  /** If every window keeps the last word on every entry, the batches together do what
      the windows together would have done. */
  lemma {:induction false} BatchesPreserveMeaning(batches: seq<seq<Event>>, windows: seq<seq<Event>>)
    requires BatchesOf(batches, windows) && AllKept(windows)
    ensures SameEffect(Flatten(batches), Flatten(windows))
  {
    if batches != [] {
      var b, x := batches[|batches| - 1], windows[|windows| - 1];
      var bs, xs := Flatten(batches[..|batches| - 1]), Flatten(windows[..|windows| - 1]);
      BatchesFront(batches, windows);
      BatchesPreserveMeaning(batches[..|batches| - 1], windows[..|windows| - 1]);
      var order := b[..|b| - |ClusterOnly(x)|];
      assert b == order + ClusterOnly(x);
      BatchPreservesMeaning(x, order);
      forall w ensures ApplyAll(w, bs + b) == ApplyAll(w, xs + x) {
        ApplyAllConcat(w, bs, b);
        ApplyAllConcat(w, xs, x);
      }
    }
  }

  lemma {:induction false} WindowsInFlatten(windows: seq<seq<Event>>)
    ensures forall window, e | window in windows && e in window :: e in Flatten(windows)
  {
    if windows != [] {
      WindowsInFlatten(windows[..|windows| - 1]);
      assert windows == windows[..|windows| - 1] + [windows[|windows| - 1]];
    }
  }

  lemma WellFormedWindowsAreKept(windows: seq<seq<Event>>)
    requires AllWellFormed(Flatten(windows))
    ensures AllKept(windows)
  {
    WindowsInFlatten(windows);
    forall window | window in windows ensures KeepsAll(window) {
      WellFormedIsKept(window);
    }
  }

  lemma SomethingIsBuffered(window: seq<Event>)
    requires window != []
    ensures ClusterOnly(window) != [] || exists k :: k in Buffer(window)
  {
    var last := window[|window| - 1];
    if last.IsMergeable() {
      assert last.MergeKey() in Buffer(window);
    }
  }

  lemma EmptyBatchEmptyWindow(window: seq<Event>)
    requires IsBatchOf([], window)
    ensures window == []
  {
    assert forall k :: k !in Buffer(window);
    if window != [] {
      SomethingIsBuffered(window);
    }
  }

  /** The batches emitted stand for the events read before the current window, unless
      one was dropped, and the buffers for the window. */
  ghost predicate LoopInv(batches: seq<seq<Event>>, dropped: bool, windows: seq<seq<Event>>, read: seq<Event>,
                          since: seq<Event>, merged: Merged, nonMergeable: seq<Event>)
  {
    && (!dropped ==> Sent(batches, windows, read)) && NoneEmpty(batches)
    && Represents(merged, nonMergeable, since)
  }

  lemma FlushKeepsInv(batches: seq<seq<Event>>, dropped: bool, windows: seq<seq<Event>>, read: seq<Event>,
                      since: seq<Event>, merged: Merged, nonMergeable: seq<Event>, batch: seq<Event>)
    requires LoopInv(batches, dropped, windows, read, since, merged, nonMergeable) && IsBatchOf(batch, since)
    ensures LoopInv(batches, true, windows, read + since, [], map[], [])
    ensures if batch == [] then LoopInv(batches, dropped, windows, read + since, [], map[], [])
            else LoopInv(batches + [batch], dropped, windows + [since], read + since, [], map[], [])
  {
    if !dropped {
      SentStep(batches, windows, read, batch, since);
    }
  }

  /** What batches that stand for consecutive windows of a stream are worth. */
  ghost predicate StandsFor(batches: seq<seq<Event>>, windows: seq<seq<Event>>, read: seq<Event>) {
    && Sent(batches, windows, read)
    && ClusterOnly(Flatten(batches)) == ClusterOnly(read)
    && (AllKept(windows) ==> SameEffect(Flatten(batches), read))
    && (AllWellFormed(read) ==> AllKept(windows))
  }

  lemma LoopEnds(batches: seq<seq<Event>>, windows: seq<seq<Event>>)
    requires BatchesOf(batches, windows)
    ensures StandsFor(batches, windows, Flatten(windows))
  {
    BatchesKeepClusterEvents(batches, windows);
    if AllKept(windows) {
      BatchesPreserveMeaning(batches, windows);
    }
    if AllWellFormed(Flatten(windows)) {
      WellFormedWindowsAreKept(windows);
    }
  }

  /** The last batch is sent without looking at the context. */
  method FinalFlush(batches0: seq<seq<Event>>, ghost dropped: bool, ghost windows0: seq<seq<Event>>, merged: Merged,
                    nonMergeable: seq<Event>, ghost read: seq<Event>, ghost since: seq<Event>)
    returns (batches: seq<seq<Event>>, ghost windows: seq<seq<Event>>)
    requires LoopInv(batches0, dropped, windows0, read, since, merged, nonMergeable)
    ensures (!dropped ==> StandsFor(batches, windows, read + since)) && NoneEmpty(batches)
  {
    batches, windows := batches0, windows0;
    var batch := BuildWindow(merged, nonMergeable, since);
    FlushKeepsInv(batches, dropped, windows, read, since, merged, nonMergeable, batch);
    if batch != [] {
      batches := batches + [batch];
      windows := windows + [since];
    }
    if !dropped {
      LoopEnds(batches, windows);
    }
  }

  /** Other batches may be lost, but only to a cancellation. */
  method Flush(batches0: seq<seq<Event>>, dropped0: bool, ghost windows0: seq<seq<Event>>, cancelled: bool,
               merged: Merged, nonMergeable: seq<Event>, ghost read: seq<Event>, ghost since: seq<Event>)
    returns (batches: seq<seq<Event>>, dropped: bool, ghost windows: seq<seq<Event>>)
    requires LoopInv(batches0, dropped0, windows0, read, since, merged, nonMergeable)
    ensures LoopInv(batches, dropped, windows, read + since, [], map[], [])
    ensures dropped ==> dropped0 || cancelled
  {
    batches, dropped, windows := batches0, dropped0, windows0;
    var batch := BuildWindow(merged, nonMergeable, since);
    FlushKeepsInv(batches, dropped, windows, read, since, merged, nonMergeable, batch);
    var lost: bool := *;
    if batch != [] {
      if cancelled && lost {
        dropped := true;
      } else {
        batches := batches + [batch];
        windows := windows + [since];
      }
    }
  }

  method Receive(ev: Event, merged0: Merged, nonMergeable0: seq<Event>, ghost since: seq<Event>)
    returns (merged: Merged, nonMergeable: seq<Event>)
    requires Represents(merged0, nonMergeable0, since)
    ensures Represents(merged, nonMergeable, since + [ev])
  {
    RepresentsReceive(merged0, nonMergeable0, since, ev);
    merged, nonMergeable := merged0, nonMergeable0;
    if ev.IsMergeable() {
      merged := merged[ev.MergeKey() := ev];
    } else {
      nonMergeable := nonMergeable + [ev];
    }
  }

  lemma NewWindow(read: seq<Event>, since: seq<Event>)
    ensures (read + since) + [] == read + since
  {
  }

  lemma OneMoreRead(input: seq<Event>, n: nat, read: seq<Event>, since: seq<Event>)
    requires n < |input| && read + since == input[..n]
    ensures read + (since + [input[n]]) == input[..n + 1]
  {
  }

  /** The debouncing loop over any stream of events ending with the input's close. The
      moments at which windows expire and at which the context is cancelled, if it
      may be, are arbitrary, and so is what the loop's selects do once it is cancelled.

      Unless a batch was dropped, which needs a cancellation, there is one batch for
      each of the consecutive windows the events read fall into, the cluster events
      stay in order, and if every window keeps the last word on every entry, as windows
      of well-formed events do, the batches do what the raw events would have done.
      Unless cancelled, every event is read. */
  method Loop(input: seq<Event>, mayCancel: bool)
    returns (batches: seq<seq<Event>>, consumed: nat, cancelled: bool, dropped: bool, ghost windows: seq<seq<Event>>)
    ensures consumed <= |input| && (dropped || consumed < |input| ==> cancelled) && (cancelled ==> mayCancel)
    ensures !dropped ==> StandsFor(batches, windows, input[..consumed])
    ensures NoneEmpty(batches)
  {
    batches, consumed, cancelled, dropped, windows := [], 0, false, false, [];
    var merged: Merged, nonMergeable, armed := map[], [], false;
    ghost var read: seq<Event>, since: seq<Event> := [], [];
    assert LoopInv(batches, dropped, windows, read, since, merged, nonMergeable);
    while true
      invariant consumed <= |input| && read + since == input[..consumed]
      invariant LoopInv(batches, dropped, windows, read, since, merged, nonMergeable)
      invariant (dropped ==> cancelled) && (cancelled ==> mayCancel)
      decreases |input| - consumed, if armed then 1 else 0
    {
      var cancelNow: bool := *;
      cancelled := cancelled || (mayCancel && cancelNow);
      var takeDone, takeTimer: bool := *, *;
      if (cancelled && takeDone) || (consumed == |input| && !(armed && takeTimer)) {
        batches, windows := FinalFlush(batches, dropped, windows, merged, nonMergeable, read, since);
        return;
      } else if armed && takeTimer {
        batches, dropped, windows :=
          Flush(batches, dropped, windows, cancelled, merged, nonMergeable, read, since);
        merged, nonMergeable, armed := map[], [], false;
        NewWindow(read, since);
        read, since := read + since, [];
      } else {
        merged, nonMergeable := Receive(input[consumed], merged, nonMergeable, since);
        OneMoreRead(input, consumed, read, since);
        since := since + [input[consumed]];
        consumed := consumed + 1;
        armed := true;
      }
    }
  }

  /** A window that fails the condition: a bare metrics event after a full one with the
      same key erases it. */
  lemma MissingPayloadErasesUpdate(app: AppID, m: VLLMMetrics)
    requires m.appID == app
    ensures var full := Event(MetricsUpdate, app, Some(m), None, None);
            var bare := Event(MetricsUpdate, app, None, None, None);
            && full.MergeKey() == bare.MergeKey()
            && !KeepsLast([full, bare], MetricsUpdate, app)
            && (exists order :: Lists(order, Buffer([full, bare])) && !SameEffect(order, [full, bare]))
  {
    var full := Event(MetricsUpdate, app, Some(m), None, None);
    var bare := Event(MetricsUpdate, app, None, None, None);
    var since := [full, bare];
    assert since[..|since| - 1] == [full] && [full][..|[full]| - 1] == [];
    assert Buffer([full]) == map[full.MergeKey() := full];
    assert Buffer(since) == map[bare.MergeKey() := bare];
    ClusterOnlyKeeps(since);
    assert LastWritten(since, MetricsUpdate, app) == Some(MetricsRow(m));
    forall k ensures !Survives(since, k, MetricsUpdate, app) {
    }
    assert !KeepsLast(since, MetricsUpdate, app);
    WindowPreservedIff(since);
    var order :| Lists(order, Buffer(since)) && !SameEffect(order + ClusterOnly(since), since);
    assert order + [] == order;
  }
}
