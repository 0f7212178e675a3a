/** No row lost or inserted twice, no writer left running, no deadlock, in every run of the import. */
module ImportPipelineProofs {
  import opened ImportPipeline

  // ----- sums over sequences -----

  lemma {:induction false} GatheredUpdate<T>(s: seq<T>, rows: T -> multiset<(nat, Row)>, i: nat, x: T)
    requires i < |s|
    ensures Gathered(s[i := x], rows) + rows(s[i]) == Gathered(s, rows) + rows(x)
  {
    if i == 0 {
      assert s[i := x][1..] == s[1..];
    } else {
      GatheredUpdate(s[1..], rows, i - 1, x);
      assert s[i := x][1..] == s[1..][i - 1 := x];
      assert s[i := x][0] == s[0] && s[1..][i - 1] == s[i];
      Regroup(rows(s[0]), Gathered(s[1..][i - 1 := x], rows), rows(s[i]));
      Regroup(rows(s[0]), Gathered(s[1..], rows), rows(x));
    }
  }

  lemma Regroup(a: multiset<(nat, Row)>, b: multiset<(nat, Row)>, c: multiset<(nat, Row)>)
    ensures (a + b) + c == a + (b + c)
  {
  }

  /** `moved` goes from the queue to the writers. */
  lemma Handover(
      inserted: multiset<(nat, Row)>, after: multiset<(nat, Row)>, before: multiset<(nat, Row)>,
      queue: multiset<(nat, Row)>, moved: multiset<(nat, Row)>, unread: multiset<(nat, Row)>)
    requires after + multiset{} == before + moved
    ensures inserted + after + queue + unread == inserted + before + (moved + queue) + unread
  {
    forall x ensures (inserted + after + queue + unread)[x] == (inserted + before + (moved + queue) + unread)[x] {
      assert (after + multiset{})[x] == (before + moved)[x];
    }
  }

  /** `moved` goes from the writers to the table. */
  lemma Delivery(
      inserted: multiset<(nat, Row)>, after: multiset<(nat, Row)>, before: multiset<(nat, Row)>,
      queue: multiset<(nat, Row)>, moved: multiset<(nat, Row)>, unread: multiset<(nat, Row)>)
    requires after + moved == before + multiset{}
    ensures inserted + moved + after + queue + unread == inserted + before + queue + unread
  {
    forall x ensures (inserted + moved + after + queue + unread)[x] == (inserted + before + queue + unread)[x] {
      assert (after + moved)[x] == (before + multiset{})[x];
    }
  }

  lemma Cancel(
      a: multiset<(nat, Row)>, b: multiset<(nat, Row)>, moved: multiset<(nat, Row)>, rest: multiset<(nat, Row)>)
    requires a + (moved + rest) == b + rest
    ensures a + moved == b
  {
    forall x ensures (a + moved)[x] == b[x] {
      assert (a + (moved + rest))[x] == (b + rest)[x];
    }
  }

  lemma {:induction false} GatheredAppend<T>(s: seq<T>, rows: T -> multiset<(nat, Row)>, x: T)
    ensures Gathered(s + [x], rows) == Gathered(s, rows) + rows(x)
  {
    if s == [] {
      assert (s + [x])[1..] == [];
    } else {
      GatheredAppend(s[1..], rows, x);
      assert (s + [x])[1..] == s[1..] + [x];
    }
  }

  lemma {:induction false} TotalUpdate<T>(s: seq<T>, f: T -> nat, i: nat, x: T)
    requires i < |s|
    ensures Total(s[i := x], f) + f(s[i]) == Total(s, f) + f(x)
  {
    if i == 0 {
      assert s[i := x][1..] == s[1..];
    } else {
      TotalUpdate(s[1..], f, i - 1, x);
      assert s[i := x][1..] == s[1..][i - 1 := x];
    }
  }

  lemma {:induction false} TotalAppend<T>(s: seq<T>, f: T -> nat, x: T)
    ensures Total(s + [x], f) == Total(s, f) + f(x)
  {
    if s == [] {
      assert (s + [x])[1..] == [];
    } else {
      TotalAppend(s[1..], f, x);
      assert (s + [x])[1..] == s[1..] + [x];
    }
  }

  lemma {:induction false} TotalZero<T>(s: seq<T>, f: T -> nat)
    ensures Total(s, f) == 0 <==> forall i :: 0 <= i < |s| ==> f(s[i]) == 0
  {
    if s != [] {
      TotalZero(s[1..], f);
      assert forall i :: 0 < i < |s| ==> s[i] == s[1..][i - 1];
      assert forall i :: 0 <= i < |s| - 1 ==> s[1..][i] == s[i + 1];
    }
  }

  /** All of the writers are stopped exactly when they count as many. */
  lemma {:induction false} StoppedCount(ws: seq<Writer>)
    ensures Total(ws, IsStopped) <= |ws|
    ensures Total(ws, IsStopped) == |ws| <==> forall w :: 0 <= w < |ws| ==> ws[w].Stopped?
  {
    if ws != [] {
      StoppedCount(ws[1..]);
      assert forall i :: 0 < i < |ws| ==> ws[i] == ws[1..][i - 1];
      assert forall i :: 0 <= i < |ws| - 1 ==> ws[1..][i] == ws[i + 1];
    }
  }

  lemma {:induction false} GatheredNothing<T>(s: seq<T>, rows: T -> multiset<(nat, Row)>)
    requires forall i :: 0 <= i < |s| ==> rows(s[i]) == multiset{}
    ensures Gathered(s, rows) == multiset{}
  {
    if s != [] {
      GatheredNothing(s[1..], rows);
    }
  }

  // ----- every step -----

  /** A reader that puts a batch on the queue has it no more. */
  lemma ReaderLosesRows(rs: seq<Reader>, i: nat, r: Reader, moved: multiset<(nat, Row)>)
    requires i < |rs| && ReaderRows(rs[i]) == moved + ReaderRows(r)
    ensures Gathered(rs[i := r], ReaderRows) + moved == Gathered(rs, ReaderRows)
  {
    GatheredUpdate(rs, ReaderRows, i, r);
    Cancel(Gathered(rs[i := r], ReaderRows), Gathered(rs, ReaderRows), moved, ReaderRows(r));
  }

  lemma PutConservesRows(s: State, i: nat)
    requires Enabled(s, Put(i))
    ensures AllRows(Apply(s, Put(i))) == AllRows(s)
  {
    var Running(src, left) := s.readers[i];
    ReaderLosesRows(s.readers, i, Running(src, left[1..]), multiset(Tagged(src, left[0])));
    GatheredAppend(s.queue, ItemRows, Work(src, left[0]));
  }

  lemma GetConservesRows(s: State, w: nat)
    requires Enabled(s, Get(w))
    ensures AllRows(Apply(s, Get(w))) == AllRows(s)
  {
    var writer, queue := Taken(s.queue[0]), s.queue[1..];
    GatheredUpdate(s.writers, WriterRows, w, writer);
    Handover(multiset(s.inserted), Gathered(s.writers[w := writer], WriterRows), Gathered(s.writers, WriterRows),
             Gathered(queue, ItemRows), WriterRows(writer), Gathered(s.readers, ReaderRows));
  }

  lemma InsertConservesRows(s: State, w: nat)
    requires Enabled(s, Insert(w))
    ensures AllRows(Apply(s, Insert(w))) == AllRows(s)
  {
    var rows := Tagged(s.writers[w].src, s.writers[w].batch);
    GatheredUpdate(s.writers, WriterRows, w, Waiting);
    Delivery(multiset(s.inserted), Gathered(s.writers[w := Waiting], WriterRows), Gathered(s.writers, WriterRows),
             Gathered(s.queue, ItemRows), multiset(rows), Gathered(s.readers, ReaderRows));
    assert multiset(s.inserted + rows) == multiset(s.inserted) + multiset(rows);
  }

  /** No step loses, invents or duplicates a row. */
  lemma StepConservesRows(s: State, step: Step)
    requires Enabled(s, step)
    ensures AllRows(Apply(s, step)) == AllRows(s)
  {
    match step
    case Launch =>
      var r := s.readers[s.main.next];
      ReaderLosesRows(s.readers, s.main.next, Running(r.src, r.left), multiset{});
    case Put(i) => PutConservesRows(s, i);
    case Exit(i) => ReaderLosesRows(s.readers, i, Exited, multiset{});
    case SendStop => GatheredAppend(s.queue, ItemRows, StopMarker);
    case Get(w) => GetConservesRows(s, w);
    case Insert(w) => InsertConservesRows(s, w);
    case _ =>
  }

  lemma ReaderStepTakesOne(s: State, step: Step)
    requires Enabled(s, step) && ReadersInv(s)
    requires step.Launch? || step.Put? || step.Exit?
    ensures StepsLeft(Apply(s, step)) + 1 == StepsLeft(s)
  {
    match step
    case Launch =>
      var r := s.readers[s.main.next];
      assert s.main.next !in s.pool;
      TotalUpdate(s.readers, ReaderWork, s.main.next, Running(r.src, r.left));
    case Put(i) =>
      var Running(src, left) := s.readers[i];
      TotalUpdate(s.readers, ReaderWork, i, Running(src, left[1..]));
      TotalAppend(s.queue, ItemWork, Work(src, left[0]));
    case Exit(i) => TotalUpdate(s.readers, ReaderWork, i, Exited);
  }

  lemma WriterStepTakesOne(s: State, step: Step)
    requires Enabled(s, step)
    requires step.SendStop? || step.Get? || step.Insert?
    ensures StepsLeft(Apply(s, step)) + 1 == StepsLeft(s)
  {
    match step
    case SendStop => TotalAppend(s.queue, ItemWork, StopMarker);
    case Get(w) => TotalUpdate(s.writers, WriterWork, w, Taken(s.queue[0]));
    case Insert(w) => TotalUpdate(s.writers, WriterWork, w, Waiting);
  }

  /** Every step takes exactly one off the steps left. */
  lemma StepTakesOne(s: State, step: Step)
    requires Enabled(s, step) && ReadersInv(s)
    ensures StepsLeft(Apply(s, step)) + 1 == StepsLeft(s)
  {
    if step.Launch? || step.Put? || step.Exit? {
      ReaderStepTakesOne(s, step);
    } else if step.SendStop? || step.Get? || step.Insert? {
      WriterStepTakesOne(s, step);
    }
  }

  // ----- the invariant -----

  /** The readers before the iterator have been started, the others not; every running one is in the pool. */
  predicate ReadersInv(s: State) {
    && (s.main.Launching? ==>
          && s.main.next <= |s.readers|
          && forall i :: 0 <= i < |s.readers| ==> (s.readers[i].NotStarted? <==> i >= s.main.next))
    && (!s.main.Launching? ==> forall i :: 0 <= i < |s.readers| ==> !s.readers[i].NotStarted?)
    && (forall i :: 0 <= i < |s.readers| && s.readers[i].Running? ==> i in s.pool)
    && (forall i :: i in s.pool ==> i < |s.readers| && !s.readers[i].NotStarted?)
    && (s.main.Launching? || s.main.Joining? || s.pool == {})
  }

  predicate AllMarkers(q: seq<Item>) {
    forall j :: 0 <= j < |q| ==> q[j].StopMarker?
  }

  /** Nothing follows an end marker but end markers, in the queue or out of it. */
  predicate QueueInv(s: State) {
    && |s.queue| <= Capacity(s)
    && (forall i, j :: 0 <= i < j < |s.queue| && s.queue[i].StopMarker? ==> s.queue[j].StopMarker?)
    && (forall w :: 0 <= w < |s.writers| && s.writers[w].Stopped? ==> AllMarkers(s.queue))
    && (s.main.Launching? || s.main.Joining? ==>
          && (forall j :: 0 <= j < |s.queue| ==> s.queue[j].Work?)
          && (forall w :: 0 <= w < |s.writers| ==> !s.writers[w].Stopped?))
    && (s.main.Finished? ==> forall w :: 0 <= w < |s.writers| ==> s.writers[w].Stopped?)
  }

  /** End markers queued, end markers unsent and writers stopped make up one per writer. */
  predicate MarkersInv(s: State) {
    Total(s.queue, IsMarker) + UnsentStops(s) + Total(s.writers, IsStopped) == |s.writers|
  }

  /** As many readers as there are clients at most */
  predicate PoolInv(s: State) {
    |s.pool| <= |s.writers|
  }

  predicate Inv(s: State) {
    ReadersInv(s) && QueueInv(s) && MarkersInv(s) && PoolInv(s)
  }

  lemma StepKeepsReadersInv(s: State, step: Step)
    requires Enabled(s, step) && ReadersInv(s)
    ensures ReadersInv(Apply(s, step))
  {
  }

  lemma StepKeepsQueueInv(s: State, step: Step)
    requires Enabled(s, step) && ReadersInv(s) && QueueInv(s)
    ensures QueueInv(Apply(s, step))
  {
  }

  lemma StepKeepsMarkersInv(s: State, step: Step)
    requires Enabled(s, step) && QueueInv(s) && MarkersInv(s)
    ensures MarkersInv(Apply(s, step))
  {
    match step
    case Put(i) => TotalAppend(s.queue, IsMarker, Work(s.readers[i].src, s.readers[i].left[0]));
    case SendStop => TotalAppend(s.queue, IsMarker, StopMarker);
    case Get(w) => TotalUpdate(s.writers, IsStopped, w, Taken(s.queue[0]));
    case Insert(w) => TotalUpdate(s.writers, IsStopped, w, Waiting);
    case _ =>
  }

  lemma StepKeepsPoolInv(s: State, step: Step)
    requires Enabled(s, step) && PoolInv(s)
    ensures PoolInv(Apply(s, step))
  {
  }

  lemma StepKeepsInv(s: State, step: Step)
    requires Enabled(s, step) && Inv(s)
    ensures Inv(Apply(s, step))
  {
    StepKeepsReadersInv(s, step);
    StepKeepsQueueInv(s, step);
    StepKeepsMarkersInv(s, step);
    StepKeepsPoolInv(s, step);
  }

  // ----- every run -----

  lemma {:induction false} RunKeepsInv(s: State, steps: seq<Step>)
    requires Legal(s, steps) && Inv(s)
    ensures var t := Run(s, steps);
            Inv(t) && AllRows(t) == AllRows(s) && StepsLeft(t) + |steps| == StepsLeft(s) && |t.writers| == |s.writers|
    decreases |steps|
  {
    hide Enabled, Apply, ReadersInv, QueueInv, MarkersInv, PoolInv, AllRows, StepsLeft;
    if steps != [] {
      StepKeepsInv(s, steps[0]);
      StepConservesRows(s, steps[0]);
      StepTakesOne(s, steps[0]);
      WritersStay(s, steps[0]);
      RunKeepsInv(Apply(s, steps[0]), steps[1..]);
    }
  }

  lemma WritersStay(s: State, step: Step)
    requires Enabled(s, step)
    ensures |Apply(s, step).writers| == |s.writers|
  {
  }

  lemma {:induction false} NewReadersHold(base: nat, sources: seq<seq<Batch>>, rs: seq<Reader>)
    requires |rs| == |sources| && forall i :: 0 <= i < |rs| ==> rs[i] == NotStarted(base + i, sources[i])
    ensures Gathered(rs, ReaderRows) == SourceRows(base, sources)
    ensures Total(rs, ReaderWork) == SourcesLength(sources)
    decreases |rs|
  {
    if rs != [] {
      NewReadersHold(base + 1, sources[1..], rs[1..]);
    }
  }

  lemma InitialHolds(sources: seq<seq<Batch>>, clients: nat)
    ensures var s := Initial(sources, clients);
            Inv(s) && AllRows(s) == SourceRows(0, sources) && StepsLeft(s) == ImportLength(sources, clients)
  {
    var s := Initial(sources, clients);
    NewReadersHold(0, sources, s.readers);
    GatheredNothing(s.writers, WriterRows);
    TotalZero(s.writers, WriterWork);
    TotalZero(s.writers, IsStopped);
  }

  // ----- the theorems -----

  /**
   * In every state of every run: the rows of the files are all accounted for, and so are the end markers;
   * there are never more readers than clients, nor more than three items per client queued.
   */
  lemma PipelineConservation(sources: seq<seq<Batch>>, clients: nat, steps: seq<Step>)
    requires Legal(Initial(sources, clients), steps)
    ensures var s := Run(Initial(sources, clients), steps);
            && AllRows(s) == SourceRows(0, sources)
            && Total(s.queue, IsMarker) + UnsentStops(s) + Total(s.writers, IsStopped) == clients
            && |s.queue| <= 3 * clients
            && |s.pool| <= clients && forall i :: 0 <= i < |s.readers| && s.readers[i].Running? ==> i in s.pool
  {
    var s0 := Initial(sources, clients);
    InitialHolds(sources, clients);
    RunKeepsInv(s0, steps);
  }

  // ----- the order of the batches -----

  /** The item a step takes off the queue */
  function TakenBy(s: State, step: Step): seq<Item>
    requires Enabled(s, step)
  {
    if step.Get? then [s.queue[0]] else []
  }

  /** All items taken off the queue in a run, in order */
  function AllTaken(s: State, steps: seq<Step>): seq<Item>
    requires Legal(s, steps)
    decreases |steps|
  {
    if steps == [] then [] else TakenBy(s, steps[0]) + AllTaken(Apply(s, steps[0]), steps[1..])
  }

  function BatchesOf(items: seq<Item>, src: nat): seq<Batch> {
    if items == [] then []
    else (if items[0].Work? && items[0].src == src then [items[0].batch] else []) + BatchesOf(items[1..], src)
  }

  /** What the reader of a source still has to put on the queue */
  function LeftOf(s: State, i: nat): seq<Batch>
    requires i < |s.readers|
  {
    if s.readers[i].Exited? then [] else s.readers[i].left
  }

  predicate OwnSources(s: State) {
    forall i :: 0 <= i < |s.readers| && !s.readers[i].Exited? ==> s.readers[i].src == i
  }

  lemma {:induction false} BatchesConcat(xs: seq<Item>, ys: seq<Item>, src: nat)
    ensures BatchesOf(xs + ys, src) == BatchesOf(xs, src) + BatchesOf(ys, src)
  {
    if xs == [] {
      assert xs + ys == ys;
    } else {
      var head := if xs[0].Work? && xs[0].src == src then [xs[0].batch] else [];
      assert (xs + ys)[1..] == xs[1..] + ys && (xs + ys)[0] == xs[0];
      BatchesConcat(xs[1..], ys, src);
      assert head + (BatchesOf(xs[1..], src) + BatchesOf(ys, src)) == BatchesOf(xs, src) + BatchesOf(ys, src);
    }
  }

  lemma OneBatch(item: Item, src: nat)
    ensures BatchesOf([item], src) == if item.Work? && item.src == src then [item.batch] else []
  {
    assert [item][1..] == [];
  }

  lemma SourcesStay(s: State, step: Step)
    requires Enabled(s, step) && OwnSources(s)
    ensures OwnSources(Apply(s, step)) && |Apply(s, step).readers| == |s.readers|
  {
  }

  /** Taken, queued and unread batches of a source */
  function InOrder(s: State, taken: seq<Item>, i: nat): seq<Batch>
    requires i < |s.readers|
  {
    BatchesOf(taken, i) + BatchesOf(s.queue, i) + LeftOf(s, i)
  }

  lemma PutKeepsOrder(s: State, j: nat, i: nat)
    requires Enabled(s, Put(j)) && OwnSources(s) && i < |s.readers|
    ensures i < |Apply(s, Put(j)).readers| && InOrder(Apply(s, Put(j)), [], i) == InOrder(s, [], i)
  {
    hide BatchesOf, OwnSources;
    assert s.readers[j].src == j by {
      OwnSource(s, j);
    }
    var left, item := s.readers[j].left, Work(j, s.readers[j].left[0]);
    BatchesConcat(s.queue, [item], i);
    OneBatch(item, i);
    var taken, queued := BatchesOf([], i), BatchesOf(s.queue, i);
    if j == i {
      assert taken + (queued + [left[0]]) + left[1..] == taken + queued + left;
    } else {
      assert queued + [] == queued;
    }
  }

  lemma OwnSource(s: State, j: nat)
    requires OwnSources(s) && j < |s.readers| && !s.readers[j].Exited?
    ensures s.readers[j].src == j
  {
  }

  lemma MainKeepsOrder(s: State, step: Step, i: nat)
    requires Enabled(s, step) && i < |s.readers| && !step.Put? && !step.Get?
    ensures i < |Apply(s, step).readers| && InOrder(Apply(s, step), [], i) == InOrder(s, [], i)
  {
    if step.SendStop? {
      BatchesConcat(s.queue, [StopMarker], i);
      OneBatch(StopMarker, i);
    }
    assert BatchesOf(s.queue, i) + [] == BatchesOf(s.queue, i);
    hide BatchesOf;
  }

  lemma GetKeepsOrder(s: State, w: nat, i: nat)
    requires Enabled(s, Get(w)) && i < |s.readers|
    ensures i < |Apply(s, Get(w)).readers| && InOrder(Apply(s, Get(w)), [s.queue[0]], i) == InOrder(s, [], i)
  {
    BatchesConcat([s.queue[0]], s.queue[1..], i);
    assert [s.queue[0]] + s.queue[1..] == s.queue;
  }

  lemma StepKeepsOrder(s: State, step: Step, i: nat)
    requires Enabled(s, step) && OwnSources(s) && i < |s.readers|
    ensures OwnSources(Apply(s, step)) && |Apply(s, step).readers| == |s.readers|
    ensures InOrder(Apply(s, step), TakenBy(s, step), i) == InOrder(s, [], i)
  {
    SourcesStay(s, step);
    hide Apply, Enabled, OwnSources, InOrder;
    match step
    case Put(j) => PutKeepsOrder(s, j, i);
    case Get(w) => GetKeepsOrder(s, w, i);
    case _ => MainKeepsOrder(s, step, i);
  }

  lemma {:induction false} RunKeepsOrder(s: State, steps: seq<Step>, i: nat)
    requires Legal(s, steps) && OwnSources(s) && i < |s.readers|
    ensures |Run(s, steps).readers| == |s.readers|
    ensures InOrder(Run(s, steps), AllTaken(s, steps), i) == InOrder(s, [], i)
    decreases |steps|
  {
    hide Enabled, Apply, OwnSources, InOrder, TakenBy;
    if steps != [] {
      var s1 := Apply(s, steps[0]);
      StepKeepsOrder(s, steps[0], i);
      RunKeepsOrder(s1, steps[1..], i);
      TakenInFront(s1, Run(s1, steps[1..]), TakenBy(s, steps[0]), AllTaken(s1, steps[1..]), i);
    }
  }

  lemma TakenInFront(s: State, t: State, taken: seq<Item>, more: seq<Item>, i: nat)
    requires i < |s.readers| && i < |t.readers| && InOrder(t, more, i) == InOrder(s, [], i)
    ensures InOrder(t, taken + more, i) == InOrder(s, taken, i)
  {
    BatchesConcat(taken, more, i);
    var first := BatchesOf(taken, i);
    assert InOrder(t, taken + more, i) == first + InOrder(t, more, i);
    assert InOrder(s, taken, i) == first + InOrder(s, [], i);
  }

  /** Through the queue the batches of each file stay in the order of the file, however the processes interleave. */
  lemma BatchesInOrder(sources: seq<seq<Batch>>, clients: nat, steps: seq<Step>, i: nat)
    requires Legal(Initial(sources, clients), steps) && i < |sources|
    ensures var s0, s := Initial(sources, clients), Run(Initial(sources, clients), steps);
            && |s.readers| == |sources|
            && BatchesOf(AllTaken(s0, steps), i) + BatchesOf(s.queue, i) + LeftOf(s, i) == sources[i]
  {
    hide Run, Legal, AllTaken;
    RunKeepsOrder(Initial(sources, clients), steps, i);
    assert [] + sources[i] == sources[i];
  }

  // ----- the end -----

  /** Once all writers have stopped the queue is empty, every reader is done and every row is inserted. */
  lemma StoppedMeansDone(s: State)
    requires Inv(s) && |s.writers| > 0
    requires forall w :: 0 <= w < |s.writers| ==> s.writers[w].Stopped?
    ensures s.queue == [] && UnsentStops(s) == 0 && s.pool == {}
    ensures forall i :: 0 <= i < |s.readers| ==> s.readers[i].Exited?
    ensures AllRows(s) == multiset(s.inserted)
  {
    StoppedCount(s.writers);
    assert s.writers[0].Stopped?;
    TotalZero(s.queue, IsMarker);
    assert s.queue == [];
    GatheredNothing(s.writers, WriterRows);
    GatheredNothing(s.readers, ReaderRows);
  }

  /** Every row of every file is then inserted exactly as often as the file has it. */
  lemma StoppedWritersInsertedEverything(sources: seq<seq<Batch>>, clients: nat, steps: seq<Step>)
    requires clients > 0 && Legal(Initial(sources, clients), steps)
    requires forall w :: 0 <= w < clients ==>
               w < |Run(Initial(sources, clients), steps).writers|
                 && Run(Initial(sources, clients), steps).writers[w].Stopped?
    ensures var s := Run(Initial(sources, clients), steps);
            s.queue == [] && multiset(s.inserted) == SourceRows(0, sources)
  {
    InitialHolds(sources, clients);
    RunKeepsInv(Initial(sources, clients), steps);
    StoppedMeansDone(Run(Initial(sources, clients), steps));
  }

  /** Some step can always be taken until the import is over. */
  lemma NoDeadlock(s: State) returns (step: Step)
    requires Inv(s) && |s.writers| > 0 && !s.main.Finished?
    ensures Enabled(s, step)
  {
    if w :| 0 <= w < |s.writers| && s.writers[w].Inserting? {
      step := Insert(w);
    } else if w :| 0 <= w < |s.writers| && s.writers[w].Waiting? && s.queue != [] {
      step := Get(w);
    } else if i :| 0 <= i < |s.readers| && s.readers[i].Running? {
      step := if s.readers[i].left == [] then Exit(i) else Put(i);
      QueueIsDrained(s);
    } else if s.pool != {} && (s.main.Joining? || (s.main.Launching? && |s.pool| >= |s.writers|)) {
      var i :| i in s.pool;
      step := ReapReader(i);
    } else {
      QueueIsDrained(s);
      match s.main
      case Launching(next) => step := if next < |s.readers| then Launch else OutOfSources;
      case Joining => step := BeginSignalling;
      case Signalling(unsent) => step := if unsent == 0 then EndSignalling else SendStop;
      case Reaping =>
        StoppedCount(s.writers);
        step := EndImport;
    }
  }

  /** With nobody inserting and nobody able to take from the queue, there is nothing in it. */
  lemma QueueIsDrained(s: State)
    requires Inv(s) && |s.writers| > 0
    requires forall w :: 0 <= w < |s.writers| ==> !s.writers[w].Inserting? && (s.writers[w].Waiting? ==> s.queue == [])
    ensures s.queue == []
  {
    if s.queue != [] {
      StoppedMeansDone(s);
    }
  }

  lemma FinishedHasNothingLeft(s: State)
    requires Inv(s) && |s.writers| > 0 && s.main.Finished?
    ensures AllRows(s) == multiset(s.inserted) && StepsLeft(s) == 0
  {
    StoppedMeansDone(s);
    TotalZero(s.readers, ReaderWork);
    TotalZero(s.writers, WriterWork);
  }

  /**
   * A run that cannot go on has finished the import: with all rows inserted, after a number of steps
   * that depends on the files and the number of clients alone.
   */
  lemma EveryMaximalRunImportsEverything(sources: seq<seq<Batch>>, clients: nat, steps: seq<Step>)
    requires clients > 0 && Legal(Initial(sources, clients), steps)
    requires forall step :: !Enabled(Run(Initial(sources, clients), steps), step)
    ensures var s := Run(Initial(sources, clients), steps);
            s.main.Finished? && multiset(s.inserted) == SourceRows(0, sources)
    ensures |steps| == ImportLength(sources, clients)
  {
    var s0 := Initial(sources, clients);
    InitialHolds(sources, clients);
    RunKeepsInv(s0, steps);
    var s := Run(s0, steps);
    hide Inv, Enabled, Initial, Legal, Run, SourceRows, ImportLength, AllRows, StepsLeft;
    if !s.main.Finished? {
      var step := NoDeadlock(s);
    }
    FinishedHasNothingLeft(s);
  }

  /** No run is longer than that. */
  lemma RunsAreBounded(sources: seq<seq<Batch>>, clients: nat, steps: seq<Step>)
    requires Legal(Initial(sources, clients), steps)
    ensures |steps| <= ImportLength(sources, clients)
  {
    InitialHolds(sources, clients);
    RunKeepsInv(Initial(sources, clients), steps);
  }
}
