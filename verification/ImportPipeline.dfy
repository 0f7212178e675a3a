/**
 * The processes of `import_tables` in rethinkdb/_import.py: readers that put batches on a bounded
 * queue, writers that take them off and insert them, and the main process that starts the readers a
 * few at a time and, when all are gone, sends one end marker per writer. Waiting out a full or an
 * empty queue is taking no step.
 */
module ImportPipeline {
  type Row(==)
  type Batch = seq<Row>

  /** What the queue carries: a batch with the number of the source it was read from, or an end marker */
  datatype Item = Work(src: nat, batch: Batch) | StopMarker

  /** `left` is what the reader of source `src` has not put on the queue yet. */
  datatype Reader = NotStarted(src: nat, left: seq<Batch>) | Running(src: nat, left: seq<Batch>) | Exited

  datatype Writer = Waiting | Inserting(src: nat, batch: Batch) | Stopped

  datatype Main =
    | Launching(next: nat)     // `file_iter` is at source `next`
    | Joining
    | Signalling(unsent: nat)
    | Reaping
    | Finished

  datatype State = State(
    readers: seq<Reader>,
    pool: set<nat>,            // the list `readers` of the main process
    queue: seq<Item>,
    writers: seq<Writer>,
    main: Main,
    inserted: seq<(nat, Row)>)

  datatype Step =
    | Launch
    | OutOfSources
    | ReapReader(i: nat)
    | Put(i: nat)
    | Exit(i: nat)
    | BeginSignalling
    | SendStop
    | EndSignalling
    | Get(w: nat)
    | Insert(w: nat)
    | EndImport

  function NewReaders(sources: seq<seq<Batch>>): seq<Reader> {
    seq(|sources|, i requires 0 <= i < |sources| => NotStarted(i, sources[i]))
  }

  function Initial(sources: seq<seq<Batch>>, clients: nat): State {
    State(NewReaders(sources), {}, [], seq(clients, _ => Waiting), Launching(0), [])
  }

  /** `options.clients * 3` */
  function Capacity(s: State): nat {
    3 * |s.writers|
  }

  predicate MayRead(s: State, i: nat) {
    i < |s.readers| && s.readers[i].Running?
  }

  predicate Enabled(s: State, step: Step) {
    match step
    case Launch =>
      && s.main.Launching? && |s.pool| < |s.writers|
      && s.main.next < |s.readers| && s.readers[s.main.next].NotStarted?
    case OutOfSources => s.main.Launching? && |s.pool| < |s.writers| && s.main.next >= |s.readers|
    case ReapReader(i) =>
      (s.main.Launching? || s.main.Joining?) && i in s.pool && i < |s.readers| && s.readers[i].Exited?
    case Put(i) => MayRead(s, i) && s.readers[i].left != [] && |s.queue| < Capacity(s)
    case Exit(i) => MayRead(s, i) && s.readers[i].left == []
    case BeginSignalling => s.main.Joining? && s.pool == {}
    case SendStop => s.main.Signalling? && s.main.unsent > 0 && |s.queue| < Capacity(s)
    case EndSignalling => s.main == Signalling(0)
    case Get(w) => w < |s.writers| && s.writers[w].Waiting? && s.queue != []
    case Insert(w) => w < |s.writers| && s.writers[w].Inserting?
    case EndImport => s.main.Reaping? && forall w :: 0 <= w < |s.writers| ==> s.writers[w].Stopped?
  }

  function Tagged(src: nat, batch: Batch): seq<(nat, Row)> {
    seq(|batch|, j requires 0 <= j < |batch| => (src, batch[j]))
  }

  /** What a writer does with what it took off the queue */
  function Taken(item: Item): Writer {
    match item
    case Work(src, batch) => Inserting(src, batch)
    case StopMarker => Stopped
  }

  function Apply(s: State, step: Step): State
    requires Enabled(s, step)
  {
    match step
    case Launch =>
      var i := s.main.next;
      s.(readers := s.readers[i := Running(s.readers[i].src, s.readers[i].left)], pool := s.pool + {i},
         main := Launching(i + 1))
    case OutOfSources => s.(main := Joining)
    case ReapReader(i) => s.(pool := s.pool - {i})
    case Put(i) =>
      var Running(src, left) := s.readers[i];
      s.(readers := s.readers[i := Running(src, left[1..])], queue := s.queue + [Work(src, left[0])])
    case Exit(i) => s.(readers := s.readers[i := Exited])
    case BeginSignalling => s.(main := Signalling(|s.writers|))
    case SendStop => s.(queue := s.queue + [StopMarker], main := Signalling(s.main.unsent - 1))
    case EndSignalling => s.(main := Reaping)
    case Get(w) => s.(queue := s.queue[1..], writers := s.writers[w := Taken(s.queue[0])])
    case Insert(w) =>
      var Inserting(src, batch) := s.writers[w];
      s.(writers := s.writers[w := Waiting], inserted := s.inserted + Tagged(src, batch))
    case EndImport => s.(main := Finished)
  }

  predicate Legal(s: State, steps: seq<Step>)
    decreases |steps|
  {
    steps == [] || (Enabled(s, steps[0]) && Legal(Apply(s, steps[0]), steps[1..]))
  }

  function Run(s: State, steps: seq<Step>): State
    requires Legal(s, steps)
    decreases |steps|
  {
    if steps == [] then s else Run(Apply(s, steps[0]), steps[1..])
  }

  // ----- where the rows are -----

  function Gathered<T>(s: seq<T>, rows: T -> multiset<(nat, Row)>): multiset<(nat, Row)> {
    if s == [] then multiset{} else rows(s[0]) + Gathered(s[1..], rows)
  }

  function UnreadRows(src: nat, left: seq<Batch>): multiset<(nat, Row)> {
    if left == [] then multiset{} else multiset(Tagged(src, left[0])) + UnreadRows(src, left[1..])
  }

  function ReaderRows(r: Reader): multiset<(nat, Row)> {
    if r.Exited? then multiset{} else UnreadRows(r.src, r.left)
  }

  function ItemRows(item: Item): multiset<(nat, Row)> {
    match item
    case Work(src, batch) => multiset(Tagged(src, batch))
    case StopMarker => multiset{}
  }

  function WriterRows(w: Writer): multiset<(nat, Row)> {
    match w
    case Inserting(src, batch) => multiset(Tagged(src, batch))
    case _ => multiset{}
  }

  /** Every row there is: inserted, in a writer's hands, queued, or unread */
  function AllRows(s: State): multiset<(nat, Row)> {
    multiset(s.inserted) + Gathered(s.writers, WriterRows) + Gathered(s.queue, ItemRows)
    + Gathered(s.readers, ReaderRows)
  }

  /** The rows of the files, each with the number of its file */
  function SourceRows(base: nat, sources: seq<seq<Batch>>): multiset<(nat, Row)>
    decreases |sources|
  {
    if sources == [] then multiset{} else UnreadRows(base, sources[0]) + SourceRows(base + 1, sources[1..])
  }

  // ----- end markers and work left -----

  function Total<T>(s: seq<T>, f: T -> nat): nat {
    if s == [] then 0 else f(s[0]) + Total(s[1..], f)
  }

  function IsMarker(item: Item): nat {
    if item.StopMarker? then 1 else 0
  }

  function IsStopped(w: Writer): nat {
    if w.Stopped? then 1 else 0
  }

  function UnsentStops(s: State): nat {
    match s.main
    case Launching(_) => |s.writers|
    case Joining => |s.writers|
    case Signalling(unsent) => unsent
    case _ => 0
  }

  function ReaderWork(r: Reader): nat {
    match r
    case NotStarted(_, left) => 3 + 3 * |left|
    case Running(_, left) => 1 + 3 * |left|
    case Exited => 0
  }

  function ItemWork(item: Item): nat {
    if item.StopMarker? then 1 else 2
  }

  function WriterWork(w: Writer): nat {
    if w.Inserting? then 1 else 0
  }

  function MainWork(m: Main): nat {
    match m
    case Launching(_) => 4
    case Joining => 3
    case Signalling(_) => 2
    case Reaping => 1
    case Finished => 0
  }

  /** The steps still to be taken */
  function StepsLeft(s: State): nat {
    Total(s.readers, ReaderWork) + |s.pool| + Total(s.queue, ItemWork) + Total(s.writers, WriterWork)
    + 2 * UnsentStops(s) + MainWork(s.main)
  }

  /** The steps of a whole import: 3 per source, 3 per batch, 2 per writer and 4 of the main process */
  function ImportLength(sources: seq<seq<Batch>>, clients: nat): nat {
    4 + 2 * clients + SourcesLength(sources)
  }

  function SourcesLength(sources: seq<seq<Batch>>): nat {
    if sources == [] then 0 else 3 + 3 * |sources[0]| + SourcesLength(sources[1..])
  }
}
