/**
 * The wire vocabulary of the driver and the value-level behaviour of a cursor and of a connection
 * (rethinkdb/net.py). Every function here describes one call of the Python code; the classes in
 * Connection.dfy are proved to compute exactly these functions on their fields, and the state
 * machine in Multiplexing.dfy interleaves them with a server.
 */
module Protocol {
  import opened Wrappers

  type Row(==)
  type Token = nat

  datatype ResponseType =
    | SuccessAtom | SuccessSequence | SuccessPartial | WaitComplete | ServerInfo
    | ClientError | CompileError | RuntimeError | UnknownType(code: int)

  datatype Response = Response(token: Token, typ: ResponseType, data: seq<Row>)

  datatype RequestType = Start | StartNoreply | Continue | Stop | NoreplyWait | AskServerInfo

  datatype Request = Request(typ: RequestType, token: Token)

  /** The server answers everything but a `START` whose caller asked for no reply. */
  predicate ExpectsReply(q: Request) {
    q.typ != StartNoreply
  }

  /** What `Cursor.error` holds; `CursorEmpty` is the successful end of the stream. */
  datatype Failure = CursorEmpty | ServerError(typ: ResponseType) | ConnectionClosed

  datatype CursorState = CursorState(
    items: seq<Row>,
    outstanding: int,
    threshold: nat,
    error: Option<Failure>)

  // ----- one cursor -----

  predicate WantsBatch(c: CursorState) {
    c.error.None? && |c.items| < c.threshold && c.outstanding == 0
  }

  /** `_maybe_fetch_batch`, without the CONTINUE it writes. */
  function MaybeFetch(c: CursorState): CursorState {
    if WantsBatch(c) then c.(outstanding := c.outstanding + 1) else c
  }

  /** `_extend_internal`, without the removal from the cache. */
  function ExtendInternal(c: CursorState, r: Response): CursorState {
    var c1 := c.(threshold := |r.data|);
    if c1.error.Some? then c1
    else match r.typ
      case SuccessPartial => c1.(items := c1.items + r.data)
      case SuccessSequence => c1.(items := c1.items + r.data, error := Some(CursorEmpty))
      case _ => c1.(error := Some(ServerError(r.typ)))
  }

  /** `_extend_internal` takes the cursor out of the cache when nothing more can arrive for it. */
  predicate Drained(c: CursorState) {
    c.outstanding == 0 && c.error.Some?
  }

  /** `Cursor.__init__`: a CONTINUE is always written before the first response is looked at. */
  function NewCursor(r: Response): CursorState {
    ExtendInternal(MaybeFetch(CursorState([], 0, 1, None)), r)
  }

  function Extend(c: CursorState, r: Response): CursorState {
    ExtendInternal(MaybeFetch(c.(outstanding := c.outstanding - 1)), r)
  }

  // ----- the client side of one connection -----

  datatype Client = Client(
    cursors: map<Token, CursorState>,  // every cursor the caller ever got
    cache: set<Token>,                 // `_cursor_cache`
    outgoing: seq<Request>,            // written to the socket, not yet taken by the server
    incoming: seq<Response>,           // sent by the server, not yet read
    closing: bool,
    open: bool,
    nextToken: Token)

  function Send(cl: Client, typ: RequestType, t: Token): Client {
    cl.(outgoing := cl.outgoing + [Request(typ, t)])
  }

  function Fetch(cl: Client, t: Token): Client
    requires t in cl.cursors
  {
    var c := cl.cursors[t];
    if WantsBatch(c) then Send(cl, Continue, t).(cursors := cl.cursors[t := MaybeFetch(c)]) else cl
  }

  /** `_extend_internal` with its removal from the cache. */
  function ClientExtendInternal(cl: Client, t: Token, r: Response): Client
    requires t in cl.cursors
  {
    var c := ExtendInternal(cl.cursors[t], r);
    cl.(cursors := cl.cursors[t := c], cache := if Drained(c) then cl.cache - {t} else cl.cache)
  }

  /** `DefaultCursor(...)` as `run_query` calls it. */
  function ClientNewCursor(cl: Client, r: Response): Client {
    var cl1 := cl.(cursors := cl.cursors[r.token := CursorState([], 0, 1, None)], cache := cl.cache + {r.token});
    ClientExtendInternal(Fetch(cl1, r.token), r.token, r)
  }

  /** `_extend` */
  function ClientExtend(cl: Client, t: Token, r: Response): Client
    requires t in cl.cursors
  {
    var c := cl.cursors[t];
    var cl1 := cl.(cursors := cl.cursors[t := c.(outstanding := c.outstanding - 1)]);
    ClientExtendInternal(Fetch(cl1, t), t, r)
  }

  /** `Cursor.close` */
  function ClientCloseCursor(cl: Client, t: Token): Client
    requires t in cl.cursors
  {
    var c := cl.cursors[t];
    if c.error.Some? then cl
    else
      var c1 := c.(error := Some(CursorEmpty));
      if cl.open then
        Send(cl, Stop, t).(cursors := cl.cursors[t := c1.(outstanding := c1.outstanding + 1)])
      else cl.(cursors := cl.cursors[t := c1])
  }

  /** `Cursor._error`, called on every cached cursor when the connection closes. */
  function FailCursor(c: CursorState): CursorState {
    if c.error.Some? then c
    else c.(error := Some(ConnectionClosed), outstanding := c.outstanding - 1, threshold := 0)
  }

  /** `ConnectionInstance.close` up to the point where it looks at `noreply_wait`. */
  function ClientFailAll(cl: Client): Client {
    cl.(cursors := map t | t in cl.cursors :: if t in cl.cache then FailCursor(cl.cursors[t]) else cl.cursors[t],
        cache := {},
        closing := true)
  }

  /** What reading one response did to a reader waiting for token `t`. */
  datatype ReadOutcome = KeepReading | OwnCursor | OwnResponse(r: Response) | Unexpected

  function ReadOne(cl: Client, t: Token): (Client, ReadOutcome)
    requires cl.incoming != []
    requires cl.cache <= cl.cursors.Keys
  {
    var r := cl.incoming[0];
    var cl1 := cl.(incoming := cl.incoming[1..]);
    if r.token in cl.cache then
      (ClientExtend(cl1, r.token, r), if r.token == t then OwnCursor else KeepReading)
    else if r.token == t then (cl1, OwnResponse(r))
    else if !cl.closing then (ClientFailAll(cl1).(open := false), Unexpected)
    else (cl1, KeepReading)
  }

  /**
   * `_read_response`: read frames until one settles the wait for `t`. `KeepReading` means that every
   * frame that has arrived was read and the caller still waits.
   */
  function ReadUntil(cl: Client, t: Token): (Client, ReadOutcome)
    requires cl.cache <= cl.cursors.Keys
    decreases |cl.incoming|
  {
    if cl.incoming == [] then (cl, KeepReading)
    else
      var (cl1, outcome) := ReadOne(cl, t);
      if outcome.KeepReading? then ReadUntil(cl1, t) else (cl1, outcome)
  }

  datatype NextResult = GotRow(row: Row) | Raised(error: Failure) | StillWaiting | BadFrame

  /** `DefaultCursor._get_next` */
  function GetNext(cl: Client, t: Token): (Client, NextResult)
    requires t in cl.cursors && cl.cache <= cl.cursors.Keys
    decreases |cl.incoming|, 1
  {
    var c := cl.cursors[t];
    if c.items != [] then (cl.(cursors := cl.cursors[t := c.(items := c.items[1..])]), GotRow(c.items[0]))
    else
      var cl1 := Fetch(cl, t);
      if cl1.cursors[t].error.Some? then (cl1, Raised(cl1.cursors[t].error.value))
      else WaitForRow(cl1, t)
  }

  /** `_get_next` from where it goes to read the socket */
  function WaitForRow(cl: Client, t: Token): (Client, NextResult)
    requires t in cl.cursors && cl.cache <= cl.cursors.Keys
    decreases |cl.incoming|, 0
  {
    ReadUntilKeeps(cl, t);
    var (cl2, outcome) := ReadUntil(cl, t);
    match outcome
    case KeepReading => (cl2, StillWaiting)
    case Unexpected => (cl2, BadFrame)
    case _ => GetNext(cl2, t)
  }

  lemma GetNextBuffered(cl: Client, t: Token)
    requires t in cl.cursors && cl.cache <= cl.cursors.Keys && cl.cursors[t].items != []
    ensures var c := cl.cursors[t];
            GetNext(cl, t) == (cl.(cursors := cl.cursors[t := c.(items := c.items[1..])]), GotRow(c.items[0]))
  {
  }

  /** One turn of the loop in `_get_next`, with nothing buffered */
  lemma GetNextOnce(cl: Client, t: Token)
    requires t in cl.cursors && cl.cache <= cl.cursors.Keys && cl.cursors[t].items == []
    ensures var cl1 := Fetch(cl, t);
            && cl1.cursors.Keys == cl.cursors.Keys && cl1.cache == cl.cache && cl1.incoming == cl.incoming
            && GetNext(cl, t) == if cl1.cursors[t].error.Some? then (cl1, Raised(cl1.cursors[t].error.value))
                                 else WaitForRow(cl1, t)
  {
    hide WaitForRow;
  }

  lemma WaitOnce(cl: Client, t: Token)
    requires t in cl.cursors && cl.cache <= cl.cursors.Keys
    ensures var (cl', outcome) := ReadUntil(cl, t);
            && cl'.cursors.Keys == cl.cursors.Keys && cl'.cache <= cl'.cursors.Keys
            && (!outcome.KeepReading? ==> |cl'.incoming| < |cl.incoming|)
            && WaitForRow(cl, t) == match outcome
                                    case KeepReading => (cl', StillWaiting)
                                    case Unexpected => (cl', BadFrame)
                                    case _ => GetNext(cl', t)
  {
    hide ReadUntil, GetNext;
    ReadUntilKeeps(cl, t);
  }

  datatype QueryResult = Nothing | Atom(row: Row) | NewStream | QueryFailed(typ: ResponseType) | NoReplyYet | BadReply

  /** `run_query` once its response is there: an atom or server info without data is an IndexError. */
  function Interpret(cl: Client, r: Response): (Client, QueryResult) {
    match r.typ
    case SuccessAtom => (cl, if r.data == [] then BadReply else Atom(r.data[0]))
    case SuccessPartial => (ClientNewCursor(cl, r), NewStream)
    case SuccessSequence => (ClientNewCursor(cl, r), NewStream)
    case WaitComplete => (cl, Nothing)
    case ServerInfo => (cl, if r.data == [] then BadReply else Atom(r.data[0]))
    case _ => (cl, QueryFailed(r.typ))
  }

  /** `run_query` for a query with a fresh token */
  function RunQuery(cl: Client, typ: RequestType): (Client, QueryResult)
    requires cl.cache <= cl.cursors.Keys
  {
    var t := cl.nextToken;
    var cl1 := Send(cl, typ, t).(nextToken := t + 1);
    if typ == StartNoreply then (cl1, Nothing)
    else
      var (cl2, outcome) := ReadUntil(cl1, t);
      match outcome
      case KeepReading => (cl2, NoReplyYet)
      case OwnResponse(r) => Interpret(cl2, r)
      case _ => (cl2, BadReply)
  }

  /** `ConnectionInstance.close`; with `wait` it returns only once its NOREPLY_WAIT, token `t`, is answered. */
  function CloseConnection(cl: Client, wait: bool, t: Token): (Client, ReadOutcome)
    requires cl.cache <= cl.cursors.Keys
  {
    var cl1 := ClientFailAll(cl);
    if !wait then (cl1.(open := false), OwnCursor)
    else
      var (cl2, outcome) := ReadUntil(Send(cl1, NoreplyWait, t), t);
      (if outcome.KeepReading? then cl2 else cl2.(open := false), outcome)
  }

  lemma ReadOneKeeps(cl: Client, t: Token)
    requires cl.incoming != [] && cl.cache <= cl.cursors.Keys
    ensures var cl' := ReadOne(cl, t).0;
            && cl'.cache <= cl'.cursors.Keys && cl'.cursors.Keys == cl.cursors.Keys
            && |cl'.incoming| < |cl.incoming|
  {
  }

  lemma {:induction false} ReadUntilKeeps(cl: Client, t: Token)
    requires cl.cache <= cl.cursors.Keys
    ensures var (cl', outcome) := ReadUntil(cl, t);
            && cl'.cache <= cl'.cursors.Keys && cl'.cursors.Keys == cl.cursors.Keys
            && (!outcome.KeepReading? ==> |cl'.incoming| < |cl.incoming|)
            && (outcome.KeepReading? ==> cl'.incoming == [])
            && (outcome.OwnResponse? ==> outcome.r.token == t)
    decreases |cl.incoming|
  {
    if cl.incoming != [] {
      ReadOneKeeps(cl, t);
      var (cl1, outcome) := ReadOne(cl, t);
      if outcome.KeepReading? {
        ReadUntilKeeps(cl1, t);
      }
    }
  }

  /** To fail a cursor is to give it an error and then an empty final reply. */
  lemma FailIsDummyReply(c: CursorState, t: Token)
    ensures FailCursor(c) == if c.error.Some? then c
                             else Extend(c.(error := Some(ConnectionClosed)), Response(t, SuccessSequence, []))
  {
  }

  /** What is known of a connection on which some frame was for nobody */
  predicate Broken(cl: Client, cl': Client) {
    && !cl.closing && cl'.closing && !cl'.open && cl'.cache == {}
    && cl'.cursors.Keys == cl.cursors.Keys
    && forall u :: u in cl.cursors && (u in cl.cache || cl.cursors[u].error.Some?) ==> cl'.cursors[u].error.Some?
  }

  /**
   * Whatever the server sends: no frame is swallowed while the connection is open. Either every frame
   * read is for the caller or for a cursor of the cache, or the call ends with the connection closed and
   * no cursor left to wait.
   */
  lemma {:induction false} StrayFrameBreaksConnection(cl: Client, t: Token)
    requires cl.cache <= cl.cursors.Keys
    ensures var (cl', outcome) := ReadUntil(cl, t);
            var n := |cl.incoming| - |cl'.incoming|;
            && 0 <= n <= |cl.incoming|
            && (outcome.Unexpected? ==> Broken(cl, cl') && n > 0 && cl.incoming[n - 1].token != t)
            && (!outcome.Unexpected? && !cl.closing ==>
                  forall i :: 0 <= i < n ==> cl.incoming[i].token == t || cl.incoming[i].token in cl.cache)
    decreases |cl.incoming|
  {
    hide Broken;
    if cl.incoming != [] {
      ReadOneKeeps(cl, t);
      ReadOneBreaks(cl, t);
      hide ReadOne;
      var (cl1, outcome) := ReadOne(cl, t);
      if outcome.KeepReading? {
        StrayFrameBreaksConnection(cl1, t);
        BrokenBefore(cl, cl1, ReadUntil(cl1, t).0);
      }
    }
  }

  /** The cache only shrinks, and what leaves it has an error, as has what had one before. */
  predicate OnlyDrained(cl: Client, cl': Client) {
    && cl'.closing == cl.closing && cl'.cache <= cl.cache && cl'.cursors.Keys == cl.cursors.Keys
    && forall u :: u in cl.cursors && (u in cl.cache - cl'.cache || cl.cursors[u].error.Some?)
         ==> cl'.cursors[u].error.Some?
  }

  lemma ReadOneBreaks(cl: Client, t: Token)
    requires cl.incoming != [] && cl.cache <= cl.cursors.Keys
    ensures var (cl', outcome) := ReadOne(cl, t);
            && cl'.incoming == cl.incoming[1..]
            && (if outcome.Unexpected? then Broken(cl, cl') && cl.incoming[0].token != t else OnlyDrained(cl, cl'))
            && (!outcome.Unexpected? && !cl.closing ==> cl.incoming[0].token == t || cl.incoming[0].token in cl.cache)
  {
  }

  lemma BrokenBefore(cl: Client, cl1: Client, cl': Client)
    requires OnlyDrained(cl, cl1)
    ensures Broken(cl1, cl') ==> Broken(cl, cl')
  {
  }
}
