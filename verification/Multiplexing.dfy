/**
 * One connection, its server and the two byte streams between them, as a state machine whose steps
 * interleave freely across tokens. The server may answer requests in any order and with any content;
 * all it promises is one reply, bearing the request's token, per request that expects one.
 */
module Multiplexing {
  import opened Wrappers
  import opened Protocol

  /** What the (single-threaded) caller is blocked on. */
  datatype Mode =
    | Idle
    | AwaitReply(typ: RequestType, t: Token)  // inside `run_query`
    | AwaitRows(t: Token)                     // inside `_get_next`
    | Draining(t: Token)                      // inside `close(noreply_wait=True)`

  /** The history of one token: nothing in it is read by the driver. */
  datatype Log = Log(
    emitted: seq<Response>,   // what the server sent
    received: seq<Response>,  // what the client read
    cut: Option<nat>,         // how many it had read when the caller or the connection closed the cursor
    delivered: seq<Row>,      // what `_get_next` returned to the caller
    raised: bool)             // `_get_next` raised the cursor's error

  /** `fault` records an exception the protocol is meant to rule out: "Unexpected response received", or
      `run_query` finding no response of its own to look at. */
  datatype System = System(client: Client, mode: Mode, logs: map<Token, Log>, fault: bool)

  const EMPTY_LOG := Log([], [], None, [], false)

  const INITIAL := System(Client(map[], {}, [], [], false, true, 0), Idle, map[], false)

  datatype Step =
    | Issue(typ: RequestType)              // `_start`, `noreply_wait`, `server`
    | Reply(i: nat, r: Response)           // the server answers the i-th unanswered request
    | Discard(i: nat)                      // the server takes a request that wants no answer
    | Read                                 // `_read_response` takes one frame
    | Next(t: Token)                       // the caller asks a cursor for a row
    | Timeout                              // ... and stops waiting for it
    | CloseCursor(t: Token)
    | CloseConnection(noreplyWait: bool)

  function LogOf(s: System, t: Token): Log {
    if t in s.logs then s.logs[t] else EMPTY_LOG
  }

  function RemoveAt<T>(xs: seq<T>, i: nat): seq<T>
    requires i < |xs|
  {
    xs[..i] + xs[i + 1..]
  }

  predicate Enabled(s: System, step: Step) {
    match step
    case Issue(typ) => s.mode.Idle? && s.client.open && typ !in {Continue, Stop}
    case Reply(i, r) =>
      i < |s.client.outgoing| && ExpectsReply(s.client.outgoing[i]) && r.token == s.client.outgoing[i].token
    case Discard(i) => i < |s.client.outgoing| && !ExpectsReply(s.client.outgoing[i])
    case Read => !s.mode.Idle? && s.client.open && s.client.incoming != [] && s.client.cache <= s.client.cursors.Keys
    case Next(t) => s.mode.Idle? && t in s.client.cursors
    case Timeout => s.mode.AwaitRows?
    case CloseCursor(t) => s.mode.Idle? && t in s.client.cursors
    case CloseConnection(_) => s.mode.Idle? && s.client.open
  }

  /** One pass of the loop in `_get_next`: return a row, raise, or go to read the socket. */
  function AskRow(s: System, t: Token): System
    requires t in s.client.cursors
  {
    var c := s.client.cursors[t];
    if c.items != [] then
      s.(client := s.client.(cursors := s.client.cursors[t := c.(items := c.items[1..])]),
         mode := Idle,
         logs := s.logs[t := LogOf(s, t).(delivered := LogOf(s, t).delivered + [c.items[0]])])
    else
      var cl := Fetch(s.client, t);
      if cl.cursors[t].error.Some? then
        s.(client := cl, mode := Idle, logs := s.logs[t := LogOf(s, t).(raised := true)])
      else s.(client := cl, mode := AwaitRows(t))
  }

  /** Mark the logs of the cursors `ids` as closed here. */
  function CutLogs(s: System, ids: set<Token>): map<Token, Log> {
    map t | t in s.logs.Keys + ids ::
      if t in ids && LogOf(s, t).cut.None? then LogOf(s, t).(cut := Some(|LogOf(s, t).received|)) else LogOf(s, t)
  }

  /** `run_query` after `_read_response` returned: a cursor is built only for a sequence. */
  function Finish(s: System, r: Response): System {
    if r.typ.SuccessPartial? || r.typ.SuccessSequence? then s.(client := ClientNewCursor(s.client, r)) else s
  }

  function ReadStep(s: System): System
    requires Enabled(s, Read)
  {
    var r := s.client.incoming[0];
    var (cl, outcome) := ReadOne(s.client, s.mode.t);
    var log := LogOf(s, r.token);
    var s1 := s.(client := cl, logs := s.logs[r.token := log.(received := log.received + [r])]);
    match outcome
    case KeepReading => s1
    case Unexpected => s1.(mode := Idle, fault := true)
    case OwnCursor =>
      if s.mode.AwaitRows? && s.mode.t in cl.cursors then AskRow(s1, s.mode.t) else s1.(mode := Idle, fault := true)
    case OwnResponse(_) =>
      match s.mode
      case AwaitReply(_, _) => Finish(s1, r).(mode := Idle)
      case Draining(_) => s1.(mode := Idle, client := cl.(open := false))
      case AwaitRows(t) => if t in cl.cursors then AskRow(s1, t) else s1.(mode := Idle, fault := true)
  }

  function Apply(s: System, step: Step): System
    requires Enabled(s, step)
  {
    match step
    case Issue(typ) =>
      var t := s.client.nextToken;
      s.(client := Send(s.client, typ, t).(nextToken := t + 1),
         mode := if typ == StartNoreply then Idle else AwaitReply(typ, t))
    case Reply(i, r) =>
      s.(client := s.client.(outgoing := RemoveAt(s.client.outgoing, i), incoming := s.client.incoming + [r]),
         logs := s.logs[r.token := LogOf(s, r.token).(emitted := LogOf(s, r.token).emitted + [r])])
    case Discard(i) => s.(client := s.client.(outgoing := RemoveAt(s.client.outgoing, i)))
    case Read => ReadStep(s)
    case Next(t) => AskRow(s, t)
    case Timeout => s.(mode := Idle)
    case CloseCursor(t) =>
      s.(client := ClientCloseCursor(s.client, t),
         logs := if s.client.cursors[t].error.None? then CutLogs(s, {t}) else s.logs)
    case CloseConnection(wait) =>
      var live := set t | t in s.client.cache && t in s.client.cursors && s.client.cursors[t].error.None?;
      var t := s.client.nextToken;
      var cl := ClientFailAll(s.client).(nextToken := t + 1);
      s.(client := if wait then Send(cl, NoreplyWait, t) else cl.(open := false),
         mode := if wait then Draining(t) else Idle,
         logs := CutLogs(s, live))
  }

  /** Every run, as a list of steps each enabled where it is taken. */
  predicate Legal(s: System, steps: seq<Step>)
    decreases |steps|
  {
    steps == [] || (Enabled(s, steps[0]) && Legal(Apply(s, steps[0]), steps[1..]))
  }

  function Run(s: System, steps: seq<Step>): System
    requires Legal(s, steps)
    decreases |steps|
  {
    if steps == [] then s else Run(Apply(s, steps[0]), steps[1..])
  }

  // ----- replies in flight -----

  function Asked(qs: seq<Request>, t: Token): nat {
    if qs == [] then 0 else (if qs[0].token == t && ExpectsReply(qs[0]) then 1 else 0) + Asked(qs[1..], t)
  }

  function Answered(rs: seq<Response>, t: Token): seq<Response> {
    if rs == [] then [] else (if rs[0].token == t then [rs[0]] else []) + Answered(rs[1..], t)
  }

  /** Requests for `t` whose reply has not been read yet: asked, or answered and still on the wire. */
  function InFlight(cl: Client, t: Token): nat {
    Asked(cl.outgoing, t) + |Answered(cl.incoming, t)|
  }
}
