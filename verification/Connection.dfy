/**
 * `Cursor`, `DefaultCursor` and `ConnectionInstance` of rethinkdb/net.py with their fields. The socket
 * is the pair `outgoing`, `incoming`; a read that finds nothing stands for a caller that goes on
 * waiting. Every method is proved to compute the function of Protocol.dfy that bears its name.
 */
module Connection {
  import opened Wrappers
  import opened Protocol

  class Cursor {
    const conn: ConnectionInstance
    const token: Token
    var items: seq<Row>
    var outstandingRequests: int
    var threshold: nat
    var error: Option<Failure>

    ghost function View(): CursorState
      reads this
    {
      CursorState(items, outstandingRequests, threshold, error)
    }

    ghost predicate Registered()
      reads this, conn, conn.cursors.Values
    {
      conn.Valid() && token in conn.cursors && conn.cursors[token] == this
    }

    constructor (conn: ConnectionInstance, first: Response)
      requires conn.Valid() && first.token !in conn.cursors
      modifies conn
      ensures Registered() && this.conn == conn && token == first.token
      ensures conn.cursors == old(conn.cursors)[token := this]
      ensures conn.View() == ClientNewCursor(old(conn.View()), first)
    {
      this.conn := conn;
      token := first.token;
      items := [];
      outstandingRequests := 0;
      threshold := 1;
      error := None;
      new;
      hide Fetch, ClientExtendInternal;
      Enroll();
      MaybeFetchBatch();
      ExtendInternal(first);
    }

    /** `self.conn._cursor_cache[token] = self` */
    method Enroll()
      requires conn.Valid() && token !in conn.cursors
      modifies conn`cursorCache, conn`cursors
      ensures Registered() && conn.cursors == old(conn.cursors)[token := this]
      ensures var cl := old(conn.View());
              conn.View() == cl.(cursors := cl.cursors[token := View()], cache := cl.cache + {token})
    {
      conn.cursorCache := conn.cursorCache[token := this];
      conn.cursors := conn.cursors[token := this];
      assert conn.View().cursors == old(conn.View()).cursors[token := View()];
    }

    method MaybeFetchBatch()
      requires Registered()
      modifies this, conn
      ensures Registered() && conn.cursors == old(conn.cursors)
      ensures conn.View() == Fetch(old(conn.View()), token)
    {
      if error.None? && |items| < threshold && outstandingRequests == 0 {
        outstandingRequests := outstandingRequests + 1;
        conn.Write(Continue, token);
      }
      conn.OneCursorChanged(token);
    }

    method ExtendInternal(res: Response)
      requires Registered() && token in conn.cursorCache
      modifies this, conn
      ensures Registered() && conn.cursors == old(conn.cursors)
      ensures conn.View() == ClientExtendInternal(old(conn.View()), token, res)
    {
      threshold := |res.data|;
      if error.None? {
        match res.typ {
          case SuccessPartial => items := items + res.data;
          case SuccessSequence =>
            items := items + res.data;
            error := Some(CursorEmpty);
          case _ => error := Some(ServerError(res.typ));
        }
      }
      if outstandingRequests == 0 && error.Some? {
        conn.cursorCache := conn.cursorCache - {token};
      }
      assert View() == Protocol.ExtendInternal(old(View()), res);
      conn.OneCursorChanged(token);
    }

    method Extend(res: Response)
      requires Registered() && token in conn.cursorCache
      modifies this, conn
      ensures Registered() && conn.cursors == old(conn.cursors)
      ensures conn.View() == ClientExtend(old(conn.View()), token, res)
    {
      outstandingRequests := outstandingRequests - 1;
      conn.OneCursorChanged(token);
      MaybeFetchBatch();
      ExtendInternal(res);
    }

    method Close()
      requires Registered()
      modifies this, conn
      ensures Registered() && conn.cursors == old(conn.cursors)
      ensures conn.View() == ClientCloseCursor(old(conn.View()), token)
    {
      if error.None? {
        error := Some(CursorEmpty);
        if conn.open {
          outstandingRequests := outstandingRequests + 1;
          conn.Write(Stop, token);
        }
      }
      conn.OneCursorChanged(token);
    }

    /** `_error` on one cached cursor; the caller empties the whole cache afterwards. */
    method Fail()
      modifies this
      ensures View() == FailCursor(old(View()))
    {
      if error.None? {
        error := Some(ConnectionClosed);
        outstandingRequests := outstandingRequests - 1;
        threshold := 0;
      }
    }

    /** One turn of the loop in `_get_next`; `None` means that the loop goes on. */
    method AwaitRow() returns (res: Option<NextResult>)
      requires Registered() && items == []
      modifies this, conn, conn.cursors.Values
      ensures Registered() && conn.cursors == old(conn.cursors)
      ensures res.Some? ==> (conn.View(), res.value) == Protocol.GetNext(old(conn.View()), token)
      ensures res.None? ==> Protocol.GetNext(conn.View(), token) == Protocol.GetNext(old(conn.View()), token)
      ensures res.None? ==> |conn.incoming| < |old(conn.incoming)|
    {
      hide Protocol.GetNext, WaitForRow, ReadUntil, Fetch;
      GetNextOnce(conn.View(), token);
      MaybeFetchBatch();
      if error.Some? {
        return Some(Raised(error.value));
      }
      WaitOnce(conn.View(), token);
      var outcome := conn.ReadResponse(token);
      match outcome {
        case KeepReading => res := Some(StillWaiting);
        case Unexpected => res := Some(BadFrame);
        case _ => res := None;
      }
    }

    method GetNext() returns (res: NextResult)
      requires Registered()
      modifies this, conn, conn.cursors.Values
      ensures Registered() && conn.cursors == old(conn.cursors)
      ensures (conn.View(), res) == Protocol.GetNext(old(conn.View()), token)
    {
      hide Protocol.GetNext;
      while |items| == 0
        invariant Registered() && conn.cursors == old(conn.cursors)
        invariant Protocol.GetNext(conn.View(), token) == Protocol.GetNext(old(conn.View()), token)
        decreases |conn.incoming|
      {
        var settled := AwaitRow();
        if settled.Some? {
          return settled.value;
        }
      }
      res := TakeItem();
    }

    method TakeItem() returns (res: NextResult)
      requires Registered() && items != []
      modifies this
      ensures Registered() && conn.cursors == old(conn.cursors)
      ensures (conn.View(), res) == Protocol.GetNext(old(conn.View()), token)
    {
      GetNextBuffered(conn.View(), token);
      res := GotRow(items[0]);
      items := items[1..];
      conn.OneCursorChanged(token);
    }
  }

  class ConnectionInstance {
    var cursorCache: map<Token, Cursor>
    var outgoing: seq<Request>
    var incoming: seq<Response>
    var closing: bool
    var open: bool
    var nextToken: Token
    ghost var cursors: map<Token, Cursor>  // every cursor handed out

    ghost predicate Valid()
      reads this, cursors.Values
    {
      && (forall t :: t in cursors ==> cursors[t].token == t && cursors[t].conn == this)
      && (forall t :: t in cursorCache ==> t in cursors && cursorCache[t] == cursors[t])
    }

    ghost function View(): Client
      reads this, cursors.Values
    {
      Client(map t | t in cursors :: cursors[t].View(), cursorCache.Keys, outgoing, incoming, closing, open, nextToken)
    }

    twostate lemma OneCursorChanged(t: Token)
      requires cursors == old(cursors) && t in cursors
      requires forall u :: u in cursors && u != t ==> cursors[u].View() == old(cursors[u].View())
      ensures View().cursors == old(View()).cursors[t := cursors[t].View()]
    {
    }

    constructor ()
      ensures Valid() && View() == Client(map[], {}, [], [], false, true, 0)
    {
      cursorCache, cursors := map[], map[];
      outgoing, incoming := [], [];
      closing, open, nextToken := false, true, 0;
    }

    /** `sendall` of one serialized query */
    method Write(typ: RequestType, t: Token)
      requires Valid()
      modifies this`outgoing
      ensures Valid() && View() == Send(old(View()), typ, t)
      ensures outgoing == old(outgoing) + [Request(typ, t)]
    {
      outgoing := outgoing + [Request(typ, t)];
      assert View() == Send(old(View()), typ, t);
    }

    method CloseSocket()
      requires Valid()
      modifies this`open
      ensures Valid() && !open && View() == old(View()).(open := false)
    {
      open := false;
      assert View() == old(View()).(open := false);
    }

    /** The loop of `close` over a copy of the cache. */
    method FailCached()
      requires Valid()
      modifies cursors.Values
      ensures Valid()
      ensures forall t :: t in cursors ==>
                cursors[t].View() ==
                  if t in cursorCache then FailCursor(old(cursors[t].View())) else old(cursors[t].View())
    {
      var todo := cursorCache.Keys;
      while todo != {}
        invariant Valid() && todo <= cursorCache.Keys
        invariant forall t :: t in cursors ==>
                    cursors[t].View() == if t in cursorCache && t !in todo
                                         then FailCursor(old(cursors[t].View())) else old(cursors[t].View())
        decreases |todo|
      {
        var t :| t in todo;
        assert old(cursors[t].View()) == cursors[t].View();
        cursorCache[t].Fail();
        todo := todo - {t};
      }
    }

    /** `close` up to its final wait */
    method FailAll()
      requires Valid()
      modifies this, cursors.Values
      ensures Valid() && cursors == old(cursors)
      ensures View() == ClientFailAll(old(View()))
    {
      FailCached();
      closing := true;
      cursorCache := map[];
      assert View().cursors == ClientFailAll(old(View())).cursors;
    }

    /** One pass of the loop in `_read_response` */
    method ReadFrame(t: Token) returns (outcome: ReadOutcome)
      requires Valid() && incoming != []
      modifies this, cursors.Values
      ensures Valid() && cursors == old(cursors)
      ensures (View(), outcome) == ReadOne(old(View()), t)
    {
      var r := incoming[0];
      incoming := incoming[1..];
      assert View() == old(View()).(incoming := incoming);
      if r.token in cursorCache {
        cursorCache[r.token].Extend(r);
        outcome := if r.token == t then OwnCursor else KeepReading;
      } else if r.token == t {
        outcome := OwnResponse(r);
      } else if !closing {
        FailAll();
        CloseSocket();
        outcome := Unexpected;
      } else {
        outcome := KeepReading;
      }
    }

    method ReadResponse(t: Token) returns (outcome: ReadOutcome)
      requires Valid()
      modifies this, cursors.Values
      ensures Valid() && cursors == old(cursors)
      ensures (View(), outcome) == ReadUntil(old(View()), t)
    {
      outcome := KeepReading;
      while incoming != []
        invariant Valid() && cursors == old(cursors)
        invariant ReadUntil(View(), t) == ReadUntil(old(View()), t)
        invariant outcome.KeepReading?
        decreases |incoming|
      {
        ReadOneKeeps(View(), t);
        outcome := ReadFrame(t);
        if !outcome.KeepReading? {
          return;
        }
      }
    }

    /** `KeepReading` means that `close` still waits. */
    method Close(noreplyWait: bool, t: Token) returns (outcome: ReadOutcome)
      requires Valid()
      modifies this, cursors.Values
      ensures Valid() && cursors == old(cursors)
      ensures (View(), outcome) == CloseConnection(old(View()), noreplyWait, t)
    {
      FailAll();
      outcome := OwnCursor;
      if noreplyWait {
        Write(NoreplyWait, t);
        outcome := ReadResponse(t);
      }
      if !outcome.KeepReading? {
        CloseSocket();
      }
    }

    /** The dispatch on the response type in `run_query` */
    method Deliver(r: Response) returns (res: QueryResult)
      requires Valid() && r.token !in cursors
      modifies this
      ensures Valid()
      ensures (View(), res) == Interpret(old(View()), r)
    {
      match r.typ {
        case SuccessAtom => res := if r.data == [] then BadReply else Atom(r.data[0]);
        case SuccessPartial =>
          var cursor := new Cursor(this, r);
          res := NewStream;
        case SuccessSequence =>
          var cursor := new Cursor(this, r);
          res := NewStream;
        case WaitComplete => res := Nothing;
        case ServerInfo => res := if r.data == [] then BadReply else Atom(r.data[0]);
        case _ => res := QueryFailed(r.typ);
      }
    }

    /** Draws a token and writes the query. */
    method SendQuery(typ: RequestType) returns (t: Token)
      requires Valid()
      modifies this`nextToken, this`outgoing
      ensures Valid() && t == old(nextToken)
      ensures View() == Send(old(View()), typ, t).(nextToken := t + 1)
    {
      t := nextToken;
      Write(typ, t);
      nextToken := nextToken + 1;
      assert View() == Send(old(View()), typ, t).(nextToken := t + 1);
    }

    method RunQuery(typ: RequestType) returns (res: QueryResult)
      requires Valid() && nextToken !in cursors
      modifies this, cursors.Values
      ensures Valid()
      ensures (View(), res) == Protocol.RunQuery(old(View()), typ)
    {
      hide Interpret, ReadUntil;
      var t := SendQuery(typ);
      if typ == StartNoreply {
        return Nothing;
      }
      ReadUntilKeeps(View(), t);
      var outcome := ReadResponse(t);
      match outcome {
        case KeepReading => res := NoReplyYet;
        case OwnResponse(r) => res := Deliver(r);
        case _ => res := BadReply;
      }
    }
  }
}
