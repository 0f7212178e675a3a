/**
 * Each blocking call of the driver, taken while no reply arrives beyond those already sent, is a run
 * of the state machine: what the theorems say about runs they say about the methods of Connection.dfy.
 */
module CallsAreRuns {
  import opened Wrappers
  import opened Protocol
  import opened Multiplexing
  import opened MultiplexingProofs
  import opened MultiplexingTheorems

  lemma CacheIsKnown(s: System)
    requires Inv(s)
    ensures s.client.cache <= s.client.cursors.Keys
  {
    forall t | t in s.client.cache ensures t in s.client.cursors {
      assert SlotInv(SlotOf(s, t), Live(s.client), Querying(s.mode, t));
    }
  }

  lemma {:induction false} QueryWaitIsARun(s: System) returns (steps: seq<Step>)
    requires Inv(s) && (s.mode.AwaitReply? || s.mode.Draining?)
    ensures Legal(s, steps) && s.client.cache <= s.client.cursors.Keys
    ensures var (cl, outcome) := ReadUntil(s.client, s.mode.t);
            && (outcome.KeepReading? ==> Run(s, steps).client == cl && Run(s, steps).mode == s.mode)
            && (!outcome.KeepReading? ==>
                  && outcome.OwnResponse? && Run(s, steps).mode == Idle
                  && Run(s, steps).client ==
                       if s.mode.AwaitReply? then Interpret(cl, outcome.r).0 else cl.(open := false))
    ensures var outcome := ReadUntil(s.client, s.mode.t).1;
            LogOf(Run(s, steps), s.mode.t).received
            == LogOf(s, s.mode.t).received + if outcome.OwnResponse? then [outcome.r] else []
    decreases |s.client.incoming|
  {
    CacheIsKnown(s);
    if s.client.incoming == [] {
      steps := [];
    } else {
      QueryWaitStep(s);
      ReadKeepsInv(s);
      hide Inv, Apply, ReadOne, Interpret;
      var s', outcome := Apply(s, Read), ReadOne(s.client, s.mode.t).1;
      if outcome.KeepReading? {
        var rest := QueryWaitIsARun(s');
        RunCons(s, Read, rest);
        steps := [Read] + rest;
      } else {
        RunCons(s, Read, []);
        steps := [Read] + [];
      }
    }
  }

  /** One frame read inside `run_query` or the last wait of `close`, in the machine and in the code */
  lemma QueryWaitStep(s: System)
    requires Inv(s) && Enabled(s, Read) && (s.mode.AwaitReply? || s.mode.Draining?)
    ensures var t, s' := s.mode.t, Apply(s, Read);
            var (cl, outcome) := ReadOne(s.client, t);
            && |cl.incoming| < |s.client.incoming|
            && (if outcome.KeepReading? then
                  s'.client == cl && s'.mode == s.mode && LogOf(s', t).received == LogOf(s, t).received
                else
                  && outcome.OwnResponse? && s'.mode == Idle
                  && s'.client == (if s.mode.AwaitReply? then Interpret(cl, outcome.r).0 else cl.(open := false))
                  && LogOf(s', t).received == LogOf(s, t).received + [outcome.r])
  {
    FrameIsExpected(s);
    var u := s.client.incoming[0].token;
    assert SlotInv(SlotOf(s, u), Live(s.client), Querying(s.mode, u));
    ReadOneKeeps(s.client, s.mode.t);
    hide ClientExtend, ClientNewCursor, ClientFailAll, SlotInv, Inv;
  }

  /** What the caller of a query is given for the one reply to it: a cursor for the two kinds of sequence alone */
  predicate Answers(res: QueryResult, r: Response, cursor: Option<CursorState>) {
    && (cursor.Some? <==> r.typ in {SuccessPartial, SuccessSequence})
    && (cursor.Some? ==> cursor.value.items == r.data
                         && cursor.value.error == if r.typ.SuccessPartial? then None else Some(CursorEmpty))
    && if cursor.Some? then res == NewStream
       else if r.typ == WaitComplete then res == Nothing
       else if r.typ !in {SuccessAtom, ServerInfo} then res == QueryFailed(r.typ)
       else if r.data == [] then res == BadReply
       else res == Atom(r.data[0])
  }

  function CursorOf(cl: Client, t: Token): Option<CursorState> {
    if t in cl.cursors then Some(cl.cursors[t]) else None
  }

  lemma InterpretAnswers(cl: Client, r: Response)
    requires r.token !in cl.cursors
    ensures Answers(Interpret(cl, r).1, r, CursorOf(Interpret(cl, r).0, r.token))
  {
    assert [] + r.data == r.data;
  }

  /**
   * `run_query` for a fresh query. It returns once exactly one reply was read for its token, and that
   * reply fixes the result; without a reply it still waits, and a query that wants none gets none.
   */
  lemma QueryIsARun(s: System, typ: RequestType) returns (steps: seq<Step>)
    requires Inv(s) && Enabled(s, Issue(typ))
    ensures Legal(s, steps) && s.client.cache <= s.client.cursors.Keys
    ensures Run(s, steps).client == RunQuery(s.client, typ).0
    ensures var t, res := s.client.nextToken, RunQuery(s.client, typ).1;
            var received := LogOf(Run(s, steps), t).received;
            && Run(s, steps).mode == (if res.NoReplyYet? then AwaitReply(typ, t) else Idle)
            && (if received == [] then res == if typ == StartNoreply then Nothing else NoReplyYet
                else typ != StartNoreply && |received| == 1
                     && Answers(res, received[0], CursorOf(Run(s, steps).client, t)))
  {
    CacheIsKnown(s);
    IssueStarts(s, typ);
    hide Inv, Enabled, Apply, Legal, Run, ReadUntil, Interpret, Answers;
    var t, s1 := s.client.nextToken, Apply(s, Issue(typ));
    var rest := [];
    if typ != StartNoreply {
      rest := QueryWaitIsARun(s1);
      var (cl, outcome) := ReadUntil(s1.client, t);
      ReadUntilKeeps(s1.client, t);
      if outcome.OwnResponse? {
        InterpretAnswers(cl, outcome.r);
        assert [] + [outcome.r] == [outcome.r];
      }
    }
    RunCons(s, Issue(typ), rest);
    steps := [Issue(typ)] + rest;
  }

  lemma IssueStarts(s: System, typ: RequestType)
    requires Inv(s) && Enabled(s, Issue(typ))
    ensures var t, s1 := s.client.nextToken, Apply(s, Issue(typ));
            && Inv(s1) && Legal(s1, []) && Run(s1, []) == s1
            && s1.client == Send(s.client, typ, t).(nextToken := t + 1)
            && s1.mode == (if typ == StartNoreply then Idle else AwaitReply(typ, t))
            && LogOf(s1, t).received == [] && t !in s1.client.cursors
  {
    IssueKeepsInv(s, typ);
    assert SlotOf(s, s.client.nextToken) == EMPTY_SLOT;
  }

  /** `close` returns with the socket closed, and not before its last request was answered if it waits for that. */
  lemma CloseIsARun(s: System, wait: bool) returns (steps: seq<Step>)
    requires Inv(s) && Enabled(s, Step.CloseConnection(wait))
    ensures Legal(s, steps) && s.client.cache <= s.client.cursors.Keys
    ensures var n := s.client.nextToken;
            var (cl, outcome) := Protocol.CloseConnection(s.client.(nextToken := n + 1), wait, n);
            && Run(s, steps).client == cl
            && Run(s, steps).mode == (if outcome.KeepReading? then Draining(n) else Idle)
            && (cl.open <==> outcome.KeepReading?)
            && |LogOf(Run(s, steps), n).received| == if wait && !outcome.KeepReading? then 1 else 0
  {
    CacheIsKnown(s);
    CloseStarts(s, wait);
    hide Inv, Enabled, Apply, Legal, Run, ReadUntil;
    var s1 := Apply(s, Step.CloseConnection(wait));
    var rest := [];
    if wait {
      rest := QueryWaitIsARun(s1);
      RunKeepsInv(s1, rest);
      DrainingIsOpen(Run(s1, rest));
    }
    RunCons(s, Step.CloseConnection(wait), rest);
    steps := [Step.CloseConnection(wait)] + rest;
  }

  lemma CloseStarts(s: System, wait: bool)
    requires Inv(s) && Enabled(s, Step.CloseConnection(wait))
    ensures var n, s1 := s.client.nextToken, Apply(s, Step.CloseConnection(wait));
            var cl := ClientFailAll(s.client.(nextToken := n + 1));
            && Inv(s1) && Legal(s1, []) && Run(s1, []) == s1
            && s1.client == (if wait then Send(cl, NoreplyWait, n) else cl.(open := false))
            && s1.mode == (if wait then Draining(n) else Idle)
            && LogOf(s1, n).received == []
  {
    CloseConnectionKeepsInv(s, wait);
    assert SlotOf(s, s.client.nextToken) == EMPTY_SLOT;
  }

  lemma DrainingIsOpen(s: System)
    requires Inv(s)
    ensures s.mode.Draining? ==> s.client.open
  {
  }

  /** How a run ends when `_get_next` for `t` has returned `res`. */
  predicate EndsAs(s: System, s': System, t: Token, res: NextResult) {
    match res
    case GotRow(row) => s'.mode == Idle && LogOf(s', t).delivered == LogOf(s, t).delivered + [row]
    case Raised(error) =>
      && s'.mode == Idle && LogOf(s', t).raised && LogOf(s', t).delivered == LogOf(s, t).delivered
      && t in s'.client.cursors && s'.client.cursors[t].error == Some(error)
    case StillWaiting => s'.mode == AwaitRows(t) && LogOf(s', t).delivered == LogOf(s, t).delivered
    case BadFrame => false
  }

  /** One decision of `_get_next` in the machine and in the code. */
  lemma AskRowIsGetNext(s: System, t: Token)
    requires t in s.client.cursors && s.client.cache <= s.client.cursors.Keys
    ensures var s' := AskRow(s, t);
            && t in s'.client.cursors && s'.client.cache <= s'.client.cursors.Keys
            && (if s'.mode.AwaitRows? then
                  s'.mode.t == t && WaitForRow(s'.client, t) == GetNext(s.client, t)
                  && LogOf(s', t).delivered == LogOf(s, t).delivered
                else
                  s'.client == GetNext(s.client, t).0 && EndsAs(s, s', t, GetNext(s.client, t).1))
  {
  }

  /** One frame read inside `_get_next`, in the machine and in the code. */
  lemma RowWaitStep(s: System)
    requires Inv(s) && s.mode.AwaitRows? && Enabled(s, Read)
    ensures var t, s' := s.mode.t, Apply(s, Read);
            && t in s.client.cursors && t in s'.client.cursors && s'.client.cache <= s'.client.cursors.Keys
            && (if s'.mode.AwaitRows? then
                  s'.mode.t == t && WaitForRow(s'.client, t) == WaitForRow(s.client, t)
                  && LogOf(s', t).delivered == LogOf(s, t).delivered && |s'.client.incoming| < |s.client.incoming|
                else
                  s'.client == WaitForRow(s.client, t).0 && EndsAs(s, s', t, WaitForRow(s.client, t).1))
  {
    var t := s.mode.t;
    var r := s.client.incoming[0];
    FrameIsExpected(s);
    assert SlotInv(SlotOf(s, t), Live(s.client), Querying(s.mode, t));
    ReadOneKeeps(s.client, t);
    var (cl, outcome) := ReadOne(s.client, t);
    if r.token == t {
      var log := LogOf(s, t);
      var s1 := s.(client := cl, logs := s.logs[t := log.(received := log.received + [r])]);
      assert Apply(s, Read) == AskRow(s1, t);
      assert ReadUntil(s.client, t) == (cl, OwnCursor);
      AskRowIsGetNext(s1, t);
    } else {
      assert outcome.KeepReading?;
      assert ReadUntil(s.client, t) == ReadUntil(cl, t);
    }
  }

  lemma {:induction false} RowWaitIsARun(s: System) returns (steps: seq<Step>)
    requires Inv(s) && s.mode.AwaitRows?
    ensures Legal(s, steps) && s.mode.t in s.client.cursors && s.client.cache <= s.client.cursors.Keys
    ensures var (cl, res) := WaitForRow(s.client, s.mode.t);
            Run(s, steps).client == cl && EndsAs(s, Run(s, steps), s.mode.t, res)
    decreases |s.client.incoming|
  {
    CacheIsKnown(s);
    if s.client.incoming == [] {
      steps := [];
    } else {
      RowWaitStep(s);
      ReadKeepsInv(s);
      var s' := Apply(s, Read);
      var rest := [];
      if s'.mode.AwaitRows? {
        rest := RowWaitIsARun(s');
      }
      RunCons(s, Read, rest);
      steps := [Read] + rest;
    }
  }

  /** `_get_next` returns the next row, or raises, or goes on waiting; it never meets an unexpected frame. */
  lemma GetNextIsARun(s: System, t: Token) returns (steps: seq<Step>)
    requires Inv(s) && Enabled(s, Next(t))
    ensures Legal(s, steps) && s.client.cache <= s.client.cursors.Keys
    ensures var (cl, res) := GetNext(s.client, t);
            Run(s, steps).client == cl && EndsAs(s, Run(s, steps), t, res)
  {
    CacheIsKnown(s);
    var s1 := Apply(s, Next(t));
    NextKeepsInv(s, t);
    AskRowIsGetNext(s, t);
    var rest := [];
    if s1.mode.AwaitRows? {
      rest := RowWaitIsARun(s1);
    }
    RunCons(s, Next(t), rest);
    steps := [Next(t)] + rest;
  }
}
