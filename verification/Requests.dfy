/** What the driver writes for one token, over every run of the machine in Multiplexing.dfy. */
module Requests {
  import opened Wrappers
  import opened Protocol
  import opened Multiplexing
  import opened MultiplexingProofs
  import opened MultiplexingTheorems

  /** The requests a step of the driver puts behind those already written; the server only takes requests away. */
  function Wrote(s: System, step: Step): seq<Request>
    requires Enabled(s, step)
  {
    var before, after := s.client.outgoing, Apply(s, step).client.outgoing;
    if step.Reply? || step.Discard? || |after| < |before| then [] else after[|before|..]
  }

  /** Everything written in a run, in order */
  function Written(s: System, steps: seq<Step>): seq<Request>
    requires Legal(s, steps)
    decreases |steps|
  {
    if steps == [] then [] else Wrote(s, steps[0]) + Written(Apply(s, steps[0]), steps[1..])
  }

  /** The types of the requests for token `t`, in order */
  function To(qs: seq<Request>, t: Token): seq<RequestType> {
    if qs == [] then [] else (if qs[0].token == t then [qs[0].typ] else []) + To(qs[1..], t)
  }

  function Repeat(typ: RequestType, n: nat): seq<RequestType> {
    seq(n, _ => typ)
  }

  /** The request that draws token `t`, if the step draws it: a query of the caller or the last wait of `close`. */
  function Drawn(s: System, step: Step, t: Token): seq<RequestType> {
    if s.client.nextToken != t then []
    else match step
      case Issue(typ) => [typ]
      case CloseConnection(wait) => if wait then [NoreplyWait] else []
      case _ => []
  }

  function AllDrawn(s: System, steps: seq<Step>, t: Token): seq<RequestType>
    requires Legal(s, steps)
    decreases |steps|
  {
    if steps == [] then [] else Drawn(s, steps[0], t) + AllDrawn(Apply(s, steps[0]), steps[1..], t)
  }

  /** The caller closes a cursor that has neither ended nor failed, on an open connection. */
  predicate ClosesLive(s: System, step: Step, t: Token) {
    step == CloseCursor(t) && s.client.open && t in s.client.cursors && s.client.cursors[t].error.None?
  }

  function Closings(s: System, steps: seq<Step>, t: Token): nat
    requires Legal(s, steps)
    decreases |steps|
  {
    if steps == [] then 0
    else (if ClosesLive(s, steps[0], t) then 1 else 0) + Closings(Apply(s, steps[0]), steps[1..], t)
  }

  predicate Ended(s: System, t: Token) {
    t in s.client.cursors && s.client.cursors[t].error.Some?
  }

  // ----- one step -----

  lemma {:induction false} ToConcat(xs: seq<Request>, ys: seq<Request>, t: Token)
    ensures To(xs + ys, t) == To(xs, t) + To(ys, t)
  {
    if xs == [] {
      assert xs + ys == ys;
    } else {
      var head := if xs[0].token == t then [xs[0].typ] else [];
      assert (xs + ys)[1..] == xs[1..] + ys && (xs + ys)[0] == xs[0];
      ToConcat(xs[1..], ys, t);
      assert head + (To(xs[1..], t) + To(ys, t)) == head + To(xs[1..], t) + To(ys, t);
    }
  }

  lemma ToOne(q: Request, t: Token)
    ensures To([q], t) == if q.token == t then [q.typ] else []
  {
    assert [q][1..] == [];
  }

  /** Requests that are all CONTINUE, none of them for a cursor of `cl` that has ended */
  predicate Fetching(qs: seq<Request>, cl: Client) {
    forall q :: q in qs ==> q.typ == Continue && (q.token in cl.cursors ==> cl.cursors[q.token].error.None?)
  }

  lemma {:induction false} FetchingTo(qs: seq<Request>, cl: Client, t: Token)
    requires Fetching(qs, cl)
    ensures To(qs, t) == Repeat(Continue, |To(qs, t)|)
    ensures t in cl.cursors && cl.cursors[t].error.Some? ==> To(qs, t) == []
  {
    if qs != [] {
      assert qs[0] in qs;
      FetchingTo(qs[1..], cl, t);
    }
  }

  /** `cl'` is `cl` after writing only such requests, all for cursors it has; no cursor is lost or mended. */
  ghost predicate Fetched(cl: Client, cl': Client) {
    && |cl.outgoing| <= |cl'.outgoing| && cl'.outgoing[..|cl.outgoing|] == cl.outgoing
    && Fetching(cl'.outgoing[|cl.outgoing|..], cl)
    && (forall q :: q in cl'.outgoing[|cl.outgoing|..] ==> q.token in cl'.cursors)
    && (forall t :: t in cl.cursors ==> t in cl'.cursors)
    && (forall t :: t in cl.cursors && cl.cursors[t].error.Some? ==> cl'.cursors[t].error.Some?)
  }

  lemma WrittenTwice(a: seq<Request>, b: seq<Request>, c: seq<Request>)
    requires |a| <= |b| <= |c| && b[..|a|] == a && c[..|b|] == b
    ensures c[..|a|] == a && c[|a|..] == b[|a|..] + c[|b|..]
  {
    assert c == b + c[|b|..] && b == a + b[|a|..];
  }

  lemma FetchedTwice(a: Client, b: Client, c: Client)
    requires Fetched(a, b) && Fetched(b, c)
    ensures Fetched(a, c)
  {
    WrittenTwice(a.outgoing, b.outgoing, c.outgoing);
    var first, second := b.outgoing[|a.outgoing|..], c.outgoing[|b.outgoing|..];
    forall q | q in c.outgoing[|a.outgoing|..]
      ensures q.typ == Continue && q.token in c.cursors
      ensures q.token in a.cursors ==> a.cursors[q.token].error.None?
    {
      assert q in first || q in second;
    }
  }

  lemma SameFetched(cl: Client, cl': Client)
    requires cl'.outgoing == cl.outgoing
    requires forall t :: t in cl.cursors ==> t in cl'.cursors
    requires forall t :: t in cl.cursors && cl.cursors[t].error.Some? ==> cl'.cursors[t].error.Some?
    ensures Fetched(cl, cl')
  {
  }

  lemma FetchIsFetched(cl: Client, t: Token)
    requires t in cl.cursors
    ensures Fetched(cl, Fetch(cl, t))
  {
    var cl' := Fetch(cl, t);
    if WantsBatch(cl.cursors[t]) {
      assert cl'.outgoing[|cl.outgoing|..] == [Request(Continue, t)];
    }
  }

  lemma AskRowFetches(s: System, t: Token)
    requires t in s.client.cursors
    ensures Fetched(s.client, AskRow(s, t).client)
  {
    if s.client.cursors[t].items != [] {
      SameFetched(s.client, AskRow(s, t).client);
    } else {
      FetchIsFetched(s.client, t);
    }
  }

  lemma ExtendFetches(cl: Client, t: Token, r: Response)
    requires t in cl.cursors
    ensures Fetched(cl, ClientExtend(cl, t, r))
  {
    hide Fetched, Fetch;
    var c := cl.cursors[t];
    var cl1 := cl.(cursors := cl.cursors[t := c.(outstanding := c.outstanding - 1)]);
    SameFetched(cl, cl1);
    FetchIsFetched(cl1, t);
    FetchedTwice(cl, cl1, Fetch(cl1, t));
    InternalFetches(Fetch(cl1, t), cl1, t, r);
    FetchedTwice(cl, Fetch(cl1, t), ClientExtend(cl, t, r));
  }

  lemma InternalFetches(cl: Client, before: Client, t: Token, r: Response)
    requires t in before.cursors && Fetched(before, cl)
    ensures t in cl.cursors && Fetched(cl, ClientExtendInternal(cl, t, r))
  {
    SameFetched(cl, ClientExtendInternal(cl, t, r));
  }

  lemma NewCursorFetches(cl: Client, r: Response)
    requires r.token !in cl.cursors
    ensures Fetched(cl, ClientNewCursor(cl, r))
  {
    hide Fetched, Fetch;
    var cl1 := cl.(cursors := cl.cursors[r.token := CursorState([], 0, 1, None)], cache := cl.cache + {r.token});
    SameFetched(cl, cl1);
    FetchIsFetched(cl1, r.token);
    FetchedTwice(cl, cl1, Fetch(cl1, r.token));
    InternalFetches(Fetch(cl1, r.token), cl1, r.token, r);
    FetchedTwice(cl, Fetch(cl1, r.token), ClientNewCursor(cl, r));
  }

  lemma ReadCachedFetches(s: System)
    requires Enabled(s, Read) && s.client.incoming[0].token in s.client.cache
    ensures Fetched(s.client, Apply(s, Read).client)
  {
    hide Fetched, AskRow, ClientExtend;
    var r := s.client.incoming[0];
    var cl0 := s.client.(incoming := s.client.incoming[1..]);
    var cl := ClientExtend(cl0, r.token, r);
    SameFetched(s.client, cl0);
    ExtendFetches(cl0, r.token, r);
    FetchedTwice(s.client, cl0, cl);
    if r.token == s.mode.t && s.mode.AwaitRows? && r.token in cl.cursors {
      var s1 := s.(client := cl,
        logs := s.logs[r.token := LogOf(s, r.token).(received := LogOf(s, r.token).received + [r])]);
      AskRowFetches(s1, r.token);
      FetchedTwice(s.client, cl, AskRow(s1, r.token).client);
    }
  }

  /** Only a query or the last wait of `close` gets a frame that no cached cursor is there for. */
  lemma ReadOtherFetches(s: System)
    requires Enabled(s, Read) && s.client.incoming[0].token !in s.client.cache
    requires s.client.closing || s.mode.t == s.client.incoming[0].token
    requires !s.mode.AwaitRows?
    requires s.mode.AwaitReply? ==> s.client.incoming[0].token !in s.client.cursors
    ensures Fetched(s.client, Apply(s, Read).client)
  {
    hide Fetched, AskRow, ClientNewCursor;
    var r := s.client.incoming[0];
    var cl0 := s.client.(incoming := s.client.incoming[1..]);
    SameFetched(s.client, cl0);
    SameFetched(s.client, cl0.(open := false));
    if r.token !in s.client.cursors {
      NewCursorFetches(cl0, r);
      FetchedTwice(s.client, cl0, ClientNewCursor(cl0, r));
    }
  }

  lemma ReadFetches(s: System)
    requires Inv(s) && Enabled(s, Read)
    ensures Fetched(s.client, Apply(s, Read).client)
  {
    var t := s.client.incoming[0].token;
    FrameIsExpected(s);
    assert SlotInv(SlotOf(s, t), Live(s.client), Querying(s.mode, t));
    hide Apply, Fetched;
    if t in s.client.cache {
      ReadCachedFetches(s);
    } else {
      ReadOtherFetches(s);
    }
  }

  /** A step of the server writes nothing; a step of the driver puts what it writes behind the rest. */
  lemma WroteIsAppended(s: System, step: Step)
    requires Inv(s) && Enabled(s, step)
    ensures if step.Reply? || step.Discard? then Wrote(s, step) == []
            else Apply(s, step).client.outgoing == s.client.outgoing + Wrote(s, step)
  {
    match step
    case Read => ReadFetches(s);
    case Next(u) => AskRowFetches(s, u);
    case _ =>
  }

  /** Reading and asking for a row write CONTINUEs alone. */
  lemma FetchingStep(s: System, step: Step, t: Token)
    requires Inv(s) && Enabled(s, step) && (step.Read? || step.Next?)
    ensures To(Wrote(s, step), t) == Repeat(Continue, |To(Wrote(s, step), t)|)
    ensures Ended(s, t) || t !in Apply(s, step).client.cursors ==> To(Wrote(s, step), t) == []
  {
    hide Apply, Enabled, To;
    if step.Read? {
      ReadFetches(s);
    } else {
      NextFetches(s, step.t);
    }
    FetchingTo(Wrote(s, step), s.client, t);
    if t !in Apply(s, step).client.cursors {
      NotTo(Wrote(s, step), t);
    }
  }

  lemma NextFetches(s: System, t: Token)
    requires Enabled(s, Next(t))
    ensures Fetched(s.client, Apply(s, Next(t)).client)
  {
    AskRowFetches(s, t);
  }

  lemma {:induction false} NotTo(qs: seq<Request>, t: Token)
    requires forall q :: q in qs ==> q.token != t
    ensures To(qs, t) == []
  {
    if qs != [] {
      assert qs[0] in qs;
      NotTo(qs[1..], t);
    }
  }

  lemma WroteOne(s: System, step: Step, q: Request, t: Token)
    requires Inv(s) && Enabled(s, step) && !step.Reply? && !step.Discard?
    requires Apply(s, step).client.outgoing == s.client.outgoing + [q]
    ensures To(Wrote(s, step), t) == if q.token == t then [q.typ] else []
  {
    hide Apply, Enabled;
    assert Wrote(s, step) == [q];
    ToOne(q, t);
  }

  /** Drawing a token, closing a live cursor and fetching are the only reasons to write. */
  lemma StepWrites(s: System, step: Step, t: Token)
    requires Inv(s) && Enabled(s, step)
    ensures var k := if step.Read? || step.Next? then |To(Wrote(s, step), t)| else 0;
            To(Wrote(s, step), t)
            == Drawn(s, step, t) + Repeat(Continue, k) + Repeat(Stop, if ClosesLive(s, step, t) then 1 else 0)
  {
    hide Inv;
    match step
    case Issue(typ) => WroteOne(s, step, Request(typ, s.client.nextToken), t);
    case Read => FetchingStep(s, step, t);
    case Next(_) => FetchingStep(s, step, t);
    case CloseCursor(u) =>
      if ClosesLive(s, step, u) {
        WroteOne(s, step, Request(Stop, u), t);
      }
    case CloseConnection(wait) =>
      if wait {
        WroteOne(s, step, Request(NoreplyWait, s.client.nextToken), t);
      }
    case _ =>
  }

  lemma KnownIsDrawn(s: System, t: Token)
    requires Inv(s) && t in s.client.cursors
    ensures t < s.client.nextToken
  {
    assert SlotOf(s, t) != EMPTY_SLOT;
  }

  /** Reading draws no token and sends no reply. */
  lemma ReadDrawsNothing(s: System, t: Token)
    requires Enabled(s, Read)
    ensures Apply(s, Read).client.nextToken == s.client.nextToken
    ensures LogOf(Apply(s, Read), t).emitted == LogOf(s, t).emitted
  {
    hide WantsBatch, MaybeFetch, ExtendInternal, Drained;
    var r := s.client.incoming[0];
    var cl := ReadOne(s.client, s.mode.t).0;
    assert cl.nextToken == s.client.nextToken;
    var s1 := s.(client := cl,
      logs := s.logs[r.token := LogOf(s, r.token).(received := LogOf(s, r.token).received + [r])]);
    assert LogOf(s1, t).emitted == LogOf(s, t).emitted;
    AskingDrawsNothing(s1, s.mode.t, t);
  }

  lemma AskingDrawsNothing(s: System, u: Token, t: Token)
    ensures u in s.client.cursors ==> AskRow(s, u).client.nextToken == s.client.nextToken
    ensures u in s.client.cursors ==> LogOf(AskRow(s, u), t).emitted == LogOf(s, t).emitted
  {
    hide WantsBatch, MaybeFetch;
  }

  lemma TokensGrow(s: System, step: Step, t: Token)
    requires Enabled(s, step)
    ensures s.client.nextToken <= Apply(s, step).client.nextToken
    ensures Drawn(s, step, t) != [] ==> t < Apply(s, step).client.nextToken
  {
    match step
    case Read => ReadDrawsNothing(s, t);
    case Next(u) => AskingDrawsNothing(s, u, t);
    case _ =>
  }

  lemma ClosedIsEnded(s: System, step: Step, t: Token)
    requires Inv(s) && Enabled(s, step)
    ensures Ended(s, t) || ClosesLive(s, step, t) ==> Ended(Apply(s, step), t)
  {
    if Ended(s, t) {
      StepAddsNothing(s, step, t);
    }
  }

  // ----- whole runs -----

  /** First the request that draws the token, then CONTINUEs, then STOPs */
  ghost predicate IsSession(types: seq<RequestType>, drawn: seq<RequestType>, stops: nat) {
    exists k: nat :: types == drawn + Repeat(Continue, k) + Repeat(Stop, stops)
  }

  lemma SessionAfterContinues(n: nat, types: seq<RequestType>, stops: nat)
    requires IsSession(types, [], stops)
    ensures IsSession(Repeat(Continue, n) + types, [], stops)
  {
    var k: nat :| types == [] + Repeat(Continue, k) + Repeat(Stop, stops);
    assert Repeat(Continue, n) + Repeat(Continue, k) == Repeat(Continue, n + k);
    assert Repeat(Continue, n) + types == [] + Repeat(Continue, n + k) + Repeat(Stop, stops);
  }

  lemma SessionAfterDraw(drawn: seq<RequestType>, types: seq<RequestType>, stops: nat)
    requires IsSession(types, [], stops)
    ensures IsSession(drawn + types, drawn, stops)
  {
    var k: nat :| types == [] + Repeat(Continue, k) + Repeat(Stop, stops);
    assert drawn + types == drawn + Repeat(Continue, k) + Repeat(Stop, stops);
  }

  lemma StopAlone(t: Token)
    ensures IsSession(Repeat(Stop, 1), [], 1) && IsSession(To([], t), [], 0) && To([], t) == []
  {
    assert Repeat(Stop, 1) == [] + Repeat(Continue, 0) + Repeat(Stop, 1);
    assert [] == [] + Repeat(Continue, 0) + Repeat(Stop, 0);
  }

  lemma {:induction false} WrittenTo(s: System, steps: seq<Step>, t: Token)
    requires Inv(s) && Legal(s, steps)
    ensures IsSession(To(Written(s, steps), t), AllDrawn(s, steps, t), Closings(s, steps, t))
    ensures |AllDrawn(s, steps, t)| <= 1 && Closings(s, steps, t) <= 1
    ensures t < s.client.nextToken ==> AllDrawn(s, steps, t) == []
    ensures Ended(s, t) ==> To(Written(s, steps), t) == [] && Closings(s, steps, t) == 0
    decreases |steps|
  {
    StopAlone(t);
    hide Inv, Apply, Enabled, To, Drawn, ClosesLive, Ended, IsSession, Wrote;
    if steps != [] {
      var step, s1 := steps[0], Apply(s, steps[0]);
      StepKeepsInv(s, step);
      WrittenTo(s1, steps[1..], t);
      ToConcat(Wrote(s, step), Written(s1, steps[1..]), t);
      JoinStep(s, step, t, To(Written(s1, steps[1..]), t), AllDrawn(s1, steps[1..], t), Closings(s1, steps[1..], t));
    }
  }

  /** What a step writes for a token, in front of what the rest of the run writes */
  lemma JoinStep(s: System, step: Step, t: Token, types: seq<RequestType>, drawn: seq<RequestType>, stops: nat)
    requires Inv(s) && Enabled(s, step) && IsSession(types, drawn, stops) && |drawn| <= 1 && stops <= 1
    requires t < Apply(s, step).client.nextToken ==> drawn == []
    requires Ended(Apply(s, step), t) ==> types == [] && stops == 0
    ensures var n := stops + if ClosesLive(s, step, t) then 1 else 0;
            && IsSession(To(Wrote(s, step), t) + types, Drawn(s, step, t) + drawn, n)
            && n <= 1 && |Drawn(s, step, t) + drawn| <= 1
            && (t < s.client.nextToken ==> Drawn(s, step, t) + drawn == [])
            && (Ended(s, t) ==> To(Wrote(s, step), t) + types == [] && n == 0)
  {
    StepWrites(s, step, t);
    TokensGrow(s, step, t);
    ClosedIsEnded(s, step, t);
    FetchedAreDrawn(s, step, t);
    hide Inv, Enabled, Apply, Wrote, To, IsSession, Repeat;
    if step.Read? || step.Next? {
      FetchingStep(s, step, t);
    }
    JoinSession(To(Wrote(s, step), t), Drawn(s, step, t), ClosesLive(s, step, t), types, drawn, stops);
  }

  /** Who has a cursor, or is written to without drawing a token, has drawn its token before. */
  lemma FetchedAreDrawn(s: System, step: Step, t: Token)
    requires Inv(s) && Enabled(s, step)
    ensures t in s.client.cursors ==> t < s.client.nextToken
    ensures (step.Read? || step.Next?) && To(Wrote(s, step), t) != [] ==> t < Apply(s, step).client.nextToken
  {
    if t in s.client.cursors {
      KnownIsDrawn(s, t);
    }
    StepKeepsInv(s, step);
    if t in Apply(s, step).client.cursors {
      KnownIsDrawn(Apply(s, step), t);
    }
    hide Inv, Apply, Enabled;
    if step.Read? || step.Next? {
      FetchingStep(s, step, t);
    }
  }

  lemma JoinSession(wrote: seq<RequestType>, draws: seq<RequestType>, closes: bool,
                    types: seq<RequestType>, drawn: seq<RequestType>, stops: nat)
    requires IsSession(types, drawn, stops)
    requires if draws != [] then wrote == draws && drawn == [] && !closes
             else if closes then wrote == Repeat(Stop, 1) && types == [] && drawn == [] && stops == 0
             else wrote == Repeat(Continue, |wrote|) && (wrote != [] ==> drawn == [])
    ensures IsSession(wrote + types, draws + drawn, stops + if closes then 1 else 0)
  {
    assert draws + [] == draws && [] + drawn == drawn && wrote + [] == wrote && [] + types == types;
    if draws != [] {
      SessionAfterDraw(draws, types, stops);
    } else if closes {
      StopAlone(0);
    } else if wrote != [] {
      SessionAfterContinues(|wrote|, types, stops);
    }
  }

  /**
   * What is written for a token over a whole run: the request that draws it, then CONTINUEs, and at the
   * end one STOP if and only if the caller closed the token's cursor on an open connection while it had
   * no error.
   */
  lemma RequestsForToken(steps: seq<Step>, t: Token)
    requires Legal(INITIAL, steps)
    ensures var types := To(Written(INITIAL, steps), t);
            && IsSession(types, AllDrawn(INITIAL, steps, t), Closings(INITIAL, steps, t))
            && |AllDrawn(INITIAL, steps, t)| <= 1 && Stop !in AllDrawn(INITIAL, steps, t)
            && Continue !in AllDrawn(INITIAL, steps, t)
            && (Stop in types <==> Closings(INITIAL, steps, t) == 1) && Closings(INITIAL, steps, t) <= 1
  {
    InitialInv();
    WrittenTo(INITIAL, steps, t);
    DrawnTypes(INITIAL, steps, t);
    StopsOf(To(Written(INITIAL, steps), t), AllDrawn(INITIAL, steps, t), Closings(INITIAL, steps, t));
  }

  lemma StopsOf(types: seq<RequestType>, drawn: seq<RequestType>, stops: nat)
    requires IsSession(types, drawn, stops) && Stop !in drawn
    ensures Stop in types <==> stops >= 1
  {
    var k: nat :| types == drawn + Repeat(Continue, k) + Repeat(Stop, stops);
    if stops >= 1 {
      assert types[|drawn| + k] == Stop;
    }
  }

  lemma {:induction false} DrawnTypes(s: System, steps: seq<Step>, t: Token)
    requires Legal(s, steps)
    ensures Stop !in AllDrawn(s, steps, t) && Continue !in AllDrawn(s, steps, t)
    decreases |steps|
  {
    if steps != [] {
      DrawnTypes(Apply(s, steps[0]), steps[1..], t);
    }
  }

  /** Once a cursor has an error nothing is written for it any more, whatever happens. */
  lemma NothingAfterError(before: seq<Step>, steps: seq<Step>, t: Token)
    requires Legal(INITIAL, before) && Ended(Run(INITIAL, before), t) && Legal(Run(INITIAL, before), steps)
    ensures To(Written(Run(INITIAL, before), steps), t) == []
  {
    InitialInv();
    RunKeepsInv(INITIAL, before);
    WrittenTo(Run(INITIAL, before), steps, t);
  }

  // ----- how a cursor ends -----

  /** Why a cursor that had no error has one after this step */
  predicate IsCause(s: System, step: Step, t: Token, error: Failure) {
    match step
    case CloseCursor(u) => u == t && error == CursorEmpty
    case CloseConnection(_) => error == ConnectionClosed
    case Read =>
      s.client.incoming != []
      && var r := s.client.incoming[0];
         r.token == t && !r.typ.SuccessPartial?
         && error == if r.typ.SuccessSequence? then CursorEmpty else ServerError(r.typ)
    case _ => false
  }

  /**
   * A cursor gets its error when the caller closes it, when the connection is closed, or from a reply
   * that is not a partial batch, and the error says which; it never changes afterwards.
   */
  lemma EndsForOneReason(before: seq<Step>, step: Step, after: seq<Step>, t: Token)
    requires Legal(INITIAL, before) && Enabled(Run(INITIAL, before), step)
    requires Legal(Apply(Run(INITIAL, before), step), after)
    requires !Ended(Run(INITIAL, before), t) && Ended(Apply(Run(INITIAL, before), step), t)
    ensures var s' := Run(Apply(Run(INITIAL, before), step), after);
            Ended(s', t) && IsCause(Run(INITIAL, before), step, t, s'.client.cursors[t].error.value)
  {
    InitialInv();
    RunKeepsInv(INITIAL, before);
    var s := Run(INITIAL, before);
    StepKeepsInv(s, step);
    EndedCursorIsSilent(Apply(s, step), after, t);
    hide Inv, Legal, Run, Apply, Enabled, IsCause;
    StepCauses(s, step, t);
  }

  lemma StepCauses(s: System, step: Step, t: Token)
    requires Inv(s) && Enabled(s, step) && !Ended(s, t) && Ended(Apply(s, step), t)
    ensures IsCause(s, step, t, Apply(s, step).client.cursors[t].error.value)
  {
    match step
    case Read => ReadCauses(s, t);
    case Next(u) => AskRowStarvesNobody(s, u, t);
    case _ =>
  }

  lemma ReadCauses(s: System, t: Token)
    requires Inv(s) && Enabled(s, Read) && !Ended(s, t) && Ended(Apply(s, Read), t)
    ensures IsCause(s, Read, t, Apply(s, Read).client.cursors[t].error.value)
  {
    var r := s.client.incoming[0];
    FrameIsExpected(s);
    assert SlotInv(SlotOf(s, r.token), Live(s.client), Querying(s.mode, r.token));
    hide Inv, SlotInv, AskRow;
    var cl := ReadOne(s.client, s.mode.t).0;
    var s1 := s.(client := cl,
      logs := s.logs[r.token := LogOf(s, r.token).(received := LogOf(s, r.token).received + [r])]);
    if r.token in s.client.cache && r.token == s.mode.t && s.mode.AwaitRows? {
      AskingKeepsErrors(s1, r.token, t);
    }
  }

  lemma AskingKeepsErrors(s: System, u: Token, t: Token)
    requires u in s.client.cursors
    ensures t in AskRow(s, u).client.cursors <==> t in s.client.cursors
    ensures t in s.client.cursors ==> AskRow(s, u).client.cursors[t].error == s.client.cursors[t].error
  {
  }

  // ----- requests and replies -----

  lemma {:induction false} AskedConcat(xs: seq<Request>, ys: seq<Request>, t: Token)
    ensures Asked(xs + ys, t) == Asked(xs, t) + Asked(ys, t)
  {
    if xs == [] {
      assert xs + ys == ys;
    } else {
      assert (xs + ys)[1..] == xs[1..] + ys;
      AskedConcat(xs[1..], ys, t);
    }
  }

  lemma EmittedStays(s: System, step: Step, t: Token)
    requires Enabled(s, step) && !step.Reply?
    ensures LogOf(Apply(s, step), t).emitted == LogOf(s, t).emitted
  {
    match step
    case Read => ReadDrawsNothing(s, t);
    case Next(u) => AskingDrawsNothing(s, u, t);
    case _ =>
  }

  lemma StepAsks(s: System, step: Step, t: Token)
    requires Inv(s) && Enabled(s, step)
    ensures Asked(s.client.outgoing, t) + |LogOf(s, t).emitted| + Asked(Wrote(s, step), t)
         == Asked(Apply(s, step).client.outgoing, t) + |LogOf(Apply(s, step), t).emitted|
  {
    WroteIsAppended(s, step);
    if step.Reply? {
      ReplyEffect(s, step.i, step.r);
      var k := SlotOf(s, t);
      assert SlotOf(Apply(s, step), t) == if t == step.r.token then ReplySlot(k, step.r) else k;
    } else {
      EmittedStays(s, step, t);
      if step.Discard? {
        AskedRemove(s.client.outgoing, step.i, t);
      } else {
        hide Apply, Enabled, Inv;
        AskedConcat(s.client.outgoing, Wrote(s, step), t);
      }
    }
  }

  lemma {:induction false} RunAsks(s: System, steps: seq<Step>, t: Token)
    requires Inv(s) && Legal(s, steps)
    ensures Asked(s.client.outgoing, t) + |LogOf(s, t).emitted| + Asked(Written(s, steps), t)
         == Asked(Run(s, steps).client.outgoing, t) + |LogOf(Run(s, steps), t).emitted|
    decreases |steps|
  {
    if steps != [] {
      StepAsks(s, steps[0], t);
      StepKeepsInv(s, steps[0]);
      RunAsks(Apply(s, steps[0]), steps[1..], t);
      AskedConcat(Wrote(s, steps[0]), Written(Apply(s, steps[0]), steps[1..]), t);
    }
  }

  /** Every request written that expects a reply was answered, once, or still waits for the server. */
  lemma RequestsAreAnswered(steps: seq<Step>, t: Token)
    requires Legal(INITIAL, steps)
    ensures var s := Run(INITIAL, steps);
            Asked(Written(INITIAL, steps), t) == |LogOf(s, t).received| + InFlight(s.client, t)
  {
    InitialInv();
    RunAsks(INITIAL, steps, t);
    RunKeepsInv(INITIAL, steps);
    var s := Run(INITIAL, steps);
    assert SlotInv(SlotOf(s, t), Live(s.client), Querying(s.mode, t));
  }
}
