/** The promises of rethinkdb/net.py about every run of a connection, and the one it breaks. */
module MultiplexingTheorems {
  import opened Wrappers
  import opened Protocol
  import opened Multiplexing
  import opened MultiplexingProofs

  /**
   * While the connection is open a cursor's counter is exactly its replies in flight, it sits in the
   * cache exactly while something may still arrive for it, and no frame is ever unexpected: the next one
   * is for a cached cursor, for the query that is waited for, or dropped when closing.
   */
  lemma MultiplexingSafety(steps: seq<Step>, t: Token)
    requires Legal(INITIAL, steps)
    ensures var s := Run(INITIAL, steps);
            && !s.fault
            && (Live(s.client) && t in s.client.cursors ==>
                  var c := s.client.cursors[t];
                  && c.outstanding == InFlight(s.client, t)
                  && 0 <= c.outstanding <= 2
                  && (c.error.None? ==> c.outstanding <= 1)
                  && (t in s.client.cache <==> c.error.None? || InFlight(s.client, t) > 0))
            && (Live(s.client) && t !in s.client.cursors ==>
                  t !in s.client.cache && InFlight(s.client, t) == if Querying(s.mode, t) then 1 else 0)
            && (Enabled(s, Read) ==>
                  var outcome := ReadOne(s.client, s.mode.t).1;
                  && !outcome.Unexpected?
                  && (outcome.OwnCursor? ==> s.mode.AwaitRows?) && (outcome.OwnResponse? ==> !s.mode.AwaitRows?))
  {
    InitialInv();
    RunKeepsInv(INITIAL, steps);
    var s := Run(INITIAL, steps);
    assert SlotInv(SlotOf(s, t), Live(s.client), Querying(s.mode, t));
    if Enabled(s, Read) {
      NextFrame(s);
    }
  }

  lemma NextFrame(s: System)
    requires Inv(s) && Enabled(s, Read)
    ensures var outcome := ReadOne(s.client, s.mode.t).1;
            && !outcome.Unexpected?
            && (outcome.OwnCursor? ==> s.mode.AwaitRows?) && (outcome.OwnResponse? ==> !s.mode.AwaitRows?)
  {
    var t := s.client.incoming[0].token;
    FrameIsExpected(s);
    assert SlotInv(SlotOf(s, t), Live(s.client), Querying(s.mode, t));
    hide ClientExtend, ClientFailAll;
  }

  /**
   * The caller sees the server's rows in order: what it has taken plus what is buffered is what the
   * replies heard before any close amount to, a prefix of the server's stream; an error is raised
   * only once nothing is buffered, and a clean end only once the whole stream was delivered.
   */
  lemma OrderedDelivery(steps: seq<Step>, t: Token)
    requires Legal(INITIAL, steps) && t in Run(INITIAL, steps).client.cursors
    ensures var s := Run(INITIAL, steps);
            var c, log := s.client.cursors[t], LogOf(s, t);
            && log.delivered + c.items == Accepted(Heard(log)) <= Accepted(log.emitted)
            && (log.raised ==> log.delivered == Accepted(Heard(log)))
            && (log.raised && log.cut.None? ==>
                  log.delivered == Accepted(log.emitted) && c.error == Ending(log.emitted))
  {
    InitialInv();
    RunKeepsInv(INITIAL, steps);
    var s := Run(INITIAL, steps);
    var log := LogOf(s, t);
    assert SlotInv(SlotOf(s, t), Live(s.client), Querying(s.mode, t));
    var rest := log.emitted[|Heard(log)|..];
    assert log.emitted == Heard(log) + rest;
    AcceptedPrefix(Heard(log), rest);
    if log.cut.None? {
      EndingPrefix(log.received, rest);
    }
  }

  lemma {:induction false} EndingPrefix(rs: seq<Response>, more: seq<Response>)
    ensures Ending(rs).Some? ==> Ending(rs + more) == Ending(rs)
    decreases |more|
  {
    if more == [] {
      assert rs + more == rs;
    } else {
      AcceptedAppend(rs, more[0]);
      EndingPrefix(rs + [more[0]], more[1..]);
      assert rs + more == rs + [more[0]] + more[1..];
    }
  }

  /** What the caller has, or can still get without another reply. */
  function Yield(s: System, t: Token): (seq<Row>, Option<Failure>)
    requires t in s.client.cursors
  {
    (LogOf(s, t).delivered + s.client.cursors[t].items, s.client.cursors[t].error)
  }

  lemma FetchKeepsRows(cl: Client, u: Token, t: Token)
    requires u in cl.cursors && t in cl.cursors
    ensures var c, c' := cl.cursors[t], Fetch(cl, u).cursors[t]; c'.items == c.items && c'.error == c.error
    ensures Fetch(cl, u).cursors.Keys == cl.cursors.Keys
  {
  }

  lemma AskRowAddsNothing(s: System, u: Token, t: Token)
    requires u in s.client.cursors && t in s.client.cursors
    ensures t in AskRow(s, u).client.cursors && Yield(AskRow(s, u), t) == Yield(s, t)
  {
    hide WantsBatch, MaybeFetch;
    var c := s.client.cursors[t];
    FetchKeepsRows(s.client, u, t);
    if u == t && c.items != [] {
      assert LogOf(s, t).delivered + [c.items[0]] + c.items[1..] == LogOf(s, t).delivered + c.items;
    }
  }

  lemma ReadAddsNothing(s: System, t: Token)
    requires Inv(s) && Enabled(s, Read) && t in s.client.cursors && s.client.cursors[t].error.Some?
    ensures t in Apply(s, Read).client.cursors && Yield(Apply(s, Read), t) == Yield(s, t)
  {
    var r := s.client.incoming[0];
    FrameIsExpected(s);
    assert SlotInv(SlotOf(s, t), Live(s.client), Querying(s.mode, t));
    assert SlotInv(SlotOf(s, r.token), Live(s.client), Querying(s.mode, r.token));
    hide Inv, SlotInv, WantsBatch, MaybeFetch;
    var cl := ReadOne(s.client, s.mode.t).0;
    var s1 := s.(client := cl,
      logs := s.logs[r.token := LogOf(s, r.token).(received := LogOf(s, r.token).received + [r])]);
    if r.token in s.client.cache {
      ExtendEffect(s, s1, r);
      assert Yield(s1, t) == Yield(s, t);
      if r.token == s.mode.t {
        AskRowAddsNothing(s1, s.mode.t, t);
      }
    } else {
      assert s1.client.cursors == s.client.cursors;
    }
  }

  /** Once a cursor has ended or been closed, nothing that happens later adds a row to it. */
  lemma StepAddsNothing(s: System, step: Step, t: Token)
    requires Inv(s) && Enabled(s, step) && t in s.client.cursors && s.client.cursors[t].error.Some?
    ensures t in Apply(s, step).client.cursors && Yield(Apply(s, step), t) == Yield(s, t)
  {
    match step
    case Read => ReadAddsNothing(s, t);
    case Next(u) => AskRowAddsNothing(s, u, t);
    case _ =>
  }

  lemma {:induction false} EndedCursorIsSilent(s: System, steps: seq<Step>, t: Token)
    requires Inv(s) && Legal(s, steps) && t in s.client.cursors && s.client.cursors[t].error.Some?
    ensures t in Run(s, steps).client.cursors && Yield(Run(s, steps), t) == Yield(s, t)
    decreases |steps|
  {
    if steps != [] {
      StepAddsNothing(s, steps[0], t);
      StepKeepsInv(s, steps[0]);
      EndedCursorIsSilent(Apply(s, steps[0]), steps[1..], t);
    }
  }

  // ----- waiting for rows -----

  /** No error, nothing asked for, and a threshold no buffer can fall below. */
  predicate Starved(c: CursorState) {
    c.error.None? && c.outstanding == 0 && c.threshold == 0
  }

  /** Every reply after the first carries a row. */
  predicate Feeding(rs: seq<Response>) {
    forall i :: 1 <= i < |rs| ==> rs[i].data != []
  }

  /** `_get_next` goes to the socket with a reply in flight, unless the cursor is starved. */
  lemma WaitIsAnsweredUnlessStarved(steps: seq<Step>)
    requires Legal(INITIAL, steps) && Run(INITIAL, steps).mode.AwaitRows?
    ensures var s := Run(INITIAL, steps);
            && s.mode.t in s.client.cursors
            && (InFlight(s.client, s.mode.t) >= 1 <==> !Starved(s.client.cursors[s.mode.t]))
  {
    InitialInv();
    RunKeepsInv(INITIAL, steps);
    var s := Run(INITIAL, steps);
    assert SlotInv(SlotOf(s, s.mode.t), Live(s.client), Querying(s.mode, s.mode.t));
  }

  /** If every reply read so far had a row in it, or was the first, the reader does not wait in vain. */
  lemma NoStuckWait(steps: seq<Step>)
    requires Legal(INITIAL, steps) && Run(INITIAL, steps).mode.AwaitRows?
    requires Feeding(LogOf(Run(INITIAL, steps), Run(INITIAL, steps).mode.t).received)
    ensures var s := Run(INITIAL, steps);
            InFlight(s.client, s.mode.t) >= 1
  {
    WaitIsAnsweredUnlessStarved(steps);
    InitialInv();
    RunKeepsInv(INITIAL, steps);
    var s := Run(INITIAL, steps);
    var log := LogOf(s, s.mode.t);
    assert SlotInv(SlotOf(s, s.mode.t), Live(s.client), Querying(s.mode, s.mode.t));
    var last := |log.received| - 1;
    if last >= 1 {
      assert log.received[last].data != [];
    }
  }

  /** The reply that starves a cursor: an empty partial batch while at least a batch is buffered. */
  lemma StarvedExactly(c: CursorState, r: Response)
    requires c.error.None? && c.outstanding == 1
    ensures Starved(Extend(c, r)) <==> r.typ.SuccessPartial? && r.data == [] && |c.items| >= c.threshold
  {
    var c1 := c.(outstanding := 0);
    assert WantsBatch(c1) <==> |c.items| < c.threshold;
  }

  // ----- which reply starves -----

  predicate Hears(s: System, step: Step, t: Token) {
    step.Read? && s.client.incoming != [] && s.client.incoming[0].token == t
  }

  /** The system just before the last reply for `t` was read, if any was */
  function BeforeLastReply(s: System, steps: seq<Step>, t: Token): (b: Option<System>)
    requires Legal(s, steps)
    ensures b.Some? ==> b.value.client.incoming != []
    decreases |steps|
  {
    if steps == [] then
      None
    else
      match BeforeLastReply(Apply(s, steps[0]), steps[1..], t)
      case Some(b) => Some(b)
      case None => if Hears(s, steps[0], t) then Some(s) else None
  }

  /** The reply to be read is an empty partial batch, not the first reply, and finds at least a batch buffered. */
  predicate FindsEnough(s: System, t: Token)
    requires s.client.incoming != []
  {
    var r := s.client.incoming[0];
    && t in s.client.cursors && r.typ.SuccessPartial? && r.data == []
    && |s.client.cursors[t].items| >= s.client.cursors[t].threshold
  }

  predicate IsStarved(s: System, t: Token) {
    t in s.client.cursors && Starved(s.client.cursors[t])
  }

  /** No error so far, if the caller has the cursor at all */
  predicate Unfailed(s: System, t: Token) {
    t in s.client.cursors ==> s.client.cursors[t].error.None?
  }

  lemma AskRowStarvesNobody(s: System, u: Token, t: Token)
    requires u in s.client.cursors
    ensures IsStarved(AskRow(s, u), t) <==> IsStarved(s, t)
    ensures Unfailed(AskRow(s, u), t) <==> Unfailed(s, t)
  {
  }

  lemma HeardByCursor(s: System, t: Token)
    requires Inv(s) && Enabled(s, Read) && s.client.incoming[0].token == t && t in s.client.cache
    requires Unfailed(Apply(s, Read), t)
    ensures IsStarved(Apply(s, Read), t) <==> FindsEnough(s, t)
  {
    var r := s.client.incoming[0];
    FrameIsExpected(s);
    assert SlotInv(SlotOf(s, t), Live(s.client), Querying(s.mode, t));
    var cl := ReadOne(s.client, s.mode.t).0;
    var s1 := s.(client := cl, logs := s.logs[t := LogOf(s, t).(received := LogOf(s, t).received + [r])]);
    ExtendEffect(s, s1, r);
    hide MaybeFetch, WantsBatch, Inv, SlotInv, Live;
    assert t in s1.client.cursors && s1.client.cursors[t] == Extend(s.client.cursors[t], r);
    if t == s.mode.t {
      AskRowStarvesNobody(s1, t, t);
    }
    ErrorStays(s.client.cursors[t], r);
    StarvedExactly(s.client.cursors[t], r);
  }

  lemma ErrorStays(c: CursorState, r: Response)
    ensures c.error.Some? ==> Extend(c, r).error.Some?
  {
  }

  /** The first reply makes the cursor, and a fresh cursor has asked for more. */
  lemma HeardByQuery(s: System, t: Token)
    requires Inv(s) && Enabled(s, Read) && s.client.incoming[0].token == t && t !in s.client.cache
    requires Unfailed(Apply(s, Read), t)
    ensures !IsStarved(Apply(s, Read), t) && !FindsEnough(s, t)
  {
    FrameIsExpected(s);
    assert SlotInv(SlotOf(s, t), Live(s.client), Querying(s.mode, t));
  }

  lemma NotHeard(s: System, step: Step, t: Token)
    requires Inv(s) && Enabled(s, step) && !Hears(s, step, t)
    requires Unfailed(Apply(s, step), t)
    ensures IsStarved(Apply(s, step), t) <==> IsStarved(s, t)
  {
    match step
    case Read => OtherHeard(s, t);
    case Next(u) => AskRowStarvesNobody(s, u, t);
    case CloseConnection(_) => assert SlotInv(SlotOf(s, t), Live(s.client), Querying(s.mode, t));
    case _ =>
  }

  lemma OtherHeard(s: System, t: Token)
    requires Inv(s) && Enabled(s, Read) && s.client.incoming[0].token != t
    ensures IsStarved(Apply(s, Read), t) <==> IsStarved(s, t)
  {
    var r := s.client.incoming[0];
    FrameIsExpected(s);
    assert SlotInv(SlotOf(s, r.token), Live(s.client), Querying(s.mode, r.token));
    assert SlotInv(SlotOf(s, t), Live(s.client), Querying(s.mode, t));
    hide SlotInv, Inv, MaybeFetch, WantsBatch;
    var cl := ReadOne(s.client, s.mode.t).0;
    var s1 := s.(client := cl,
      logs := s.logs[r.token := LogOf(s, r.token).(received := LogOf(s, r.token).received + [r])]);
    if r.token in s.client.cache {
      ExtendEffect(s, s1, r);
      assert SlotOf(s1, t) == SlotOf(s, t);
      if r.token == s.mode.t && s.mode.AwaitRows? {
        AskRowStarvesNobody(s1, r.token, t);
      }
    }
  }

  lemma StepStarves(s: System, step: Step, t: Token)
    requires Inv(s) && Enabled(s, step) && Unfailed(Apply(s, step), t)
    ensures IsStarved(Apply(s, step), t) <==> if Hears(s, step, t) then FindsEnough(s, t) else IsStarved(s, t)
  {
    hide Inv, Apply, IsStarved, FindsEnough, Unfailed;
    if !Hears(s, step, t) {
      NotHeard(s, step, t);
    } else if t in s.client.cache {
      HeardByCursor(s, t);
    } else {
      HeardByQuery(s, t);
    }
  }

  /** A cursor without error at the end of a run had none before. */
  lemma UnfailedBefore(s: System, steps: seq<Step>, t: Token)
    requires Inv(s) && Legal(s, steps) && Unfailed(Run(s, steps), t)
    ensures Unfailed(s, t)
  {
    if t in s.client.cursors && s.client.cursors[t].error.Some? {
      EndedCursorIsSilent(s, steps, t);
    }
  }

  lemma {:induction false} StarvedByLastReply(s: System, steps: seq<Step>, t: Token)
    requires Inv(s) && Legal(s, steps) && Unfailed(Run(s, steps), t)
    ensures var last := BeforeLastReply(s, steps, t);
            IsStarved(Run(s, steps), t) <==> if last.Some? then FindsEnough(last.value, t) else IsStarved(s, t)
    decreases |steps|
  {
    hide Inv, Enabled, Apply, IsStarved, FindsEnough, Unfailed, Hears;
    if steps != [] {
      var s1 := Apply(s, steps[0]);
      StepKeepsInv(s, steps[0]);
      StarvedByLastReply(s1, steps[1..], t);
      UnfailedBefore(s1, steps[1..], t);
      StepStarves(s, steps[0], t);
    }
  }

  /**
   * A reader at the socket waits for a reply that nobody will send exactly if the last reply read for
   * its token was not the first one, had no row in it and was not final, and found at least as many
   * rows buffered as the reply before it had.
   */
  lemma StuckExactly(steps: seq<Step>)
    requires Legal(INITIAL, steps) && Run(INITIAL, steps).mode.AwaitRows?
    ensures var s := Run(INITIAL, steps);
            var last := BeforeLastReply(INITIAL, steps, s.mode.t);
            InFlight(s.client, s.mode.t) == 0 <==> last.Some? && FindsEnough(last.value, s.mode.t)
  {
    hide Legal, Run, Enabled, Apply, FindsEnough, BeforeLastReply, SlotsInv, InFlight;
    WaitIsAnsweredUnlessStarved(steps);
    InitialInv();
    RunKeepsInv(INITIAL, steps);
    StarvedByLastReply(INITIAL, steps, Run(INITIAL, steps).mode.t);
  }

  /** The threshold a cursor without error has is the size of the last batch it got. */
  lemma ThresholdIsLastBatch(steps: seq<Step>, t: Token)
    requires Legal(INITIAL, steps) && t in Run(INITIAL, steps).client.cursors
    requires Run(INITIAL, steps).client.cursors[t].error.None?
    ensures var received := LogOf(Run(INITIAL, steps), t).received;
            received != [] && Run(INITIAL, steps).client.cursors[t].threshold == |received[|received| - 1].data|
  {
    InitialInv();
    RunKeepsInv(INITIAL, steps);
    var s := Run(INITIAL, steps);
    assert SlotInv(SlotOf(s, t), Live(s.client), Querying(s.mode, t));
  }

  /** A reader of a starved cursor is stuck: until it gives up, no step of anyone can wake it. */
  lemma {:induction false} StarvedReaderStaysStuck(s: System, steps: seq<Step>)
    requires Inv(s) && s.mode.AwaitRows? && Starved(s.client.cursors[s.mode.t])
    requires Legal(s, steps) && Timeout !in steps
    ensures var s' := Run(s, steps);
            s'.mode == s.mode && s.mode.t in s'.client.cursors && Starved(s'.client.cursors[s.mode.t])
    decreases |steps|
  {
    if steps != [] {
      var t := s.mode.t;
      var s' := Apply(s, steps[0]);
      assert steps[0] in steps;
      assert SlotInv(SlotOf(s, t), Live(s.client), Querying(s.mode, t));
      if steps[0].Read? {
        FrameIsExpected(s);
        assert s.client.incoming[0].token != t;
      }
      assert s'.mode == s.mode && s'.client.cursors[t] == s.client.cursors[t];
      StepKeepsInv(s, steps[0]);
      StarvedReaderStaysStuck(s', steps[1..]);
    }
  }

  /** Such a run: a first reply and one CONTINUE reply that are both empty, then a caller asking for a row. */
  lemma EmptyBatchesStarveAReader()
    ensures exists steps ::
              Legal(INITIAL, steps)
              && Run(INITIAL, steps).mode == AwaitRows(0) && InFlight(Run(INITIAL, steps).client, 0) == 0
  {
    var first := [Issue(Start), Reply(0, EMPTY_BATCH), Read];
    var second := [Next(0), Reply(0, EMPTY_BATCH), Read];
    OpenEmptyCursor();
    AskTwice(Run(INITIAL, first));
    RunConcat(INITIAL, first, second);
  }

  const EMPTY_BATCH := Response(0, SuccessPartial, [])

  const EMPTY_CURSOR := Client(
    map[0 := CursorState([], 1, 0, None)], {0}, [Request(Continue, 0)], [], false, true, 1)

  lemma OpenEmptyCursor()
    ensures var steps := [Issue(Start), Reply(0, EMPTY_BATCH), Read];
            Legal(INITIAL, steps) && Run(INITIAL, steps).client == EMPTY_CURSOR && Run(INITIAL, steps).mode == Idle
  {
    var s1 := Apply(INITIAL, Issue(Start));
    assert s1.client == INITIAL.client.(outgoing := [Request(Start, 0)], nextToken := 1);
    var s2 := Apply(s1, Reply(0, EMPTY_BATCH));
    assert s2.client == s1.client.(outgoing := [], incoming := [EMPTY_BATCH]);
    var s3 := Apply(s2, Read);
    assert s3.client == EMPTY_CURSOR;
    RunThree(INITIAL, Issue(Start), Reply(0, EMPTY_BATCH), Read);
  }

  lemma AskTwice(s: System)
    requires s.client == EMPTY_CURSOR && s.mode == Idle
    ensures var steps := [Next(0), Reply(0, EMPTY_BATCH), Read];
            && Legal(s, steps)
            && Run(s, steps).mode == AwaitRows(0)
            && Run(s, steps).client.outgoing == [] && Run(s, steps).client.incoming == []
  {
    var s1 := Apply(s, Next(0));
    assert s1.client == EMPTY_CURSOR && s1.mode == AwaitRows(0);
    var s2 := Apply(s1, Reply(0, EMPTY_BATCH));
    assert s2.client == EMPTY_CURSOR.(outgoing := [], incoming := [EMPTY_BATCH]);
    var s3 := Apply(s2, Read);
    assert s3.client.outgoing == [] && s3.client.incoming == [];
    RunThree(s, Next(0), Reply(0, EMPTY_BATCH), Read);
  }

  lemma RunThree(s: System, a: Step, b: Step, c: Step)
    requires Enabled(s, a) && Enabled(Apply(s, a), b) && Enabled(Apply(Apply(s, a), b), c)
    ensures Legal(s, [a, b, c]) && Run(s, [a, b, c]) == Apply(Apply(Apply(s, a), b), c)
  {
    hide Enabled, Apply;
    RunCons(Apply(Apply(s, a), b), c, []);
    RunCons(Apply(s, a), b, [c] + []);
    RunCons(s, a, [b] + ([c] + []));
    assert [a] + ([b] + ([c] + [])) == [a, b, c];
  }

  lemma RunCons(s: System, step: Step, steps: seq<Step>)
    requires Enabled(s, step) && Legal(Apply(s, step), steps)
    ensures Legal(s, [step] + steps) && Run(s, [step] + steps) == Run(Apply(s, step), steps)
  {
    assert ([step] + steps)[1..] == steps;
  }

  lemma {:induction false} RunConcat(s: System, xs: seq<Step>, ys: seq<Step>)
    requires Legal(s, xs) && Legal(Run(s, xs), ys)
    ensures Legal(s, xs + ys) && Run(s, xs + ys) == Run(Run(s, xs), ys)
    decreases |xs|
  {
    if xs == [] {
      assert xs + ys == ys;
    } else {
      assert (xs + ys)[1..] == xs[1..] + ys;
      RunConcat(Apply(s, xs[0]), xs[1..], ys);
    }
  }
}
