/** What every run of the machine in Multiplexing.dfy keeps. */
module MultiplexingProofs {
  import opened Wrappers
  import opened Protocol
  import opened Multiplexing

  // ----- counting replies in flight -----

  lemma {:induction false} AskedAppend(qs: seq<Request>, q: Request, t: Token)
    ensures Asked(qs + [q], t) == Asked(qs, t) + Asked([q], t)
  {
    if qs == [] {
      assert qs + [q] == [q];
    } else {
      assert (qs + [q])[1..] == qs[1..] + [q];
      AskedAppend(qs[1..], q, t);
    }
  }

  lemma {:induction false} AskedRemove(qs: seq<Request>, i: nat, t: Token)
    requires i < |qs|
    ensures Asked(qs, t) == Asked(RemoveAt(qs, i), t) + Asked([qs[i]], t)
  {
    if i == 0 {
      assert RemoveAt(qs, 0) == qs[1..];
    } else {
      assert RemoveAt(qs, i)[1..] == RemoveAt(qs[1..], i - 1);
      assert RemoveAt(qs, i)[0] == qs[0];
      AskedRemove(qs[1..], i - 1, t);
    }
  }

  lemma {:induction false} AnsweredAppend(rs: seq<Response>, r: Response, t: Token)
    ensures Answered(rs + [r], t) == Answered(rs, t) + Answered([r], t)
  {
    if rs == [] {
      assert rs + [r] == [r];
    } else {
      var head := if rs[0].token == t then [rs[0]] else [];
      assert (rs + [r])[1..] == rs[1..] + [r];
      AnsweredAppend(rs[1..], r, t);
      assert head + (Answered(rs[1..], t) + Answered([r], t)) == head + Answered(rs[1..], t) + Answered([r], t);
    }
  }

  // ----- what a cursor makes of the replies it was given -----

  /** The rows of a reply stream: partial batches up to and including the first final one. */
  function Accepted(rs: seq<Response>): seq<Row> {
    if rs == [] then []
    else match rs[0].typ
      case SuccessPartial => rs[0].data + Accepted(rs[1..])
      case SuccessSequence => rs[0].data
      case _ => []
  }

  /** How a reply stream ends, if it does. */
  function Ending(rs: seq<Response>): Option<Failure> {
    if rs == [] then None
    else match rs[0].typ
      case SuccessPartial => Ending(rs[1..])
      case SuccessSequence => Some(CursorEmpty)
      case _ => Some(ServerError(rs[0].typ))
  }

  lemma {:induction false} AcceptedAppend(rs: seq<Response>, r: Response)
    ensures Accepted(rs + [r]) == if Ending(rs).Some? then Accepted(rs) else Accepted(rs) + Accepted([r])
    ensures Ending(rs + [r]) == if Ending(rs).Some? then Ending(rs) else Ending([r])
  {
    if rs == [] {
      assert rs + [r] == [r];
    } else {
      assert (rs + [r])[1..] == rs[1..] + [r];
      AcceptedAppend(rs[1..], r);
    }
  }

  lemma {:induction false} AcceptedPrefix(rs: seq<Response>, more: seq<Response>)
    ensures Accepted(rs) <= Accepted(rs + more)
    ensures Ending(rs).Some? ==> Accepted(rs) == Accepted(rs + more)
    decreases |more|
  {
    if more == [] {
      assert rs + more == rs;
    } else {
      AcceptedAppend(rs, more[0]);
      AcceptedPrefix(rs + [more[0]], more[1..]);
      assert rs + more == rs + [more[0]] + more[1..];
    }
  }

  /** The replies that reached the cursor before the caller or the connection closed it. */
  function Heard(log: Log): seq<Response> {
    match log.cut
    case Some(k) => if k <= |log.received| then log.received[..k] else log.received
    case None => log.received
  }

  // ----- the invariant -----

  predicate Live(cl: Client) {
    cl.open && !cl.closing
  }

  predicate Counted(c: CursorState, cached: bool, inFlight: nat) {
    && c.outstanding == inFlight <= (if c.error.None? then 1 else 2)
    && (cached <==> c.error.None? || inFlight > 0)
  }

  predicate Logged(c: CursorState, log: Log) {
    && 1 <= |log.received|
    && log.delivered + c.items == Accepted(Heard(log))
    && (match log.cut
        case None => c.error == Ending(log.received)
        case Some(k) => 1 <= k <= |log.received| && Ending(Heard(log)).None? && c.error.Some?)
    && (log.raised ==> c.items == [] && c.error.Some?)
    && (c.error.None? ==> c.threshold == |log.received[|log.received| - 1].data|)
  }

  /** The caller is inside `run_query` (or the final wait of `close`) for `t`. */
  predicate Querying(mode: Mode, t: Token) {
    (mode.AwaitReply? || mode.Draining?) && mode.t == t
  }

  /** Everything the system knows about one token. */
  datatype Slot = Slot(
    cursor: Option<CursorState>,
    cached: bool,
    asked: nat,             // requests the server has not answered
    wire: seq<Response>,    // answers the client has not read
    log: Log)

  function SlotOf(s: System, t: Token): Slot {
    Slot(if t in s.client.cursors then Some(s.client.cursors[t]) else None,
         t in s.client.cache,
         Asked(s.client.outgoing, t),
         Answered(s.client.incoming, t),
         LogOf(s, t))
  }

  const EMPTY_SLOT := Slot(None, false, 0, [], EMPTY_LOG)

  predicate SlotInv(k: Slot, live: bool, querying: bool) {
    var inFlight := k.asked + |k.wire|;
    && k.log.emitted == k.log.received + k.wire
    && (k.cached ==> k.cursor.Some? && live)
    && (match k.cursor
        case Some(c) =>
          && !querying
          && Logged(c, k.log)
          && (live ==>
                && Counted(c, k.cached, inFlight)
                && (c.error.None? && inFlight == 0 ==> 2 <= |k.log.received|))
          && (!live ==> c.error.Some?)
        case None =>
          && k.log.delivered == [] && k.log.cut.None? && !k.log.raised
          && (live && !querying ==> inFlight == 0)
          && (querying ==> inFlight == 1 && k.log.received == []))
  }

  predicate ModeInv(s: System) {
    var cl := s.client;
    match s.mode
    case Idle => cl.open ==> !cl.closing
    case AwaitReply(_, t) => Live(cl) && t < cl.nextToken
    case AwaitRows(t) =>
      Live(cl) && t in cl.cursors && cl.cursors[t].items == [] && cl.cursors[t].error.None?
      && !WantsBatch(cl.cursors[t])
    case Draining(t) => cl.open && cl.closing && t < cl.nextToken
  }

  ghost predicate SlotsInv(s: System) {
    && (forall t: Token :: SlotInv(SlotOf(s, t), Live(s.client), Querying(s.mode, t)))
    && (forall t: Token :: t >= s.client.nextToken ==> SlotOf(s, t) == EMPTY_SLOT)
  }

  ghost predicate Inv(s: System) {
    SlotsInv(s) && ModeInv(s) && !s.fault
  }

  lemma InitialInv()
    ensures Inv(INITIAL)
  {
    forall t: Token ensures SlotOf(INITIAL, t) == EMPTY_SLOT {}
  }

  /** Only token `t` changed: its slot is what has to be looked at. */
  ghost predicate OnlySlot(s: System, s': System, t: Token) {
    && t < s'.client.nextToken && s.client.nextToken <= s'.client.nextToken
    && Live(s'.client) == Live(s.client)
    && forall u: Token :: u != t ==> SlotOf(s', u) == SlotOf(s, u) && Querying(s'.mode, u) == Querying(s.mode, u)
  }

  lemma SlotKeepsSlots(s: System, s': System, t: Token)
    requires SlotsInv(s) && OnlySlot(s, s', t)
    requires SlotInv(SlotOf(s', t), Live(s'.client), Querying(s'.mode, t))
    ensures SlotsInv(s')
  {
    forall u: Token ensures SlotInv(SlotOf(s', u), Live(s'.client), Querying(s'.mode, u)) {
      if u != t {
        assert SlotInv(SlotOf(s, u), Live(s.client), Querying(s.mode, u));
      }
    }
  }

  // ----- the steps, one at a time -----

  lemma SendAsks(qs: seq<Request>, typ: RequestType, t: Token)
    ensures Asked(qs + [Request(typ, t)], t) == Asked(qs, t) + (if typ.StartNoreply? then 0 else 1)
    ensures forall u: Token :: u != t ==> Asked(qs + [Request(typ, t)], u) == Asked(qs, u)
  {
    forall u: Token
      ensures Asked(qs + [Request(typ, t)], u) == Asked(qs, u) + (if u != t || typ.StartNoreply? then 0 else 1)
    {
      AskedAppend(qs, Request(typ, t), u);
      assert [Request(typ, t)][1..] == [];
    }
  }

  lemma IssueKeepsInv(s: System, typ: RequestType)
    requires Inv(s) && Enabled(s, Issue(typ))
    ensures Inv(Apply(s, Issue(typ)))
  {
    var s' := Apply(s, Issue(typ));
    var n := s.client.nextToken;
    SendAsks(s.client.outgoing, typ, n);
    assert SlotOf(s, n) == EMPTY_SLOT;
    assert SlotOf(s', n) == EMPTY_SLOT.(asked := if typ.StartNoreply? then 0 else 1);
    SlotKeepsSlots(s, s', n);
  }

  /** The server's answer moves one request of a slot to its wire. */
  function ReplySlot(k: Slot, r: Response): Slot
    requires k.asked > 0
  {
    k.(asked := k.asked - 1, wire := k.wire + [r], log := k.log.(emitted := k.log.emitted + [r]))
  }

  lemma ReplySlotInv(k: Slot, r: Response, live: bool, querying: bool)
    requires SlotInv(k, live, querying) && k.asked > 0
    ensures SlotInv(ReplySlot(k, r), live, querying)
  {
    assert Heard(ReplySlot(k, r).log) == Heard(k.log);
  }

  lemma ReplyEffect(s: System, i: nat, r: Response)
    requires Enabled(s, Reply(i, r))
    ensures var s' := Apply(s, Reply(i, r));
            && Asked(s.client.outgoing, r.token) > 0
            && SlotOf(s', r.token) == ReplySlot(SlotOf(s, r.token), r)
            && forall u: Token :: u != r.token ==> SlotOf(s', u) == SlotOf(s, u)
  {
    var s' := Apply(s, Reply(i, r));
    forall t: Token
      ensures Asked(s.client.outgoing, t) == Asked(s'.client.outgoing, t) + (if r.token == t then 1 else 0)
      ensures Answered(s'.client.incoming, t) == Answered(s.client.incoming, t) + (if r.token == t then [r] else [])
    {
      AskedRemove(s.client.outgoing, i, t);
      AnsweredAppend(s.client.incoming, r, t);
    }
  }

  lemma ReplyKeepsInv(s: System, i: nat, r: Response)
    requires Inv(s) && Enabled(s, Reply(i, r))
    ensures Inv(Apply(s, Reply(i, r)))
  {
    ReplyEffect(s, i, r);
    assert SlotInv(SlotOf(s, r.token), Live(s.client), Querying(s.mode, r.token));
    ReplySlotInv(SlotOf(s, r.token), r, Live(s.client), Querying(s.mode, r.token));
    assert SlotOf(s, r.token) != EMPTY_SLOT;
    SlotKeepsSlots(s, Apply(s, Reply(i, r)), r.token);
  }

  lemma DiscardKeepsInv(s: System, i: nat)
    requires Inv(s) && Enabled(s, Discard(i))
    ensures Inv(Apply(s, Discard(i)))
  {
    var s' := Apply(s, Discard(i));
    forall t: Token ensures SlotOf(s', t) == SlotOf(s, t) {
      AskedRemove(s.client.outgoing, i, t);
    }
    assert forall t: Token :: SlotInv(SlotOf(s, t), Live(s.client), Querying(s.mode, t));
  }

  /** Between reading a frame and the caller's next decision nobody is waiting. */
  ghost predicate RestInv(s: System) {
    && (forall t: Token :: SlotInv(SlotOf(s, t), Live(s.client), false))
    && (forall t: Token :: t >= s.client.nextToken ==> SlotOf(s, t) == EMPTY_SLOT)
    && (s.client.open ==> !s.client.closing)
    && !s.fault
  }

  lemma RestKeepsSlots(s: System, s': System, t: Token)
    requires RestInv(s) && s'.client.nextToken == s.client.nextToken && t < s.client.nextToken
    requires Live(s'.client) == Live(s.client)
    requires forall u: Token :: u != t ==> SlotOf(s', u) == SlotOf(s, u)
    requires SlotInv(SlotOf(s', t), Live(s.client), false)
    requires s'.mode.Idle? || s'.mode.AwaitRows?
    ensures SlotsInv(s')
  {
    forall u: Token ensures SlotInv(SlotOf(s', u), Live(s'.client), Querying(s'.mode, u)) {
      assert u != t ==> SlotInv(SlotOf(s, u), Live(s.client), false);
    }
  }

  /** `_maybe_fetch_batch` on one slot. */
  function FetchSlot(k: Slot): Slot
    requires k.cursor.Some?
  {
    if WantsBatch(k.cursor.value) then k.(cursor := Some(MaybeFetch(k.cursor.value)), asked := k.asked + 1) else k
  }

  lemma FetchEffect(s: System, t: Token)
    requires t in s.client.cursors
    ensures var s' := s.(client := Fetch(s.client, t));
            SlotOf(s', t) == FetchSlot(SlotOf(s, t))
            && forall u: Token :: u != t ==> SlotOf(s', u) == SlotOf(s, u)
  {
    SendAsks(s.client.outgoing, Continue, t);
  }

  /** `_get_next` hands out the first buffered row. */
  function PopSlot(k: Slot): Slot
    requires k.cursor.Some? && k.cursor.value.items != []
  {
    var c := k.cursor.value;
    k.(cursor := Some(c.(items := c.items[1..])), log := k.log.(delivered := k.log.delivered + [c.items[0]]))
  }

  lemma PopSlotInv(k: Slot, live: bool)
    requires SlotInv(k, live, false) && k.cursor.Some? && k.cursor.value.items != []
    ensures SlotInv(PopSlot(k), live, false)
  {
    var c := k.cursor.value;
    assert k.log.delivered + [c.items[0]] + c.items[1..] == k.log.delivered + c.items;
    assert Heard(PopSlot(k).log) == Heard(k.log);
  }

  lemma FetchSlotInv(k: Slot, live: bool)
    requires SlotInv(k, live, false) && k.cursor.Some?
    ensures SlotInv(FetchSlot(k), live, false)
    ensures FetchSlot(k).log == k.log && FetchSlot(k).cursor.value.items == k.cursor.value.items
    ensures !WantsBatch(FetchSlot(k).cursor.value)
  {
  }

  lemma RaiseSlotInv(k: Slot, live: bool)
    requires SlotInv(k, live, false) && k.cursor.Some? && k.cursor.value.items == [] && k.cursor.value.error.Some?
    ensures SlotInv(k.(log := k.log.(raised := true)), live, false)
  {
    assert Heard(k.log.(raised := true)) == Heard(k.log);
  }

  /** One pass of the loop in `_get_next` on one slot */
  function AskSlot(k: Slot): Slot
    requires k.cursor.Some?
  {
    if k.cursor.value.items != [] then
      PopSlot(k)
    else
      var k1 := FetchSlot(k);
      if k1.cursor.value.error.Some? then k1.(log := k1.log.(raised := true)) else k1
  }

  lemma FetchKeepsRest(cl: Client, t: Token)
    requires t in cl.cursors
    ensures var cl' := Fetch(cl, t);
            && cl'.nextToken == cl.nextToken && cl'.open == cl.open && cl'.closing == cl.closing
            && t in cl'.cursors && cl'.cursors[t].error == cl.cursors[t].error
  {
  }

  /** Only the slot of `t` changed, and the connection is as open as it was. */
  ghost predicate AskedOnly(s: System, s': System, t: Token)
    requires t in s.client.cursors
  {
    && SlotOf(s', t) == AskSlot(SlotOf(s, t))
    && (forall u: Token :: u != t ==> SlotOf(s', u) == SlotOf(s, u))
    && s'.client.nextToken == s.client.nextToken
    && s'.client.open == s.client.open && s'.client.closing == s.client.closing && s'.fault == s.fault
  }

  lemma PopEffect(s: System, t: Token)
    requires t in s.client.cursors && s.client.cursors[t].items != []
    ensures AskedOnly(s, AskRow(s, t), t) && AskRow(s, t).mode.Idle?
  {
    hide Asked, Answered, Fetch;
  }

  lemma FetchedEffect(s: System, t: Token)
    requires t in s.client.cursors && s.client.cursors[t].items == []
    ensures var s' := AskRow(s, t);
            && AskedOnly(s, s', t)
            && (s'.mode.Idle?
                || (s'.mode == AwaitRows(t) && t in s'.client.cursors && s'.client.cursors[t].error.None?))
  {
    FetchEffect(s, t);
    FetchKeepsRest(s.client, t);
    hide Fetch, WantsBatch, MaybeFetch, Asked, Answered;
  }

  lemma AskRowEffect(s: System, t: Token)
    requires t in s.client.cursors
    ensures var s' := AskRow(s, t);
            && AskedOnly(s, s', t)
            && (s'.mode.Idle? || (s'.mode == AwaitRows(t) && t in s'.client.cursors))
            && (s'.mode.AwaitRows? ==> s.client.cursors[t].items == [] && s'.client.cursors[t].error.None?)
  {
    hide AskRow, AskedOnly;
    if s.client.cursors[t].items == [] {
      FetchedEffect(s, t);
    } else {
      PopEffect(s, t);
    }
  }

  lemma AskSlotInv(k: Slot, live: bool)
    requires SlotInv(k, live, false) && k.cursor.Some?
    ensures SlotInv(AskSlot(k), live, false)
    ensures k.cursor.value.items == [] ==>
              var c := AskSlot(k).cursor.value; c.items == [] && !WantsBatch(c) && (c.error.None? ==> live)
  {
    if k.cursor.value.items != [] {
      PopSlotInv(k, live);
    } else {
      FetchSlotInv(k, live);
      if FetchSlot(k).cursor.value.error.Some? {
        RaiseSlotInv(FetchSlot(k), live);
      }
    }
  }

  lemma AskRowKeepsInv(s: System, t: Token)
    requires RestInv(s) && t in s.client.cursors
    ensures Inv(AskRow(s, t))
  {
    assert SlotInv(SlotOf(s, t), Live(s.client), false);
    assert t < s.client.nextToken;
    AskRowEffect(s, t);
    AskSlotInv(SlotOf(s, t), Live(s.client));
    hide AskRow, AskSlot, SlotInv, WantsBatch;
    var s' := AskRow(s, t);
    assert s'.mode.AwaitRows? ==> SlotOf(s', t).cursor == Some(s'.client.cursors[t]);
    RestKeepsSlots(s, s', t);
  }

  lemma NextKeepsInv(s: System, t: Token)
    requires Inv(s) && Enabled(s, Next(t))
    ensures Inv(Apply(s, Next(t)))
  {
    assert forall u: Token :: SlotInv(SlotOf(s, u), Live(s.client), Querying(s.mode, u));
    AskRowKeepsInv(s, t);
  }

  lemma TimeoutKeepsInv(s: System)
    requires Inv(s) && Enabled(s, Timeout)
    ensures Inv(Apply(s, Timeout))
  {
    var s' := Apply(s, Timeout);
    forall u: Token
      ensures SlotOf(s', u) == SlotOf(s, u) && SlotInv(SlotOf(s, u), Live(s.client), Querying(s'.mode, u))
    {
      assert SlotInv(SlotOf(s, u), Live(s.client), Querying(s.mode, u));
    }
  }

  lemma CloseCursorKeepsInv(s: System, t: Token)
    requires Inv(s) && Enabled(s, CloseCursor(t))
    ensures Inv(Apply(s, CloseCursor(t)))
  {
    var s' := Apply(s, CloseCursor(t));
    SendAsks(s.client.outgoing, Stop, t);
    var k := SlotOf(s, t);
    assert SlotInv(k, Live(s.client), false);
    if s.client.cursors[t].error.None? {
      assert k.log.received[..|k.log.received|] == k.log.received;
      assert SlotOf(s', t).log == k.log.(cut := Some(|k.log.received|));
    }
    assert t < s.client.nextToken;
    SlotKeepsSlots(s, s', t);
  }

  /** `close` on one slot: the cursor is failed and forgotten by the cache. */
  function FailSlot(k: Slot): Slot {
    if k.cached && k.cursor.Some? then
      var log := if k.cursor.value.error.None? && k.log.cut.None? then k.log.(cut := Some(|k.log.received|)) else k.log;
      k.(cursor := Some(FailCursor(k.cursor.value)), cached := false, log := log)
    else k.(cached := false)
  }

  lemma FailSlotInv(k: Slot)
    requires SlotInv(k, true, false)
    ensures SlotInv(FailSlot(k), false, false)
  {
    assert k.log.received[..|k.log.received|] == k.log.received;
  }

  lemma CloseConnectionEffect(s: System, wait: bool, t: Token)
    requires Inv(s) && Enabled(s, CloseConnection(wait))
    ensures var k := SlotOf(s, t);
            SlotOf(Apply(s, CloseConnection(wait)), t)
            == FailSlot(k).(asked := k.asked + if wait && t == s.client.nextToken then 1 else 0)
  {
    SendAsks(s.client.outgoing, NoreplyWait, s.client.nextToken);
    assert SlotInv(SlotOf(s, t), true, false);
  }

  lemma CloseConnectionKeepsInv(s: System, wait: bool)
    requires Inv(s) && Enabled(s, CloseConnection(wait))
    ensures Inv(Apply(s, CloseConnection(wait)))
  {
    var s' := Apply(s, CloseConnection(wait));
    var n := s.client.nextToken;
    assert SlotOf(s, n) == EMPTY_SLOT;
    forall t: Token
      ensures SlotInv(SlotOf(s', t), false, Querying(s'.mode, t))
      ensures t > n ==> SlotOf(s', t) == EMPTY_SLOT
    {
      var k := SlotOf(s, t);
      assert SlotInv(k, true, false);
      FailSlotInv(k);
      CloseConnectionEffect(s, wait, t);
    }
  }

  // ----- reading one frame -----

  /** The frame leaves the wire and enters the history. */
  function HearSlot(k: Slot): Slot
    requires k.wire != []
  {
    k.(wire := k.wire[1..], log := k.log.(received := k.log.received + [k.wire[0]]))
  }

  /** `_extend` on one slot. */
  function ExtendSlot(k: Slot): Slot
    requires k.wire != [] && k.cursor.Some?
  {
    var c := k.cursor.value.(outstanding := k.cursor.value.outstanding - 1);
    var c' := Extend(k.cursor.value, k.wire[0]);
    HearSlot(k).(cursor := Some(c'),
                 cached := k.cached && !Drained(c'),
                 asked := k.asked + if WantsBatch(c) then 1 else 0)
  }

  /** `DefaultCursor(...)` on the slot whose first reply has just been read. */
  function NewSlot(k: Slot): Slot
    requires k.wire != []
  {
    var c := NewCursor(k.wire[0]);
    HearSlot(k).(cursor := Some(c), cached := !Drained(c), asked := k.asked + 1)
  }

  lemma HeardAppend(log: Log, r: Response)
    requires log.cut.Some? ==> log.cut.value <= |log.received|
    ensures var log' := log.(received := log.received + [r]);
            Heard(log') == if log.cut.Some? then Heard(log) else Heard(log) + [r]
  {
    if log.cut.Some? {
      assert (log.received + [r])[..log.cut.value] == log.received[..log.cut.value];
    }
  }

  lemma HearSlotInv(k: Slot)
    requires SlotInv(k, false, false) && k.wire != []
    ensures SlotInv(HearSlot(k), false, false)
  {
    HeardAppend(k.log, k.wire[0]);
    AcceptedAppend(k.log.received, k.wire[0]);
  }

  /** What one reply adds to a cursor without error */
  lemma OneReply(c: CursorState, r: Response)
    requires c.error.None?
    ensures Extend(c, r).items == c.items + Accepted([r]) && Extend(c, r).error == Ending([r])
  {
    assert [r][1..] == [];
  }

  lemma ExtendSlotLogged(k: Slot)
    requires SlotInv(k, true, false) && k.cached && k.wire != []
    ensures Logged(ExtendSlot(k).cursor.value, ExtendSlot(k).log)
  {
    hide Accepted, Ending;
    var c, r := k.cursor.value, k.wire[0];
    var c', log' := ExtendSlot(k).cursor.value, ExtendSlot(k).log;
    HeardAppend(k.log, r);
    AcceptedAppend(k.log.received, r);
    if c.error.None? {
      OneReply(c, r);
      assert c'.items == c.items + Accepted([r]);
      assert k.log.delivered + (c.items + Accepted([r])) == k.log.delivered + c.items + Accepted([r]);
    } else {
      assert c'.items == c.items && c'.error == c.error;
      assert Accepted(Heard(log')) == Accepted(Heard(k.log));
    }
  }

  lemma ExtendSlotInv(k: Slot)
    requires SlotInv(k, true, false) && k.cached && k.wire != []
    ensures SlotInv(ExtendSlot(k), true, false)
  {
    ExtendSlotLogged(k);
  }

  lemma NewSlotInv(k: Slot)
    requires SlotInv(k, true, true) && k.wire != []
    requires k.wire[0].typ.SuccessPartial? || k.wire[0].typ.SuccessSequence?
    ensures SlotInv(NewSlot(k), true, false)
  {
    var r := k.wire[0];
    assert [r][1..] == [] && k.log.received + [r] == [r];
    assert k.log.delivered + ([] + r.data) == r.data;
  }

  lemma ExtendEffect(s: System, s': System, r: Response)
    requires s.client.incoming != [] && r == s.client.incoming[0]
    requires r.token in s.client.cursors && r.token in s.client.cache
    requires s'.client == ClientExtend(s.client.(incoming := s.client.incoming[1..]), r.token, r)
    requires s'.logs == s.logs[r.token := LogOf(s, r.token).(received := LogOf(s, r.token).received + [r])]
    ensures SlotOf(s', r.token) == ExtendSlot(SlotOf(s, r.token))
    ensures forall u: Token :: u != r.token ==> SlotOf(s', u) == SlotOf(s, u)
  {
    SendAsks(s.client.outgoing, Continue, r.token);
    assert [r] + Answered(s.client.incoming[1..], r.token) == Answered(s.client.incoming, r.token);
  }

  lemma HearEffect(s: System, s': System, r: Response)
    requires s.client.incoming != [] && r == s.client.incoming[0]
    requires s'.client.(open := s.client.open) == s.client.(incoming := s.client.incoming[1..])
    requires s'.logs == s.logs[r.token := LogOf(s, r.token).(received := LogOf(s, r.token).received + [r])]
    ensures SlotOf(s', r.token) == HearSlot(SlotOf(s, r.token))
    ensures forall u: Token :: u != r.token ==> SlotOf(s', u) == SlotOf(s, u)
  {
    assert [r] + Answered(s.client.incoming[1..], r.token) == Answered(s.client.incoming, r.token);
  }

  lemma NewEffect(s: System, s': System, r: Response)
    requires s.client.incoming != [] && r == s.client.incoming[0] && r.token !in s.client.cursors
    requires s'.client == ClientNewCursor(s.client.(incoming := s.client.incoming[1..]), r)
    requires s'.logs == s.logs[r.token := LogOf(s, r.token).(received := LogOf(s, r.token).received + [r])]
    ensures SlotOf(s', r.token) == NewSlot(SlotOf(s, r.token))
    ensures forall u: Token :: u != r.token ==> SlotOf(s', u) == SlotOf(s, u)
  {
    SendAsks(s.client.outgoing, Continue, r.token);
    assert [r] + Answered(s.client.incoming[1..], r.token) == Answered(s.client.incoming, r.token);
  }

  /** The next frame is always for a cached cursor or for the query being waited for, unless closing. */
  lemma FrameIsExpected(s: System)
    requires Inv(s) && Enabled(s, Read)
    ensures var t := s.client.incoming[0].token;
            SlotOf(s, t).wire != [] && SlotOf(s, t).wire[0] == s.client.incoming[0]
            && t < s.client.nextToken
            && (Live(s.client) ==> t in s.client.cache || Querying(s.mode, t))
  {
    var t := s.client.incoming[0].token;
    assert SlotInv(SlotOf(s, t), Live(s.client), Querying(s.mode, t));
    assert SlotOf(s, t) != EMPTY_SLOT;
  }

  lemma RestAfterRead(s: System, s1: System, t: Token)
    requires SlotsInv(s) && !s.fault && s.mode.AwaitRows? && Live(s.client)
    requires t < s1.client.nextToken == s.client.nextToken && Live(s1.client) && !s1.fault
    requires forall u: Token :: u != t ==> SlotOf(s1, u) == SlotOf(s, u)
    requires SlotInv(SlotOf(s1, t), true, false)
    ensures RestInv(s1)
  {
    forall u: Token ensures SlotInv(SlotOf(s1, u), true, false) {
      assert SlotInv(SlotOf(s, u), Live(s.client), Querying(s.mode, u));
    }
  }

  /** A frame for a cached cursor extends it; the caller goes on if it was the one waited for. */
  lemma ReadCachedKeepsInv(s: System)
    requires Inv(s) && Enabled(s, Read) && s.client.incoming[0].token in s.client.cache
    ensures Inv(Apply(s, Read))
  {
    var r := s.client.incoming[0];
    var t := r.token;
    var k := SlotOf(s, t);
    FrameIsExpected(s);
    assert SlotInv(k, Live(s.client), Querying(s.mode, t));
    var cl := ReadOne(s.client, s.mode.t).0;
    var log := LogOf(s, t);
    var s1 := s.(client := cl, logs := s.logs[t := log.(received := log.received + [r])]);
    ExtendEffect(s, s1, r);
    ExtendSlotInv(k);
    if t == s.mode.t {
      RestAfterRead(s, s1, t);
      AskRowKeepsInv(s1, t);
    } else {
      SlotKeepsSlots(s, s1, t);
    }
  }

  /** The frame `run_query` waits for becomes a cursor or a plain result. */
  lemma ReadQueriedKeepsInv(s: System)
    requires Inv(s) && Enabled(s, Read) && Live(s.client) && Querying(s.mode, s.client.incoming[0].token)
    ensures Inv(Apply(s, Read))
  {
    var r := s.client.incoming[0];
    var t := r.token;
    var k := SlotOf(s, t);
    FrameIsExpected(s);
    assert SlotInv(k, true, true);
    var s' := Apply(s, Read);
    if r.typ.SuccessPartial? || r.typ.SuccessSequence? {
      NewEffect(s, s', r);
      NewSlotInv(k);
    } else {
      HearEffect(s, s', r);
    }
    SlotKeepsSlots(s, s', t);
  }

  /** While closing, frames of other tokens are dropped. */
  lemma ReadDrainingKeepsInv(s: System)
    requires Inv(s) && Enabled(s, Read) && !Live(s.client)
    ensures Inv(Apply(s, Read))
  {
    var r := s.client.incoming[0];
    var t := r.token;
    var k := SlotOf(s, t);
    FrameIsExpected(s);
    assert s.mode.Draining?;
    assert SlotInv(k, false, Querying(s.mode, t));
    var s' := Apply(s, Read);
    HearEffect(s, s', r);
    if t != s.mode.t {
      HearSlotInv(k);
    }
    SlotKeepsSlots(s, s', t);
  }

  lemma ReadKeepsInv(s: System)
    requires Inv(s) && Enabled(s, Read)
    ensures Inv(Apply(s, Read))
  {
    FrameIsExpected(s);
    if s.client.incoming[0].token in s.client.cache {
      ReadCachedKeepsInv(s);
    } else if Live(s.client) {
      ReadQueriedKeepsInv(s);
    } else {
      ReadDrainingKeepsInv(s);
    }
  }

  lemma StepKeepsInv(s: System, step: Step)
    requires Inv(s) && Enabled(s, step)
    ensures Inv(Apply(s, step))
  {
    match step
    case Issue(typ) => IssueKeepsInv(s, typ);
    case Reply(i, r) => ReplyKeepsInv(s, i, r);
    case Discard(i) => DiscardKeepsInv(s, i);
    case Read => ReadKeepsInv(s);
    case Next(t) => NextKeepsInv(s, t);
    case Timeout => TimeoutKeepsInv(s);
    case CloseCursor(t) => CloseCursorKeepsInv(s, t);
    case CloseConnection(wait) => CloseConnectionKeepsInv(s, wait);
  }

  lemma {:induction false} RunKeepsInv(s: System, steps: seq<Step>)
    requires Inv(s) && Legal(s, steps)
    ensures Inv(Run(s, steps))
    decreases |steps|
  {
    if steps != [] {
      StepKeepsInv(s, steps[0]);
      RunKeepsInv(Apply(s, steps[0]), steps[1..]);
    }
  }
}
