/** Every future of the asyncio connection is completed exactly once - with one exception, stated exactly. */
module AsyncioTheorems {
  import opened AsyncioConnection

  /** The connection with the coroutines that were made by `run` and have not been started yet */
  datatype System = System(
    instance: Instance,
    prepared: set<Token>,
    nextToken: Token,
    abandoned: bool,       // the caller has closed the connection
    late: set<Token>)      // queries whose coroutine was started when the connection was closing

  const INITIAL := System(CONNECTED, {}, 0, false, {})

  datatype Step =
    | Prepare                          // `run`: checks that the connection is open and draws a token
    | Start(t: Token, noreply: bool)   // the coroutine runs
    | Frame(t: Token, content: Content, live: bool)
    | EndOfStream                      // `readexactly` raises
    | Close

  predicate Enabled(s: System, step: Step) {
    match step
    case Prepare => !s.instance.closing && !s.abandoned
    case Start(t, _) => t in s.prepared
    case Frame(_, _, _) => s.instance.reading
    case EndOfStream => s.instance.reading
    case Close => !s.abandoned
  }

  function Apply(s: System, step: Step): System
    requires Enabled(s, step)
  {
    match step
    case Prepare => s.(prepared := s.prepared + {s.nextToken}, nextToken := s.nextToken + 1)
    case Start(t, noreply) =>
      var u := s.(prepared := s.prepared - {t});
      if noreply then u
      else u.(instance := Register(s.instance, t), late := if s.instance.closing then s.late + {t} else s.late)
    case Frame(t, content, live) => s.(instance := Handle(s.instance, t, content, live))
    case EndOfStream => s.(instance := ReaderFails(s.instance))
    case Close => s.(instance := CloseAll(s.instance), abandoned := true)
  }

  predicate Legal(s: System, steps: seq<Step>)
    decreases |steps|
  {
    steps == [] || (Enabled(s, steps[0]) && Legal(Apply(s, steps[0]), steps[1..]))
  }

  function Run(s: System, steps: seq<Step>): System
    requires Legal(s, steps)
    decreases |steps|
  {
    if steps == [] then s else Run(Apply(s, steps[0]), steps[1..])
  }

  /** The query of `t` has a future. */
  predicate Registered(s: System, t: Token) {
    t in s.instance.completions
  }

  ghost predicate Inv(s: System) {
    && s.instance.userQueries <= s.instance.completions.Keys
    && s.instance.cursorCache <= s.instance.completions.Keys - s.instance.userQueries
    && (forall t :: t in s.prepared ==> t < s.nextToken && t !in s.instance.completions)
    && (forall t :: t in s.instance.completions ==> t < s.nextToken)
    && (forall t :: t in s.instance.completions ==>
          |s.instance.completions[t]| == if t in s.instance.userQueries then 0 else 1)
    && (s.instance.closing ==> s.instance.userQueries <= s.late)
    && (s.late != {} ==> s.instance.closing)
    && (!s.instance.reading ==> s.instance.closing)
    && (s.abandoned ==> s.instance.closing)
  }

  lemma ClosingKeepsInv(s: System)
    requires Inv(s)
    ensures Inv(s.(instance := CloseAll(s.instance)))
  {
  }

  lemma FailureKeepsInv(s: System)
    requires Inv(s)
    ensures Inv(s.(instance := ReaderFails(s.instance)))
  {
    ClosingKeepsInv(s);
  }

  lemma FrameKeepsInv(s: System, t: Token, content: Content, live: bool)
    requires Inv(s) && s.instance.reading
    ensures Inv(s.(instance := Handle(s.instance, t, content, live)))
  {
    FailureKeepsInv(s);
    hide CloseAll, ReaderFails;
  }

  lemma StepKeepsInv(s: System, step: Step)
    requires Enabled(s, step) && Inv(s)
    ensures Inv(Apply(s, step))
  {
    match step
    case Prepare =>
    case Start(_, _) =>
    case Frame(t, content, live) => FrameKeepsInv(s, t, content, live);
    case EndOfStream => FailureKeepsInv(s);
    case Close => ClosingKeepsInv(s);
  }

  lemma {:induction false} RunKeepsInv(s: System, steps: seq<Step>)
    requires Legal(s, steps) && Inv(s)
    ensures Inv(Run(s, steps))
    decreases |steps|
  {
    hide Inv, Enabled, Apply;
    if steps != [] {
      StepKeepsInv(s, steps[0]);
      RunKeepsInv(Apply(s, steps[0]), steps[1..]);
    }
  }

  /**
   * In every run, whatever the server sends: no future is completed twice, one that still waits is not
   * completed, and once the connection is closing every future made before has been completed.
   */
  lemma ExactlyOnce(steps: seq<Step>, t: Token)
    requires Legal(INITIAL, steps) && Registered(Run(INITIAL, steps), t)
    ensures var s := Run(INITIAL, steps);
            && |Completed(s.instance, t)| <= 1
            && (Completed(s.instance, t) == [] <==> t in s.instance.userQueries)
            && (s.instance.closing && t !in s.late ==> |Completed(s.instance, t)| == 1)
  {
    RunKeepsInv(INITIAL, steps);
  }

  /** A future is completed by a frame with its own token or by closing, and never changes afterwards. */
  lemma OnlyByReplyOrClose(s: System, step: Step, t: Token)
    requires Enabled(s, step) && Inv(s) && Registered(s, t)
    ensures var before, after := Completed(s.instance, t), Completed(Apply(s, step).instance, t);
            && (before != [] ==> after == before)
            && (before == [] && after != [] ==>
                  || (step.Frame? && step.t == t && Answers(step.content) && after == [AnswerTo(step.content)])
                  || (Apply(s, step).instance.closing && after == [WithClosed]))
  {
  }

  /** Every content but one that does not decode or has no data completes the query it answers. */
  predicate Answers(content: Content) {
    !content.Broken? && content != Values(true)
  }

  /** What a caller gets for a reply */
  function AnswerTo(content: Content): Completion {
    if content.Values? then WithValue
    else if content.Rows? then WithCursor
    else if content.Done? then WithNone
    else WithServerError
  }

  /** When a reply does not decode, its query is completed all the same, and so is every other. */
  lemma BrokenReplyCompletesAll(s: System, t: Token, u: Token, live: bool)
    requires Inv(s) && s.instance.reading && !s.instance.closing && u in s.instance.userQueries
    requires t in s.instance.userQueries && t !in s.instance.cursorCache
    ensures Completed(Apply(s, Frame(t, Broken, live)).instance, u) == [WithClosed]
    ensures Completed(Apply(s, Frame(t, Values(true), live)).instance, u) == [WithClosed]
  {
  }

  // ----- cursors and the frames they are there for -----

  /** Every frame for `t` finds or makes a cursor that is to hear more. */
  predicate AllLive(steps: seq<Step>, t: Token) {
    forall i :: 0 <= i < |steps| && steps[i].Frame? && steps[i].t == t ==> steps[i].live
  }

  predicate IsFirstBatch(step: Step, t: Token) {
    step == Frame(t, Rows, true)
  }

  /** The steps gave `t` rows that are not the last ones, and no final frame since. */
  predicate Streaming(steps: seq<Step>, t: Token) {
    exists i :: 0 <= i < |steps| && IsFirstBatch(steps[i], t) && AllLive(steps[i + 1..], t)
  }

  predicate NoFrame(steps: seq<Step>, t: Token) {
    forall i :: 0 <= i < |steps| && steps[i].Frame? ==> steps[i].t != t
  }

  /** The query of `t` was started and no frame came for it. */
  predicate Unanswered(steps: seq<Step>, t: Token) {
    Start(t, false) in steps && NoFrame(steps, t)
  }

  lemma {:induction false} ClosingStays(s: System, steps: seq<Step>)
    requires Legal(s, steps) && s.instance.closing
    ensures Run(s, steps).instance.closing
    decreases |steps|
  {
    if steps != [] {
      assert Apply(s, steps[0]).instance.closing;
      ClosingStays(Apply(s, steps[0]), steps[1..]);
    }
  }

  lemma AllLiveCons(step: Step, steps: seq<Step>, t: Token)
    ensures AllLive([step] + steps, t) <==> AllLive(steps, t) && (step.Frame? && step.t == t ==> step.live)
  {
    var all := [step] + steps;
    assert all[0] == step;
    assert forall i :: 0 <= i < |steps| ==> all[i + 1] == steps[i];
    assert forall i :: 1 <= i < |all| ==> all[i] == steps[i - 1];
  }

  lemma StreamingCons(step: Step, steps: seq<Step>, t: Token)
    ensures Streaming([step] + steps, t) <==> Streaming(steps, t) || (IsFirstBatch(step, t) && AllLive(steps, t))
  {
    hide AllLive, IsFirstBatch;
    var all := [step] + steps;
    assert all[1..] == steps;
    forall i | 0 <= i < |steps| ensures all[i + 1] == steps[i] && all[i + 1 + 1..] == steps[i + 1..] {
    }
    if Streaming(steps, t) {
      var i :| 0 <= i < |steps| && IsFirstBatch(steps[i], t) && AllLive(steps[i + 1..], t);
      assert IsFirstBatch(all[i + 1], t) && AllLive(all[i + 1 + 1..], t);
    } else if IsFirstBatch(step, t) && AllLive(steps, t) {
      assert IsFirstBatch(all[0], t) && AllLive(all[0 + 1..], t);
    }
    if Streaming(all, t) {
      var i :| 0 <= i < |all| && IsFirstBatch(all[i], t) && AllLive(all[i + 1..], t);
      if i > 0 {
        assert IsFirstBatch(steps[i - 1], t) && AllLive(steps[i - 1 + 1..], t);
      }
    }
  }

  /** What one step that leaves the connection open does to the cache. */
  lemma StepCaches(s: System, step: Step, t: Token)
    requires Enabled(s, step) && Inv(s) && !Apply(s, step).instance.closing
    ensures t in Apply(s, step).instance.cursorCache
            <==> IsFirstBatch(step, t)
                 || (t in s.instance.cursorCache && (step.Frame? && step.t == t ==> step.live))
  {
  }

  lemma {:induction false} CachedFrom(s: System, steps: seq<Step>, t: Token)
    requires Legal(s, steps) && Inv(s) && !Run(s, steps).instance.closing
    ensures t in Run(s, steps).instance.cursorCache
            <==> Streaming(steps, t) || (t in s.instance.cursorCache && AllLive(steps, t))
    decreases |steps|
  {
    hide Inv, Enabled, Apply;
    if steps != [] {
      hide Streaming, AllLive, IsFirstBatch;
      var step, rest := steps[0], steps[1..];
      assert steps == [step] + rest;
      StepKeepsInv(s, step);
      if Apply(s, step).instance.closing {
        ClosingStays(Apply(s, step), rest);
      }
      StepCaches(s, step, t);
      CachedFrom(Apply(s, step), rest, t);
      StreamingCons(step, rest, t);
      AllLiveCons(step, rest, t);
    }
  }

  /** On an open connection the cache holds the cursors that are to hear more, and no others. */
  lemma CachedExactly(steps: seq<Step>, t: Token)
    requires Legal(INITIAL, steps) && !Run(INITIAL, steps).instance.closing
    ensures t in Run(INITIAL, steps).instance.cursorCache <==> Streaming(steps, t)
  {
    CachedFrom(INITIAL, steps, t);
  }

  lemma NoFrameCons(step: Step, steps: seq<Step>, t: Token)
    ensures NoFrame([step] + steps, t) <==> NoFrame(steps, t) && !(step.Frame? && step.t == t)
    ensures Start(t, false) in [step] + steps <==> step == Start(t, false) || Start(t, false) in steps
  {
    var all := [step] + steps;
    assert all[0] == step;
    assert forall i :: 0 <= i < |steps| ==> all[i + 1] == steps[i];
    assert forall i :: 1 <= i < |all| ==> all[i] == steps[i - 1];
  }

  /** What one step that leaves the connection open does to the queries that wait. */
  lemma StepWaits(s: System, step: Step, t: Token)
    requires Enabled(s, step) && Inv(s) && !Apply(s, step).instance.closing
    ensures t in Apply(s, step).instance.userQueries
            <==> step == Start(t, false) || (t in s.instance.userQueries && !(step.Frame? && step.t == t))
    ensures step.Frame? && step.t == t ==> Registered(s, t)
    ensures Registered(Apply(s, step), t) <==> step == Start(t, false) || Registered(s, t)
  {
  }

  lemma {:induction false} WaitingFrom(s: System, steps: seq<Step>, t: Token)
    requires Legal(s, steps) && Inv(s) && !Run(s, steps).instance.closing
    ensures t in Run(s, steps).instance.userQueries
            <==> if Registered(s, t) then t in s.instance.userQueries && NoFrame(steps, t) else Unanswered(steps, t)
    decreases |steps|
  {
    if steps != [] {
      var step, rest := steps[0], steps[1..];
      assert steps == [step] + rest;
      StepKeepsInv(s, step);
      NotStartedTwice(s, step, t);
      hide Inv, Enabled, Apply, NoFrame, Registered;
      if Apply(s, step).instance.closing {
        ClosingStays(Apply(s, step), rest);
      }
      StepWaits(s, step, t);
      WaitingFrom(Apply(s, step), rest, t);
      NoFrameCons(step, rest, t);
    }
  }

  /** A token that has its future is not started again. */
  lemma NotStartedTwice(s: System, step: Step, t: Token)
    requires Enabled(s, step) && Inv(s)
    ensures Registered(s, t) ==> step != Start(t, false)
  {
  }

  /** On an open connection the queries that wait are those that no frame came for. */
  lemma WaitingExactly(steps: seq<Step>, t: Token)
    requires Legal(INITIAL, steps) && !Run(INITIAL, steps).instance.closing
    ensures t in Run(INITIAL, steps).instance.userQueries <==> Unanswered(steps, t)
  {
    WaitingFrom(INITIAL, steps, t);
  }

  /** The frame was asked for by what happened before it, and can be used for what it was asked for. */
  predicate IsWelcome(before: seq<Step>, t: Token, content: Content) {
    || (Unanswered(before, t) && Answers(content))
    || (Streaming(before, t) && !content.Broken?)
  }

  predicate AllWelcome(steps: seq<Step>) {
    forall i :: 0 <= i < |steps| && steps[i].Frame? ==> IsWelcome(steps[..i], steps[i].t, steps[i].content)
  }

  lemma {:induction false} RunSnoc(s: System, steps: seq<Step>, step: Step)
    requires Legal(s, steps + [step])
    ensures Legal(s, steps) && Enabled(Run(s, steps), step) && Run(s, steps + [step]) == Apply(Run(s, steps), step)
    decreases |steps|
  {
    hide Enabled, Apply;
    if steps != [] {
      assert (steps + [step])[1..] == steps[1..] + [step];
      RunSnoc(Apply(s, steps[0]), steps[1..], step);
    } else {
      assert steps + [step] == [step];
    }
  }

  lemma AllWelcomeSnoc(steps: seq<Step>, step: Step)
    ensures AllWelcome(steps + [step])
            <==> AllWelcome(steps) && (step.Frame? ==> IsWelcome(steps, step.t, step.content))
  {
    hide IsWelcome;
    var all := steps + [step];
    assert all[..|steps|] == steps && all[|steps|] == step;
    forall i | 0 <= i < |steps| ensures all[i] == steps[i] && all[..i] == steps[..i] {
    }
  }

  /**
   * Until the caller closes it or the stream ends, the connection stays open if and only if every frame
   * is the one reply to a query, or goes to a cursor that is to hear more, and can be used there. A server
   * that sends nothing else never meets the branch for unexpected responses.
   */
  lemma {:induction false} StaysOpenExactly(steps: seq<Step>)
    requires Legal(INITIAL, steps) && Close !in steps && EndOfStream !in steps
    ensures !Run(INITIAL, steps).instance.closing <==> AllWelcome(steps)
    ensures Run(INITIAL, steps).instance.reading <==> AllWelcome(steps)
    decreases |steps|
  {
    if steps != [] {
      var before, step := steps[..|steps| - 1], steps[|steps| - 1];
      assert steps == before + [step];
      RunSnoc(INITIAL, before, step);
      AllWelcomeSnoc(before, step);
      StaysOpenExactly(before);
      var s := Run(INITIAL, before);
      if step.Frame? && !s.instance.closing {
        CachedExactly(before, step.t);
        WaitingExactly(before, step.t);
        RunKeepsInv(INITIAL, before);
        FrameClosesExactly(s, step.t, step.content, step.live);
      }
      hide Streaming, Unanswered, Legal, Run, AllWelcome, Inv, Handle;
    }
  }

  lemma FrameClosesExactly(s: System, t: Token, content: Content, live: bool)
    requires Inv(s) && s.instance.reading && !s.instance.closing
    ensures var i := s.instance;
            && (Handle(i, t, content, live).closing <==> !Handle(i, t, content, live).reading)
            && (!Handle(i, t, content, live).closing
                <==> (t in i.userQueries && Answers(content)) || (t in i.cursorCache && !content.Broken?))
  {
  }

  /** After `close`, frames change nothing any more. */
  lemma {:induction false} ClosedIsDeaf(s: System, steps: seq<Step>)
    requires Inv(s) && Enabled(s, Close) && Legal(Apply(s, Close), steps)
    requires forall i :: 0 <= i < |steps| ==> steps[i].Frame?
    ensures Run(Apply(s, Close), steps) == Apply(s, Close)
    decreases |steps|
  {
    if steps != [] {
      assert Apply(Apply(s, Close), steps[0]) == Apply(s, Close);
      ClosedIsDeaf(s, steps[1..]);
    }
  }

  // ----- the exception -----

  /** Without a reader and without a caller to close the connection again, a waiting future waits for ever. */
  lemma {:induction false} WaitsForEver(s: System, steps: seq<Step>, t: Token)
    requires Legal(s, steps) && Inv(s)
    requires t in s.instance.userQueries && !s.instance.reading && s.abandoned
    ensures t in Run(s, steps).instance.userQueries && Completed(Run(s, steps).instance, t) == []
    decreases |steps|
  {
    if steps != [] {
      StepKeepsInv(s, steps[0]);
      WaitsForEver(Apply(s, steps[0]), steps[1..], t);
    }
  }

  lemma {:induction false} CompletedStays(s: System, steps: seq<Step>, t: Token)
    requires Legal(s, steps) && Inv(s) && Registered(s, t) && Completed(s.instance, t) != []
    ensures Registered(Run(s, steps), t) && Completed(Run(s, steps).instance, t) == Completed(s.instance, t)
    decreases |steps|
  {
    if steps != [] {
      StepKeepsInv(s, steps[0]);
      OnlyByReplyOrClose(s, steps[0], t);
      CompletedStays(Apply(s, steps[0]), steps[1..], t);
    }
  }

  /** Nobody closes the connection again, and no frame answers `t`. */
  predicate Ignored(steps: seq<Step>, t: Token) {
    forall i :: 0 <= i < |steps|
      ==> !steps[i].Close? && !(steps[i].Frame? && steps[i].t == t && Answers(steps[i].content))
  }

  /** The query of `t` is started when the connection is closing, and ignored from then on. */
  predicate LateAndIgnored(s: System, steps: seq<Step>, t: Token)
    requires Legal(s, steps)
    decreases |steps|
  {
    steps != [] &&
    if steps[0] == Start(t, false) then s.instance.closing && Ignored(steps[1..], t)
    else LateAndIgnored(Apply(s, steps[0]), steps[1..], t)
  }

  /** A query that waits on a closing connection is completed exactly if it is not ignored. */
  lemma {:induction false} WaitsIfIgnored(s: System, steps: seq<Step>, t: Token)
    requires Legal(s, steps) && Inv(s) && s.instance.closing && t in s.instance.userQueries
    ensures Completed(Run(s, steps).instance, t) == [] <==> Ignored(steps, t)
    decreases |steps|
  {
    if steps != [] {
      var u := Apply(s, steps[0]);
      StepKeepsInv(s, steps[0]);
      IgnoredFirst(steps, t);
      if Ignored(steps[..1], t) {
        WaitsIfIgnored(u, steps[1..], t);
      } else {
        assert Completed(u.instance, t) != [];
        CompletedStays(u, steps[1..], t);
      }
    }
  }

  lemma IgnoredFirst(steps: seq<Step>, t: Token)
    requires steps != []
    ensures Ignored(steps, t) <==> Ignored(steps[..1], t) && Ignored(steps[1..], t)
    ensures Ignored(steps[..1], t)
            <==> !steps[0].Close? && !(steps[0].Frame? && steps[0].t == t && Answers(steps[0].content))
  {
    assert forall i :: 1 <= i < |steps| ==> steps[i] == steps[1..][i - 1];
    assert forall i :: 0 <= i < |steps| - 1 ==> steps[1..][i] == steps[i + 1];
  }

  /** Whether a query is late is decided when it is started. */
  lemma {:induction false} LateStays(s: System, steps: seq<Step>, t: Token)
    requires Legal(s, steps) && Inv(s) && Registered(s, t)
    ensures Registered(Run(s, steps), t) && (t in Run(s, steps).late <==> t in s.late)
    decreases |steps|
  {
    if steps != [] {
      StepKeepsInv(s, steps[0]);
      LateStays(Apply(s, steps[0]), steps[1..], t);
    }
  }

  lemma {:induction false} UncompletedFrom(s: System, steps: seq<Step>, t: Token)
    requires Legal(s, steps) && Inv(s) && !Registered(s, t)
    requires Registered(Run(s, steps), t) && Run(s, steps).instance.closing
    ensures Completed(Run(s, steps).instance, t) == [] <==> LateAndIgnored(s, steps, t)
    decreases |steps|
  {
    var u := Apply(s, steps[0]);
    StepKeepsInv(s, steps[0]);
    if steps[0] == Start(t, false) {
      if s.instance.closing {
        WaitsIfIgnored(u, steps[1..], t);
      } else {
        RunKeepsInv(u, steps[1..]);
        LateStays(u, steps[1..], t);
      }
    } else {
      UncompletedFrom(u, steps[1..], t);
    }
  }

  /**
   * On a closing connection a query has not been completed if and only if it was started when the
   * connection was closing already and ignored since: a property of what happened, for every run.
   */
  lemma UncompletedExactly(steps: seq<Step>, t: Token)
    requires Legal(INITIAL, steps) && Registered(Run(INITIAL, steps), t) && Run(INITIAL, steps).instance.closing
    ensures Completed(Run(INITIAL, steps).instance, t) == [] <==> LateAndIgnored(INITIAL, steps, t)
  {
    UncompletedFrom(INITIAL, steps, t);
  }

  /**
   * Once the reader has returned and the caller has closed the connection, that decides it for ever: in
   * every continuation such a query stays uncompleted and every other one is completed exactly once.
   */
  lemma CompletedUnlessLate(steps: seq<Step>, more: seq<Step>, t: Token)
    requires Legal(INITIAL, steps) && Legal(Run(INITIAL, steps), more)
    requires var s := Run(INITIAL, steps); Registered(s, t) && !s.instance.reading && s.abandoned
    ensures var u := Run(Run(INITIAL, steps), more);
            && (Completed(u.instance, t) == [] <==> LateAndIgnored(INITIAL, steps, t))
            && (|Completed(u.instance, t)| == 1 <==> !LateAndIgnored(INITIAL, steps, t))
  {
    var s := Run(INITIAL, steps);
    RunKeepsInv(INITIAL, steps);
    UncompletedExactly(steps, t);
    if t in s.instance.userQueries {
      WaitsForEver(s, more, t);
    } else {
      CompletedStays(s, more, t);
    }
  }

  /** Such a query there is: made while the connection is open, started when it is closing. */
  lemma {:induction false} LateQueryWaitsForEver(more: seq<Step>)
    requires var s := Apply(Apply(Apply(Apply(INITIAL, Prepare), Close), Start(0, false)), EndOfStream); Legal(s, more)
    ensures Legal(INITIAL, [Prepare, Close, Start(0, false), EndOfStream])
    ensures var s := Apply(Apply(Apply(Apply(INITIAL, Prepare), Close), Start(0, false)), EndOfStream);
            Registered(s, 0) && Completed(Run(s, more).instance, 0) == []
  {
    var s1 := Apply(INITIAL, Prepare);
    var s2 := Apply(s1, Close);
    var s3 := Apply(s2, Start(0, false));
    var s4 := Apply(s3, EndOfStream);
    assert Legal(s3, [EndOfStream]);
    assert Legal(s2, [Start(0, false), EndOfStream]);
    assert Legal(s1, [Close, Start(0, false), EndOfStream]);
    StepKeepsInv(INITIAL, Prepare);
    StepKeepsInv(s1, Close);
    StepKeepsInv(s2, Start(0, false));
    StepKeepsInv(s3, EndOfStream);
    WaitsForEver(s4, more, 0);
  }
}
