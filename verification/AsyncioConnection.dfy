/**
 * The futures of `ConnectionInstance` in rethinkdb/asyncio_net/net_asyncio.py. What the event loop runs
 * without interruption is one step: the body of a query coroutine up to its `await`, the reader's work
 * on one frame, `close` up to its first `await`.
 */
module AsyncioConnection {
  type Token = nat

  /** How a future was completed: `set_result` in the first three cases, `set_exception` in the others */
  datatype Completion = WithValue | WithCursor | WithNone | WithServerError | WithClosed

  /**
   * A frame's content, as far as it matters. `Broken` does not decode; `Values` is an atom or server
   * info, which fails when it is empty; `Rows` makes a cursor; `Done` is WAIT_COMPLETE, `Refused` an
   * error response.
   */
  datatype Content = Broken | Values(empty: bool) | Rows | Done | Refused

  datatype Instance = Instance(
    userQueries: set<Token>,                      // `_user_queries`
    cursorCache: set<Token>,                      // `_cursor_cache`
    closing: bool,
    reading: bool,                                // `_reader` has not returned
    completions: map<Token, seq<Completion>>)     // what was done to the futures made so far

  /** What a reply that decodes and is not empty does to the future of its query */
  function Outcome(content: Content): Completion {
    match content
    case Values(_) => WithValue
    case Rows => WithCursor
    case Done => WithNone
    case _ => WithServerError
  }

  const CONNECTED := Instance({}, {}, false, true, map[])

  function Completed(i: Instance, t: Token): seq<Completion> {
    if t in i.completions then i.completions[t] else []
  }

  /** `set_result` or `set_exception` on the future of `t` */
  function Complete(i: Instance, t: Token, how: Completion): Instance {
    i.(completions := i.completions[t := Completed(i, t) + [how]])
  }

  /** `run_query` of a query that wants an answer */
  function Register(i: Instance, t: Token): Instance {
    i.(userQueries := i.userQueries + {t}, completions := i.completions[t := []])
  }

  /** `close` without `noreply_wait` */
  function CloseAll(i: Instance): Instance {
    Instance({}, {}, true, i.reading,
             map t | t in i.completions ::
               if t in i.userQueries then i.completions[t] + [WithClosed] else i.completions[t])
  }

  /** An exception in the reader, which also ends it */
  function ReaderFails(i: Instance): Instance {
    (if i.closing then i else CloseAll(i)).(reading := false)
  }

  /** The reader on one frame; `live` says whether the cursor it makes or extends is to hear more. */
  function Handle(i: Instance, t: Token, content: Content, live: bool): Instance {
    if t in i.cursorCache then
      if content.Broken? then ReaderFails(i)
      else if live then i
      else i.(cursorCache := i.cursorCache - {t})
    else if t in i.userQueries then
      match content
      case Broken => ReaderFails(i)
      case Values(empty) =>
        if empty then ReaderFails(i) else Complete(i, t, Outcome(content)).(userQueries := i.userQueries - {t})
      case Rows =>
        Complete(i, t, Outcome(content)).(userQueries := i.userQueries - {t},
                                          cursorCache := if live then i.cursorCache + {t} else i.cursorCache)
      case _ => Complete(i, t, Outcome(content)).(userQueries := i.userQueries - {t})
    else if !i.closing then
      ReaderFails(i)
    else
      i
  }

  class ConnectionInstance {
    var userQueries: set<Token>
    var cursorCache: set<Token>
    var closing: bool
    var reading: bool
    var completions: map<Token, seq<Completion>>

    constructor ()
      ensures View() == CONNECTED
    {
      userQueries, cursorCache, closing, reading, completions := {}, {}, false, true, map[];
    }

    function View(): Instance
      reads this
    {
      Instance(userQueries, cursorCache, closing, reading, completions)
    }

    /** Every query that waits has a future. */
    ghost predicate Valid()
      reads this
    {
      userQueries <= completions.Keys
    }

    method RunQuery(token: Token, noreply: bool)
      requires Valid()
      modifies this
      ensures Valid()
      ensures View() == if noreply then old(View()) else Register(old(View()), token)
    {
      if noreply {
        return;
      }
      completions := completions[token := []];
      userQueries := userQueries + {token};
    }

    method Set(token: Token, how: Completion)
      requires token in completions
      modifies this`completions
      ensures View() == Complete(old(View()), token, how)
      ensures completions == old(completions)[token := old(completions)[token] + [how]]
    {
      completions := completions[token := completions[token] + [how]];
    }

    /** The loop of `close` over the queries that wait */
    method SetAll()
      requires Valid()
      modifies this`completions
      ensures completions.Keys == old(completions).Keys
      ensures forall t :: t in completions ==>
                completions[t] == if t in userQueries then old(completions)[t] + [WithClosed] else old(completions)[t]
    {
      hide View, Complete;
      var left := userQueries;
      while left != {}
        invariant left <= userQueries
        invariant completions.Keys == old(completions).Keys
        invariant forall t :: t in completions ==>
                    completions[t] ==
                      if t in userQueries - left then old(completions)[t] + [WithClosed] else old(completions)[t]
        decreases |left|
      {
        var token :| token in left;
        Set(token, WithClosed);
        left := left - {token};
      }
    }

    method Close()
      requires Valid()
      modifies this
      ensures Valid()
      ensures View() == CloseAll(old(View()))
    {
      closing := true;
      SetAll();
      userQueries := {};
      cursorCache := {};
      assert completions == CloseAll(old(View())).completions;
    }

    method Fail()
      requires Valid()
      modifies this
      ensures Valid()
      ensures View() == ReaderFails(old(View()))
    {
      if !closing {
        Close();
      }
      reading := false;
    }

    method HandleFrame(token: Token, content: Content, live: bool)
      requires Valid() && reading
      modifies this
      ensures Valid()
      ensures View() == Handle(old(View()), token, content, live)
    {
      if token in cursorCache {
        if content.Broken? {
          Fail();
        } else if !live {
          cursorCache := cursorCache - {token};
        }
      } else if token in userQueries {
        if content.Broken? || (content.Values? && content.empty) {
          Fail();
          return;
        }
        if content.Rows? && live {
          cursorCache := cursorCache + {token};
        }
        Set(token, Outcome(content));
        userQueries := userQueries - {token};
      } else if !closing {
        Fail();
      }
    }
  }
}
